/**
 * The two routes that set the status of one finding by hand. Neither looks at the status before,
 * and neither touches `resolved_at`; the bulk routes and the ingest do both.
 */
module ManualTriage {
  import opened Models
  import opened HeartbeatAggregation
  import opened Lifecycle

  /** The route `acknowledge`; an unknown id is a 404. */
  function AcknowledgeOne(findings: FindingsTable, id: int, now: Time, userId: Option<int>): (r: FindingsTable)
    ensures forall n :: Constraints(findings, n) ==> Constraints(r, n)
  {
    if id !in findings then findings
    else
      findings[id := findings[id].(status := Acknowledged, acknowledgedAt := Some(now), acknowledgedBy := userId)]
  }

  /** The route `reopen`. */
  function ReopenOne(findings: FindingsTable, id: int): (r: FindingsTable)
    ensures forall n :: Constraints(findings, n) ==> Constraints(r, n)
  {
    if id !in findings then findings
    else findings[id := findings[id].(status := Open, acknowledgedAt := None, acknowledgedBy := None)]
  }

  /** Either route keeps the invariant of the runs if and only if the finding is not RESOLVED. */
  lemma ManualKeepsInvariantIff(db: Db, clock: Time, id: int, now: Time, userId: Option<int>)
    requires Inv(db, clock) && id in db.findings
    ensures Inv(db.(findings := AcknowledgeOne(db.findings, id, now, userId)), clock)
       <==> db.findings[id].status != Resolved
    ensures Inv(db.(findings := ReopenOne(db.findings, id)), clock) <==> db.findings[id].status != Resolved
  {
    StatusAloneMatches(db, AcknowledgeOne(db.findings, id, now, userId), clock, id);
    StatusAloneMatches(db, ReopenOne(db.findings, id), clock, id);
    hide Inv;
  }

  /** Only the status and the acknowledgement columns of one row differ. */
  lemma StatusAloneMatches(db: Db, after: FindingsTable, clock: Time, id: int)
    requires Inv(db, clock) && id in db.findings && Constraints(after, db.nextFindingId)
    requires after.Keys == db.findings.Keys
    requires forall i :: i in after && i != id ==> after[i] == db.findings[i]
    requires after[id].status != Resolved
    requires after[id].firstSeenAt == db.findings[id].firstSeenAt
    requires after[id].resolvedAt == db.findings[id].resolvedAt
    ensures Inv(db.(findings := after), clock) <==> db.findings[id].status != Resolved
  {
    hide Constraints, FrozenInPast, FrozenScansMatch;
    FrozenPartAlone(db, after, clock);
    if db.findings[id].status == Resolved {
      assert !ResolvedAtMatches(after);
    }
  }

  lemma FrozenPartAlone(db: Db, after: FindingsTable, clock: Time)
    requires FrozenInPast(db, clock) && FrozenScansMatch(db)
    ensures FrozenInPast(db.(findings := after), clock) && FrozenScansMatch(db.(findings := after))
  {}

  /** A live finding that still carries an old resolution time keeps it until it is resolved again. */
  lemma {:induction false} StaleTimeStays(db: Db, steps: seq<Step>, i: int, t: Time)
    requires Constraints(db.findings, db.nextFindingId)
    requires i in db.findings && db.findings[i].status != Resolved && db.findings[i].resolvedAt == Some(t)
    requires forall n: nat :: n <= |steps| ==> !HasStatus(db, steps, n, i, Resolved)
    ensures i in Run(db, steps).findings && Run(db, steps).findings[i].resolvedAt == Some(t)
    ensures Run(db, steps).findings[i].status != Resolved
  {
    hide *;
    if steps == [] {
      RunNothing(db);
    } else {
      var n := |steps| - 1;
      var before := Run(db, steps[..n]);
      forall m: nat | m <= n
        ensures !HasStatus(db, steps[..n], m, i, Resolved)
      {
        HasStatusAt(db, steps, n, m, i);
      }
      StaleTimeStays(db, steps[..n], i, t);
      RunLast(db, steps);
      NextRows(before, steps[n]);
      StaleStep(before, steps[n], i, t);
      assert steps[..n + 1] == steps;
      HasStatusAt(db, steps, n + 1, n + 1, i);
    }
  }

  lemma StaleStep(db: Db, step: Step, i: int, t: Time)
    requires Constraints(db.findings, db.nextFindingId)
    requires i in db.findings && db.findings[i].status != Resolved && db.findings[i].resolvedAt == Some(t)
    ensures i in Next(db, step).findings
    ensures Next(db, step).findings[i].status != Resolved ==> Next(db, step).findings[i].resolvedAt == Some(t)
  {
    NextRows(db, step);
    hide Next;
    assert RowStep(db.findings[i], Next(db, step).findings[i], step.now);
  }

  /**
   * What the broken invariant costs: a resolved finding that is reopened by hand is open, but no
   * heartbeat of its old resolution time or later counts it as present, in whatever run follows,
   * until it has been resolved once more.
   */
  lemma ReopenedByHandIsAbsent(db: Db, steps: seq<Step>, clock: Time, id: int, end: Time)
    requires Inv(db, clock) && id in db.findings && db.findings[id].status == Resolved
    requires
      var reopened := db.(findings := ReopenOne(db.findings, id));
      forall n: nat :: n <= |steps| ==> !HasStatus(reopened, steps, n, id, Resolved)
    requires db.findings[id].resolvedAt.Some? ==> db.findings[id].resolvedAt.value <= end
    ensures
      var after := Run(db.(findings := ReopenOne(db.findings, id)), steps).findings;
      id in after && after[id].status != Resolved && !Present(after[id], end)
  {
    hide *;
    ResolvedHasTime(db, clock, id);
    ReopenedRow(db.findings, id);
    StaleTimeStays(db.(findings := ReopenOne(db.findings, id)), steps, id, db.findings[id].resolvedAt.value);
    AbsentFrom(Run(db.(findings := ReopenOne(db.findings, id)), steps).findings[id], end);
  }

  lemma ResolvedHasTime(db: Db, clock: Time, id: int)
    requires Inv(db, clock) && id in db.findings
    ensures Constraints(db.findings, db.nextFindingId)
    ensures db.findings[id].resolvedAt.Some? <==> db.findings[id].status == Resolved
  {}

  lemma ReopenedRow(findings: FindingsTable, id: int)
    requires id in findings
    ensures id in ReopenOne(findings, id) && ReopenOne(findings, id)[id].status == Open
    ensures ReopenOne(findings, id)[id].resolvedAt == findings[id].resolvedAt
  {}

  lemma AbsentFrom(f: Finding, end: Time)
    requires f.resolvedAt.Some? && f.resolvedAt.value <= end
    ensures !Present(f, end)
  {}
}
