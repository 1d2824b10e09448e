/**
 * Serial runs of the operations that write findings, verdicts, servers and the frozen heartbeat,
 * under a clock that never goes back, and what holds over every such run. The bulk views acknowledge
 * by ids as well. The manual routes of one finding and deletions are not steps.
 */
module Lifecycle {
  import opened Models
  import opened HeartbeatAggregation
  import opened DailyRiskState
  import opened FindingsUpsert
  import opened FindingsIngest
  import opened FindingsIngestLaws
  import BulkAcknowledge
  import FindingGroupInheritance
  import FindingWriters

  datatype Step =
    | Ingest(serverId: int, entries: seq<Entry>, now: Time)
    | Acknowledge(selection: BulkAcknowledge.Selection, now: Time, userId: Option<int>)
    | AcknowledgeScope(scopeServerId: int, band: string, now: Time, userId: Option<int>)
    | Inherit(groupIds: Option<set<int>>, onServer: Option<int>, now: Time)
    | Finalize(now: Time)
    | Evaluate(key: EvaluationKey, evaluation: Evaluation, now: Time)
    | Regroup(ids: set<int>, newGroup: Option<int>, now: Time)
    | PreTriage(triagedServer: int, rate: Finding -> string, now: Time)
    | BackfillEpss(scores: map<string, real>, now: Time)
    | BackfillKev(catalog: set<string>, now: Time)
    | Retire(retiredServer: int, now: Time)
    | Revoke(revokedServer: int, now: Time)

  /** One operation; an ingest that the database refuses is rolled back. */
  function Next(db: Db, step: Step): (r: Db)
    requires Constraints(db.findings, db.nextFindingId)
    ensures Constraints(r.findings, r.nextFindingId)
  {
    match step
    case Ingest(serverId, entries, now) =>
      if ChunksDistinct(RowsOf(serverId, Accepted(entries))) then IngestDb(db, serverId, entries, now) else db
    case Acknowledge(selection, now, userId) =>
      var selected := BulkAcknowledge.Selected(db.findings, selection);
      db.(findings := BulkAcknowledge.Acknowledge(db.findings, selected, now, userId))
    case AcknowledgeScope(serverId, band, now, userId) =>
      var selected := BulkAcknowledge.ScopeSelected(db.findings, serverId, band);
      if IsActive(db.servers, serverId)
      then db.(findings := BulkAcknowledge.Acknowledge(db.findings, selected, now, userId))
      else db
    case Inherit(groupIds, serverId, now) =>
      db.(findings := FindingGroupInheritance.Inherit(db.findings, db.evaluations, groupIds, serverId, now))
    case Finalize(now) => FinalizeDb(db, now)
    case Evaluate(key, evaluation, now) => db.(evaluations := db.evaluations[key := evaluation])
    case Regroup(ids, newGroup, now) => db.(findings := FindingWriters.Regroup(db.findings, ids, newGroup))
    case PreTriage(serverId, rate, now) =>
      db.(findings := FindingWriters.PreTriage(db.findings, serverId, rate, now))
    case BackfillEpss(scores, now) => db.(findings := FindingWriters.BackfillEpss(db.findings, scores))
    case BackfillKev(catalog, now) => db.(findings := FindingWriters.BackfillKev(db.findings, catalog))
    case Retire(serverId, now) => FindingWriters.Retire(db, serverId, now)
    case Revoke(serverId, now) => FindingWriters.Revoke(db, serverId, now)
  }

  function Run(db: Db, steps: seq<Step>): (r: Db)
    requires Constraints(db.findings, db.nextFindingId)
    ensures Constraints(r.findings, r.nextFindingId)
  {
    if steps == [] then db else Next(Run(db, steps[..|steps| - 1]), steps[|steps| - 1])
  }

  /** The clock starts at `clock` and never goes back. */
  predicate Monotone(clock: Time, steps: seq<Step>) {
    && (forall n :: 0 <= n < |steps| ==> clock <= steps[n].now)
    && (forall m, n :: 0 <= m < n < |steps| ==> steps[m].now <= steps[n].now)
  }

  function ClockAfter(clock: Time, steps: seq<Step>): Time {
    if steps == [] then clock else steps[|steps| - 1].now
  }

  lemma MonotonePrefix(clock: Time, steps: seq<Step>, n: nat)
    requires Monotone(clock, steps) && n <= |steps|
    ensures Monotone(clock, steps[..n])
    ensures n < |steps| ==> ClockAfter(clock, steps[..n]) <= steps[n].now
  {}

  // ------------------------------------------------------------------ one step, one row

  /** What a step may do to the lifecycle of a stored row. */
  ghost predicate RowStep(before: Finding, after: Finding, now: Time) {
    && after.key == before.key
    && after.firstSeenAt == before.firstSeenAt
    && (match (before.status, after.status)
        case (Open, Open) => after.resolvedAt == before.resolvedAt
        case (Open, Acknowledged) => after.resolvedAt == before.resolvedAt
        case (Open, Resolved) => after.resolvedAt == Some(now)
        case (Acknowledged, Open) => false
        case (Acknowledged, Acknowledged) => after.resolvedAt == before.resolvedAt
        case (Acknowledged, Resolved) => after.resolvedAt == Some(now)
        case (Resolved, Open) => after.resolvedAt == None
        case (Resolved, Acknowledged) => false
        case (Resolved, Resolved) => after.resolvedAt == before.resolvedAt)
  }

  /** A row that a step inserts. */
  ghost predicate RowBorn(after: Finding, now: Time) {
    && after.firstSeenAt == now
    && (after.status == Open || after.status == Resolved)
    && after.resolvedAt == (if after.status == Open then None else Some(now))
  }

  ghost predicate RowsStep(before: FindingsTable, after: FindingsTable, now: Time) {
    && (forall i :: i in before ==> i in after && RowStep(before[i], after[i], now))
    && (forall i :: i in after && i !in before ==> RowBorn(after[i], now))
  }

  lemma TransitionIsRowStep(before: Finding, after: Finding, serverId: int, keys: set<ScanKey>, now: Time)
    requires Transition(before, after, serverId, keys, now)
    ensures RowStep(before, after, now)
  {}

  lemma InsertionIsRowBorn(after: Finding, serverId: int, keys: set<ScanKey>, now: Time)
    requires Insertion(after, serverId, keys, now)
    ensures RowBorn(after, now)
  {}

  lemma IngestRows(db: Db, serverId: int, entries: seq<Entry>, now: Time)
    requires Constraints(db.findings, db.nextFindingId)
    ensures RowsStep(db.findings, IngestDb(db, serverId, entries, now).findings, now)
  {
    var after := IngestDb(db, serverId, entries, now).findings;
    if entries == [] {
      EmptyScanChangesNothing(db.findings, db.nextFindingId, serverId, now);
      assert forall i :: i in db.findings ==> RowStep(db.findings[i], after[i], now);
    } else {
      IngestLaw(db.findings, db.nextFindingId, serverId, entries, now);
      hide Transition, Insertion, RowStep, RowBorn, RowsOf, Accepted;
      var keys := CurrentKeys(entries);
      forall i | i in db.findings
        ensures i in after && RowStep(db.findings[i], after[i], now)
      {
        TransitionIsRowStep(db.findings[i], after[i], serverId, keys, now);
      }
      forall i | i in after && i !in db.findings
        ensures RowBorn(after[i], now)
      {
        InsertionIsRowBorn(after[i], serverId, keys, now);
      }
    }
  }

  lemma NextRows(db: Db, step: Step)
    requires Constraints(db.findings, db.nextFindingId)
    ensures RowsStep(db.findings, Next(db, step).findings, step.now)
  {
    SameRows(db.findings, step.now);
    match step
    case Ingest(serverId, entries, now) =>
      hide IngestDb, RowsStep, Accepted, ChunksDistinct;
      IngestRows(db, serverId, entries, now);
    case Acknowledge(selection, now, userId) =>
      AcknowledgeRows(db.findings, BulkAcknowledge.Selected(db.findings, selection), now, userId);
      hide RowsStep, BulkAcknowledge.Acknowledge, BulkAcknowledge.Selected;
    case AcknowledgeScope(serverId, band, now, userId) =>
      AcknowledgeRows(db.findings, BulkAcknowledge.ScopeSelected(db.findings, serverId, band), now, userId);
      hide RowsStep, BulkAcknowledge.Acknowledge, BulkAcknowledge.ScopeSelected;
    case Inherit(groupIds, onServer, now) =>
      InheritRows(db.findings, db.evaluations, groupIds, onServer, now);
      hide RowsStep, FindingGroupInheritance.Inherit;
    case Finalize(now) =>
      hide RowsStep;
    case Evaluate(key, evaluation, now) =>
      hide RowsStep;
    case Regroup(ids, newGroup, now) =>
      RegroupRows(db.findings, ids, newGroup, now);
      hide RowsStep, FindingWriters.Regroup;
    case PreTriage(serverId, rate, now) =>
      PreTriageRows(db.findings, serverId, rate, now);
      hide RowsStep, FindingWriters.PreTriage;
    case BackfillEpss(scores, now) =>
      BackfillEpssRows(db.findings, scores, now);
      hide RowsStep, FindingWriters.BackfillEpss;
    case BackfillKev(catalog, now) =>
      BackfillKevRows(db.findings, catalog, now);
      hide RowsStep, FindingWriters.BackfillKev;
    case Retire(serverId, now) =>
      ResolveServerRows(db.findings, serverId, now);
      hide RowsStep, FindingWriters.ResolveServer;
    case Revoke(serverId, now) =>
      hide RowsStep;
  }

  lemma AcknowledgeRows(findings: FindingsTable, ids: set<int>, now: Time, userId: Option<int>)
    ensures RowsStep(findings, BulkAcknowledge.Acknowledge(findings, ids, now, userId), now)
  {}

  /** An acknowledgement by server and band moves the open findings of that band on that active server only. */
  lemma ScopeLeavesOthers(db: Db, step: Step, i: int)
    requires Constraints(db.findings, db.nextFindingId)
    requires step.AcknowledgeScope? && i in db.findings
    ensures
      var f, s := db.findings[i], step.scopeServerId;
      && i in Next(db, step).findings
      && (Next(db, step).findings[i] != f <==>
            && f.key.serverId == s && f.status == Open && f.riskBand == Some(step.band)
            && s in db.servers && db.servers[s] == Server(None, None))
  {}

  lemma InheritRows(findings: FindingsTable, evaluations: EvaluationsTable, groupIds: Option<set<int>>,
                    serverId: Option<int>, now: Time)
    ensures RowsStep(findings, FindingGroupInheritance.Inherit(findings, evaluations, groupIds, serverId, now), now)
  {}

  lemma RegroupRows(findings: FindingsTable, ids: set<int>, groupId: Option<int>, now: Time)
    ensures RowsStep(findings, FindingWriters.Regroup(findings, ids, groupId), now)
  {}

  lemma PreTriageRows(findings: FindingsTable, serverId: int, rate: Finding -> string, now: Time)
    ensures RowsStep(findings, FindingWriters.PreTriage(findings, serverId, rate, now), now)
  {}

  lemma BackfillEpssRows(findings: FindingsTable, scores: map<string, real>, now: Time)
    ensures RowsStep(findings, FindingWriters.BackfillEpss(findings, scores), now)
  {}

  lemma BackfillKevRows(findings: FindingsTable, catalog: set<string>, now: Time)
    ensures RowsStep(findings, FindingWriters.BackfillKev(findings, catalog), now)
  {}

  lemma ResolveServerRows(findings: FindingsTable, serverId: int, now: Time)
    ensures RowsStep(findings, FindingWriters.ResolveServer(findings, serverId, now), now)
  {}

  lemma SameRows(findings: FindingsTable, now: Time)
    ensures RowsStep(findings, findings, now)
  {}

  // ------------------------------------------------------------------ the run invariant

  /** A resolution time is set exactly on resolved findings. */
  ghost predicate ResolvedAtMatches(findings: FindingsTable) {
    forall i :: i in findings ==> (findings[i].resolvedAt.Some? <==> findings[i].status == Resolved)
  }

  /** Only past days are frozen. */
  ghost predicate FrozenInPast(db: Db, clock: Time) {
    forall k :: k in db.frozen ==> k.day < DayOf(clock)
  }

  /** A frozen cell knows whether its day had a scan. */
  ghost predicate FrozenScansMatch(db: Db) {
    forall k :: k in db.frozen ==> (db.frozen[k].hadScan <==> HadScan(db.scans, k.serverId, k.day))
  }

  ghost predicate Inv(db: Db, clock: Time) {
    && Constraints(db.findings, db.nextFindingId)
    && ResolvedAtMatches(db.findings)
    && NoFuture(db, clock)
    && FrozenInPast(db, clock)
    && FrozenScansMatch(db)
  }

  lemma RowsKeepInvariant(before: FindingsTable, after: FindingsTable, clock: Time, now: Time)
    requires RowsStep(before, after, now) && clock <= now
    requires ResolvedAtMatches(before)
    requires forall i :: i in before ==> before[i].firstSeenAt <= clock
    requires forall i :: i in before && before[i].resolvedAt.Some? ==> before[i].resolvedAt.value <= clock
    ensures ResolvedAtMatches(after)
    ensures forall i :: i in after ==> after[i].firstSeenAt <= now
    ensures forall i :: i in after && after[i].resolvedAt.Some? ==> after[i].resolvedAt.value <= now
  {
    forall i | i in after
      ensures after[i].resolvedAt.Some? <==> after[i].status == Resolved
      ensures after[i].firstSeenAt <= now && (after[i].resolvedAt.Some? ==> after[i].resolvedAt.value <= now)
    {
      if i in before {
        assert RowStep(before[i], after[i], now);
      }
    }
  }

  lemma DayOfMonotone(a: Time, b: Time)
    requires a <= b
    ensures DayOf(a) <= DayOf(b)
  {}

  /** A step adds scans of today at most, so the scans of frozen days stay as they are. */
  lemma NextFrozen(db: Db, step: Step, clock: Time)
    requires Inv(db, clock) && clock <= step.now
    ensures FrozenInPast(Next(db, step), step.now)
    ensures FrozenScansMatch(Next(db, step))
    ensures forall k :: k in db.frozen ==> k in Next(db, step).frozen && Next(db, step).frozen[k] == db.frozen[k]
  {
    DayOfMonotone(clock, step.now);
    NextScans(db, step);
    NextFreezes(db, step);
    hide Next, FinalizeDb, FrozenCell, HadScan, Constraints;
    var after := Next(db, step);
    forall k | k in after.frozen && k !in db.frozen
      ensures k.day < DayOf(step.now)
      ensures after.frozen[k].hadScan <==> HadScan(db.scans, k.serverId, k.day)
    {
      FrozenCellHadScan(db, k);
    }
    if after.scans != db.scans {
      HadScanSnoc(db.scans, Scan(step.serverId, step.now), step.serverId);
      forall k | k in db.frozen
        ensures HadScan(after.scans, k.serverId, k.day) <==> HadScan(db.scans, k.serverId, k.day)
      {
        HadScanSnoc(db.scans, Scan(step.serverId, step.now), k.serverId);
      }
    }
  }

  /** Only a finalize step adds cells, past ones with the value of the formula, and it adds no scan. */
  lemma NextFreezes(db: Db, step: Step)
    requires Constraints(db.findings, db.nextFindingId)
    ensures !step.Finalize? ==> Next(db, step).frozen == db.frozen
    ensures step.Finalize? ==> Next(db, step).scans == db.scans
    ensures forall k :: k in db.frozen ==> k in Next(db, step).frozen && Next(db, step).frozen[k] == db.frozen[k]
    ensures forall k :: k in Next(db, step).frozen && k !in db.frozen ==>
              && k.day < DayOf(step.now)
              && Next(db, step).frozen[k] == FrozenCell(db.findings, db.scans, k.serverId, k.day)
  {
    hide FrozenCell, IngestFindings, Accepted, ChunksDistinct, DayOf;
  }

  lemma FrozenCellHadScan(db: Db, k: CellKey)
    ensures FrozenCell(db.findings, db.scans, k.serverId, k.day).hadScan == HadScan(db.scans, k.serverId, k.day)
  {}

  lemma InvNext(db: Db, step: Step, clock: Time)
    requires Inv(db, clock) && clock <= step.now
    ensures Inv(Next(db, step), step.now)
  {
    NextRows(db, step);
    NextFrozen(db, step, clock);
    NextScans(db, step);
    hide Next, RowsStep, HadScan;
    RowsKeepInvariant(db.findings, Next(db, step).findings, clock, step.now);
  }

  lemma NextScans(db: Db, step: Step)
    requires Constraints(db.findings, db.nextFindingId)
    ensures Next(db, step).scans == db.scans || Next(db, step).scans == db.scans + [Scan(step.serverId, step.now)]
    ensures Next(db, step).servers.Keys == db.servers.Keys
  {}

  /** The invariant holds after every run. */
  lemma {:induction false} RunKeepsInvariant(db: Db, steps: seq<Step>, clock: Time)
    requires Inv(db, clock) && Monotone(clock, steps)
    ensures Inv(Run(db, steps), ClockAfter(clock, steps))
  {
    if steps != [] {
      hide Inv, Next;
      var n := |steps| - 1;
      MonotonePrefix(clock, steps, n);
      RunKeepsInvariant(db, steps[..n], clock);
      InvNext(Run(db, steps[..n]), steps[n], ClockAfter(clock, steps[..n]));
    }
  }

  // ------------------------------------------------------------------ identity and lifecycle over runs

  /** Over a run no finding disappears, changes its natural key or its first-seen time. */
  lemma {:induction false} RunKeepsIdentity(db: Db, steps: seq<Step>)
    requires Constraints(db.findings, db.nextFindingId)
    ensures forall i :: i in db.findings ==>
      && i in Run(db, steps).findings
      && Run(db, steps).findings[i].key == db.findings[i].key
      && Run(db, steps).findings[i].firstSeenAt == db.findings[i].firstSeenAt
  {
    if steps != [] {
      var n := |steps| - 1;
      var before := Run(db, steps[..n]);
      RunKeepsIdentity(db, steps[..n]);
      NextRows(before, steps[n]);
      hide Next;
      forall i | i in db.findings
        ensures i in Run(db, steps).findings
        ensures Run(db, steps).findings[i].key == db.findings[i].key
        ensures Run(db, steps).findings[i].firstSeenAt == db.findings[i].firstSeenAt
      {
        assert i in before.findings && RowStep(before.findings[i], Run(db, steps).findings[i], steps[n].now);
      }
    }
  }

  ghost predicate HasStatus(db: Db, steps: seq<Step>, n: nat, i: int, status: FindingStatus)
    requires Constraints(db.findings, db.nextFindingId) && n <= |steps|
  {
    i in Run(db, steps[..n]).findings && Run(db, steps[..n]).findings[i].status == status
  }

  lemma OpenComesFromOpenOrResolved(db: Db, step: Step, i: int)
    requires Constraints(db.findings, db.nextFindingId) && i in db.findings
    ensures i in Next(db, step).findings
    ensures Next(db, step).findings[i].status == Open ==> db.findings[i].status != Acknowledged
  {
    NextRows(db, step);
    hide Next;
    assert RowStep(db.findings[i], Next(db, step).findings[i], step.now);
  }

  /**
   * An acknowledged finding that is open after any further run was resolved in between. The run
   * may start in any state, so this covers any two moments of a longer run.
   */
  lemma {:induction false} AcknowledgedReopensOnlyViaResolved(db: Db, steps: seq<Step>, i: int)
    requires Constraints(db.findings, db.nextFindingId)
    requires i in db.findings && db.findings[i].status == Acknowledged
    ensures i in Run(db, steps).findings
    ensures Run(db, steps).findings[i].status == Open ==>
      exists r: nat :: 0 < r < |steps| && HasStatus(db, steps, r, i, Resolved)
  {
    if steps != [] {
      hide *;
      var n := |steps| - 1;
      var before := Run(db, steps[..n]);
      AcknowledgedReopensOnlyViaResolved(db, steps[..n], i);
      RunLast(db, steps);
      OpenComesFromOpenOrResolved(before, steps[n], i);
      HasStatusAt(db, steps, n, n, i);
      if before.findings[i].status == Open {
        var r: nat :| 0 < r < n && HasStatus(db, steps[..n], r, i, Resolved);
        HasStatusAt(db, steps, n, r, i);
      }
      assert n == 0 ==> steps[..n] == [];
      RunNothing(db);
    } else {
      RunNothing(db);
    }
  }

  lemma RunNothing(db: Db)
    requires Constraints(db.findings, db.nextFindingId)
    ensures Run(db, []) == db
  {}

  lemma RunLast(db: Db, steps: seq<Step>)
    requires Constraints(db.findings, db.nextFindingId) && steps != []
    ensures Run(db, steps) == Next(Run(db, steps[..|steps| - 1]), steps[|steps| - 1])
  {}

  /** The status after `r` steps is the same in a run and in a longer one. */
  lemma HasStatusAt(db: Db, steps: seq<Step>, n: nat, r: nat, i: int)
    requires Constraints(db.findings, db.nextFindingId) && r <= n <= |steps|
    ensures HasStatus(db, steps, r, i, Resolved) <==> HasStatus(db, steps[..n], r, i, Resolved)
    ensures r == n ==>
      (HasStatus(db, steps, n, i, Resolved) <==>
       (i in Run(db, steps[..n]).findings && Run(db, steps[..n]).findings[i].status == Resolved))
  {
    hide Run, Constraints;
    assert steps[..n][..r] == steps[..r];
  }

  lemma {:induction false} RunSplit(db: Db, a: seq<Step>, b: seq<Step>)
    requires Constraints(db.findings, db.nextFindingId)
    ensures Run(db, a + b) == Run(Run(db, a), b)
  {
    hide Next;
    if b == [] {
      assert a + b == a;
    } else {
      RunSplit(db, a, b[..|b| - 1]);
      assert (a + b)[..|a + b| - 1] == a + b[..|b| - 1];
    }
  }

  // ------------------------------------------------------------------ the frozen table over runs

  /** A frozen cell never changes. */
  lemma {:induction false} FrozenForever(db: Db, steps: seq<Step>, clock: Time)
    requires Inv(db, clock) && Monotone(clock, steps)
    ensures forall k :: k in db.frozen ==> k in Run(db, steps).frozen && Run(db, steps).frozen[k] == db.frozen[k]
  {
    if steps != [] {
      hide Next, Inv;
      var n := |steps| - 1;
      MonotonePrefix(clock, steps, n);
      FrozenForever(db, steps[..n], clock);
      RunKeepsInvariant(db, steps[..n], clock);
      NextFrozen(Run(db, steps[..n]), steps[n], ClockAfter(clock, steps[..n]));
    }
  }

  /** Step `n` of the run froze the cell, with the value the live formula had in the state before that step. */
  ghost predicate FrozenAt(db: Db, steps: seq<Step>, n: nat, k: CellKey, cell: Cell)
    requires Constraints(db.findings, db.nextFindingId) && n < |steps|
  {
    var before := Run(db, steps[..n]);
    && steps[n].Finalize?
    && k !in before.frozen
    && k.day < DayOf(steps[n].now)
    && cell == FrozenCell(before.findings, before.scans, k.serverId, k.day)
  }

  /** Every cell that a run adds to the frozen table was computed live at its freezing step. */
  lemma {:induction false} FrozenWithLiveValue(db: Db, steps: seq<Step>, clock: Time, k: CellKey)
    requires Inv(db, clock) && Monotone(clock, steps)
    requires k in Run(db, steps).frozen && k !in db.frozen
    ensures exists n: nat :: n < |steps| && FrozenAt(db, steps, n, k, Run(db, steps).frozen[k])
  {
    hide Next, NoFuture, ResolvedAtMatches, FrozenScansMatch, Constraints, FrozenCell;
    var n := |steps| - 1;
    var before := Run(db, steps[..n]);
    MonotonePrefix(clock, steps, n);
    RunKeepsInvariant(db, steps[..n], clock);
    NextFrozen(before, steps[n], ClockAfter(clock, steps[..n]));
    if k in before.frozen {
      FrozenWithLiveValue(db, steps[..n], clock, k);
      var m: nat :| m < n && FrozenAt(db, steps[..n], m, k, before.frozen[k]);
      assert steps[..n][..m] == steps[..m];
      assert FrozenAt(db, steps, m, k, Run(db, steps).frozen[k]);
    } else {
      FrozenByThisStep(before, steps[n], k);
      assert FrozenAt(db, steps, n, k, Run(db, steps).frozen[k]);
    }
  }

  lemma FrozenByThisStep(db: Db, step: Step, k: CellKey)
    requires Constraints(db.findings, db.nextFindingId)
    requires k in Next(db, step).frozen && k !in db.frozen
    ensures step.Finalize? && k.day < DayOf(step.now)
    ensures Next(db, step).frozen[k] == FrozenCell(db.findings, db.scans, k.serverId, k.day)
  {
    NextFreezes(db, step);
    hide Next, FrozenCell, DayOf;
  }

  lemma WindowComplete(db: Db, steps: seq<Step>, n: nat, s: int, d: Day)
    requires Constraints(db.findings, db.nextFindingId)
    requires n < |steps| && steps[n].Finalize?
    requires s in db.servers && DayOf(steps[n].now) - FINALIZE_WINDOW_DAYS <= d < DayOf(steps[n].now)
    ensures CellKey(s, d) in Run(db, steps[..n + 1]).frozen
  {
    hide FinalizeDb, DayOf, Constraints, Run;
    assert steps[..n + 1][..n] == steps[..n];
    RunLast(db, steps[..n + 1]);
    RunServers(db, steps[..n]);
    FinalizeCompletes(Run(db, steps[..n]), steps[n].now, steps[n].now);
  }

  /** After a finalize step the whole window is frozen, and stays so for the rest of the run. */
  lemma WindowStaysComplete(db: Db, steps: seq<Step>, clock: Time, n: nat, s: int, d: Day)
    requires Inv(db, clock) && Monotone(clock, steps)
    requires n < |steps| && steps[n].Finalize?
    requires s in db.servers && DayOf(steps[n].now) - FINALIZE_WINDOW_DAYS <= d < DayOf(steps[n].now)
    ensures CellKey(s, d) in Run(db, steps).frozen
  {
    WindowComplete(db, steps, n, s, d);
    FrozenStays(db, steps, clock, n + 1, CellKey(s, d));
  }

  lemma FrozenStays(db: Db, steps: seq<Step>, clock: Time, n: nat, k: CellKey)
    requires Inv(db, clock) && Monotone(clock, steps)
    requires n <= |steps| && k in Run(db, steps[..n]).frozen
    ensures k in Run(db, steps).frozen && Run(db, steps).frozen[k] == Run(db, steps[..n]).frozen[k]
  {
    hide Run, NoFuture, ResolvedAtMatches, FrozenInPast, FrozenScansMatch, Constraints;
    var head, tail := steps[..n], steps[n..];
    MonotonePrefix(clock, steps, n);
    MonotoneSuffix(clock, steps, n);
    assert steps == head + tail;
    RunSplit(db, head, tail);
    RunKeepsInvariant(db, head, clock);
    FrozenForever(Run(db, head), tail, ClockAfter(clock, head));
  }

  lemma MonotoneSuffix(clock: Time, steps: seq<Step>, n: nat)
    requires Monotone(clock, steps) && n <= |steps|
    ensures Monotone(ClockAfter(clock, steps[..n]), steps[n..])
  {}

  lemma {:induction false} RunServers(db: Db, steps: seq<Step>)
    requires Constraints(db.findings, db.nextFindingId)
    ensures Run(db, steps).servers.Keys == db.servers.Keys
  {
    if steps != [] {
      RunServers(db, steps[..|steps| - 1]);
      NextScans(Run(db, steps[..|steps| - 1]), steps[|steps| - 1]);
    }
  }

  /** Whatever the run does later, a frozen cell still says whether its day had a scan. */
  lemma FrozenScansForever(db: Db, steps: seq<Step>, clock: Time, k: CellKey)
    requires Inv(db, clock) && Monotone(clock, steps)
    requires k in db.frozen
    ensures k in Run(db, steps).frozen
    ensures Run(db, steps).frozen[k].hadScan <==> HadScan(Run(db, steps).scans, k.serverId, k.day)
  {
    RunKeepsInvariant(db, steps, clock);
    FrozenForever(db, steps, clock);
  }

  /**
   * Why the past is frozen: a step at `now` changes the presence of a stored finding at an earlier
   * moment exactly when it reopens a finding that had been resolved by that moment.
   */
  lemma PastChangesOnlyByReopening(db: Db, step: Step, clock: Time, i: int, end: Time)
    requires Inv(db, clock) && clock <= step.now && end < step.now
    requires i in db.findings
    ensures
      var before, after := db.findings, Next(db, step).findings;
      && i in after
      && (Present(before[i], end) != Present(after[i], end)
          <==> i in Reopened(before, after) && before[i].firstSeenAt <= end && before[i].resolvedAt.value <= end)
  {
    NextRows(db, step);
    hide Next;
    assert RowStep(db.findings[i], Next(db, step).findings[i], step.now);
  }

  /** A finding that a step inserts was not present at any earlier moment. */
  lemma NewFindingsHaveNoPast(db: Db, step: Step, i: int, end: Time)
    requires Constraints(db.findings, db.nextFindingId) && end < step.now
    requires i in Next(db, step).findings && i !in db.findings
    ensures !Present(Next(db, step).findings[i], end)
  {
    NextRows(db, step);
  }

  // ------------------------------------------------------------------ a frozen cell and the later tables

  /** At the end of the day the same findings of the server are present, with the same columns that a cell shows. */
  ghost predicate SameView(before: FindingsTable, after: FindingsTable, serverId: int, end: Time) {
    && PresentIds(before, serverId, end) == PresentIds(after, serverId, end)
    && forall i :: i in PresentIds(before, serverId, end) ==> SameCellColumns(before[i], after[i])
  }

  predicate SameCellColumns(f: Finding, g: Finding) {
    f.facts.severity == g.facts.severity && f.facts.isKev == g.facts.isKev && f.riskBand == g.riskBand
  }

  /** The ranks and the KEV findings of present findings are read from the columns of the view alone. */
  lemma ViewFixesRanks(before: FindingsTable, after: FindingsTable, present: set<int>, end: Time)
    requires forall i :: i in present ==> i in before && Present(before[i], end)
    requires forall i :: i in present ==> i in after && Present(after[i], end) && SameCellColumns(before[i], after[i])
    ensures BandRanks(before, present, end) == BandRanks(after, present, end)
    ensures SeverityRanks(before, present, end) == SeverityRanks(after, present, end)
    ensures (set i | i in present && before[i].facts.isKev) == (set i | i in present && after[i].facts.isKev)
  {
    hide Present, BandRankExpr, SeverityRankExpr;
    assert forall i :: i in present ==> SameCellColumns(before[i], after[i]);
    assert forall i :: i in present ==> before[i].facts.isKev == after[i].facts.isKev;
    assert BandRanks(before, present, end) == set i | i in present :: BandRankExpr(before[i].riskBand);
    assert BandRanks(after, present, end) == set i | i in present :: BandRankExpr(after[i].riskBand);
    assert SeverityRanks(before, present, end) == set i | i in present :: SeverityRankExpr(before[i].facts.severity);
    assert SeverityRanks(after, present, end) == set i | i in present :: SeverityRankExpr(after[i].facts.severity);
  }

  lemma CellShowsView(before: Db, after: Db, serverId: int, day: Day)
    requires SameView(before.findings, after.findings, serverId, EndOfDay(day))
    requires HadScan(before.scans, serverId, day) <==> HadScan(after.scans, serverId, day)
    ensures FrozenCell(before.findings, before.scans, serverId, day)
         == FrozenCell(after.findings, after.scans, serverId, day)
  {
    hide HadScan, EndOfDay, Present, SameCellColumns, BandRanks, SeverityRanks, MaxRank;
    hide RankToBandExpr, RankToSeverityExpr;
    var end := EndOfDay(day);
    var present := PresentIds(before.findings, serverId, end);
    assert forall i :: i in PresentIds(after.findings, serverId, end) ==> Present(after.findings[i], end);
    ViewFixesRanks(before.findings, after.findings, present, end);
  }

  /**
   * A cell that was right when the run began is still the formula of the later tables, as long as
   * the run leaves the view of its day alone. Apart from reopening, the view drifts when an upsert
   * or an inheritance overwrites severity, KEV flag or band of a finding that was present.
   */
  lemma FrozenStaysCurrent(db: Db, steps: seq<Step>, clock: Time, k: CellKey)
    requires Inv(db, clock) && Monotone(clock, steps)
    requires k in db.frozen && db.frozen[k] == FrozenCell(db.findings, db.scans, k.serverId, k.day)
    ensures k in Run(db, steps).frozen
    ensures SameView(db.findings, Run(db, steps).findings, k.serverId, EndOfDay(k.day)) ==>
              Run(db, steps).frozen[k] == FrozenCell(Run(db, steps).findings, Run(db, steps).scans, k.serverId, k.day)
  {
    FrozenScansForever(db, steps, clock, k);
    FrozenForever(db, steps, clock);
    hide Run, SameView, FrozenCell, HadScan, NoFuture, ResolvedAtMatches, FrozenInPast, Constraints;
    if SameView(db.findings, Run(db, steps).findings, k.serverId, EndOfDay(k.day)) {
      CellShowsView(db, Run(db, steps), k.serverId, k.day);
    }
  }
}
