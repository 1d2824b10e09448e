/** Where the risk bands with source `llm` come from, over whole runs. */
module VerdictRuns {
  import opened Models
  import opened FindingsUpsert
  import opened FindingsIngest
  import opened FindingsIngestLaws
  import FindingGroupInheritance
  import opened DailyRiskState
  import opened Lifecycle
  import BulkAcknowledge
  import FindingWriters

  predicate FromModel(f: Finding) {
    f.riskBandSource == Some("llm")
  }

  /** The finding has a verdict for its group, server and lane, and `band` is the verdict's. */
  predicate IsVerdict(f: Finding, evaluations: EvaluationsTable, band: Option<string>) {
    && FindingGroupInheritance.KeyOf(f).Some? && FindingGroupInheritance.KeyOf(f).value in evaluations
    && band == Some(evaluations[FindingGroupInheritance.KeyOf(f).value].riskBand)
  }

  /** What a step may do to the band of a stored row. */
  ghost predicate BandStep(before: Finding, after: Finding, evaluations: EvaluationsTable, step: Step) {
    || (after.riskBand == before.riskBand && after.riskBandSource == before.riskBandSource)
    || (step.Inherit? && FromModel(after) && IsVerdict(before, evaluations, after.riskBand))
    || (step.PreTriage? && !FromModel(before) && !FromModel(after))
  }

  ghost predicate BandsStep(before: FindingsTable, after: FindingsTable, evaluations: EvaluationsTable, step: Step) {
    && (forall i :: i in before ==> i in after && BandStep(before[i], after[i], evaluations, step))
    && (forall i :: i in after && i !in before ==> !FromModel(after[i]))
  }

  lemma TransitionKeepsBand(before: Finding, after: Finding, serverId: int, keys: set<ScanKey>, now: Time)
    requires Transition(before, after, serverId, keys, now)
    ensures after.riskBand == before.riskBand && after.riskBandSource == before.riskBandSource
  {}

  lemma InsertionHasNoBand(after: Finding, serverId: int, keys: set<ScanKey>, now: Time)
    requires Insertion(after, serverId, keys, now)
    ensures !FromModel(after)
  {}

  lemma IngestBands(db: Db, step: Step)
    requires Constraints(db.findings, db.nextFindingId) && step.Ingest?
    ensures BandsStep(db.findings, IngestDb(db, step.serverId, step.entries, step.now).findings, db.evaluations, step)
  {
    var serverId, entries, now := step.serverId, step.entries, step.now;
    var after := IngestDb(db, serverId, entries, now).findings;
    if entries == [] {
      EmptyScanChangesNothing(db.findings, db.nextFindingId, serverId, now);
      hide IngestFindings;
    } else {
      IngestLaw(db.findings, db.nextFindingId, serverId, entries, now);
      hide Transition, Insertion, FromModel, RowsOf, Accepted, IngestFindings, IsVerdict;
      forall i | i in db.findings
        ensures i in after && BandStep(db.findings[i], after[i], db.evaluations, step)
      {
        TransitionKeepsBand(db.findings[i], after[i], serverId, CurrentKeys(entries), now);
      }
      forall i | i in after && i !in db.findings
        ensures !FromModel(after[i])
      {
        InsertionHasNoBand(after[i], serverId, CurrentKeys(entries), now);
      }
    }
  }

  lemma NextBands(db: Db, step: Step)
    requires Constraints(db.findings, db.nextFindingId)
    ensures BandsStep(db.findings, Next(db, step).findings, db.evaluations, step)
  {
    hide IngestDb, ChunksDistinct, Accepted, IsVerdict, BandStep;
    if step.Ingest? {
      IngestBands(db, step);
      SameBands(db.findings, db.findings, db.evaluations, step);
    } else if step.Inherit? {
      InheritBands(db, step);
    } else if step.PreTriage? {
      PreTriageBands(db, step);
    } else {
      NextLeavesBands(db, step);
      hide Next;
      SameBands(db.findings, Next(db, step).findings, db.evaluations, step);
    }
  }

  lemma SameBands(before: FindingsTable, after: FindingsTable, evaluations: EvaluationsTable, step: Step)
    requires before.Keys == after.Keys
    requires forall i :: i in before ==> SameBand(before[i], after[i])
    ensures BandsStep(before, after, evaluations, step)
  {
    assert forall i :: i in after <==> i in before;
  }

  predicate SameBand(before: Finding, after: Finding) {
    after.riskBand == before.riskBand && after.riskBandSource == before.riskBandSource
  }

  lemma NextLeavesBands(db: Db, step: Step)
    requires Constraints(db.findings, db.nextFindingId)
    requires !step.Ingest? && !step.Inherit? && !step.PreTriage?
    ensures Next(db, step).findings.Keys == db.findings.Keys
    ensures forall i :: i in db.findings ==> SameBand(db.findings[i], Next(db, step).findings[i])
  {
    hide BulkAcknowledge.Selected, BulkAcknowledge.ScopeSelected, FrozenCell, PendingCells, Constraints;
  }

  lemma PreTriageBands(db: Db, step: Step)
    requires step.PreTriage?
    ensures
      var after := FindingWriters.PreTriage(db.findings, step.triagedServer, step.rate, step.now);
      BandsStep(db.findings, after, db.evaluations, step)
  {
    hide IsVerdict;
  }

  lemma InheritBands(db: Db, step: Step)
    requires step.Inherit?
    ensures
      var after := FindingGroupInheritance.Inherit(db.findings, db.evaluations, step.groupIds, step.onServer, step.now);
      BandsStep(db.findings, after, db.evaluations, step)
  {}

  /** A step of the run inherited the band, from a verdict that was stored before that step. */
  ghost predicate InheritedAt(db: Db, steps: seq<Step>, n: nat, i: int, band: Option<string>)
    requires Constraints(db.findings, db.nextFindingId) && n < |steps|
  {
    var before := Run(db, steps[..n]);
    steps[n].Inherit? && i in before.findings && IsVerdict(before.findings[i], before.evaluations, band)
  }

  lemma InheritedAtLonger(db: Db, steps: seq<Step>, n: nat, m: nat, i: int, band: Option<string>)
    requires Constraints(db.findings, db.nextFindingId) && m < n <= |steps|
    ensures InheritedAt(db, steps[..n], m, i, band) <==> InheritedAt(db, steps, m, i, band)
  {
    hide Run, Constraints, IsVerdict;
    assert steps[..n][..m] == steps[..m];
  }

  /**
   * A band with source `llm` that a finding did not have at the start was the verdict of its
   * group, server and lane when a step of the run inherited it. Pre-triage, ingests and feeds
   * neither forge nor alter one.
   */
  lemma {:induction false} ModelBandWasInherited(db: Db, steps: seq<Step>, i: int)
    requires Constraints(db.findings, db.nextFindingId)
    requires i in Run(db, steps).findings && FromModel(Run(db, steps).findings[i])
    requires i in db.findings ==> !FromModel(db.findings[i])
    ensures exists n: nat :: n < |steps| && InheritedAt(db, steps, n, i, Run(db, steps).findings[i].riskBand)
  {
    hide *;
    if steps == [] {
      RunNothing(db);
    } else {
      var n := |steps| - 1;
      var before, after := Run(db, steps[..n]), Run(db, steps);
      RunLast(db, steps);
      LastBand(db, steps, i);
      if !InheritedAt(db, steps, n, i, after.findings[i].riskBand) {
        ModelBandWasInherited(db, steps[..n], i);
        var m: nat :| m < n && InheritedAt(db, steps[..n], m, i, before.findings[i].riskBand);
        InheritedAtLonger(db, steps, n, m, i, before.findings[i].riskBand);
      }
    }
  }

  /** The last step inherits the band, or the finding had it before. */
  lemma LastBand(db: Db, steps: seq<Step>, i: int)
    requires Constraints(db.findings, db.nextFindingId) && steps != []
    requires i in Run(db, steps).findings && FromModel(Run(db, steps).findings[i])
    ensures
      var n := |steps| - 1;
      var before, band := Run(db, steps[..n]).findings, Run(db, steps).findings[i].riskBand;
      InheritedAt(db, steps, n, i, band) || (i in before && FromModel(before[i]) && before[i].riskBand == band)
  {
    hide Run, Next, IsVerdict, FromModel, Constraints;
    var n := |steps| - 1;
    var before := Run(db, steps[..n]);
    RunLast(db, steps);
    NextBands(before, steps[n]);
    if i in before.findings {
      ModelBandIsOldOrInherited(before.findings[i], Run(db, steps).findings[i], before.evaluations, steps[n]);
    }
  }

  lemma ModelBandIsOldOrInherited(before: Finding, after: Finding, evaluations: EvaluationsTable, step: Step)
    requires BandStep(before, after, evaluations, step) && FromModel(after)
    ensures (step.Inherit? && IsVerdict(before, evaluations, after.riskBand))
         || (FromModel(before) && before.riskBand == after.riskBand)
  {}

  /** Once a band is a model verdict it stays one: the rule engine never takes it back. */
  lemma {:induction false} ModelSourceStays(db: Db, steps: seq<Step>, i: int)
    requires Constraints(db.findings, db.nextFindingId)
    requires i in db.findings && FromModel(db.findings[i])
    ensures i in Run(db, steps).findings && FromModel(Run(db, steps).findings[i])
  {
    hide Run, Next, IsVerdict, FromModel, Constraints;
    if steps == [] {
      RunNothing(db);
    } else {
      var n := |steps| - 1;
      var before := Run(db, steps[..n]);
      ModelSourceStays(db, steps[..n], i);
      RunLast(db, steps);
      NextBands(before, steps[n]);
      ModelBandStays(before.findings[i], Run(db, steps).findings[i], before.evaluations, steps[n]);
    }
  }

  lemma ModelBandStays(before: Finding, after: Finding, evaluations: EvaluationsTable, step: Step)
    requires BandStep(before, after, evaluations, step) && FromModel(before)
    ensures FromModel(after)
  {}
}
