/** The UPDATE that copies the verdict of a (group, server, lane) evaluation to its findings. */
module FindingGroupInheritance {
  import opened Models

  function KeyOf(f: Finding): Option<EvaluationKey> {
    match f.groupId
    case None => None
    case Some(g) => Some(EvaluationKey(g, f.key.serverId, FixLaneOf(f.facts)))
  }

  predicate InScope(f: Finding, groupIds: Option<set<int>>, serverId: Option<int>) {
    && (groupIds.Some? ==> f.groupId.Some? && f.groupId.value in groupIds.value)
    && (serverId.Some? ==> f.key.serverId == serverId.value)
  }

  /** A finding that the join reaches: it is in scope and its (group, server, lane) has a verdict. */
  predicate Joins(f: Finding, evaluations: EvaluationsTable, groupIds: Option<set<int>>, serverId: Option<int>) {
    InScope(f, groupIds, serverId) && KeyOf(f).Some? && KeyOf(f).value in evaluations
  }

  /** The WHERE clause: the join reaches the finding and would change its band or its source. */
  predicate ToUpdate(f: Finding, evaluations: EvaluationsTable, groupIds: Option<set<int>>, serverId: Option<int>) {
    && Joins(f, evaluations, groupIds, serverId)
    && (f.riskBand != Some(evaluations[KeyOf(f).value].riskBand) || f.riskBandSource != Some("llm"))
  }

  function Inherit(findings: FindingsTable, evaluations: EvaluationsTable, groupIds: Option<set<int>>,
                   serverId: Option<int>, now: Time): (r: FindingsTable)
    ensures forall n :: Constraints(findings, n) ==> Constraints(r, n)
  {
    map i | i in findings ::
      if ToUpdate(findings[i], evaluations, groupIds, serverId)
      then findings[i].(
             riskBand := Some(evaluations[KeyOf(findings[i]).value].riskBand),
             riskBandSource := Some("llm"),
             riskBandComputedAt := Some(now))
      else findings[i]
  }

  /** Every finding that the join reaches carries the verdict of its own group, server and lane. */
  ghost predicate Inherited(before: FindingsTable, after: FindingsTable, evaluations: EvaluationsTable,
                            groupIds: Option<set<int>>, serverId: Option<int>, now: Time) {
    && after.Keys == before.Keys
    && forall i :: i in before ==> CarriesVerdict(before[i], after[i], evaluations, groupIds, serverId, now)
  }

  /** Only the three band columns can change, and the time of computation only with one of the others. */
  ghost predicate CarriesVerdict(before: Finding, after: Finding, evaluations: EvaluationsTable,
                                 groupIds: Option<set<int>>, serverId: Option<int>, now: Time) {
    if Joins(before, evaluations, groupIds, serverId) then
      && after == before.(riskBand := after.riskBand, riskBandSource := after.riskBandSource,
                          riskBandComputedAt := after.riskBandComputedAt)
      && after.riskBand == Some(evaluations[KeyOf(before).value].riskBand)
      && after.riskBandSource == Some("llm")
      && (after != before ==> after.riskBandComputedAt == Some(now))
    else
      after == before
  }

  /** `inherit_group_risk_to_findings`; the row count is the number of rows that really change. */
  method InheritGroupRiskToFindings(session: Session, groupIds: Option<set<int>>, serverId: Option<int>, now: Time)
    returns (rowcount: nat)
    requires session.Valid()
    modifies session
    ensures session.Valid()
    ensures session.State() == old(session.State()).(findings := session.findings)
    ensures session.findings == Inherit(old(session.findings), session.evaluations, groupIds, serverId, now)
    ensures Inherited(old(session.findings), session.findings, session.evaluations, groupIds, serverId, now)
    ensures rowcount == |Verdicts(old(session.findings), session.findings)|
  {
    hide Inherit, Inherited, ToUpdate;
    var ids := set i | i in session.findings && ToUpdate(session.findings[i], session.evaluations, groupIds, serverId);
    InheritEffect(session.findings, session.evaluations, groupIds, serverId, now);
    session.findings := Inherit(session.findings, session.evaluations, groupIds, serverId, now);
    rowcount := |ids|;
  }

  /** The findings whose band or source differs. */
  function Verdicts(before: FindingsTable, after: FindingsTable): set<int> {
    set i | i in before && i in after
         && (before[i].riskBand != after[i].riskBand || before[i].riskBandSource != after[i].riskBandSource)
  }

  lemma InheritEffect(findings: FindingsTable, evaluations: EvaluationsTable, groupIds: Option<set<int>>,
                      serverId: Option<int>, now: Time)
    ensures
      var after := Inherit(findings, evaluations, groupIds, serverId, now);
      && Inherited(findings, after, evaluations, groupIds, serverId, now)
      && Verdicts(findings, after) == set i | i in findings && ToUpdate(findings[i], evaluations, groupIds, serverId)
  {}

  /**
   * What one run has settled, no later run touches, whatever its scope and time: a finding that
   * the first join reached is unchanged by the second run.
   */
  lemma SettledStays(findings: FindingsTable, evaluations: EvaluationsTable, groupIds: Option<set<int>>,
                     serverId: Option<int>, now: Time, laterGroupIds: Option<set<int>>, laterServerId: Option<int>,
                     later: Time, i: int)
    requires i in findings && Joins(findings[i], evaluations, groupIds, serverId)
    ensures
      var once := Inherit(findings, evaluations, groupIds, serverId, now);
      i in once && Inherit(once, evaluations, laterGroupIds, laterServerId, later)[i] == once[i]
  {
    var once := Inherit(findings, evaluations, groupIds, serverId, now);
    assert KeyOf(once[i]) == KeyOf(findings[i]);
  }

  /**
   * What the update writes to a finding, in full: the verdict of its own group, server and lane, when
   * that is not yet what it carries. A run for one server or for some groups leaves all others alone.
   */
  lemma InheritSays(findings: FindingsTable, evaluations: EvaluationsTable, groupIds: Option<set<int>>,
                    serverId: Option<int>, now: Time, i: int)
    requires i in findings
    ensures
      var f := findings[i];
      var patchable := f.facts.hasFix && (f.facts.findingClass == OsPkgs || f.facts.hostUpdateAvailable == Some(true));
      var lane := if patchable then Patch else Mitigate;
      var after := Inherit(findings, evaluations, groupIds, serverId, now);
      && after.Keys == findings.Keys
      && (if && f.groupId.Some? && EvaluationKey(f.groupId.value, f.key.serverId, lane) in evaluations
             && (groupIds == None || (groupIds.Some? && f.groupId.value in groupIds.value))
             && (serverId == None || serverId == Some(f.key.serverId))
          then
            var band := evaluations[EvaluationKey(f.groupId.value, f.key.serverId, lane)].riskBand;
            after[i] == if f.riskBand == Some(band) && f.riskBandSource == Some("llm") then f
                        else f.(riskBand := Some(band), riskBandSource := Some("llm"), riskBandComputedAt := Some(now))
          else after[i] == f)
  {}

  /** Scopes ordered by what they admit. */
  predicate Narrower(groupIds: Option<set<int>>, serverId: Option<int>, widerGroupIds: Option<set<int>>,
                     widerServerId: Option<int>) {
    && (widerGroupIds.Some? ==> groupIds.Some? && groupIds.value <= widerGroupIds.value)
    && (widerServerId.Some? ==> serverId == widerServerId)
  }

  /**
   * Idempotence over scopes: after a run, a run over the same or a narrower scope changes nothing,
   * and a run over a wider one gives the bands that it alone would have given.
   */
  lemma InheritTwice(findings: FindingsTable, evaluations: EvaluationsTable, groupIds: Option<set<int>>,
                     serverId: Option<int>, now: Time, otherGroupIds: Option<set<int>>, otherServerId: Option<int>,
                     later: Time)
    ensures
      var once := Inherit(findings, evaluations, groupIds, serverId, now);
      var twice := Inherit(once, evaluations, otherGroupIds, otherServerId, later);
      && (Narrower(otherGroupIds, otherServerId, groupIds, serverId) ==> twice == once)
      && (Narrower(groupIds, serverId, otherGroupIds, otherServerId) ==>
            Verdicts(Inherit(findings, evaluations, otherGroupIds, otherServerId, later), twice) == {})
  {
    var once := Inherit(findings, evaluations, groupIds, serverId, now);
    var twice := Inherit(once, evaluations, otherGroupIds, otherServerId, later);
    var alone := Inherit(findings, evaluations, otherGroupIds, otherServerId, later);
    forall i | i in findings
      ensures i in once && i in twice && i in alone
      ensures Narrower(otherGroupIds, otherServerId, groupIds, serverId) ==> twice[i] == once[i]
      ensures Narrower(groupIds, serverId, otherGroupIds, otherServerId) ==>
                alone[i].riskBand == twice[i].riskBand && alone[i].riskBandSource == twice[i].riskBandSource
    {
      InheritTwiceAt(findings, evaluations, groupIds, serverId, now, otherGroupIds, otherServerId, later, i);
    }
    assert once.Keys == findings.Keys && twice.Keys == findings.Keys;
    hide Inherit, Narrower;
  }

  /** Two runs on one finding. */
  lemma InheritTwiceAt(findings: FindingsTable, evaluations: EvaluationsTable, groupIds: Option<set<int>>,
                       serverId: Option<int>, now: Time, otherGroupIds: Option<set<int>>, otherServerId: Option<int>,
                       later: Time, i: int)
    requires i in findings
    ensures
      var once := Inherit(findings, evaluations, groupIds, serverId, now);
      var twice := Inherit(once, evaluations, otherGroupIds, otherServerId, later);
      var alone := Inherit(findings, evaluations, otherGroupIds, otherServerId, later);
      && i in once && i in twice && i in alone
      && (Narrower(otherGroupIds, otherServerId, groupIds, serverId) ==> twice[i] == once[i])
      && (Narrower(groupIds, serverId, otherGroupIds, otherServerId) ==>
            alone[i].riskBand == twice[i].riskBand && alone[i].riskBandSource == twice[i].riskBandSource)
  {
    var once := Inherit(findings, evaluations, groupIds, serverId, now);
    var f, g := findings[i], once[i];
    assert KeyOf(g) == KeyOf(f);
    ScopesOf(f, g, evaluations, groupIds, serverId, otherGroupIds, otherServerId);
    hide InScope, Narrower, KeyOf;
  }

  /** A wider scope reaches what a narrower one reaches, before and after a run. */
  lemma ScopesOf(f: Finding, g: Finding, evaluations: EvaluationsTable, groupIds: Option<set<int>>,
                 serverId: Option<int>, widerGroupIds: Option<set<int>>, widerServerId: Option<int>)
    requires f.key == g.key && f.groupId == g.groupId && KeyOf(f) == KeyOf(g)
    ensures Joins(f, evaluations, groupIds, serverId) <==> Joins(g, evaluations, groupIds, serverId)
    ensures Joins(f, evaluations, widerGroupIds, widerServerId) <==> Joins(g, evaluations, widerGroupIds, widerServerId)
    ensures Narrower(groupIds, serverId, widerGroupIds, widerServerId) && Joins(f, evaluations, groupIds, serverId) ==>
              Joins(f, evaluations, widerGroupIds, widerServerId)
    ensures && Narrower(widerGroupIds, widerServerId, groupIds, serverId)
            && Joins(f, evaluations, widerGroupIds, widerServerId) ==>
              Joins(f, evaluations, groupIds, serverId)
  {}
}
