/**
 * The other services that write the findings table: grouping, pre-triage, the feeds, and the end
 * of a server. None of them belongs to the core; the runs contain them as steps.
 */
module FindingWriters {
  import opened Models

  /** The UPDATE that assigns findings to a group, or takes them out of one. */
  function Regroup(findings: FindingsTable, ids: set<int>, groupId: Option<int>): (r: FindingsTable)
    ensures forall n :: Constraints(findings, n) ==> Constraints(r, n)
  {
    map i | i in findings :: if i in ids then findings[i].(groupId := groupId) else findings[i]
  }

  /** It writes the group of the listed findings and nothing else. */
  lemma RegroupSays(findings: FindingsTable, ids: set<int>, groupId: Option<int>, i: int)
    requires i in findings
    ensures
      var f, after := findings[i], Regroup(findings, ids, groupId);
      && after.Keys == findings.Keys
      && after[i].groupId == (if i in ids then groupId else f.groupId)
      && after[i].(groupId := f.groupId) == f
  {}

  /** The rows that pre-triage rates: open ones of the server, unless their band is a model verdict. */
  predicate ToPreTriage(f: Finding, serverId: int) {
    f.key.serverId == serverId && f.status == Open && f.riskBandSource != Some("llm")
  }

  /** `_run_pretriage`; `rate` is the rule engine. */
  function PreTriage(findings: FindingsTable, serverId: int, rate: Finding -> string, now: Time): (r: FindingsTable)
    ensures forall n :: Constraints(findings, n) ==> Constraints(r, n)
  {
    map i | i in findings ::
      if ToPreTriage(findings[i], serverId)
      then findings[i].(
             riskBand := Some(rate(findings[i])), riskBandSource := Some("engine"), riskBandComputedAt := Some(now))
      else findings[i]
  }

  /** An open finding of the server without a model verdict gets the band of the rules; others keep all they have. */
  lemma PreTriageSays(findings: FindingsTable, serverId: int, rate: Finding -> string, now: Time, i: int)
    requires i in findings
    ensures
      var f, after := findings[i], PreTriage(findings, serverId, rate, now);
      && after.Keys == findings.Keys
      && (if && f.key.serverId == serverId && f.status == Open
             && (f.riskBandSource == None || f.riskBandSource.value != "llm")
          then after[i].riskBand == Some(rate(f)) && after[i].riskBandComputedAt == Some(now)
               && after[i].riskBandSource == Some("engine")
          else after[i] == f)
      && after[i].(riskBand := f.riskBand, riskBandSource := f.riskBandSource,
                   riskBandComputedAt := f.riskBandComputedAt) == f
  {}

  /** `backfill_epss`. */
  function BackfillEpss(findings: FindingsTable, scores: map<string, real>): (r: FindingsTable)
    ensures forall n :: Constraints(findings, n) ==> Constraints(r, n)
  {
    map i | i in findings ::
      if findings[i].key.identifierKey in scores
      then findings[i].(facts := findings[i].facts.(epssScore := Some(scores[findings[i].key.identifierKey])))
      else findings[i]
  }

  /** `backfill_kev`: a listing is never taken back. */
  function BackfillKev(findings: FindingsTable, catalog: set<string>): (r: FindingsTable)
    ensures forall n :: Constraints(findings, n) ==> Constraints(r, n)
  {
    map i | i in findings ::
      if findings[i].key.identifierKey in catalog
      then findings[i].(facts := findings[i].facts.(isKev := true))
      else findings[i]
  }

  /** A feed writes the score of the identifiers it lists, or sets their flag, and takes nothing back. */
  lemma FeedsSay(findings: FindingsTable, scores: map<string, real>, catalog: set<string>, i: int)
    requires i in findings
    ensures
      var f, scored, flagged := findings[i], BackfillEpss(findings, scores), BackfillKev(findings, catalog);
      && scored.Keys == flagged.Keys == findings.Keys
      && (f.key.identifierKey in scores ==> scored[i].facts.epssScore == Some(scores[f.key.identifierKey]))
      && (f.key.identifierKey !in scores ==> scored[i] == f)
      && (flagged[i].facts.isKev <==> f.facts.isKev || f.key.identifierKey in catalog)
      && scored[i].(facts := scored[i].facts.(epssScore := f.facts.epssScore)) == f
      && flagged[i].(facts := flagged[i].facts.(isKev := f.facts.isKev)) == f
  {}

  /** All findings of a retired server are resolved, whatever their type. */
  function ResolveServer(findings: FindingsTable, serverId: int, now: Time): (r: FindingsTable)
    ensures forall n :: Constraints(findings, n) ==> Constraints(r, n)
  {
    map i | i in findings ::
      if findings[i].key.serverId == serverId && findings[i].status != Resolved
      then findings[i].(status := Resolved, resolvedAt := Some(now))
      else findings[i]
  }

  /** `retire_server`, once per server. */
  function Retire(db: Db, serverId: int, now: Time): (r: Db)
    ensures r.servers.Keys == db.servers.Keys
    ensures forall n :: Constraints(db.findings, n) ==> Constraints(r.findings, n)
  {
    if serverId in db.servers && db.servers[serverId].retiredAt.None? then
      db.(findings := ResolveServer(db.findings, serverId, now),
          servers := db.servers[serverId := db.servers[serverId].(retiredAt := Some(now))])
    else db
  }

  /** What it resolves: everything of that server that is not resolved yet, once. */
  lemma RetireSays(db: Db, serverId: int, now: Time, i: int)
    requires i in db.findings
    ensures
      var f, g := db.findings[i], Retire(db, serverId, now).findings;
      && g.Keys == db.findings.Keys
      && g[i] == if && serverId in db.servers && db.servers[serverId].retiredAt == None
                    && f.key.serverId == serverId && (f.status == Open || f.status == Acknowledged)
                 then f.(status := Resolved, resolvedAt := Some(now)) else f
  {}

  /** `revoke_server`, once per server. */
  function Revoke(db: Db, serverId: int, now: Time): (r: Db)
    ensures r.servers.Keys == db.servers.Keys
  {
    if serverId in db.servers && db.servers[serverId].revokedAt.None?
    then db.(servers := db.servers[serverId := db.servers[serverId].(revokedAt := Some(now))])
    else db
  }
}
