/** The apply phases of the bulk acknowledgement: by id list, by match criterion, by server and band. */
module BulkAcknowledge {
  import opened Models

  // ------------------------------------------------------------------ selection

  /**
   * The match criterion after validation. `packageName` is stripped; `taggedServers` is the
   * result of the tag subquery.
   */
  datatype Match = Match(
    cveId: Option<string>,
    packageName: Option<string>,
    taggedServers: Option<set<int>>,
    status: FindingStatus)

  datatype Selection = ByIds(ids: set<int>) | ByMatch(criterion: Match)

  /** SQL LIKE: `%` is any text, `_` any one character, a backslash escapes. */
  predicate Like(pattern: string, s: string)
    decreases |pattern| + |s|
  {
    if pattern == "" then s == ""
    else if pattern[0] == '%' then Like(pattern[1..], s) || (s != "" && Like(pattern, s[1..]))
    else if pattern[0] == '\\' && |pattern| > 1 then s != "" && s[0] == pattern[1] && Like(pattern[2..], s[1..])
    else s != "" && (pattern[0] == '_' || pattern[0] == s[0]) && Like(pattern[1..], s[1..])
  }

  predicate PackageMatches(pkg: string, packageName: string) {
    if '@' in pkg then packageName == pkg
    else packageName == pkg || Like(pkg + "@%", packageName)
  }

  predicate Matches(f: Finding, m: Match) {
    && f.status == m.status
    && (m.cveId.Some? ==> f.key.identifierKey == m.cveId.value)
    && (m.packageName.Some? ==> PackageMatches(m.packageName.value, f.key.packageName))
    && (m.taggedServers.Some? ==> f.key.serverId in m.taggedServers.value)
  }

  function Selected(findings: FindingsTable, selection: Selection): set<int> {
    match selection
    case ByIds(ids) => set i | i in findings && i in ids
    case ByMatch(m) => set i | i in findings && Matches(findings[i], m)
  }

  function ScopeSelected(findings: FindingsTable, serverId: int, band: string): set<int> {
    set i | i in findings && findings[i].key.serverId == serverId && findings[i].status == Open &&
      findings[i].riskBand == Some(band)
  }

  // ------------------------------------------------------------------ the update

  /** The open ones among `ids` become acknowledged; nothing else changes. */
  function Acknowledge(findings: FindingsTable, ids: set<int>, now: Time, userId: Option<int>): (r: FindingsTable)
    ensures forall n :: Constraints(findings, n) ==> Constraints(r, n)
  {
    map i | i in findings ::
      if i in ids && findings[i].status == Open
      then findings[i].(status := Acknowledged, acknowledgedAt := Some(now), acknowledgedBy := userId)
      else findings[i]
  }

  /** `moved` are open findings that become acknowledged; every other row is unchanged. */
  ghost predicate MovesExactly(before: FindingsTable, after: FindingsTable, moved: set<int>, now: Time,
                               userId: Option<int>) {
    && after.Keys == before.Keys
    && (forall i :: i in moved ==> i in before && before[i].status == Open)
    && (forall i :: i in before ==>
          after[i] == if i in moved
                      then before[i].(status := Acknowledged, acknowledgedAt := Some(now), acknowledgedBy := userId)
                      else before[i])
  }

  function OpenAmong(findings: FindingsTable, ids: set<int>): (r: set<int>)
    ensures r <= ids
  {
    set i | i in ids && i in findings && findings[i].status == Open
  }

  lemma AcknowledgeMovesOpen(findings: FindingsTable, ids: set<int>, now: Time, userId: Option<int>)
    ensures MovesExactly(findings, Acknowledge(findings, ids, now, userId), OpenAmong(findings, ids), now, userId)
    ensures Acknowledge(findings, OpenAmong(findings, ids), now, userId) == Acknowledge(findings, ids, now, userId)
    ensures OpenAmong(findings, ids) == {} ==> Acknowledge(findings, ids, now, userId) == findings
  {}

  function ServersOf(findings: FindingsTable, ids: set<int>): set<int> {
    set i | i in ids && i in findings :: findings[i].key.serverId
  }

  datatype AckResult = AckResult(count: nat, skipped: nat, serverCount: nat, findingIds: set<int>)

  /** Flavours A and B with `dry_run=false`. */
  method BulkAcknowledge(session: Session, selection: Selection, now: Time, userId: Option<int>) returns (r: AckResult)
    requires session.Valid()
    modifies session
    ensures session.Valid()
    ensures session.State() == old(session.State()).(findings := session.findings)
    ensures session.findings
         == Acknowledge(old(session.findings), Selected(old(session.findings), selection), now, userId)
    ensures MovesExactly(old(session.findings), session.findings, r.findingIds, now, userId)
    ensures r.count == |r.findingIds| && r.count + r.skipped == |Selected(old(session.findings), selection)|
    ensures r.serverCount == |ServersOf(old(session.findings), r.findingIds)|
  {
    hide Acknowledge, MovesExactly, Selected;
    var findingIds := Selected(session.findings, selection);
    AcknowledgeMovesOpen(session.findings, findingIds, now, userId);
    if findingIds == {} {
      assert OpenAmong(session.findings, {}) == {} && |ServersOf(session.findings, {})| == 0;
      return AckResult(0, 0, 0, {});
    }
    var openIds := OpenAmong(session.findings, findingIds);
    OpenAndSkipped(findingIds, openIds);
    var serverIds := ServersOf(session.findings, openIds);
    session.findings := Acknowledge(session.findings, openIds, now, userId);
    r := AckResult(|openIds|, |findingIds| - |openIds|, |serverIds|, openIds);
  }

  lemma OpenAndSkipped(all: set<int>, open: set<int>)
    requires open <= all
    ensures |open| <= |all|
  {
    assert |all - open| == |all| - |open|;
  }

  /** Flavour C with `dry_run=false`: one UPDATE over the WHERE scope; `None` is the 404 of `_active_server_guard`. */
  method AcknowledgeServerScope(session: Session, serverId: int, band: string, now: Time, userId: Option<int>)
    returns (count: Option<nat>)
    requires session.Valid()
    modifies session
    ensures session.Valid()
    ensures session.State() == old(session.State()).(findings := session.findings)
    ensures count.Some? <==> serverId in session.servers && session.servers[serverId] == Server(None, None)
    ensures count.None? ==> session.findings == old(session.findings)
    ensures count.Some? ==>
      var scope := ScopeSelected(old(session.findings), serverId, band);
      && count.value == |scope|
      && session.findings == Acknowledge(old(session.findings), scope, now, userId)
      && MovesExactly(old(session.findings), session.findings, scope, now, userId)
    ensures count.Some? ==>
      && session.findings.Keys == old(session.findings).Keys
      && count.value == |set i | i in old(session.findings) && session.findings[i] != old(session.findings)[i]|
      && forall i :: i in old(session.findings) ==>
           var f := old(session.findings)[i];
           session.findings[i] ==
             if f.key.serverId == serverId && f.status == Open && f.riskBand == Some(band)
             then f.(status := Acknowledged, acknowledgedAt := Some(now), acknowledgedBy := userId)
             else f
  {
    ghost var before := session.findings;
    if !IsActive(session.servers, serverId) {
      return None;
    }
    var scope := ScopeSelected(session.findings, serverId, band);
    assert OpenAmong(session.findings, scope) == scope;
    AcknowledgeMovesOpen(session.findings, scope, now, userId);
    session.findings := Acknowledge(session.findings, scope, now, userId);
    count := Some(|scope|);
    assert scope == set i | i in before && session.findings[i] != before[i];
  }

  /** A match leaves alone what is not open, and what any of its criteria does not name. */
  lemma MatchLeavesAlone(findings: FindingsTable, m: Match, now: Time, userId: Option<int>, i: int)
    requires i in findings
    ensures
      var f, after := findings[i], Acknowledge(findings, Selected(findings, ByMatch(m)), now, userId);
      && after.Keys == findings.Keys
      && (after[i] != f <==>
            && f.status == Open && m.status == Open
            && (m.cveId == None || m.cveId == Some(f.key.identifierKey))
            && (m.taggedServers == None || (m.taggedServers.Some? && f.key.serverId in m.taggedServers.value))
            && (m.packageName == None
                || (m.packageName.Some? && PackageMatches(m.packageName.value, f.key.packageName))))
  {
    hide PackageMatches;
  }

  /** An id list moves its open findings, and no other. */
  lemma IdsMoveOpen(findings: FindingsTable, ids: set<int>, now: Time, userId: Option<int>, i: int)
    requires i in findings
    ensures
      var f, after := findings[i], Acknowledge(findings, Selected(findings, ByIds(ids)), now, userId);
      && after.Keys == findings.Keys
      && after[i] == if i in ids && f.status == Open
                     then f.(status := Acknowledged, acknowledgedAt := Some(now), acknowledgedBy := userId) else f
  {}

  // ------------------------------------------------------------------ the package criterion

  /** What the criterion is meant to select: the package itself or the package with a target suffix. */
  predicate IsPackage(pkg: string, packageName: string) {
    packageName == pkg || pkg + "@" <= packageName
  }

  lemma {:induction false} LikeAny(s: string)
    ensures Like("%", s)
  {
    if s != "" {
      LikeAny(s[1..]);
    }
  }

  lemma {:induction false} LikePrefix(pattern: string, s: string)
    requires '%' !in pattern && '\\' !in pattern && '_' !in pattern
    ensures Like(pattern + "%", s) <==> pattern <= s
  {
    if pattern == "" {
      assert pattern + "%" == "%";
      LikeAny(s);
    } else {
      assert pattern[0] in pattern;
      assert (pattern + "%")[1..] == pattern[1..] + "%";
      if s != "" {
        LikePrefix(pattern[1..], s[1..]);
        assert pattern <= s <==> pattern[0] == s[0] && pattern[1..] <= s[1..];
      }
    }
  }

  /** LIKE accepts a text that differs from the pattern only where the pattern has an underscore. */
  function Bent(pkg: string): string {
    if pkg == "" then ""
    else (if pkg[0] == '_' then "-" else [pkg[0]]) + Bent(pkg[1..])
  }

  lemma {:induction false} LikeBent(pkg: string)
    requires '%' !in pkg && '\\' !in pkg
    ensures Like(pkg + "@%", Bent(pkg) + "@")
    ensures |Bent(pkg)| == |pkg|
    ensures '_' in pkg ==> Bent(pkg) != pkg
  {
    if pkg == "" {
      assert Like("%", "");
      assert ("@%")[1..] == "%" && ("@")[1..] == "";
      assert pkg + "@%" == "@%" && Bent(pkg) + "@" == "@";
    } else {
      assert pkg[0] in pkg;
      LikeBent(pkg[1..]);
      assert Bent(pkg)[1..] == Bent(pkg[1..]);
      hide Bent;
      LikeHead(pkg, "@%", Bent(pkg), "@");
      hide Like;
      if '_' in pkg && pkg[0] != '_' {
        assert '_' in pkg[1..];
      }
    }
  }

  lemma LikeHead(pattern: string, behind: string, s: string, rest: string)
    requires pattern != "" && s != "" && pattern[0] != '%' && pattern[0] != '\\'
    requires pattern[0] == '_' || pattern[0] == s[0]
    requires Like(pattern[1..] + behind, s[1..] + rest)
    ensures Like(pattern + behind, s + rest)
  {
    hide Like;
    TailOf(pattern, behind);
    TailOf(s, rest);
    LikeStep(pattern + behind, s + rest);
  }

  lemma TailOf(s: string, rest: string)
    requires s != ""
    ensures s + rest != "" && (s + rest)[0] == s[0] && (s + rest)[1..] == s[1..] + rest
  {}

  lemma LikeStep(pattern: string, s: string)
    requires pattern != "" && s != "" && pattern[0] != '%' && pattern[0] != '\\'
    requires pattern[0] == '_' || pattern[0] == s[0]
    ensures Like(pattern, s) == Like(pattern[1..], s[1..])
  {}

  /**
   * A package name without `@` selects exactly its own findings if and only if it has no
   * underscore, which LIKE reads as a wildcard. Package names contain neither `%` nor a backslash.
   */
  lemma PackageCriterionExactIff(pkg: string)
    requires '%' !in pkg && '\\' !in pkg && '@' !in pkg
    ensures (forall name :: PackageMatches(pkg, name) <==> IsPackage(pkg, name)) <==> '_' !in pkg
  {
    assert (pkg + "@") + "%" == pkg + "@%";
    if '_' in pkg {
      var name := Bent(pkg) + "@";
      LikeBent(pkg);
      assert PackageMatches(pkg, name);
      assert |name| == |pkg| + 1;
      assert name[..|pkg|] == Bent(pkg) && (pkg + "@")[..|pkg|] == pkg;
      assert !IsPackage(pkg, name);
    } else {
      forall name
        ensures PackageMatches(pkg, name) <==> IsPackage(pkg, name)
      {
        LikePrefix(pkg + "@", name);
      }
    }
  }
}
