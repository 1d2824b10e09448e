/** Assigning groups to the ungrouped findings of a server, and the order in which the rest goes to the model. */
module GroupAssignment {
  import opened Models
  import opened Text
  import opened Sorting
  import opened GroupMatcher
  import opened MatchOrder

  type MatchTable = map<int, MatchRow>

  class Library {
    var findings: MatchTable
    var groups: seq<ApplicationGroup>

    constructor (findings: MatchTable, groups: seq<ApplicationGroup>)
      ensures this.findings == findings && this.groups == groups
    {
      this.findings, this.groups := findings, groups;
    }
  }

  /** The ungrouped findings of the server. */
  function Ungrouped(findings: MatchTable, serverId: int): set<int> {
    set i | i in findings && findings[i].serverId == serverId && findings[i].groupId.None?
  }

  function Assign(glob: Glob, groups: seq<ApplicationGroup>, f: MatchRow): MatchRow {
    var n := MatchIndex(glob, f, groups);
    if n.None? then f else f.(groupId := Some(groups[n.value].id))
  }

  function AssignAll(glob: Glob, groups: seq<ApplicationGroup>, findings: MatchTable, ids: set<int>): MatchTable {
    map i | i in findings :: if i in ids then Assign(glob, groups, findings[i]) else findings[i]
  }

  function Matched(glob: Glob, groups: seq<ApplicationGroup>, findings: MatchTable, ids: set<int>): set<int> {
    set i | i in ids && i in findings && MatchIndex(glob, findings[i], groups).Some?
  }

  /** The ids of the groups that the findings in `ids` go to. */
  function TouchedGroups(glob: Glob, groups: seq<ApplicationGroup>, findings: MatchTable, ids: set<int>): set<int> {
    set i | i in ids && i in findings && MatchIndex(glob, findings[i], groups).Some? ::
      groups[MatchIndex(glob, findings[i], groups).value].id
  }

  function Touch(groups: seq<ApplicationGroup>, ids: set<int>, now: Time): seq<ApplicationGroup> {
    seq(|groups|, k requires 0 <= k < |groups| =>
      if groups[k].id in ids then groups[k].(lastUsedAt := now) else groups[k])
  }

  /** `apply_matches_for_server`. */
  method ApplyMatchesForServer(matcher: Matcher, tables: Library, glob: Glob, serverId: int, now: Time)
    returns (count: nat)
    modifies matcher, tables
    ensures
      var todo := Ungrouped(old(tables.findings), serverId);
      && tables.findings == AssignAll(glob, old(tables.groups), old(tables.findings), todo)
      && tables.groups == Touch(old(tables.groups),
                                TouchedGroups(glob, old(tables.groups), old(tables.findings), todo), now)
      && count == |Matched(glob, old(tables.groups), old(tables.findings), todo)|
  {
    hide *;
    matcher.Reload(tables.groups);
    UngroupedAreStored(tables.findings, serverId);
    var touched;
    count, touched := AssignMatches(matcher, tables, glob, Ungrouped(tables.findings, serverId));
    TouchNothing(tables.groups, now);
    if touched != {} {
      tables.groups := Touch(tables.groups, touched, now);
    }
  }

  /** The loop over the ungrouped findings. */
  method AssignMatches(matcher: Matcher, tables: Library, glob: Glob, findings: set<int>)
    returns (count: nat, touched: set<int>)
    requires matcher.loaded && findings <= tables.findings.Keys
    modifies tables`findings
    ensures tables.findings == AssignAll(glob, matcher.groups, old(tables.findings), findings)
    ensures touched == TouchedGroups(glob, matcher.groups, old(tables.findings), findings)
    ensures count == |Matched(glob, matcher.groups, old(tables.findings), findings)|
  {
    hide *;
    ghost var before, groups := tables.findings, matcher.groups;
    var todo := findings;
    ghost var done: set<int> := {};
    count, touched := 0, {};
    NothingDone(glob, groups, before);
    while todo != {}
      invariant done + todo == findings && done !! todo
      invariant tables.findings == AssignAll(glob, groups, before, done)
      invariant touched == TouchedGroups(glob, groups, before, done)
      invariant count == |Matched(glob, groups, before, done)|
      decreases |todo|
    {
      NonEmpty(todo);
      var i :| i in todo;
      AssignNext(glob, groups, before, done, i);
      todo, done := todo - {i}, done + {i};
      var groupId := AssignIfMatched(matcher, tables, glob, i);
      if groupId.Some? {
        touched := touched + {groupId.value};
        count := count + 1;
      }
    }
    assert done == findings;
  }

  /** The body of the loop: one finding. */
  method AssignIfMatched(matcher: Matcher, tables: Library, glob: Glob, i: int) returns (groupId: Option<int>)
    requires matcher.loaded && i in tables.findings
    modifies tables`findings
    ensures
      var n := MatchIndex(glob, old(tables.findings)[i], matcher.groups);
      && groupId == (if n.None? then None else Some(matcher.groups[n.value].id))
      && tables.findings
      == (if n.None? then old(tables.findings)
          else old(tables.findings)[i := old(tables.findings)[i].(groupId := Some(matcher.groups[n.value].id))])
  {
    hide MatchIndex;
    var group := matcher.Match(glob, tables.findings[i]);
    if group.None? {
      return None;
    }
    tables.findings := tables.findings[i := tables.findings[i].(groupId := Some(group.value.id))];
    groupId := Some(group.value.id);
  }

  lemma AssignByIndex(glob: Glob, groups: seq<ApplicationGroup>, f: MatchRow)
    ensures
      var n := MatchIndex(glob, f, groups);
      Assign(glob, groups, f) == if n.None? then f else f.(groupId := Some(groups[n.value].id))
  {}

  lemma NothingDone(glob: Glob, groups: seq<ApplicationGroup>, findings: MatchTable)
    ensures AssignAll(glob, groups, findings, {}) == findings
    ensures TouchedGroups(glob, groups, findings, {}) == {} && Matched(glob, groups, findings, {}) == {}
  {}

  lemma UngroupedAreStored(findings: MatchTable, serverId: int)
    ensures Ungrouped(findings, serverId) <= findings.Keys
  {}

  lemma TouchNothing(groups: seq<ApplicationGroup>, now: Time)
    ensures Touch(groups, {}, now) == groups
  {}

  /** One more finding in the loop. */
  lemma AssignNext(glob: Glob, groups: seq<ApplicationGroup>, findings: MatchTable, done: set<int>, i: int)
    requires i in findings && i !in done
    ensures
      var sofar, n := AssignAll(glob, groups, findings, done), MatchIndex(glob, findings[i], groups);
      && i in sofar && sofar[i] == findings[i]
      && AssignAll(glob, groups, findings, done + {i})
         == (if n.Some? then sofar[i := sofar[i].(groupId := Some(groups[n.value].id))] else sofar)
      && TouchedGroups(glob, groups, findings, done + {i})
         == TouchedGroups(glob, groups, findings, done) + (if n.Some? then {groups[n.value].id} else {})
      && |Matched(glob, groups, findings, done + {i})|
         == |Matched(glob, groups, findings, done)| + (if n.Some? then 1 else 0)
  {
    hide MatchIndex;
    var n := MatchIndex(glob, findings[i], groups);
    assert Matched(glob, groups, findings, done + {i})
        == Matched(glob, groups, findings, done) + if n.Some? then {i} else {};
  }

  // ------------------------------------------------------------------ what a pass does

  /** Matching does not look at the time of last use. */
  lemma {:induction false} TouchKeepsBestPath(target: string, groups: seq<ApplicationGroup>, ids: set<int>, now: Time)
    ensures BestPath(target, Touch(groups, ids, now)) == BestPath(target, groups)
  {
    if groups != [] {
      var n := |groups| - 1;
      hide LongestHit;
      TouchKeepsBestPath(target, groups[..n], ids, now);
      assert Touch(groups, ids, now)[..n] == Touch(groups[..n], ids, now);
      assert Touch(groups, ids, now)[n].pathPrefixes == groups[n].pathPrefixes;
    }
  }

  lemma TouchKeepsMatches(glob: Glob, f: MatchRow, groups: seq<ApplicationGroup>, ids: set<int>, now: Time)
    ensures MatchIndex(glob, f, Touch(groups, ids, now)) == MatchIndex(glob, f, groups)
  {
    TouchKeepsBestPath(TargetOf(f), groups, ids, now);
    FirstHitCongruence(glob, Exact, f, Touch(groups, ids, now), groups);
    FirstHitCongruence(glob, Globbed, f, Touch(groups, ids, now), groups);
    FirstHitCongruence(glob, Purl, f, Touch(groups, ids, now), groups);
    hide BestPath, FirstHit, Touch;
  }

  /**
   * A pass leaves ungrouped exactly the findings that no pattern matches; a second pass changes
   * nothing and counts 0, in whatever order it loads the groups that the first one has touched.
   */
  lemma SecondPassIsIdle(glob: Glob, groups: seq<ApplicationGroup>, findings: MatchTable, serverId: int, now: Time,
                         reloaded: seq<ApplicationGroup>)
    requires SameGroups(Touch(groups, TouchedGroups(glob, groups, findings, Ungrouped(findings, serverId)), now),
                        reloaded)
    ensures
      var todo := Ungrouped(findings, serverId);
      var after := AssignAll(glob, groups, findings, todo);
      && Ungrouped(after, serverId) == todo - Matched(glob, groups, findings, todo)
      && Matched(glob, reloaded, after, Ungrouped(after, serverId)) == {}
      && AssignAll(glob, reloaded, after, Ungrouped(after, serverId)) == after
      && TouchedGroups(glob, reloaded, after, Ungrouped(after, serverId)) == {}
  {
    var todo := Ungrouped(findings, serverId);
    var after := AssignAll(glob, groups, findings, todo);
    var ids := TouchedGroups(glob, groups, findings, todo);
    var touched := Touch(groups, ids, now);
    LeftUngrouped(glob, groups, findings, serverId);
    hide MatchIndex, Touch, TouchedGroups, AssignAll, Matched, SameGroups;
    forall i | i in Ungrouped(after, serverId)
      ensures MatchIndex(glob, after[i], reloaded).None?
    {
      TouchKeepsMatches(glob, after[i], groups, ids, now);
      NoMatchIgnoresOrder(glob, after[i], touched, reloaded);
    }
    IdlePass(glob, reloaded, after, Ungrouped(after, serverId));
  }

  lemma IdlePass(glob: Glob, groups: seq<ApplicationGroup>, findings: MatchTable, ids: set<int>)
    requires forall i :: i in ids && i in findings ==> MatchIndex(glob, findings[i], groups).None?
    ensures Matched(glob, groups, findings, ids) == {} && TouchedGroups(glob, groups, findings, ids) == {}
    ensures AssignAll(glob, groups, findings, ids) == findings
  {
    forall i | i in ids && i in findings
      ensures Assign(glob, groups, findings[i]) == findings[i]
    {
      AssignByIndex(glob, groups, findings[i]);
    }
    hide MatchIndex, Assign;
    assert forall i :: i in ids && i in findings ==> i !in Matched(glob, groups, findings, ids);
  }

  lemma LeftUngrouped(glob: Glob, groups: seq<ApplicationGroup>, findings: MatchTable, serverId: int)
    ensures
      var todo := Ungrouped(findings, serverId);
      var after := AssignAll(glob, groups, findings, todo);
      && Ungrouped(after, serverId) == todo - Matched(glob, groups, findings, todo)
      && forall i :: i in Ungrouped(after, serverId) ==>
           after[i] == findings[i] && MatchIndex(glob, findings[i], groups).None?
  {
    hide MatchIndex;
    var todo := Ungrouped(findings, serverId);
    var after := AssignAll(glob, groups, findings, todo);
    forall i | i in findings
      ensures i in Ungrouped(after, serverId) <==> i in todo && MatchIndex(glob, findings[i], groups).None?
    {
      AssignByIndex(glob, groups, findings[i]);
    }
  }

  /** Findings of other servers and findings that already have a group keep it. */
  lemma OthersKeepTheirGroup(glob: Glob, groups: seq<ApplicationGroup>, findings: MatchTable, serverId: int, i: int)
    requires i in findings
    ensures
      var after := AssignAll(glob, groups, findings, Ungrouped(findings, serverId));
      && (findings[i].serverId != serverId || findings[i].groupId.Some? ==> after[i] == findings[i])
      && after[i].(groupId := findings[i].groupId) == findings[i]
  {
    hide MatchIndex;
  }

  // ------------------------------------------------------------------ affinity order

  function NonEmptyParts(parts: seq<string>): seq<string> {
    if parts == [] then []
    else (if parts[0] == "" then [] else [parts[0]]) + NonEmptyParts(parts[1..])
  }

  /** The first three path segments. */
  function PathBucket(path: string): string {
    var segments := NonEmptyParts(Split(path, '/'));
    if segments == [] then "" else "/" + Join("/", segments[..if |segments| < 3 then |segments| else 3])
  }

  function BucketOf(f: MatchRow): string { PathBucket(OrEmpty(f.targetPath)) }
  function NameOf(f: MatchRow): string { f.packageName }
  function IdOf(f: MatchRow): int { f.id }

  function AffinityOrder(): (MatchRow, MatchRow) -> bool {
    Then(By(BucketOf, StringLeq), Then(By(NameOf, StringLeq), By(IdOf, IntLeq)))
  }

  /** `affinity_sort_for_pass1`. */
  function AffinitySort(findings: seq<MatchRow>): seq<MatchRow> {
    Sort(AffinityOrder(), findings)
  }

  lemma AffinityOrderIsTotal()
    ensures TotalPreorder(AffinityOrder())
  {
    StringLeqOrder();
    IntLeqOrder();
    ByOrder(BucketOf, StringLeq);
    ByOrder(NameOf, StringLeq);
    ByOrder(IdOf, IntLeq);
    hide TotalPreorder, By, Then;
    var last := Then(By(NameOf, StringLeq), By(IdOf, IntLeq));
    ThenOrder(By(NameOf, StringLeq), By(IdOf, IntLeq));
    ThenOrder(By(BucketOf, StringLeq), last);
  }

  predicate UniqueIds(findings: seq<MatchRow>) {
    forall f, g :: f in findings && g in findings && f.id == g.id ==> f == g
  }

  lemma AffinityOrderSeparates(findings: seq<MatchRow>)
    requires UniqueIds(findings)
    ensures Separates(AffinityOrder(), findings)
  {
    var bucket, name, id := By(BucketOf, StringLeq), By(NameOf, StringLeq), By(IdOf, IntLeq);
    forall f, g | f in findings && g in findings && AffinityOrder()(f, g) && AffinityOrder()(g, f)
      ensures f == g
    {
      ThenTies(name, id, f, g);
      ThenTies(bucket, Then(name, id), f, g);
      hide Then, BucketOf;
      assert IntLeq(IdOf(f), IdOf(g)) && IntLeq(IdOf(g), IdOf(f));
    }
  }

  lemma AffinityOrderByBucket(f: MatchRow, g: MatchRow)
    ensures AffinityOrder()(f, g) ==> StringLeq(BucketOf(f), BucketOf(g))
    ensures AffinityOrder()(f, g) && BucketOf(f) == BucketOf(g) ==> StringLeq(f.packageName, g.packageName)
  {
    var bucket, name, id := By(BucketOf, StringLeq), By(NameOf, StringLeq), By(IdOf, IntLeq);
    hide BucketOf;
    StringLeqTotal(BucketOf(g), BucketOf(g));
    assert AffinityOrder()(f, g) ==> bucket(f, g) && (bucket(g, f) ==> name(f, g));
    assert name(f, g) == StringLeq(NameOf(f), NameOf(g));
  }

  /** The sort is a permutation that depends on the findings only, not on the order they come in. */
  lemma AffinitySortForgetsOrder(a: seq<MatchRow>, b: seq<MatchRow>)
    requires UniqueIds(a) && multiset(a) == multiset(b)
    ensures multiset(AffinitySort(a)) == multiset(a) && AffinitySort(a) == AffinitySort(b)
  {
    hide AffinityOrder;
    AffinityOrderIsTotal();
    SortSorts(AffinityOrder(), a);
    SortSorts(AffinityOrder(), b);
    SameMembers(AffinitySort(a), a);
    AffinityOrderSeparates(AffinitySort(a));
    SortedUnique(AffinityOrder(), AffinitySort(a), AffinitySort(b));
  }

  /** Findings of one path bucket stay together, and in it those of one package. */
  lemma BucketsAreContiguous(findings: seq<MatchRow>, i: nat, j: nat, k: nat)
    requires i < j < k < |findings|
    ensures
      var sorted := AffinitySort(findings);
      && |sorted| == |findings|
      && (BucketOf(sorted[i]) == BucketOf(sorted[k]) ==> BucketOf(sorted[j]) == BucketOf(sorted[i]))
      && (BucketOf(sorted[i]) == BucketOf(sorted[k]) && sorted[i].packageName == sorted[k].packageName ==>
            sorted[j].packageName == sorted[i].packageName)
  {
    hide AffinityOrder, BucketOf;
    AffinityOrderIsTotal();
    SortSorts(AffinityOrder(), findings);
    var sorted := AffinitySort(findings);
    SameMembers(sorted, findings);
    assert AffinityOrder()(sorted[i], sorted[j]) && AffinityOrder()(sorted[j], sorted[k]);
    AffinityOrderByBucket(sorted[i], sorted[j]);
    AffinityOrderByBucket(sorted[j], sorted[k]);
    StringLeqTotal(BucketOf(sorted[i]), BucketOf(sorted[j]));
    StringLeqTotal(sorted[i].packageName, sorted[j].packageName);
  }

  /** An absolute and a relative path share their bucket. */
  lemma BucketIgnoresLeadingSlash(path: string)
    ensures PathBucket("/" + path) == PathBucket(path)
  {
    assert ("/" + path)[1..] == path;
    assert Split("/" + path, '/') == [""] + Split(path, '/');
    assert ([""] + Split(path, '/'))[1..] == Split(path, '/');
    assert [] + NonEmptyParts(Split(path, '/')) == NonEmptyParts(Split(path, '/'));
    assert NonEmptyParts(Split("/" + path, '/')) == NonEmptyParts(Split(path, '/'));
  }
}
