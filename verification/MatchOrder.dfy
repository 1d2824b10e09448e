/** What the order of the loaded groups decides: the table is read without ORDER BY. */
module MatchOrder {
  import opened Models
  import opened Sorting
  import opened GroupMatcher

  /** A prefix of `g` reaches the longest hit among all groups. */
  ghost predicate ReachesLongest(target: string, groups: seq<ApplicationGroup>, g: ApplicationGroup) {
    exists p :: p in g.pathPrefixes && HitLength(target, p) > 0
             && forall h, q :: h in groups && q in h.pathPrefixes ==> HitLength(target, q) <= HitLength(target, p)
  }

  ghost predicate LayerHits(glob: Glob, layer: Layer, f: MatchRow, groups: seq<ApplicationGroup>) {
    exists g :: g in groups && LayerHit(glob, layer, f, g)
  }

  /** The groups that match in the first layer that matches any; the order of the groups plays no part. */
  ghost predicate Candidate(glob: Glob, f: MatchRow, groups: seq<ApplicationGroup>, g: ApplicationGroup) {
    && g in groups
    && if exists h :: h in groups && ReachesLongest(TargetOf(f), groups, h) then ReachesLongest(TargetOf(f), groups, g)
       else if LayerHits(glob, Exact, f, groups) then LayerHit(glob, Exact, f, g)
       else if LayerHits(glob, Globbed, f, groups) then LayerHit(glob, Globbed, f, g)
       else LayerHit(glob, Purl, f, g)
  }

  /** The match is the first candidate, and there is none exactly when nothing is a candidate. */
  ghost predicate IsFirstCandidate(glob: Glob, f: MatchRow, groups: seq<ApplicationGroup>, n: Option<int>) {
    match n
    case None => forall g :: !Candidate(glob, f, groups, g)
    case Some(i) =>
      && 0 <= i < |groups| && Candidate(glob, f, groups, groups[i])
      && forall k :: 0 <= k < i ==> !Candidate(glob, f, groups, groups[k])
  }

  lemma BestPathReaches(target: string, groups: seq<ApplicationGroup>)
    ensures BestPath(target, groups).None? <==> !exists h :: h in groups && ReachesLongest(target, groups, h)
    ensures BestPath(target, groups).Some? ==>
      var n := BestPath(target, groups).value.1;
      && 0 <= n < |groups| && ReachesLongest(target, groups, groups[n])
      && forall k :: 0 <= k < n ==> !ReachesLongest(target, groups, groups[k])
  {
    hide HitLength, BestPath;
    LongestPrefixWins(target, groups);
    var best := BestPath(target, groups);
    if best.Some? {
      var length, n := best.value.0, best.value.1;
      var p :| p in groups[n].pathPrefixes && HitLength(target, p) == length;
      forall h, q | h in groups && q in h.pathPrefixes
        ensures HitLength(target, q) <= length
      {
        var k :| 0 <= k < |groups| && groups[k] == h;
      }
      assert ReachesLongest(target, groups, groups[n]) && groups[n] in groups;
      forall k | 0 <= k < n
        ensures !ReachesLongest(target, groups, groups[k])
      {
        assert groups[n] in groups && p in groups[n].pathPrefixes;
        assert forall q :: q in groups[k].pathPrefixes ==> HitLength(target, q) < HitLength(target, p);
      }
    } else {
      forall h | h in groups
        ensures !ReachesLongest(target, groups, h)
      {
        var k :| 0 <= k < |groups| && groups[k] == h;
        assert forall q :: q in h.pathPrefixes ==> HitLength(target, q) == 0;
      }
    }
  }

  lemma FirstHitIff(glob: Glob, layer: Layer, f: MatchRow, groups: seq<ApplicationGroup>)
    ensures FirstHit(glob, layer, f, groups).Some? <==> LayerHits(glob, layer, f, groups)
  {
    hide LayerHit;
    var r := FirstHit(glob, layer, f, groups);
    hide FirstHit;
    if r.Some? {
      assert groups[r.value] in groups;
    } else {
      forall g | g in groups
        ensures !LayerHit(glob, layer, f, g)
      {
        var k :| 0 <= k < |groups| && groups[k] == g;
      }
    }
  }

  lemma MatchIsFirstCandidate(glob: Glob, f: MatchRow, groups: seq<ApplicationGroup>)
    ensures IsFirstCandidate(glob, f, groups, MatchIndex(glob, f, groups))
  {
    BestPathReaches(TargetOf(f), groups);
    FirstHitIff(glob, Exact, f, groups);
    FirstHitIff(glob, Globbed, f, groups);
    FirstHitIff(glob, Purl, f, groups);
    var n := MatchIndex(glob, f, groups);
    hide BestPath, FirstHit, LayerHit, TargetOf, ReachesLongest;
    if n.Some? {
      assert groups[n.value] in groups;
      assert forall k :: 0 <= k < n.value ==> groups[k] in groups;
    }
  }

  ghost predicate SameGroups(a: seq<ApplicationGroup>, b: seq<ApplicationGroup>) {
    multiset(a) == multiset(b)
  }

  lemma CandidatesIgnoreOrder(glob: Glob, f: MatchRow, a: seq<ApplicationGroup>, b: seq<ApplicationGroup>)
    requires SameGroups(a, b)
    ensures forall g :: Candidate(glob, f, a, g) <==> Candidate(glob, f, b, g)
  {
    SameMembers(a, b);
    hide HitLength, LayerHit, TargetOf;
    assert forall g :: ReachesLongest(TargetOf(f), a, g) <==> ReachesLongest(TargetOf(f), b, g);
    assert forall layer :: LayerHits(glob, layer, f, a) <==> LayerHits(glob, layer, f, b);
  }

  /** Whether a finding matches at all does not depend on the order of the groups. */
  lemma NoMatchIgnoresOrder(glob: Glob, f: MatchRow, a: seq<ApplicationGroup>, b: seq<ApplicationGroup>)
    requires SameGroups(a, b)
    ensures MatchIndex(glob, f, a).None? <==> MatchIndex(glob, f, b).None?
  {
    MatchIsFirstCandidate(glob, f, a);
    MatchIsFirstCandidate(glob, f, b);
    CandidatesIgnoreOrder(glob, f, a, b);
    hide MatchIndex, Candidate;
  }

  /** Every group in front of the others is a permutation of the same groups. */
  function Fronted(groups: seq<ApplicationGroup>, i: nat): (r: seq<ApplicationGroup>)
    requires i < |groups|
    ensures r != [] && r[0] == groups[i] && multiset(r) == multiset(groups)
  {
    assert groups == groups[..i] + [groups[i]] + groups[i + 1..];
    [groups[i]] + groups[..i] + groups[i + 1..]
  }

  /**
   * Which group a finding gets is independent of the order of the groups if and only if there are
   * no two candidates: no tie for the longest prefix, no two groups that hit in the deciding layer.
   */
  lemma MatchIgnoresOrderIff(glob: Glob, f: MatchRow, groups: seq<ApplicationGroup>)
    ensures
      (forall b :: SameGroups(groups, b) ==>
         GroupAt(b, MatchIndex(glob, f, b)) == GroupAt(groups, MatchIndex(glob, f, groups)))
      <==> forall g, h :: Candidate(glob, f, groups, g) && Candidate(glob, f, groups, h) ==> g == h
  {
    hide MatchIndex, Candidate;
    MatchIsFirstCandidate(glob, f, groups);
    if forall g, h :: Candidate(glob, f, groups, g) && Candidate(glob, f, groups, h) ==> g == h {
      forall b | SameGroups(groups, b)
        ensures GroupAt(b, MatchIndex(glob, f, b)) == GroupAt(groups, MatchIndex(glob, f, groups))
      {
        MatchIsFirstCandidate(glob, f, b);
        CandidatesIgnoreOrder(glob, f, groups, b);
      }
    } else {
      var g, h :| Candidate(glob, f, groups, g) && Candidate(glob, f, groups, h) && g != h;
      FrontedCandidateWins(glob, f, groups, g);
      FrontedCandidateWins(glob, f, groups, h);
    }
  }

  lemma FrontedCandidateWins(glob: Glob, f: MatchRow, groups: seq<ApplicationGroup>, g: ApplicationGroup)
    requires Candidate(glob, f, groups, g)
    ensures exists b :: SameGroups(groups, b) && GroupAt(b, MatchIndex(glob, f, b)) == Some(g)
  {
    assert g in groups;
    var i :| 0 <= i < |groups| && groups[i] == g;
    var b := Fronted(groups, i);
    hide MatchIndex, Candidate, Fronted;
    assert SameGroups(groups, b);
    MatchIsFirstCandidate(glob, f, b);
    CandidatesIgnoreOrder(glob, f, groups, b);
    assert Candidate(glob, f, b, b[0]);
  }
}
