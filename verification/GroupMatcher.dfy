/** The deterministic assignment of findings to application groups by stored patterns. */
module GroupMatcher {
  import opened Models
  import opened Text
  import opened PatternSanitizer

  datatype ApplicationGroup = ApplicationGroup(
    id: int,
    pathPrefixes: seq<string>,
    pkgNameExact: seq<string>,
    pkgNameGlob: seq<string>,
    pkgPurlPattern: seq<string>,
    lastUsedAt: Time)

  /** The columns of a finding that matching looks at. */
  datatype MatchRow = MatchRow(
    id: int,
    serverId: int,
    targetPath: Option<string>,
    packageName: string,
    packagePurl: Option<string>,
    groupId: Option<int>)

  /** `fnmatch.fnmatchcase(name, pattern)`. */
  type Glob = (string, string) -> bool

  /** `s.split("@", 1)[0]`. */
  function BeforeAt(s: string): string {
    if s == "" || s[0] == '@' then "" else [s[0]] + BeforeAt(s[1..])
  }

  predicate StartsWith(s: string, prefix: string) {
    prefix <= s
  }

  // ------------------------------------------------------------------ the path layer

  /** The length of a matching prefix without its leading slashes; 0 for no match. */
  function HitLength(target: string, prefix: string): nat {
    var normalized := LStripSlashes(prefix);
    if target != "" && normalized != "" && StartsWith(target, normalized) then |normalized| else 0
  }

  function LongestHit(target: string, prefixes: seq<string>): nat {
    if prefixes == [] then 0
    else
      var before, last := LongestHit(target, prefixes[..|prefixes| - 1]), HitLength(target, prefixes[|prefixes| - 1]);
      if last > before then last else before
  }

  /** The first group that reaches the longest hit, with that length. */
  function BestPath(target: string, groups: seq<ApplicationGroup>): Option<(nat, int)> {
    if groups == [] then None
    else
      var n := |groups| - 1;
      Better(BestPath(target, groups[..n]), LongestHit(target, groups[n].pathPrefixes), n)
  }

  function Better(best: Option<(nat, int)>, length: nat, n: int): Option<(nat, int)> {
    if length > (if best.Some? then best.value.0 else 0) then Some((length, n)) else best
  }

  lemma LongestHitSnoc(target: string, prefixes: seq<string>, m: nat)
    requires m < |prefixes|
    ensures
      var before, last := LongestHit(target, prefixes[..m]), HitLength(target, prefixes[m]);
      LongestHit(target, prefixes[..m + 1]) == if last > before then last else before
  {
    hide HitLength;
    assert prefixes[..m + 1][..m] == prefixes[..m];
  }

  lemma {:induction false} LongestHitIsMax(target: string, prefixes: seq<string>)
    ensures forall k :: 0 <= k < |prefixes| ==> HitLength(target, prefixes[k]) <= LongestHit(target, prefixes)
    ensures LongestHit(target, prefixes) > 0 ==>
      exists k :: 0 <= k < |prefixes| && HitLength(target, prefixes[k]) == LongestHit(target, prefixes)
  {
    hide HitLength;
    if prefixes != [] {
      LongestHitIsMax(target, prefixes[..|prefixes| - 1]);
      assert forall k :: 0 <= k < |prefixes| - 1 ==> prefixes[..|prefixes| - 1][k] == prefixes[k];
    }
  }

  /** Group `n` reaches a length that no group exceeds and no earlier group reaches. */
  ghost predicate WinsByPath(target: string, groups: seq<ApplicationGroup>, n: int, length: nat) {
    && 0 <= n < |groups| && length > 0
    && (exists p :: p in groups[n].pathPrefixes && HitLength(target, p) == length)
    && (forall k, p :: 0 <= k < |groups| && p in groups[k].pathPrefixes ==> HitLength(target, p) <= length)
    && (forall k, p :: 0 <= k < n && p in groups[k].pathPrefixes ==> HitLength(target, p) < length)
  }

  predicate HasPathHit(target: string, groups: seq<ApplicationGroup>) {
    exists k, p :: 0 <= k < |groups| && p in groups[k].pathPrefixes && HitLength(target, p) > 0
  }

  /** The longest normalised prefix among all groups wins, the first group on ties. */
  lemma {:induction false} LongestPrefixWins(target: string, groups: seq<ApplicationGroup>)
    ensures BestPath(target, groups).Some? <==> HasPathHit(target, groups)
    ensures BestPath(target, groups).Some? ==>
      WinsByPath(target, groups, BestPath(target, groups).value.1, BestPath(target, groups).value.0)
  {
    hide HitLength;
    if groups != [] {
      var n := |groups| - 1;
      LongestPrefixWins(target, groups[..n]);
      LongestHitIsMax(target, groups[n].pathPrefixes);
      assert forall k :: 0 <= k < n ==> groups[..n][k] == groups[k];
      var longest := LongestHit(target, groups[n].pathPrefixes);
      forall p | p in groups[n].pathPrefixes
        ensures HitLength(target, p) <= longest
      {}
      if longest > 0 {
        var k :| 0 <= k < |groups[n].pathPrefixes| && HitLength(target, groups[n].pathPrefixes[k]) == longest;
        assert groups[n].pathPrefixes[k] in groups[n].pathPrefixes;
      }
    }
  }

  // ------------------------------------------------------------------ the other layers

  predicate ExactHit(f: MatchRow, g: ApplicationGroup) {
    BeforeAt(f.packageName) != "" && BeforeAt(f.packageName) in g.pkgNameExact
  }

  predicate GlobHit(glob: Glob, f: MatchRow, g: ApplicationGroup) {
    exists k :: 0 <= k < |g.pkgNameGlob| && g.pkgNameGlob[k] != "" && glob(BeforeAt(f.packageName), g.pkgNameGlob[k])
  }

  predicate PurlHit(f: MatchRow, g: ApplicationGroup) {
    && OrEmpty(f.packagePurl) != ""
    && exists k ::
         && 0 <= k < |g.pkgPurlPattern| && g.pkgPurlPattern[k] != ""
         && StartsWith(OrEmpty(f.packagePurl), g.pkgPurlPattern[k])
  }

  datatype Layer = Exact | Globbed | Purl

  predicate LayerHit(glob: Glob, layer: Layer, f: MatchRow, g: ApplicationGroup) {
    match layer
    case Exact => ExactHit(f, g)
    case Globbed => GlobHit(glob, f, g)
    case Purl => PurlHit(f, g)
  }

  /** The first group that a layer matches. */
  function FirstHit(glob: Glob, layer: Layer, f: MatchRow, groups: seq<ApplicationGroup>): (r: Option<int>)
    ensures r.Some? ==> 0 <= r.value < |groups| && LayerHit(glob, layer, f, groups[r.value])
    ensures r.Some? ==> forall k :: 0 <= k < r.value ==> !LayerHit(glob, layer, f, groups[k])
    ensures r.None? ==> forall k :: 0 <= k < |groups| ==> !LayerHit(glob, layer, f, groups[k])
  {
    if groups == [] then None
    else
      var n := |groups| - 1;
      var before := FirstHit(glob, layer, f, groups[..n]);
      assert forall k :: 0 <= k < n ==> groups[..n][k] == groups[k];
      if before.Some? then before
      else if LayerHit(glob, layer, f, groups[n]) then Some(n) else None
  }

  function TargetOf(f: MatchRow): string {
    LStripSlashes(OrEmpty(f.targetPath))
  }

  /** The index of the matching group. */
  function MatchIndex(glob: Glob, f: MatchRow, groups: seq<ApplicationGroup>): (r: Option<int>)
    ensures r.Some? ==> 0 <= r.value < |groups|
  {
    var best := BestPath(TargetOf(f), groups);
    LongestPrefixWins(TargetOf(f), groups);
    if best.Some? then Some(best.value.1)
    else if FirstHit(glob, Exact, f, groups).Some? then FirstHit(glob, Exact, f, groups)
    else if FirstHit(glob, Globbed, f, groups).Some? then FirstHit(glob, Globbed, f, groups)
    else FirstHit(glob, Purl, f, groups)
  }

  /** A lower layer decides only when no group matches in a higher one. */
  lemma LayersInOrder(glob: Glob, f: MatchRow, groups: seq<ApplicationGroup>)
    ensures
      var r := MatchIndex(glob, f, groups);
      && (HasPathHit(TargetOf(f), groups) ==>
            r.Some? && exists length :: WinsByPath(TargetOf(f), groups, r.value, length))
      && (r.None? ==>
            && !HasPathHit(TargetOf(f), groups)
            && forall layer, k :: 0 <= k < |groups| ==> !LayerHit(glob, layer, f, groups[k]))
      && (r.Some? && !HasPathHit(TargetOf(f), groups) ==>
            exists layer :: IsFirstOfLayer(glob, f, groups, layer, r.value))
  {
    hide LayerHit, WinsByPath, HasPathHit, BestPath, FirstHit, TargetOf;
    LongestPrefixWins(TargetOf(f), groups);
    var r := MatchIndex(glob, f, groups);
    if r.Some? && BestPath(TargetOf(f), groups).None? {
      var layer := if FirstHit(glob, Exact, f, groups).Some? then Exact
                   else if FirstHit(glob, Globbed, f, groups).Some? then Globbed else Purl;
      assert IsFirstOfLayer(glob, f, groups, layer, r.value);
    }
    if r.None? {
      forall layer, k | 0 <= k < |groups|
        ensures !LayerHit(glob, layer, f, groups[k])
      {
        assert layer == Exact || layer == Globbed || layer == Purl;
        assert FirstHit(glob, layer, f, groups).None?;
      }
    }
  }

  /** Group `n` is the first one that the layer matches, and no earlier layer matches any group. */
  ghost predicate IsFirstOfLayer(glob: Glob, f: MatchRow, groups: seq<ApplicationGroup>, layer: Layer, n: int) {
    && 0 <= n < |groups| && LayerHit(glob, layer, f, groups[n])
    && (forall k :: 0 <= k < n ==> !LayerHit(glob, layer, f, groups[k]))
    && (layer != Exact ==> forall k :: 0 <= k < |groups| ==> !LayerHit(glob, Exact, f, groups[k]))
    && (layer == Purl ==> forall k :: 0 <= k < |groups| ==> !LayerHit(glob, Globbed, f, groups[k]))
  }

  // ------------------------------------------------------------------ leading slashes

  function NormalizedPrefixes(prefixes: seq<string>): seq<string> {
    seq(|prefixes|, k requires 0 <= k < |prefixes| => LStripSlashes(prefixes[k]))
  }

  function NormalizedLibrary(groups: seq<ApplicationGroup>): seq<ApplicationGroup> {
    seq(|groups|, k requires 0 <= k < |groups| =>
      groups[k].(pathPrefixes := NormalizedPrefixes(groups[k].pathPrefixes)))
  }

  lemma HitIgnoresSlashes(target: string, prefix: string)
    ensures HitLength(target, LStripSlashes(prefix)) == HitLength(target, prefix)
  {
    hide LStripSlashes, StartsWith;
  }

  lemma NormalizedSlices(prefixes: seq<string>)
    ensures |NormalizedPrefixes(prefixes)| == |prefixes|
    ensures prefixes != [] ==>
      var n, normalized := |prefixes| - 1, NormalizedPrefixes(prefixes);
      && normalized[..n] == NormalizedPrefixes(prefixes[..n]) && normalized[n] == LStripSlashes(prefixes[n])
      && normalized[..n + 1] == normalized && prefixes[..n + 1] == prefixes
    ensures prefixes == [] ==> NormalizedPrefixes(prefixes) == prefixes
  {
    hide LStripSlashes;
  }

  lemma {:induction false} LongestHitIgnoresSlashes(target: string, prefixes: seq<string>)
    ensures LongestHit(target, NormalizedPrefixes(prefixes)) == LongestHit(target, prefixes)
  {
    hide *;
    NormalizedSlices(prefixes);
    if prefixes != [] {
      var n := |prefixes| - 1;
      var normalized := NormalizedPrefixes(prefixes);
      LongestHitIgnoresSlashes(target, prefixes[..n]);
      HitIgnoresSlashes(target, prefixes[n]);
      LongestHitSnoc(target, normalized, n);
      LongestHitSnoc(target, prefixes, n);
    }
  }

  lemma {:induction false} BestPathIgnoresSlashes(target: string, groups: seq<ApplicationGroup>)
    ensures BestPath(target, NormalizedLibrary(groups)) == BestPath(target, groups)
  {
    if groups != [] {
      var n := |groups| - 1;
      hide LongestHit, NormalizedPrefixes;
      BestPathIgnoresSlashes(target, groups[..n]);
      assert NormalizedLibrary(groups)[..n] == NormalizedLibrary(groups[..n]);
      LongestHitIgnoresSlashes(target, groups[n].pathPrefixes);
      assert NormalizedLibrary(groups)[n].pathPrefixes == NormalizedPrefixes(groups[n].pathPrefixes);
    }
  }

  /** Groups that agree on the columns of the last three layers match alike there. */
  lemma {:induction false} FirstHitCongruence(glob: Glob, layer: Layer, f: MatchRow, a: seq<ApplicationGroup>,
                                              b: seq<ApplicationGroup>)
    requires |a| == |b|
    requires forall k :: 0 <= k < |a| ==>
      a[k].pkgNameExact == b[k].pkgNameExact && a[k].pkgNameGlob == b[k].pkgNameGlob &&
        a[k].pkgPurlPattern == b[k].pkgPurlPattern
    ensures FirstHit(glob, layer, f, a) == FirstHit(glob, layer, f, b)
  {
    if a != [] {
      var n := |a| - 1;
      FirstHitCongruence(glob, layer, f, a[..n], b[..n]);
      assert LayerHit(glob, layer, f, a[n]) == LayerHit(glob, layer, f, b[n]);
    }
  }

  /** Leading slashes of the target and of the stored prefixes change no match. */
  lemma MatchIgnoresSlashes(glob: Glob, f: MatchRow, groups: seq<ApplicationGroup>)
    ensures MatchIndex(glob, f, NormalizedLibrary(groups)) == MatchIndex(glob, f, groups)
    ensures MatchIndex(glob, f.(targetPath := Some("/" + OrEmpty(f.targetPath))), groups) == MatchIndex(glob, f, groups)
    ensures MatchIndex(glob, f.(targetPath := Some(TargetOf(f))), groups) == MatchIndex(glob, f, groups)
  {
    TargetsIgnoreSlashes(f);
    hide BestPath, FirstHit, LStripSlashes, NormalizedLibrary, TargetOf;
    var slashed, stripped := f.(targetPath := Some("/" + OrEmpty(f.targetPath))), f.(targetPath := Some(TargetOf(f)));
    SameTargetSameMatch(glob, f, slashed, groups);
    SameTargetSameMatch(glob, f, stripped, groups);
    BestPathIgnoresSlashes(TargetOf(f), groups);
    LibraryColumns(groups);
    FirstHitCongruence(glob, Exact, f, NormalizedLibrary(groups), groups);
    FirstHitCongruence(glob, Globbed, f, NormalizedLibrary(groups), groups);
    FirstHitCongruence(glob, Purl, f, NormalizedLibrary(groups), groups);
  }

  lemma TargetsIgnoreSlashes(f: MatchRow)
    ensures TargetOf(f.(targetPath := Some("/" + OrEmpty(f.targetPath)))) == TargetOf(f)
    ensures TargetOf(f.(targetPath := Some(TargetOf(f)))) == TargetOf(f)
  {
    assert ("/" + OrEmpty(f.targetPath))[1..] == OrEmpty(f.targetPath);
  }

  /** Normalising changes the prefixes only. */
  lemma LibraryColumns(groups: seq<ApplicationGroup>)
    ensures
      var library := NormalizedLibrary(groups);
      && |library| == |groups|
      && forall k :: 0 <= k < |groups| ==>
           && library[k].pkgNameExact == groups[k].pkgNameExact
           && library[k].pkgNameGlob == groups[k].pkgNameGlob
           && library[k].pkgPurlPattern == groups[k].pkgPurlPattern
  {
    hide NormalizedPrefixes;
  }

  lemma SameTargetSameMatch(glob: Glob, f: MatchRow, g: MatchRow, groups: seq<ApplicationGroup>)
    requires f.packageName == g.packageName && f.packagePurl == g.packagePurl && TargetOf(f) == TargetOf(g)
    ensures MatchIndex(glob, f, groups) == MatchIndex(glob, g, groups)
  {
    hide BestPath, FirstHit, LStripSlashes, TargetOf;
    FirstHitSameFinding(glob, Exact, f, g, groups);
    FirstHitSameFinding(glob, Globbed, f, g, groups);
    FirstHitSameFinding(glob, Purl, f, g, groups);
  }

  lemma {:induction false} FirstHitSameFinding(glob: Glob, layer: Layer, f: MatchRow, g: MatchRow,
                                               groups: seq<ApplicationGroup>)
    requires f.packageName == g.packageName && f.packagePurl == g.packagePurl
    ensures FirstHit(glob, layer, f, groups) == FirstHit(glob, layer, g, groups)
  {
    if groups != [] {
      var n := |groups| - 1;
      FirstHitSameFinding(glob, layer, f, g, groups[..n]);
      assert LayerHit(glob, layer, f, groups[n]) == LayerHit(glob, layer, g, groups[n]);
    }
  }

  // ------------------------------------------------------------------ the matcher object

  class Matcher {
    var groups: seq<ApplicationGroup>
    var loaded: bool

    constructor ()
      ensures groups == [] && !loaded
    {
      groups, loaded := [], false;
    }

    method Reload(rows: seq<ApplicationGroup>)
      modifies this
      ensures groups == rows && loaded
    {
      groups, loaded := rows, true;
    }

    /** `match`: the group, `None` while nothing is loaded. */
    method Match(glob: Glob, f: MatchRow) returns (result: Option<ApplicationGroup>)
      ensures !loaded ==> result == None
      ensures loaded ==> result == GroupAt(groups, MatchIndex(glob, f, groups))
    {
      if !loaded {
        return None;
      }
      var target := LStripSlashes(OrEmpty(f.targetPath));
      var best: Option<(nat, int)> := None;
      if target != "" {
        best := LongestPath(target);
      } else {
        NoPathWithoutTarget(groups);
      }
      hide BestPath, FirstHit, LStripSlashes;
      if best.Some? {
        LongestPrefixWins(target, groups);
        return Some(groups[best.value.1]);
      }
      var found := FirstOfLayer(glob, Exact, f);
      if found.None? {
        found := FirstOfLayer(glob, Globbed, f);
      }
      if found.None? {
        found := FirstOfLayer(glob, Purl, f);
      }
      result := GroupAt(groups, found);
    }

    /** The two loops over all prefixes of all groups. */
    method LongestPath(target: string) returns (best: Option<(nat, int)>)
      requires target != ""
      ensures best == BestPath(target, groups)
    {
      best := None;
      for n := 0 to |groups|
        invariant best == BestPath(target, groups[..n])
      {
        var prefixes := groups[n].pathPrefixes;
        assert Better(best, 0, n) == best;
        for m := 0 to |prefixes|
          invariant best == Better(BestPath(target, groups[..n]), LongestHit(target, prefixes[..m]), n)
        {
          hide BestPath, LongestHit, LStripSlashes, StartsWith;
          LongestHitSnoc(target, prefixes, m);
          var normalized := LStripSlashes(prefixes[m]);
          if prefixes[m] != "" && normalized != "" && StartsWith(target, normalized) {
            if best.None? || |normalized| > best.value.0 {
              best := Some((|normalized|, n));
            }
          }
        }
        assert prefixes[..|prefixes|] == prefixes;
        assert groups[..n + 1][..n] == groups[..n];
      }
      assert groups[..|groups|] == groups;
    }

    /** One of the three loops that return at the first group they match. */
    method FirstOfLayer(glob: Glob, layer: Layer, f: MatchRow) returns (found: Option<int>)
      ensures found == FirstHit(glob, layer, f, groups)
    {
      for n := 0 to |groups|
        invariant forall k :: 0 <= k < n ==> !LayerHit(glob, layer, f, groups[k])
      {
        if LayerHit(glob, layer, f, groups[n]) {
          return Some(n);
        }
      }
      found := None;
    }
  }

  function GroupAt(groups: seq<ApplicationGroup>, n: Option<int>): Option<ApplicationGroup>
    requires n.Some? ==> 0 <= n.value < |groups|
  {
    if n.None? then None else Some(groups[n.value])
  }

  lemma {:induction false} NoPathWithoutTarget(groups: seq<ApplicationGroup>)
    ensures BestPath("", groups).None?
  {
    if groups != [] {
      NoPathWithoutTarget(groups[..|groups| - 1]);
      LongestHitIsMax("", groups[|groups| - 1].pathPrefixes);
    }
  }
}
