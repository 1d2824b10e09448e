/** What each layer of the matcher compares, in terms of the finding's and the group's own texts. */
module MatchMeaning {
  import opened Models
  import opened Text
  import opened PatternSanitizer
  import opened GroupMatcher
  import opened GroupAssignment
  import AnswerMeaning
  import ScanMeaning

  /** A prefix hits when the target begins with it, leading slashes aside; its length is what it has besides them. */
  lemma HitSays(target: string, prefix: string, p: string)
    requires AnswerMeaning.IsWithoutSlashes(prefix, p)
    ensures HitLength(target, prefix) == if p != "" && |p| <= |target| && target[..|p|] == p then |p| else 0
  {
    AnswerMeaning.WithoutSlashesSays(prefix, p);
    hide LStripSlashes, AnswerMeaning.IsWithoutSlashes;
    assert p <= target <==> |p| <= |target| && target[..|p|] == p;
  }

  /** A path match compares the finding's target path without its leading slashes; no path is the empty one. */
  lemma TargetSays(f: MatchRow)
    ensures AnswerMeaning.IsWithoutSlashes(if f.targetPath.Some? then f.targetPath.value else "", TargetOf(f))
  {
    AnswerMeaning.WithoutSlashesSays(OrEmpty(f.targetPath), TargetOf(f));
    hide LStripSlashes, AnswerMeaning.IsWithoutSlashes;
  }

  /** The name layers read a stored name up to its path suffix: `name@path` matches exactly like `name`. */
  lemma SuffixChangesNoNameMatch(glob: Glob, f: MatchRow, g: ApplicationGroup, name: string, suffix: string)
    requires '@' !in name && (suffix == "" || suffix[0] == '@') && f.packageName == name + suffix
    ensures LayerHit(glob, Exact, f, g) <==>
              name != "" && exists k :: 0 <= k < |g.pkgNameExact| && g.pkgNameExact[k] == name
    ensures LayerHit(glob, Globbed, f, g) <==>
              exists k :: 0 <= k < |g.pkgNameGlob| && g.pkgNameGlob[k] != "" && glob(name, g.pkgNameGlob[k])
  {
    ScanMeaning.BeforeAtOf(name, suffix);
    hide BeforeAt;
  }

  /** A purl pattern hits when the finding's purl begins with it. */
  lemma PurlHitSays(glob: Glob, f: MatchRow, g: ApplicationGroup)
    ensures LayerHit(glob, Purl, f, g) <==>
              && f.packagePurl.Some? && f.packagePurl.value != ""
              && exists k ::
                   var purl := f.packagePurl.value;
                   && 0 <= k < |g.pkgPurlPattern| && g.pkgPurlPattern[k] != ""
                   && |g.pkgPurlPattern[k]| <= |purl| && purl[..|g.pkgPurlPattern[k]|] == g.pkgPurlPattern[k]
  {}

  /** Every finding of another server, and every finding with a group, is outside a pass. */
  lemma UngroupedSays(findings: MatchTable, serverId: int, i: int)
    ensures i in Ungrouped(findings, serverId) <==>
              i in findings && findings[i].serverId == serverId && findings[i].groupId == None
  {}

  // ------------------------------------------------------------------ path buckets

  predicate IsSegment(s: string) {
    s != "" && '/' !in s
  }

  /** The bucket of a path is its first three segments. */
  lemma BucketIsThreeSegments(a: string, b: string, c: string, rest: string)
    requires IsSegment(a) && IsSegment(b) && IsSegment(c)
    ensures PathBucket(a + ['/'] + (b + ['/'] + (c + ['/'] + rest))) == "/" + a + "/" + b + "/" + c
  {
    SplitFirst(c, '/', rest);
    SplitFirst(b, '/', c + ['/'] + rest);
    SplitFirst(a, '/', b + ['/'] + (c + ['/'] + rest));
    var parts := Split(rest, '/');
    hide Split;
    PartsOf(a, [b] + ([c] + parts));
    PartsOf(b, [c] + parts);
    PartsOf(c, parts);
    var more := NonEmptyParts(parts);
    hide NonEmptyParts, Join;
    assert ([a] + ([b] + ([c] + more)))[..3] == [a, b, c];
    JoinThree("/", a, b, c);
    ThreeParts("/", a, b, c);
  }

  lemma PartsOf(head: string, rest: seq<string>)
    requires head != ""
    ensures NonEmptyParts([head] + rest) == [head] + NonEmptyParts(rest)
  {
    assert ([head] + rest)[1..] == rest;
  }

  lemma ThreeParts(slash: string, a: string, b: string, c: string)
    ensures slash + (a + slash + (b + slash + c)) == slash + a + slash + b + slash + c
  {}
}
