/** The checks on match patterns that the model proposes. */
module PatternSanitizer {
  import opened Models
  import opened Text
  import opened Json

  const PATH_PREFIX_MAX := 256
  const PKG_NAME_MAX := 256
  const PKG_PURL_MAX := 512

  predicate Forbidden(s: string) {
    s in {"/", "*", "**", ""}
  }

  predicate IsAsciiNoNul(s: string) {
    forall k :: 0 <= k < |s| ==> 0 < s[k] as int < 128
  }

  /** `s.lstrip("/")`. */
  function LStripSlashes(s: string): (r: string)
    ensures r == "" || r[0] != '/'
    ensures |r| <= |s|
    ensures s == "" || s[0] != '/' ==> r == s
  {
    if s != "" && s[0] == '/' then LStripSlashes(s[1..]) else s
  }

  /** Only slashes are cut off, and only at the front. */
  lemma {:induction false} LStripSlashesCuts(s: string)
    ensures LStripSlashes(s) == s[|s| - |LStripSlashes(s)|..]
    ensures forall k :: 0 <= k < |s| - |LStripSlashes(s)| ==> s[k] == '/'
  {
    if s != "" && s[0] == '/' {
      LStripSlashesCuts(s[1..]);
      var r := LStripSlashes(s[1..]);
      hide LStripSlashes;
      assert s[1..][|s| - 1 - |r|..] == s[|s| - |r|..];
      assert forall k :: 1 <= k < |s| - |r| ==> s[k] == s[1..][k - 1];
    }
  }

  function SanitizePathPrefix(j: Json): Option<string> {
    if !j.Str? then None
    else
      var stripped := Strip(j.s);
      if Forbidden(stripped) || !IsAsciiNoNul(stripped) then None
      else
        var normalized := LStripSlashes(stripped);
        if Forbidden(normalized) || |normalized| > PATH_PREFIX_MAX then None else Some(normalized)
  }

  function SanitizeUpTo(j: Json, limit: nat): Option<string> {
    if !j.Str? then None
    else
      var stripped := Strip(j.s);
      if Forbidden(stripped) || |stripped| > limit || !IsAsciiNoNul(stripped) then None else Some(stripped)
  }

  function SanitizePkgName(j: Json): Option<string> {
    SanitizeUpTo(j, PKG_NAME_MAX)
  }

  function SanitizePurlPattern(j: Json): Option<string> {
    SanitizeUpTo(j, PKG_PURL_MAX)
  }

  /** `s.replace("*", "")`. */
  function WithoutStars(s: string): string {
    if s == "" then ""
    else if s[0] == '*' then WithoutStars(s[1..])
    else [s[0]] + WithoutStars(s[1..])
  }

  function SanitizePkgGlob(j: Json): Option<string> {
    if j.Str? && Strip(WithoutStars(Strip(j.s))) == "" then None else SanitizePkgName(j)
  }

  /** A glob survives only with a character that is neither a star nor whitespace. */
  lemma {:induction false} OnlyStarsIff(s: string)
    ensures Strip(WithoutStars(s)) == "" <==> forall k :: 0 <= k < |s| ==> s[k] == '*' || IsSpace(s[k])
  {
    WithoutStarsKeeps(s);
    StripEmptyIff(WithoutStars(s));
    var t := WithoutStars(s);
    if forall k :: 0 <= k < |s| ==> s[k] == '*' || IsSpace(s[k]) {
      forall k | 0 <= k < |t|
        ensures IsSpace(t[k])
      {
        assert t[k] in t;
      }
    }
    if forall k :: 0 <= k < |t| ==> IsSpace(t[k]) {
      forall k | 0 <= k < |s|
        ensures s[k] == '*' || IsSpace(s[k])
      {
        assert s[k] in s;
        assert s[k] == '*' || s[k] in t;
      }
    }
  }

  lemma {:induction false} WithoutStarsKeeps(s: string)
    ensures forall c :: c in WithoutStars(s) <==> c in s && c != '*'
  {
    if s != "" {
      WithoutStarsKeeps(s[1..]);
      assert s == [s[0]] + s[1..];
    }
  }

  lemma {:induction false} StripEmptyIff(s: string)
    ensures Strip(s) == "" <==> forall k :: 0 <= k < |s| ==> IsSpace(s[k])
  {
    LStripEmptyIff(s);
    var r := LStrip(s);
    if r != "" {
      RStripKeepsHead(r);
      LStripIsSuffix(s);
      assert s[|s| - |r|] == r[0];
    }
  }

  lemma {:induction false} LStripEmptyIff(s: string)
    ensures LStrip(s) == "" <==> forall k :: 0 <= k < |s| ==> IsSpace(s[k])
  {
    if s != "" && IsSpace(s[0]) {
      LStripEmptyIff(s[1..]);
      assert forall k :: 1 <= k < |s| ==> s[k] == s[1..][k - 1];
    }
  }

  /** Names, globs and purl patterns are fixed points: sanitising them again changes nothing. */
  lemma NamesAreFixedPoints(j: Json)
    ensures SanitizePkgName(j).Some? ==> SanitizePkgName(Str(SanitizePkgName(j).value)) == SanitizePkgName(j)
    ensures SanitizePurlPattern(j).Some? ==>
              SanitizePurlPattern(Str(SanitizePurlPattern(j).value)) == SanitizePurlPattern(j)
    ensures SanitizePkgGlob(j).Some? ==> SanitizePkgGlob(Str(SanitizePkgGlob(j).value)) == SanitizePkgGlob(j)
  {
    hide WithoutStars, IsAsciiNoNul, Strip, Forbidden;
  }

  /** Stored prefixes have the relative form, so the matcher's own normalisation leaves them alone. */
  lemma PrefixIsRelative(j: Json)
    requires SanitizePathPrefix(j).Some?
    ensures
      var p := SanitizePathPrefix(j).value;
      p != "" && p[0] != '/' && |p| <= PATH_PREFIX_MAX && LStripSlashes(p) == p && IsAsciiNoNul(p)
  {
    hide IsAsciiNoNul, Strip, Forbidden, LStripSlashes;
    var s := Strip(j.s);
    StoredIsNotForbidden(j);
    LStripSlashesCuts(s);
    AsciiSuffix(s, |s| - |LStripSlashes(s)|);
  }

  /**
   * A prefix is a fixed point unless whitespace follows its leading slashes: the strip comes
   * before the slashes go, so "/ x" is stored as " x".
   */
  lemma PrefixIsFixedPointIff(j: Json)
    requires SanitizePathPrefix(j).Some?
    ensures
      var p := SanitizePathPrefix(j).value;
      SanitizePathPrefix(Str(p)) == Some(p) <==> !IsSpace(p[0])
  {
    hide IsAsciiNoNul, Strip, Forbidden, LStripSlashes, IsSpace;
    var s := Strip(j.s);
    var p := LStripSlashes(s);
    StoredIsNotForbidden(j);
    LStripSlashesCuts(s);
    AsciiSuffix(s, |s| - |p|);
    assert p[|p| - 1] == s[|s| - 1];
    if IsSpace(p[0]) {
      LStripShortens(p);
    } else {
      assert Strip(p) == p;
    }
  }

  lemma StoredIsNotForbidden(j: Json)
    requires SanitizePathPrefix(j).Some?
    ensures !Forbidden(SanitizePathPrefix(j).value) && SanitizePathPrefix(j).value != ""
  {
    hide IsAsciiNoNul, Strip, LStripSlashes;
  }

  lemma AsciiSuffix(s: string, n: nat)
    requires IsAsciiNoNul(s) && n <= |s|
    ensures IsAsciiNoNul(s[n..])
  {}

  lemma LStripShortens(s: string)
    requires s != "" && IsSpace(s[0])
    ensures |Strip(s)| < |s|
  {
    assert LStrip(s) == LStrip(s[1..]);
  }

  /** The entries of a pattern list that survive, in order. */
  function Surviving(items: seq<Json>, sanitize: Json -> Option<string>): seq<string> {
    if items == [] then []
    else
      var last := sanitize(items[|items| - 1]);
      Surviving(items[..|items| - 1], sanitize) + if last.Some? then [last.value] else []
  }

  /** `_sanitize_list`; `None` is the rejection of a value that is no list. */
  method SanitizeList(raw: Json, sanitize: Json -> Option<string>) returns (out: Option<seq<string>>)
    ensures out == PatternsOf(raw, sanitize)
  {
    if raw == Null {
      return Some([]);
    }
    if !raw.List? {
      return None;
    }
    var cleaned: seq<string> := [];
    for n := 0 to |raw.items|
      invariant cleaned == Surviving(raw.items[..n], sanitize)
    {
      assert raw.items[..n + 1][..n] == raw.items[..n];
      var item := sanitize(raw.items[n]);
      if item.Some? {
        cleaned := cleaned + [item.value];
      }
    }
    assert raw.items[..|raw.items|] == raw.items;
    out := Some(cleaned);
  }

  function PatternsOf(raw: Json, sanitize: Json -> Option<string>): Option<seq<string>> {
    match raw
    case Null => Some([])
    case List(items) => Some(Surviving(items, sanitize))
    case _ => None
  }
}
