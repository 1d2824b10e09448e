/**
 * Query strings as lists of key/value pairs, the field parsers the two filter schemas share, and
 * the override of printed pairs.
 */
module QueryParams {
  import opened Models
  import opened Sequences
  import opened Text

  type Params = seq<(string, string)>

  const Q_MAX_LEN := 128

  const BOOL_TRUE_TOKENS: set<string> := {"1", "true", "on", "yes"}
  const VALID_STATUS: set<string> := {"open", "acknowledged", "resolved", "all"}
  const VALID_DIRS: set<string> := {"asc", "desc"}
  const VALID_SEVERITIES: set<string> := {"critical", "high", "medium", "low"}
  const VALID_RISK_BANDS: set<string> := {"escalate", "act", "mitigate", "pending", "unknown", "monitor", "noise"}
  const VALID_ACTION_REQUIRED: set<string> := {"yes", "no"}

  // ------------------------------------------------------------------ lookup

  function Own(pair: (string, string), key: string): seq<string> {
    if pair.0 == key then [pair.1] else []
  }

  /** `args.getlist(key)`. */
  function GetList(args: Params, key: string): seq<string> {
    if args == [] then []
    else Own(args[0], key) + GetList(args[1..], key)
  }

  /** `args.get(key)`: the first value. */
  function Get(args: Params, key: string): Option<string> {
    var values := GetList(args, key);
    if values == [] then None else Some(values[0])
  }

  lemma {:induction false} GetListConcat(a: Params, b: Params, key: string)
    ensures GetList(a + b, key) == GetList(a, key) + GetList(b, key)
  {
    hide GetList;
    if a == [] {
      assert a + b == b;
      GetListOfNone(key);
    } else {
      GetListConcat(a[1..], b, key);
      GetListHead(a, key);
      GetListHead(a + b, key);
      assert (a + b)[1..] == a[1..] + b && (a + b)[0] == a[0];
      Associative(Own(a[0], key), GetList(a[1..], key), GetList(b, key));
    }
  }

  lemma GetListHead(args: Params, key: string)
    requires args != []
    ensures GetList(args, key) == Own(args[0], key) + GetList(args[1..], key)
  {}

  lemma GetListOfNone(key: string)
    ensures GetList([], key) == []
  {}

  // ------------------------------------------------------------------ field parsers

  /** `(args.get(key) or default).strip().lower()`. */
  function Token(value: Option<string>, default: string): string {
    Lower(Strip(if value.None? || value.value == "" then default else value.value))
  }

  /** A whitelisted token; anything else falls back to the default. */
  function Choice(value: Option<string>, valid: set<string>, default: string): string {
    var t := Token(value, default);
    if t in valid then t else default
  }

  /** A whitelisted token; anything else is ignored. */
  function OptionalChoice(value: Option<string>, valid: set<string>): Option<string> {
    var t := Token(value, "");
    if t in valid then Some(t) else None
  }

  function ParseBool(value: Option<string>): bool {
    value.Some? && Lower(Strip(value.value)) in BOOL_TRUE_TOKENS
  }

  /** The search text: stripped, cut, never empty. */
  function CleanText(value: Option<string>): Option<string> {
    if value.None? then None
    else
      var cleaned := Strip(value.value);
      if cleaned == "" then None
      else if |cleaned| <= Q_MAX_LEN then Some(cleaned)
      else Some(cleaned[..Q_MAX_LEN])
  }

  /** A positive integer; anything else is ignored. */
  function PositiveInt(value: Option<string>): (r: Option<int>)
    ensures r.Some? ==> r.value >= 1
  {
    var raw := Strip(if value.None? then "" else value.value);
    if raw == "" then None
    else
      match ParseInt(raw)
      case None => None
      case Some(n) => if n >= 1 then Some(n) else None
  }

  // ------------------------------------------------------------------ what parses back

  /** Lower-case ASCII words: what the whitelists and tag names consist of. */
  predicate IsWord(s: string) {
    s != "" && forall c :: c in s ==> 'a' <= c <= 'z' || IsDigit(c) || c in {'.', '_', '-'}
  }

  lemma WordIsFixed(s: string)
    requires IsWord(s)
    ensures Strip(s) == s && Lower(s) == s
  {
    forall k | 0 <= k < |s|
      ensures LowerChar(s[k]) == s[k] && !IsSpace(s[k])
    {
      WordChar(s[k]);
    }
    hide LowerChar, IsSpace, Strip, IsWord;
    assert Trimmed(s);
    assert Lower(s) == s;
  }

  lemma WordChar(c: char)
    requires 'a' <= c <= 'z' || IsDigit(c) || c in {'.', '_', '-'}
    ensures LowerChar(c) == c && !IsSpace(c)
  {}

  predicate Words(valid: set<string>) {
    forall t :: t in valid ==> IsWord(t)
  }

  lemma StatusAndSeveritiesAreWords()
    ensures Words(VALID_STATUS) && Words(VALID_SEVERITIES)
  {}

  lemma DirsAndActionsAreWords()
    ensures Words(VALID_DIRS) && Words(VALID_ACTION_REQUIRED)
  {}

  lemma BandsAreWords()
    ensures Words(VALID_RISK_BANDS)
  {}

  /** A printed field is left out exactly at its default, and parses back. */
  lemma ChoiceParsesBack(t: string, valid: set<string>, default: string)
    requires Words(valid) && t in valid && default in valid
    ensures Choice(if t != default then Some(t) else None, valid, default) == t
  {
    WordIsFixed(t);
    WordIsFixed(default);
  }

  lemma OptionalChoiceParsesBack(t: Option<string>, valid: set<string>)
    requires Words(valid) && (t.Some? ==> t.value in valid)
    ensures OptionalChoice(t, valid) == t
  {
    if t.Some? {
      WordIsFixed(t.value);
    } else {
      assert Strip("") == "" && Lower("") == "";
      assert !IsWord("");
    }
  }

  lemma BoolParsesBack(b: bool)
    ensures ParseBool(if b then Some("1") else None) == b
  {
    WordIsFixed("1");
  }

  lemma PositiveIntParsesBack(n: Option<int>)
    requires n.Some? ==> n.value >= 1
    ensures PositiveInt(if n.Some? then Some(PrintNat(n.value)) else None) == n
  {
    if n.Some? {
      hide PrintNat, ParseInt, Strip, IsDigit, IsSpace;
      var s := PrintNat(n.value);
      DigitsAreTrimmed(s);
      ParsePrinted(n.value);
    }
  }

  lemma DigitsAreTrimmed(s: string)
    requires s != "" && forall c :: c in s ==> IsDigit(c)
    ensures Trimmed(s)
  {
    assert s[0] in s && s[|s| - 1] in s;
  }

  /** What the search parser returns: text without leading space, of bounded length. */
  predicate IsSearch(q: Option<string>) {
    q.Some? ==> q.value != "" && |q.value| <= Q_MAX_LEN && !IsSpace(q.value[0])
  }

  predicate EndsInSpace(q: Option<string>) {
    q.Some? && q.value != "" && IsSpace(q.value[|q.value| - 1])
  }

  /** The stripped search text is longer than the limit and has a space at the last kept position. */
  predicate CutsAtSpace(value: Option<string>) {
    value.Some? && |Strip(value.value)| > Q_MAX_LEN && IsSpace(Strip(value.value)[Q_MAX_LEN - 1])
  }

  lemma CutsAtSpaceIff(value: Option<string>)
    ensures EndsInSpace(CleanText(value)) <==> CutsAtSpace(value)
  {
    hide Strip, IsSpace;
  }

  /** A search of 127 letters, a space and one more letter is cut after the space. */
  lemma CutsAtSpaceWitness()
    ensures CutsAtSpace(Some(seq(Q_MAX_LEN - 1, i => 'x') + " y"))
  {
    var q := seq(Q_MAX_LEN - 1, i => 'x') + " y";
    assert q[0] == 'x' && q[|q| - 1] == 'y' && q[Q_MAX_LEN - 1] == ' ';
    assert Trimmed(q);
  }

  function WithoutTrailingSpace(q: Option<string>): (r: Option<string>)
    ensures q.None? ==> r.None?
  {
    if q.None? then None else Some(RStrip(q.value))
  }

  lemma CleanTextIsSearch(value: Option<string>)
    ensures IsSearch(CleanText(value))
  {}

  /** Parsing a printed search again only removes the space that the cut left at its end. */
  lemma SearchParsesBack(q: Option<string>)
    requires IsSearch(q)
    ensures CleanText(q) == WithoutTrailingSpace(q)
    ensures IsSearch(CleanText(q)) && !EndsInSpace(CleanText(q))
    ensures CleanText(q) == q <==> !EndsInSpace(q)
  {
    if q.Some? {
      assert Strip(q.value) == RStrip(q.value);
      RStripKeepsHead(q.value);
    }
  }

  // ------------------------------------------------------------------ printing

  /** The pairs of the fields that are present, in order. */
  function Present(fields: seq<(string, Option<string>)>): Params {
    if fields == [] then []
    else (if fields[0].1.Some? then [(fields[0].0, fields[0].1.value)] else []) + Present(fields[1..])
  }

  predicate DistinctNames(fields: seq<(string, Option<string>)>) {
    forall i, j :: 0 <= i < j < |fields| ==> fields[i].0 != fields[j].0
  }

  lemma {:induction false} PresentLacks(fields: seq<(string, Option<string>)>, key: string)
    requires forall i :: 0 <= i < |fields| ==> fields[i].0 != key
    ensures GetList(Present(fields), key) == []
  {
    if fields != [] {
      PresentLacks(fields[1..], key);
      var first := if fields[0].1.Some? then [(fields[0].0, fields[0].1.value)] else [];
      GetListConcat(first, Present(fields[1..]), key);
    }
  }

  /** Looking up a printed field gives the field back, and only once. */
  lemma {:induction false} PresentLookup(fields: seq<(string, Option<string>)>, i: nat)
    requires DistinctNames(fields) && i < |fields|
    ensures GetList(Present(fields), fields[i].0) == if fields[i].1.Some? then [fields[i].1.value] else []
    ensures Get(Present(fields), fields[i].0) == fields[i].1
  {
    var first := if fields[0].1.Some? then [(fields[0].0, fields[0].1.value)] else [];
    GetListConcat(first, Present(fields[1..]), fields[i].0);
    if i == 0 {
      PresentLacks(fields[1..], fields[0].0);
    } else {
      PresentLookup(fields[1..], i - 1);
    }
  }

  // ------------------------------------------------------------------ overrides

  predicate DistinctKeys(params: Params) {
    forall i, j :: 0 <= i < j < |params| ==> params[i].0 != params[j].0
  }

  predicate HasKey(params: Params, key: string) {
    exists i :: 0 <= i < |params| && params[i].0 == key
  }

  function Substituted(pair: (string, string), override: Params): (string, string) {
    match Get(override, pair.0)
    case Some(v) => (pair.0, v)
    case None => pair
  }

  /** The printed pairs with the overridden values. */
  function Replaced(parts: Params, override: Params): Params {
    if parts == [] then []
    else
      var before, last := parts[..|parts| - 1], parts[|parts| - 1];
      Replaced(before, override) + [Substituted(last, override)]
  }

  /** The overrides whose key was not printed. */
  function Added(parts: Params, override: Params): Params {
    if override == [] then []
    else
      var before, last := override[..|override| - 1], override[|override| - 1];
      Added(parts, before) + if HasKey(parts, last.0) then [] else [last]
  }

  /** The override loops; `override` is a dictionary, so its keys are distinct. */
  method ApplyOverride(parts: Params, override: Params) returns (newParts: Params)
    requires DistinctKeys(override)
    ensures newParts == Replaced(parts, override) + Added(parts, override)
  {
    newParts := [];
    for k := 0 to |parts|
      invariant newParts == Replaced(parts[..k], override)
    {
      assert parts[..k + 1][..k] == parts[..k];
      match Get(override, parts[k].0) {
        case Some(v) => newParts := newParts + [(parts[k].0, v)];
        case None => newParts := newParts + [parts[k]];
      }
    }
    assert parts[..|parts|] == parts;
    for k := 0 to |override|
      invariant newParts == Replaced(parts, override) + Added(parts, override[..k])
    {
      assert override[..k + 1][..k] == override[..k];
      if !HasKey(parts, override[k].0) {
        newParts := newParts + [override[k]];
      }
    }
    assert override[..|override|] == override;
  }

  lemma {:induction false} ReplacedLookup(parts: Params, override: Params, key: string)
    requires DistinctKeys(parts)
    ensures GetList(Replaced(parts, override), key)
         == if !HasKey(parts, key) then []
            else match Get(override, key) case Some(v) => [v] case None => GetList(parts, key)
  {
    if parts == [] {
    } else {
      var before, last := parts[..|parts| - 1], parts[|parts| - 1];
      assert parts == before + [last];
      ReplacedLookup(before, override, key);
      LastKeyIsNew(parts);
      assert Replaced(parts, override) == Replaced(before, override) + [Substituted(last, override)];
      hide GetList, Get, HasKey, Replaced, DistinctKeys;
      GetListSnoc(Replaced(before, override), Substituted(last, override), key);
      GetListSnoc(before, last, key);
      HasKeySnoc(before, last, key);
      if !HasKey(before, key) {
        AbsentKey(before, key);
      }
    }
  }

  lemma GetListSnoc(params: Params, last: (string, string), key: string)
    ensures GetList(params + [last], key) == GetList(params, key) + Own(last, key)
  {
    GetListConcat(params, [last], key);
    GetListHead([last], key);
    GetListOfNone(key);
    hide GetList;
    assert [last][1..] == [];
  }

  lemma LastKeyIsNew(params: Params)
    requires DistinctKeys(params) && params != []
    ensures DistinctKeys(params[..|params| - 1])
    ensures !HasKey(params[..|params| - 1], params[|params| - 1].0)
  {}

  lemma HasKeySnoc(params: Params, last: (string, string), key: string)
    ensures HasKey(params + [last], key) <==> HasKey(params, key) || last.0 == key
  {
    var more := params + [last];
    assert more[|params|] == last;
    assert forall i :: 0 <= i < |params| ==> more[i] == params[i];
  }

  lemma {:induction false} AbsentKey(params: Params, key: string)
    requires !HasKey(params, key)
    ensures GetList(params, key) == []
  {
    if params != [] {
      assert params[0].0 != key;
      assert forall i :: 0 <= i < |params| - 1 ==> params[1..][i] == params[i + 1];
      AbsentKey(params[1..], key);
    }
  }

  lemma {:induction false} AddedLookup(parts: Params, override: Params, key: string)
    ensures GetList(Added(parts, override), key) == if HasKey(parts, key) then [] else GetList(override, key)
  {
    if override == [] {
    } else {
      var before, last := override[..|override| - 1], override[|override| - 1];
      assert override == before + [last];
      AddedLookup(parts, before, key);
      assert Added(parts, override) == Added(parts, before) + if HasKey(parts, last.0) then [] else [last];
      hide GetList, HasKey, Added;
      GetListSnoc(Added(parts, before), last, key);
      GetListSnoc(before, last, key);
      assert Added(parts, before) + [] == Added(parts, before);
    }
  }

  lemma {:induction false} DistinctLookup(params: Params, key: string)
    requires DistinctKeys(params)
    ensures |GetList(params, key)| <= 1
    ensures GetList(params, key) == [] <==> !HasKey(params, key)
  {
    if params != [] {
      DistinctLookup(params[1..], key);
      if params[0].0 == key {
        assert forall i :: 0 <= i < |params| - 1 ==> params[1..][i].0 != key;
        AbsentKey(params[1..], key);
      } else if HasKey(params, key) {
        var i :| 0 <= i < |params| && params[i].0 == key;
        assert params[1..][i - 1] == params[i];
      } else {
        AbsentKey(params, key);
      }
    }
  }

  /**
   * The override law: an overridden key has exactly the override's value, once; every other key
   * has what was printed.
   */
  lemma OverrideLookup(parts: Params, override: Params, key: string)
    requires DistinctKeys(parts) && DistinctKeys(override)
    ensures GetList(Replaced(parts, override) + Added(parts, override), key)
         == match Get(override, key) case Some(v) => [v] case None => GetList(parts, key)
  {
    ReplacedLookup(parts, override, key);
    AddedLookup(parts, override, key);
    GetListConcat(Replaced(parts, override), Added(parts, override), key);
    DistinctLookup(override, key);
    if !HasKey(parts, key) {
      AbsentKey(parts, key);
    }
  }

  lemma {:induction false} PresentDistinct(fields: seq<(string, Option<string>)>)
    requires DistinctNames(fields)
    ensures DistinctKeys(Present(fields))
    ensures forall i :: 0 <= i < |Present(fields)| ==> exists j ::
              0 <= j < |fields| && fields[j].0 == Present(fields)[i].0
  {
    if fields != [] {
      var rest := Present(fields[1..]);
      PresentDistinct(fields[1..]);
      forall i | 0 <= i < |rest|
        ensures exists j :: 1 <= j < |fields| && fields[j].0 == rest[i].0
      {
        var j :| 0 <= j < |fields[1..]| && fields[1..][j].0 == rest[i].0;
        assert fields[j + 1].0 == rest[i].0;
      }
      if fields[0].1.Some? {
        assert Present(fields) == [(fields[0].0, fields[0].1.value)] + rest;
      } else {
        assert Present(fields) == rest;
      }
    }
  }

  /** The printed pairs with overrides applied, seen through the lookup. */
  ghost predicate OverriddenBy(printed: Params, override: Params, parts: Params) {
    forall key ::
      GetList(parts, key) == match Get(override, key) case Some(v) => [v] case None => GetList(printed, key)
  }

  /** The common end of both serialisers: the present fields as pairs, then the override loops. */
  method PrintFields(fields: seq<(string, Option<string>)>, override: Params) returns (parts: Params)
    requires DistinctNames(fields) && DistinctKeys(override)
    ensures override == [] ==> parts == Present(fields)
    ensures OverriddenBy(Present(fields), override, parts)
  {
    parts := Present(fields);
    PresentDistinct(fields);
    forall key {
      OverrideLookup(Present(fields), override, key);
    }
    if override == [] {
      assert Added(Present(fields), []) == [];
      NothingReplaced(Present(fields));
    } else {
      parts := ApplyOverride(parts, override);
    }
  }

  lemma {:induction false} NothingReplaced(parts: Params)
    ensures Replaced(parts, []) == parts
  {
    if parts != [] {
      NothingReplaced(parts[..|parts| - 1]);
    }
  }
}
