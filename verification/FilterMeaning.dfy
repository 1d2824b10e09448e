/**
 * What one parameter of a request does to a filter: which key sets which field, which words it
 * takes, and that case and padding do not matter.
 */
module FilterMeaning {
  import opened Models
  import opened Text
  import opened QueryParams
  import D = DashboardFilter
  import V = FindingsViewFilter

  // ------------------------------------------------------------------ case and padding

  predicate IsPadding(s: string) {
    forall k :: 0 <= k < |s| ==> s[k] == ' ' || s[k] == '\t' || s[k] == '\n' || s[k] == '\r'
  }

  /** The same word in other case. */
  predicate CaseVariant(u: string, w: string) {
    && |u| == |w|
    && forall k :: 0 <= k < |u| ==> u[k] == w[k] || ('a' <= w[k] <= 'z' && u[k] as int == w[k] as int - 32)
  }

  predicate IsToken(w: string) {
    w != "" && forall k :: 0 <= k < |w| ==>
      'a' <= w[k] <= 'z' || '0' <= w[k] <= '9' || w[k] == '.' || w[k] == '_' || w[k] == '-'
  }

  /** How a word is read. */
  function Word(raw: string): string {
    Lower(Strip(raw))
  }

  lemma PaddingIsSpace(c: char)
    requires c == ' ' || c == '\t' || c == '\n' || c == '\r'
    ensures IsSpace(c)
  {}

  lemma TokenChar(c: char, w: char)
    requires 'a' <= w <= 'z' || '0' <= w <= '9' || w == '.' || w == '_' || w == '-'
    requires c == w || ('a' <= w <= 'z' && c as int == w as int - 32)
    ensures !IsSpace(c) && LowerChar(c) == w
  {}

  lemma StripOneMore(s: string, c: char)
    requires IsSpace(c)
    ensures LStrip([c] + s) == LStrip(s) && RStrip(s + [c]) == RStrip(s)
  {
    hide IsSpace;
    assert ([c] + s)[1..] == s;
    assert (s + [c])[..|s|] == s;
  }

  lemma Snoc(u: string, padding: string)
    requires padding != ""
    ensures u + padding == u + padding[..|padding| - 1] + [padding[|padding| - 1]]
  {}

  lemma Cons(padding: string, u: string)
    requires padding != ""
    ensures padding + u == [padding[0]] + (padding[1..] + u)
  {}

  lemma {:induction false} LStripPadded(padding: string, u: string)
    requires IsPadding(padding) && (u != "" ==> !IsSpace(u[0]))
    ensures LStrip(padding + u) == u
  {
    hide IsSpace, LStrip;
    if padding == "" {
      assert padding + u == u;
    } else {
      LStripPadded(padding[1..], u);
      PaddingIsSpace(padding[0]);
      StripOneMore(padding[1..] + u, padding[0]);
      Cons(padding, u);
    }
  }

  lemma {:induction false} RStripPadded(u: string, padding: string)
    requires IsPadding(padding) && (u != "" ==> !IsSpace(u[|u| - 1]))
    ensures RStrip(u + padding) == u
  {
    hide IsSpace, RStrip;
    if padding == "" {
      assert u + padding == u;
    } else {
      var n := |padding| - 1;
      RStripPadded(u, padding[..n]);
      PaddingIsSpace(padding[n]);
      StripOneMore(u + padding[..n], padding[n]);
      Snoc(u, padding);
    }
  }

  /** A token is read as itself in any case and with any white space around it. */
  lemma WordIgnoresCaseAndPadding(before: string, u: string, behind: string, w: string)
    requires IsPadding(before) && IsPadding(behind) && IsToken(w) && CaseVariant(u, w)
    ensures Word(before + u + behind) == w
  {
    hide IsSpace, LowerChar, LStrip, RStrip;
    TokenInCase(u, w);
    StripPadded(before, u, behind);
  }

  lemma TokenInCase(u: string, w: string)
    requires IsToken(w) && CaseVariant(u, w)
    ensures u != "" && !IsSpace(u[0]) && !IsSpace(u[|u| - 1]) && Lower(u) == w
  {
    hide IsSpace, LowerChar;
    forall k | 0 <= k < |u|
      ensures !IsSpace(u[k]) && LowerChar(u[k]) == w[k]
    {
      TokenChar(u[k], w[k]);
    }
    assert Lower(u) == w;
  }

  lemma StripPadded(before: string, u: string, behind: string)
    requires IsPadding(before) && IsPadding(behind)
    requires u != "" && !IsSpace(u[0]) && !IsSpace(u[|u| - 1])
    ensures Strip(before + u + behind) == u
  {
    hide IsSpace, LStrip, RStrip, IsPadding;
    HeadOf(u, behind);
    LStripPadded(before, u + behind);
    RStripPadded(u, behind);
    assert before + u + behind == before + (u + behind);
  }

  lemma HeadOf(u: string, behind: string)
    requires u != ""
    ensures u + behind != "" && (u + behind)[0] == u[0]
  {}

  /** A word of the list, or the default. */
  function OneOf(raw: string, words: set<string>, default: string): string {
    if raw != "" && Word(raw) in words then Word(raw) else default
  }

  function SomeOf(raw: string, words: set<string>): Option<string> {
    if Word(raw) in words then Some(Word(raw)) else None
  }

  /** The search text: without surrounding white space, at most 128 characters, `None` when nothing is left. */
  predicate IsSearchOf(q: Option<string>, raw: string) {
    var s := Strip(raw);
    if s == "" then q == None else q == Some(s[..if |s| < 128 then |s| else 128])
  }

  lemma SearchSays(raw: string)
    ensures IsSearchOf(CleanText(Some(raw)), raw)
  {
    hide Strip;
    assert Strip(raw)[..|Strip(raw)|] == Strip(raw);
  }

  lemma GetOne(key: string, raw: string, k: string)
    ensures GetList([(key, raw)], k) == if k == key then [raw] else []
    ensures Get([(key, raw)], k) == if k == key then Some(raw) else None
  {
    assert [(key, raw)][1..] == [];
  }

  lemma DefaultWord(words: set<string>, default: string)
    requires Words(words) && default in words
    ensures Choice(None, words, default) == default && OptionalChoice(None, words) == None
  {
    WordIsFixed(default);
    assert Strip("") == "" && Lower("") == "";
    assert !IsWord("");
  }

  lemma ChoiceSays(raw: string, words: set<string>, default: string)
    requires Words(words) && default in words
    ensures Choice(Some(raw), words, default) == OneOf(raw, words, default)
    ensures OptionalChoice(Some(raw), words) == SomeOf(raw, words)
  {
    WordIsFixed(default);
    assert Strip("") == "" && Lower("") == "";
    assert !IsWord("");
  }

  // ------------------------------------------------------------------ the dashboard filter

  /** A request with one parameter: its key decides which field it sets, all others keep their default. */
  lemma DashboardOfOne(key: string, raw: string)
    ensures D.Parse([(key, raw)]) == D.Filter(
              if key == "tags" || key == "tag" then D.ValidTags(D.TagParts(Split(raw, ','))) else [],
              if key == "tags_mode" then OneOf(raw, {"or", "and"}, "or") else "or",
              if key == "severity" then SomeOf(raw, {"critical", "high", "medium", "low"}) else None,
              key == "kev_only" && Word(raw) in {"1", "true", "on", "yes"},
              key == "stale_only" && Word(raw) in {"1", "true", "on", "yes"},
              if key == "q" then CleanText(Some(raw)) else None,
              if key == "status" then OneOf(raw, {"open", "acknowledged", "resolved", "all"}, "open") else "open",
              if key == "sort" then OneOf(raw, {"risk", "server", "cve", "pkg", "epss", "cvss", "sev", "status",
                                                "first_seen", "group"}, "risk") else "risk",
              if key == "dir" then OneOf(raw, {"asc", "desc"}, "desc") else "desc",
              if key == "risk_band" then SomeOf(raw, {"escalate", "act", "mitigate", "pending", "unknown", "monitor",
                                                      "noise"}) else None,
              if key == "action_required" then SomeOf(raw, {"yes", "no"}) else None,
              if key == "application_group" then PositiveInt(Some(raw)) else None)
  {
    hide *;
    WordLists();
    D.ModesAreWords();
    D.SortsAreWords();
    StatusAndSeveritiesAreWords();
    DirsAndActionsAreWords();
    BandsAreWords();
    TagsOfOne(key, raw);
    OneChoice(key, raw, "tags_mode", D.VALID_TAGS_MODE, "or");
    OneOption(key, raw, "severity", VALID_SEVERITIES, "low");
    OneBool(key, raw, "kev_only");
    OneBool(key, raw, "stale_only");
    GetOne(key, raw, "q");
    OneChoice(key, raw, "status", VALID_STATUS, "open");
    OneChoice(key, raw, "sort", D.VALID_SORTS, "risk");
    OneChoice(key, raw, "dir", VALID_DIRS, "desc");
    OneOption(key, raw, "risk_band", VALID_RISK_BANDS, "act");
    OneOption(key, raw, "action_required", VALID_ACTION_REQUIRED, "no");
    GetOne(key, raw, "application_group");
    NothingGiven();
    NoTags();
    DashboardFields([(key, raw)]);
  }

  lemma WordLists()
    ensures D.VALID_TAGS_MODE == {"or", "and"}
    ensures VALID_DIRS == {"asc", "desc"} && VALID_ACTION_REQUIRED == {"yes", "no"}
    ensures D.VALID_SORTS == {"risk", "server", "cve", "pkg", "epss", "cvss", "sev", "status", "first_seen", "group"}
    ensures VALID_STATUS == {"open", "acknowledged", "resolved", "all"}
    ensures VALID_SEVERITIES == {"critical", "high", "medium", "low"}
    ensures VALID_RISK_BANDS == {"escalate", "act", "mitigate", "pending", "unknown", "monitor", "noise"}
  {}

  lemma DashboardFields(args: Params)
    ensures D.Parse(args) == D.Filter(
              D.ValidTags(D.RawTags(args)),
              Choice(Get(args, "tags_mode"), D.VALID_TAGS_MODE, "or"),
              OptionalChoice(Get(args, "severity"), VALID_SEVERITIES),
              ParseBool(Get(args, "kev_only")),
              ParseBool(Get(args, "stale_only")),
              CleanText(Get(args, "q")),
              Choice(Get(args, "status"), VALID_STATUS, "open"),
              Choice(Get(args, "sort"), D.VALID_SORTS, "risk"),
              Choice(Get(args, "dir"), VALID_DIRS, "desc"),
              OptionalChoice(Get(args, "risk_band"), VALID_RISK_BANDS),
              OptionalChoice(Get(args, "action_required"), VALID_ACTION_REQUIRED),
              PositiveInt(Get(args, "application_group")))
  {
    hide Choice, OptionalChoice, ParseBool, CleanText, PositiveInt, D.ValidTags, D.RawTags, Get;
  }

  lemma OneChoice(key: string, raw: string, k: string, words: set<string>, default: string)
    requires Words(words) && default in words
    ensures Choice(Get([(key, raw)], k), words, default) == if key == k then OneOf(raw, words, default) else default
  {
    hide *;
    GetOne(key, raw, k);
    DefaultWord(words, default);
    ChoiceSays(raw, words, default);
  }

  lemma OneOption(key: string, raw: string, k: string, words: set<string>, member: string)
    requires Words(words) && member in words
    ensures OptionalChoice(Get([(key, raw)], k), words) == if key == k then SomeOf(raw, words) else None
  {
    hide *;
    GetOne(key, raw, k);
    DefaultWord(words, member);
    ChoiceSays(raw, words, member);
  }

  lemma OneBool(key: string, raw: string, k: string)
    ensures ParseBool(Get([(key, raw)], k)) <==> key == k && Word(raw) in {"1", "true", "on", "yes"}
  {
    GetOne(key, raw, k);
    hide Get, Strip, Lower;
  }

  lemma NothingGiven()
    ensures CleanText(None) == None && PositiveInt(None) == None
  {
    assert Strip("") == "";
  }

  lemma TagsOfOne(key: string, raw: string)
    ensures D.RawTags([(key, raw)]) == if key == "tags" || key == "tag" then D.TagParts(Split(raw, ',')) else []
  {
    GetOne(key, raw, "tags");
    GetOne(key, raw, "tag");
    OneEntry(raw);
    TwoNames();
    hide D.TagParts, D.EntryTags, GetList, Split;
    assert D.TagParts(Split(raw, ',')) + [] == D.TagParts(Split(raw, ','));
  }

  lemma OneEntry(raw: string)
    ensures D.EntryTags([]) == [] && D.EntryTags([raw]) == D.TagParts(Split(raw, ','))
  {
    assert [raw][..0] == [] && D.EntryTags([]) == [];
    hide D.TagParts, Split;
    assert D.EntryTags([raw]) == [] + D.TagParts(Split(raw, ','));
  }

  lemma TwoNames()
    ensures "tag" != "tags"
  {
    assert |"tag"| == 3 && |"tags"| == 4;
  }

  /** `tag` is another name for `tags`. */
  lemma TagReadsLikeTags(raw: string)
    ensures D.Parse([("tag", raw)]) == D.Parse([("tags", raw)])
  {
    hide *;
    DashboardOfOne("tag", raw);
    DashboardOfOne("tags", raw);
    OtherKey("tag");
    OtherKey("tags");
  }

  lemma OtherKey(k: string)
    requires k == "tag" || k == "tags"
    ensures k != "tags_mode" && k != "severity" && k != "kev_only" && k != "stale_only" && k != "q" && k != "status"
    ensures k != "sort" && k != "dir" && k != "risk_band" && k != "action_required" && k != "application_group"
  {}

  predicate IsTagName(w: string) {
    && 1 <= |w| <= 32
    && ('a' <= w[0] <= 'z' || '0' <= w[0] <= '9')
    && forall k :: 0 <= k < |w| ==>
         'a' <= w[k] <= 'z' || '0' <= w[k] <= '9' || w[k] == '.' || w[k] == '_' || w[k] == '-'
  }

  lemma TagNameSays(w: string)
    ensures IsTagName(w) <==> D.IsTag(w)
  {
    if D.IsTag(w) {
      forall k | 0 <= k < |w|
        ensures 'a' <= w[k] <= 'z' || '0' <= w[k] <= '9' || w[k] == '.' || w[k] == '_' || w[k] == '-'
      {
        assert w[k] in w;
      }
    }
  }

  /** Some text of the list is read as the word. */
  ghost predicate AnyWord(texts: seq<string>, w: string) {
    exists k :: 0 <= k < |texts| && Word(texts[k]) == w
  }

  lemma AnyWordConcat(a: seq<string>, b: seq<string>, w: string)
    ensures AnyWord(a + b, w) <==> AnyWord(a, w) || AnyWord(b, w)
    ensures !AnyWord([], w)
  {
    hide Word;
    var c := a + b;
    assert forall k :: 0 <= k < |a| ==> c[k] == a[k];
    assert forall k :: 0 <= k < |b| ==> c[|a| + k] == b[k];
    if AnyWord(c, w) {
      var k :| 0 <= k < |c| && Word(c[k]) == w;
      if k >= |a| {
        assert b[k - |a|] == c[k];
      }
    }
  }

  lemma AnyWordOne(t: string, w: string)
    ensures AnyWord([t], w) <==> Word(t) == w
  {
    assert [t][0] == t;
  }

  lemma {:induction false} TagsAreValidParts(raw: seq<string>, w: string)
    ensures w in D.ValidTags(raw) <==> D.IsTag(w) && AnyWord(raw, w)
  {
    hide *;
    if raw == [] {
      AnyWordConcat([], [], w);
      NoTags();
    } else {
      var n := |raw| - 1;
      TagsAreValidParts(raw[..n], w);
      ValidTagsSnoc(raw, w);
      AnyWordConcat(raw[..n], [raw[n]], w);
      AnyWordOne(raw[n], w);
      assert raw == raw[..n] + [raw[n]];
    }
  }

  lemma NoTags()
    ensures D.ValidTags([]) == []
  {}

  lemma ValidTagsSnoc(raw: seq<string>, w: string)
    requires raw != []
    ensures w in D.ValidTags(raw)
       <==> w in D.ValidTags(raw[..|raw| - 1]) || (w == Word(raw[|raw| - 1]) && D.IsTag(w))
  {
    hide D.IsTag, Strip, Lower;
  }

  lemma {:induction false} TagPartsSay(parts: seq<string>, w: string)
    requires w != ""
    ensures AnyWord(D.TagParts(parts), w) <==> AnyWord(parts, w)
  {
    hide *;
    if parts == [] {
      D.NoParts();
    } else {
      var n := |parts| - 1;
      var last, before := Strip(parts[n]), D.TagParts(parts[..n]);
      TagPartsSay(parts[..n], w);
      D.TagPartsSnoc(parts);
      WordOfStripped(parts[n], w);
      AnyWordConcat(parts[..n], [parts[n]], w);
      AnyWordConcat(before, [last], w);
      AnyWordOne(parts[n], w);
      AnyWordOne(last, w);
      assert parts == parts[..n] + [parts[n]];
      assert before + [] == before;
    }
  }

  lemma WordOfStripped(t: string, w: string)
    requires w != ""
    ensures Word(Strip(t)) == Word(t) && (Strip(t) == "" ==> Word(t) != w)
  {
    assert Strip(Strip(t)) == Strip(t);
    hide Strip;
    assert Lower("") == "";
  }

  /** The text of a parameter has the word between its commas. */
  ghost predicate HasPart(text: string, w: string) {
    AnyWord(Split(text, ','), w)
  }

  ghost predicate AnyEntry(entries: seq<string>, w: string) {
    exists k :: 0 <= k < |entries| && HasPart(entries[k], w)
  }

  lemma {:induction false} EntryTagsSay(entries: seq<string>, w: string)
    requires w != ""
    ensures AnyWord(D.EntryTags(entries), w) <==> AnyEntry(entries, w)
  {
    hide AnyWord, D.EntryTags, D.TagParts, HasPart, Split;
    if entries == [] {
      D.NoParts();
      AnyWordConcat([], [], w);
    } else {
      var n := |entries| - 1;
      EntryTagsSay(entries[..n], w);
      EntryTagsSnoc(entries, w);
      assert forall k :: 0 <= k < n ==> entries[..n][k] == entries[k];
    }
  }

  lemma EntryTagsSnoc(entries: seq<string>, w: string)
    requires entries != [] && w != ""
    ensures
      var n := |entries| - 1;
      AnyWord(D.EntryTags(entries), w) <==> AnyWord(D.EntryTags(entries[..n]), w) || HasPart(entries[n], w)
  {
    var n := |entries| - 1;
    hide AnyWord, D.TagParts, Split;
    AnyWordConcat(D.EntryTags(entries[..n]), D.TagParts(Split(entries[n], ',')), w);
    TagPartsSay(Split(entries[n], ','), w);
  }

  /** Parameter `i` carries the tag. */
  ghost predicate NamesTag(args: Params, i: int, w: string) {
    0 <= i < |args| && (args[i].0 == "tags" || args[i].0 == "tag") && HasPart(args[i].1, w)
  }

  lemma {:induction false} GetListSays(args: Params, key: string, w: string)
    ensures AnyEntry(GetList(args, key), w)
       <==> exists i :: 0 <= i < |args| && args[i].0 == key && HasPart(args[i].1, w)
  {
    hide HasPart, GetList;
    if args == [] {
      GetListOfNone(key);
    } else {
      GetListSays(args[1..], key, w);
      GetListHead(args, key);
      var head, rest := Own(args[0], key), GetList(args[1..], key);
      AnyEntryConcat(head, rest, w);
      assert AnyEntry(head, w) <==> args[0].0 == key && HasPart(args[0].1, w);
      assert forall i :: 0 <= i < |args| - 1 ==> args[1..][i] == args[i + 1];
      hide AnyEntry;
      if exists i :: 0 <= i < |args| && args[i].0 == key && HasPart(args[i].1, w) {
        var i :| 0 <= i < |args| && args[i].0 == key && HasPart(args[i].1, w);
        assert i > 0 ==> args[1..][i - 1] == args[i];
      }
    }
  }

  lemma AnyEntryConcat(a: seq<string>, b: seq<string>, w: string)
    ensures AnyEntry(a + b, w) <==> AnyEntry(a, w) || AnyEntry(b, w)
  {
    hide HasPart;
    var c := a + b;
    assert forall k :: 0 <= k < |a| ==> c[k] == a[k];
    assert forall k :: 0 <= k < |b| ==> c[|a| + k] == b[k];
    if AnyEntry(c, w) {
      var k :| 0 <= k < |c| && HasPart(c[k], w);
      if k >= |a| {
        assert b[k - |a|] == c[k];
      }
    }
  }

  /** The tags of a filter: the names that stand, in any case, between the commas of any `tags` or `tag` parameter. */
  lemma TagsSay(args: Params, w: string)
    ensures w in D.Parse(args).tags <==> IsTagName(w) && exists i :: NamesTag(args, i, w)
  {
    hide *;
    DashboardFields(args);
    TagsAreValidParts(D.RawTags(args), w);
    TagNameSays(w);
    if D.IsTag(w) {
      TagIsSomething(w);
      RawTagsSay(args, w);
    }
  }

  lemma TagIsSomething(w: string)
    requires D.IsTag(w)
    ensures w != ""
  {}

  lemma RawTagsSay(args: Params, w: string)
    requires w != ""
    ensures AnyWord(D.RawTags(args), w) <==> exists i :: NamesTag(args, i, w)
  {
    hide AnyWord, D.EntryTags, AnyEntry, GetList, HasPart;
    var many, one := GetList(args, "tags"), GetList(args, "tag");
    AnyWordConcat(D.EntryTags(many), D.EntryTags(one), w);
    EntryTagsSay(many, w);
    EntryTagsSay(one, w);
    GetListSays(args, "tags", w);
    GetListSays(args, "tag", w);
    if exists i :: 0 <= i < |args| && args[i].0 == "tags" && HasPart(args[i].1, w) {
      var i :| 0 <= i < |args| && args[i].0 == "tags" && HasPart(args[i].1, w);
      assert NamesTag(args, i, w);
    }
    if exists i :: 0 <= i < |args| && args[i].0 == "tag" && HasPart(args[i].1, w) {
      var i :| 0 <= i < |args| && args[i].0 == "tag" && HasPart(args[i].1, w);
      assert NamesTag(args, i, w);
    }
  }

  /** A printed number is read back, except zero, which is no group. */
  lemma GroupNumberSays(n: nat)
    ensures PositiveInt(Some(PrintNat(n))) == if n == 0 then None else Some(n)
  {
    hide PrintNat, ParseInt, Strip, IsDigit, IsSpace;
    DigitsAreTrimmed(PrintNat(n));
    ParsePrinted(n);
  }

  // ------------------------------------------------------------------ the view filter

  /** The same for the filter of a server's findings; without a severity the user's threshold counts. */
  lemma ViewOfOne(key: string, raw: string, userDefault: Option<string>)
    ensures V.Parse([(key, raw)], userDefault) == V.Filter(
              if key == "status" then OneOf(raw, {"open", "acknowledged", "resolved", "all"}, "open") else "open",
              if key == "class" then OneOf(raw, {"os-pkgs", "lang-pkgs", "both"}, "both") else "both",
              if key == "severity" then SomeOf(raw, {"critical", "high", "medium", "low"}) else userDefault,
              key == "kev_only" && Word(raw) in {"1", "true", "on", "yes"},
              if key == "q" then CleanText(Some(raw)) else None,
              if key == "sort" then OneOf(raw, {"risk", "cve", "pkg", "epss", "cvss", "sev", "status", "first_seen",
                                                "group"}, "risk") else "risk",
              if key == "dir" then OneOf(raw, {"asc", "desc"}, "desc") else "desc",
              if key == "risk_band" then SomeOf(raw, {"escalate", "act", "mitigate", "pending", "unknown", "monitor",
                                                      "noise"}) else None,
              if key == "action_required" then SomeOf(raw, {"yes", "no"}) else None,
              if key == "application_group" then PositiveInt(Some(raw)) else None)
  {
    hide *;
    WordLists();
    ViewWordLists();
    StatusAndSeveritiesAreWords();
    DirsAndActionsAreWords();
    BandsAreWords();
    OneChoice(key, raw, "status", VALID_STATUS, "open");
    OneChoice(key, raw, "class", V.VALID_CLASS, "both");
    OneSeverity(key, raw, userDefault);
    OneBool(key, raw, "kev_only");
    GetOne(key, raw, "q");
    OneChoice(key, raw, "sort", V.VALID_SORTS, "risk");
    OneChoice(key, raw, "dir", VALID_DIRS, "desc");
    OneOption(key, raw, "risk_band", VALID_RISK_BANDS, "act");
    OneOption(key, raw, "action_required", VALID_ACTION_REQUIRED, "no");
    GetOne(key, raw, "application_group");
    NothingGiven();
    ViewFields([(key, raw)], userDefault);
  }

  lemma ViewWordLists()
    ensures V.VALID_CLASS == {"os-pkgs", "lang-pkgs", "both"} && Words(V.VALID_CLASS)
    ensures V.VALID_SORTS == {"risk", "cve", "pkg", "epss", "cvss", "sev", "status", "first_seen", "group"}
    ensures Words(V.VALID_SORTS)
  {
    V.SortsAreWords();
    V.ClassesAreWords();
  }

  lemma OneSeverity(key: string, raw: string, userDefault: Option<string>)
    ensures V.SeverityOf(Get([(key, raw)], "severity"), userDefault)
         == if key == "severity" then SomeOf(raw, VALID_SEVERITIES) else userDefault
  {
    GetOne(key, raw, "severity");
    NoSeverityWords();
    AllIsWord();
    hide Get, Strip, Lower;
  }

  lemma NoSeverityWords()
    ensures "" !in VALID_SEVERITIES && "all" !in VALID_SEVERITIES
  {
    StatusAndSeveritiesAreWords();
    assert !IsWord("");
    assert |"all"| == 3 && |"critical"| == 8 && |"high"| == 4 && |"medium"| == 6;
    assert "all"[0] != "low"[0];
  }

  lemma AllIsWord()
    ensures Word("all") == "all" && Word("") == ""
  {
    StatusAndSeveritiesAreWords();
    WordIsFixed("all");
    assert Strip("") == "";
  }

  lemma ViewFields(args: Params, userDefault: Option<string>)
    ensures V.Parse(args, userDefault) == V.Filter(
              Choice(Get(args, "status"), VALID_STATUS, "open"),
              Choice(Get(args, "class"), V.VALID_CLASS, "both"),
              V.SeverityOf(Get(args, "severity"), userDefault),
              ParseBool(Get(args, "kev_only")),
              CleanText(Get(args, "q")),
              Choice(Get(args, "sort"), V.VALID_SORTS, "risk"),
              Choice(Get(args, "dir"), VALID_DIRS, "desc"),
              OptionalChoice(Get(args, "risk_band"), VALID_RISK_BANDS),
              OptionalChoice(Get(args, "action_required"), VALID_ACTION_REQUIRED),
              PositiveInt(Get(args, "application_group")))
  {
    hide Choice, OptionalChoice, ParseBool, CleanText, PositiveInt, V.SeverityOf, Get;
  }
}
