/** The dashboard filter: parsed from a query string, printed back into one. */
module DashboardFilter {
  import opened Models
  import opened Text
  import opened QueryParams

  const VALID_TAGS_MODE: set<string> := {"or", "and"}
  const VALID_SORTS: set<string> :=
    {"risk", "server", "cve", "pkg", "epss", "cvss", "sev", "status", "first_seen", "group"}

  datatype Filter = Filter(
    tags: seq<string>,
    tagsMode: string,
    severity: Option<string>,
    kevOnly: bool,
    staleOnly: bool,
    q: Option<string>,
    status: string,
    sort: string,
    dir: string,
    riskBand: Option<string>,
    actionRequired: Option<string>,
    applicationGroupId: Option<int>)

  // ------------------------------------------------------------------ tags

  predicate IsLowerOrDigit(c: char) {
    'a' <= c <= 'z' || IsDigit(c)
  }

  /** The tag name pattern: a letter or digit, then at most 31 of those and `.`, `_`, `-`. */
  predicate IsTag(name: string) {
    1 <= |name| <= 32 && IsLowerOrDigit(name[0]) && forall c :: c in name ==> IsLowerOrDigit(c) || c in {'.', '_', '-'}
  }

  /** Valid names, lower-cased, the first occurrence of each. */
  function ValidTags(raw: seq<string>): seq<string> {
    if raw == [] then []
    else
      var before := ValidTags(raw[..|raw| - 1]);
      var name := Lower(Strip(raw[|raw| - 1]));
      if IsTag(name) && name !in before then before + [name] else before
  }

  /** `_validate_tag_names`. */
  method ValidateTagNames(value: seq<string>) returns (result: seq<string>)
    ensures result == ValidTags(value)
  {
    result := [];
    var seen: set<string> := {};
    for k := 0 to |value|
      invariant result == ValidTags(value[..k])
      invariant forall t :: t in seen <==> t in result
    {
      assert value[..k + 1][..k] == value[..k];
      var name := Lower(Strip(value[k]));
      if name == "" || name in seen {
        continue;
      }
      if !IsTag(name) {
        continue;
      }
      seen := seen + {name};
      result := result + [name];
    }
    assert value[..|value|] == value;
  }

  /** The non-blank comma parts of one entry, stripped. */
  function TagParts(parts: seq<string>): seq<string> {
    if parts == [] then []
    else
      var stripped := Strip(parts[|parts| - 1]);
      TagParts(parts[..|parts| - 1]) + if stripped != "" then [stripped] else []
  }

  function EntryTags(entries: seq<string>): seq<string> {
    if entries == [] then []
    else EntryTags(entries[..|entries| - 1]) + TagParts(Split(entries[|entries| - 1], ','))
  }

  function RawTags(args: Params): seq<string> {
    EntryTags(GetList(args, "tags")) + EntryTags(GetList(args, "tag"))
  }

  /** The tag collecting loops for one key. */
  method CollectTags(entries: seq<string>) returns (rawTags: seq<string>)
    ensures rawTags == EntryTags(entries)
  {
    hide Strip, Split;
    rawTags := [];
    for i := 0 to |entries|
      invariant rawTags == EntryTags(entries[..i])
    {
      assert entries[..i + 1][..i] == entries[..i];
      var parts := Split(entries[i], ',');
      ghost var before := rawTags;
      for j := 0 to |parts|
        invariant rawTags == before + TagParts(parts[..j])
      {
        assert parts[..j + 1][..j] == parts[..j];
        var stripped := Strip(parts[j]);
        if stripped != "" {
          rawTags := rawTags + [stripped];
        }
      }
      assert parts[..|parts|] == parts;
    }
    assert entries[..|entries|] == entries;
  }

  // ------------------------------------------------------------------ parsing

  function Parse(args: Params): Filter {
    Filter(ValidTags(RawTags(args)),
           Choice(Get(args, "tags_mode"), VALID_TAGS_MODE, "or"),
           OptionalChoice(Get(args, "severity"), VALID_SEVERITIES),
           ParseBool(Get(args, "kev_only")),
           ParseBool(Get(args, "stale_only")),
           CleanText(Get(args, "q")),
           Choice(Get(args, "status"), VALID_STATUS, "open"),
           Choice(Get(args, "sort"), VALID_SORTS, "risk"),
           Choice(Get(args, "dir"), VALID_DIRS, "desc"),
           OptionalChoice(Get(args, "risk_band"), VALID_RISK_BANDS),
           OptionalChoice(Get(args, "action_required"), VALID_ACTION_REQUIRED),
           PositiveInt(Get(args, "application_group")))
  }

  /** `from_request`. */
  method FromRequest(args: Params) returns (filter: Filter)
    ensures filter == Parse(args)
    ensures WellFormed(filter)
  {
    hide GetList, EntryTags, ValidTags, OptionalChoice, ParseBool, CleanText, PositiveInt;
    hide WellFormed, Choice, Token, Get;
    ModeIsChoice(Get(args, "tags_mode"));
    var rawTags := CollectTags(GetList(args, "tags"));
    var single := CollectTags(GetList(args, "tag"));
    var tags := ValidateTagNames(rawTags + single);
    var mode := Token(Get(args, "tags_mode"), "or");
    ParseIsWellFormed(args);
    filter := Filter(tags,
                     if mode == "and" then "and" else "or",
                     OptionalChoice(Get(args, "severity"), VALID_SEVERITIES),
                     ParseBool(Get(args, "kev_only")),
                     ParseBool(Get(args, "stale_only")),
                     CleanText(Get(args, "q")),
                     Choice(Get(args, "status"), VALID_STATUS, "open"),
                     Choice(Get(args, "sort"), VALID_SORTS, "risk"),
                     Choice(Get(args, "dir"), VALID_DIRS, "desc"),
                     OptionalChoice(Get(args, "risk_band"), VALID_RISK_BANDS),
                     OptionalChoice(Get(args, "action_required"), VALID_ACTION_REQUIRED),
                     PositiveInt(Get(args, "application_group")));
  }

  /** The mode is read without its whitelist, with the same result. */
  lemma ModeIsChoice(value: Option<string>)
    ensures Choice(value, VALID_TAGS_MODE, "or") == if Token(value, "or") == "and" then "and" else "or"
  {
    hide Token;
  }

  predicate ValidTagList(tags: seq<string>) {
    && (forall i :: 0 <= i < |tags| ==> IsTag(tags[i]))
    && (forall i, j :: 0 <= i < j < |tags| ==> tags[i] != tags[j])
  }

  /** What every parsed filter satisfies. */
  predicate WellFormed(f: Filter) {
    && ValidTagList(f.tags)
    && f.tagsMode in VALID_TAGS_MODE
    && (f.severity.Some? ==> f.severity.value in VALID_SEVERITIES)
    && IsSearch(f.q)
    && f.status in VALID_STATUS
    && f.sort in VALID_SORTS
    && f.dir in VALID_DIRS
    && (f.riskBand.Some? ==> f.riskBand.value in VALID_RISK_BANDS)
    && (f.actionRequired.Some? ==> f.actionRequired.value in VALID_ACTION_REQUIRED)
    && (f.applicationGroupId.Some? ==> f.applicationGroupId.value >= 1)
  }

  lemma {:induction false} ValidTagsAreValid(raw: seq<string>)
    ensures ValidTagList(ValidTags(raw))
    decreases |raw|
  {
    if raw != [] {
      hide IsTag, Lower, Strip, ValidTagList;
      ValidTagsAreValid(raw[..|raw| - 1]);
      var before, name := ValidTags(raw[..|raw| - 1]), Lower(Strip(raw[|raw| - 1]));
      if IsTag(name) && name !in before {
        ValidTagListSnoc(before, name);
      }
    } else {
      NoTagsAreValid();
    }
  }

  lemma NoTagsAreValid()
    ensures ValidTagList([])
  {}

  lemma ValidTagListSnoc(before: seq<string>, name: string)
    requires ValidTagList(before) && IsTag(name) && name !in before
    ensures ValidTagList(before + [name])
  {
    hide IsTag;
  }

  lemma ParseIsWellFormed(args: Params)
    ensures WellFormed(Parse(args))
  {
    hide ValidTags, RawTags, Token, Get, ValidTagList;
    ValidTagsAreValid(RawTags(args));
    CleanTextIsSearch(Get(args, "q"));
  }

  // ------------------------------------------------------------------ printing

  function Fields(f: Filter): seq<(string, Option<string>)>
    requires f.applicationGroupId.Some? ==> f.applicationGroupId.value >= 0
  {
    [("tags", if f.tags != [] then Some(Join(",", f.tags)) else None),
     ("tags_mode", if f.tagsMode != "or" then Some(f.tagsMode) else None),
     ("severity", f.severity),
     ("kev_only", if f.kevOnly then Some("1") else None),
     ("stale_only", if f.staleOnly then Some("1") else None),
     ("q", if f.q == Some("") then None else f.q),
     ("status", if f.status != "open" then Some(f.status) else None),
     ("sort", if f.sort != "risk" then Some(f.sort) else None),
     ("dir", if f.dir != "desc" then Some(f.dir) else None),
     ("risk_band", f.riskBand),
     ("action_required", f.actionRequired),
     ("application_group", if f.applicationGroupId.Some? then Some(PrintNat(f.applicationGroupId.value)) else None)]
  }

  /** The printed pairs, without overrides. */
  function Print(f: Filter): Params
    requires f.applicationGroupId.Some? ==> f.applicationGroupId.value >= 0
  {
    Present(Fields(f))
  }

  lemma FieldNamesDistinct(f: Filter)
    requires f.applicationGroupId.Some? ==> f.applicationGroupId.value >= 0
    ensures DistinctNames(Fields(f))
  {
    hide PrintNat, Join;
  }

  /** `to_query_string`, up to URL encoding. */
  method ToQueryString(f: Filter, override: Params) returns (parts: Params)
    requires f.applicationGroupId.Some? ==> f.applicationGroupId.value >= 1
    requires DistinctKeys(override)
    ensures override == [] ==> parts == Print(f)
    ensures OverriddenBy(Print(f), override, parts)
  {
    hide Fields;
    FieldNamesDistinct(f);
    parts := PrintFields(Fields(f), override);
  }

  // ------------------------------------------------------------------ round trips

  lemma TagIsFixed(name: string)
    requires IsTag(name)
    ensures Strip(name) == name && Lower(name) == name && name != ""
  {
    hide Strip, Lower;
    TagIsWord(name);
    WordIsFixed(name);
  }

  lemma TagIsWord(name: string)
    requires IsTag(name)
    ensures IsWord(name) && name != ""
  {
    forall c | c in name
      ensures 'a' <= c <= 'z' || IsDigit(c) || c in {'.', '_', '-'}
    {}
  }

  /** Tags that were parsed before survive another parse unchanged. */
  lemma {:induction false} ValidTagsFixed(tags: seq<string>)
    requires ValidTagList(tags)
    ensures ValidTags(tags) == tags
    decreases |tags|
  {
    hide *;
    if tags != [] {
      var n := |tags| - 1;
      LastIsNew(tags);
      ValidTagsFixed(tags[..n]);
      TagIsFixed(tags[n]);
      ValidTagsStep(tags[..n], tags[n]);
      assert tags == tags[..n] + [tags[n]];
    } else {
      NoTagsFixed();
    }
  }

  lemma NoTagsFixed()
    ensures ValidTags([]) == []
  {}

  lemma ValidTagsStep(before: seq<string>, last: string)
    ensures ValidTags(before) == before && Lower(Strip(last)) == last && IsTag(last) && last !in before ==>
              ValidTags(before + [last]) == before + [last]
  {
    hide IsTag, Strip, Lower;
    assert (before + [last])[..|before|] == before;
  }

  lemma LastIsNew(tags: seq<string>)
    requires tags != [] && ValidTagList(tags)
    ensures tags[|tags| - 1] !in tags[..|tags| - 1] && IsTag(tags[|tags| - 1])
    ensures ValidTagList(tags[..|tags| - 1])
  {
    hide IsTag;
  }

  lemma TagPartsSnoc(parts: seq<string>)
    requires parts != []
    ensures
      var last := Strip(parts[|parts| - 1]);
      TagParts(parts) == TagParts(parts[..|parts| - 1]) + if last != "" then [last] else []
  {
    hide Strip;
  }

  lemma {:induction false} TagPartsFixed(tags: seq<string>)
    requires forall i :: 0 <= i < |tags| ==> IsTag(tags[i])
    ensures TagParts(tags) == tags
    decreases |tags|
  {
    hide *;
    if tags == [] {
      NoParts();
    } else {
      var n := |tags| - 1;
      TagPartsSnoc(tags);
      TagPartsFixed(tags[..n]);
      TagIsFixed(tags[n]);
      assert tags == tags[..n] + [tags[n]];
    }
  }

  lemma NoParts()
    ensures TagParts([]) == [] && EntryTags([]) == []
  {}

  lemma TagsParseBack(f: Filter, args: Params)
    requires ValidTagList(f.tags)
    requires GetList(args, "tags") == if f.tags != [] then [Join(",", f.tags)] else []
    requires GetList(args, "tag") == []
    ensures ValidTags(RawTags(args)) == f.tags
  {
    hide GetList, Join, Split, IsTag, EntryTags, TagParts, ValidTags;
    NoEntries();
    ValidTagsFixed(f.tags);
    if f.tags != [] {
      NoCommaInTags(f.tags);
      SplitJoin(f.tags, ',');
      TagPartsFixed(f.tags);
      OneEntry(Join(",", f.tags));
    }
    assert RawTags(args) == f.tags;
  }

  lemma NoEntries()
    ensures EntryTags([]) == []
  {}

  lemma OneEntry(entry: string)
    ensures EntryTags([entry]) == TagParts(Split(entry, ','))
  {
    assert [entry][..0] == [];
    assert EntryTags([entry]) == [] + TagParts(Split(entry, ','));
  }

  lemma NoCommaInTags(tags: seq<string>)
    requires forall i :: 0 <= i < |tags| ==> IsTag(tags[i])
    ensures forall t :: t in tags ==> ',' !in t
  {}

  lemma FieldNames(f: Filter)
    requires f.applicationGroupId.Some? ==> f.applicationGroupId.value >= 0
    ensures |Fields(f)| == 12
    ensures Fields(f)[0].0 == "tags"
    ensures Fields(f)[1].0 == "tags_mode"
    ensures Fields(f)[2].0 == "severity"
    ensures Fields(f)[3].0 == "kev_only"
    ensures Fields(f)[4].0 == "stale_only"
    ensures Fields(f)[5].0 == "q"
    ensures Fields(f)[6].0 == "status"
    ensures Fields(f)[7].0 == "sort"
    ensures Fields(f)[8].0 == "dir"
    ensures Fields(f)[9].0 == "risk_band"
    ensures Fields(f)[10].0 == "action_required"
    ensures Fields(f)[11].0 == "application_group"
  {
    hide PrintNat, Join;
  }

  /** The value a printed filter has under each key. */
  lemma PrintedValues(f: Filter)
    requires f.applicationGroupId.Some? ==> f.applicationGroupId.value >= 0
    ensures Get(Print(f), "tags_mode") == Fields(f)[1].1
    ensures Get(Print(f), "severity") == Fields(f)[2].1
    ensures Get(Print(f), "kev_only") == Fields(f)[3].1
    ensures Get(Print(f), "stale_only") == Fields(f)[4].1
    ensures Get(Print(f), "q") == Fields(f)[5].1
    ensures GetList(Print(f), "tags") == if Fields(f)[0].1.Some? then [Fields(f)[0].1.value] else []
  {
    FieldNamesDistinct(f);
    FieldNames(f);
    hide Fields, Get, GetList, Present, DistinctNames;
    PresentLookup(Fields(f), 0);
    PresentLookup(Fields(f), 1);
    PresentLookup(Fields(f), 2);
    PresentLookup(Fields(f), 3);
    PresentLookup(Fields(f), 4);
    PresentLookup(Fields(f), 5);
  }

  lemma PrintedValuesRest(f: Filter)
    requires f.applicationGroupId.Some? ==> f.applicationGroupId.value >= 0
    ensures Get(Print(f), "status") == Fields(f)[6].1
    ensures Get(Print(f), "sort") == Fields(f)[7].1
    ensures Get(Print(f), "dir") == Fields(f)[8].1
    ensures Get(Print(f), "risk_band") == Fields(f)[9].1
    ensures Get(Print(f), "action_required") == Fields(f)[10].1
    ensures Get(Print(f), "application_group") == Fields(f)[11].1
  {
    FieldNamesDistinct(f);
    FieldNames(f);
    hide Fields, Get, GetList, Present, DistinctNames;
    PresentLookup(Fields(f), 6);
    PresentLookup(Fields(f), 7);
    PresentLookup(Fields(f), 8);
    PresentLookup(Fields(f), 9);
    PresentLookup(Fields(f), 10);
    PresentLookup(Fields(f), 11);
  }

  lemma PrintedTag(f: Filter)
    requires f.applicationGroupId.Some? ==> f.applicationGroupId.value >= 0
    ensures GetList(Print(f), "tag") == []
  {
    hide PrintNat, Join, GetList, Present;
    PresentLacks(Fields(f), "tag");
  }

  /** Parsing a printed filter gives the filter back, except for space that ends the search text. */
  lemma ParsePrint(f: Filter)
    requires WellFormed(f)
    ensures Parse(Print(f)) == f.(q := WithoutTrailingSpace(f.q))
  {
    hide Print, Get, GetList, ValidTags, RawTags, ValidTagList, PrintNat, CleanText, WithoutTrailingSpace;
    hide Choice, OptionalChoice, ParseBool, PositiveInt, Words, Join, Token;
    PrintedValues(f);
    PrintedValuesRest(f);
    PrintedTag(f);
    TagsParseBack(f, Print(f));
    FieldsParseBack(f);
    SearchParsesBack(f.q);
  }

  lemma FieldsParseBack(f: Filter)
    requires WellFormed(f)
    ensures Choice(if f.tagsMode != "or" then Some(f.tagsMode) else None, VALID_TAGS_MODE, "or") == f.tagsMode
    ensures OptionalChoice(f.severity, VALID_SEVERITIES) == f.severity
    ensures ParseBool(if f.kevOnly then Some("1") else None) == f.kevOnly
    ensures ParseBool(if f.staleOnly then Some("1") else None) == f.staleOnly
    ensures Choice(if f.status != "open" then Some(f.status) else None, VALID_STATUS, "open") == f.status
    ensures Choice(if f.sort != "risk" then Some(f.sort) else None, VALID_SORTS, "risk") == f.sort
    ensures Choice(if f.dir != "desc" then Some(f.dir) else None, VALID_DIRS, "desc") == f.dir
    ensures OptionalChoice(f.riskBand, VALID_RISK_BANDS) == f.riskBand
    ensures OptionalChoice(f.actionRequired, VALID_ACTION_REQUIRED) == f.actionRequired
    ensures PositiveInt(if f.applicationGroupId.Some? then Some(PrintNat(f.applicationGroupId.value)) else None)
         == f.applicationGroupId
  {
    hide Choice, OptionalChoice, ParseBool, PositiveInt, Words, PrintNat, ValidTagList;
    ModesAreWords();
    SortsAreWords();
    StatusAndSeveritiesAreWords();
    DirsAndActionsAreWords();
    BandsAreWords();
    ChoiceParsesBack(f.tagsMode, VALID_TAGS_MODE, "or");
    ChoiceParsesBack(f.status, VALID_STATUS, "open");
    ChoiceParsesBack(f.sort, VALID_SORTS, "risk");
    ChoiceParsesBack(f.dir, VALID_DIRS, "desc");
    OptionalChoiceParsesBack(f.severity, VALID_SEVERITIES);
    OptionalChoiceParsesBack(f.riskBand, VALID_RISK_BANDS);
    OptionalChoiceParsesBack(f.actionRequired, VALID_ACTION_REQUIRED);
    BoolParsesBack(f.kevOnly);
    BoolParsesBack(f.staleOnly);
    PositiveIntParsesBack(f.applicationGroupId);
  }

  lemma ModesAreWords()
    ensures Words(VALID_TAGS_MODE)
  {}

  lemma SortsAreWords()
    ensures Words(VALID_SORTS)
  {}

  /**
   * A parsed filter is what its printed form parses to, exactly when the cut of the search text
   * does not end in a space. The cut comes after the strip, so it can.
   */
  lemma RoundTripIff(args: Params)
    ensures var f := Parse(args); Parse(Print(f)) == f <==> !CutsAtSpace(Get(args, "q"))
  {
    var f := Parse(args);
    CutsAtSpaceIff(Get(args, "q"));
    hide Print, CutsAtSpace, EndsInSpace, WellFormed, WithoutTrailingSpace, CleanText, ValidTags, RawTags, Get;
    hide Choice, OptionalChoice, ParseBool, PositiveInt, IsSearch;
    ParseIsWellFormed(args);
    WellFormedSearch(f);
    ParsePrint(f);
    SearchParsesBack(f.q);
  }

  lemma WellFormedSearch(f: Filter)
    requires WellFormed(f)
    ensures IsSearch(f.q)
  {}

  /** From the second parse on, printing and parsing is the identity. */
  lemma SecondParseIsStable(args: Params)
    ensures var g := Parse(Print(Parse(args))); Parse(Print(g)) == g
  {
    var f := Parse(args);
    ParseIsWellFormed(args);
    ParsePrint(f);
    SearchParsesBack(f.q);
    var g := Parse(Print(f));
    ParseIsWellFormed(Print(f));
    hide Parse, Print;
    ParsePrint(g);
    SearchParsesBack(g.q);
  }

  /** A link that changes the sort key shows the same filter under that key. */
  lemma SortLinkParses(f: Filter, sort: string, parts: Params)
    requires WellFormed(f) && sort in VALID_SORTS
    requires OverriddenBy(Print(f), [("sort", sort)], parts)
    ensures Parse(parts) == f.(q := WithoutTrailingSpace(f.q), sort := sort)
  {
    assert Choice(Some(sort), VALID_SORTS, "risk") == sort by {
      SortsAreWords();
      WordIsFixed(sort);
    }
    SortOnlyOverridden(f, sort, parts);
    ParsePrint(f);
    hide Print, Get, GetList, Choice, OptionalChoice, ParseBool, CleanText, PositiveInt;
    hide ValidTags, EntryTags, WithoutTrailingSpace;
  }

  lemma SortOnlyOverridden(f: Filter, sort: string, parts: Params)
    requires f.applicationGroupId.Some? ==> f.applicationGroupId.value >= 0
    requires OverriddenBy(Print(f), [("sort", sort)], parts)
    ensures Get(parts, "sort") == Some(sort)
    ensures GetList(parts, "tags") == GetList(Print(f), "tags") && GetList(parts, "tag") == GetList(Print(f), "tag")
    ensures Get(parts, "tags_mode") == Get(Print(f), "tags_mode")
    ensures Get(parts, "severity") == Get(Print(f), "severity")
    ensures Get(parts, "kev_only") == Get(Print(f), "kev_only")
    ensures Get(parts, "stale_only") == Get(Print(f), "stale_only")
    ensures Get(parts, "q") == Get(Print(f), "q")
    ensures Get(parts, "status") == Get(Print(f), "status")
    ensures Get(parts, "dir") == Get(Print(f), "dir")
    ensures Get(parts, "risk_band") == Get(Print(f), "risk_band")
    ensures Get(parts, "action_required") == Get(Print(f), "action_required")
    ensures Get(parts, "application_group") == Get(Print(f), "application_group")
  {
    hide Print, GetList, OverriddenBy;
    SortOverridden(f, sort, parts);
    NotTheSortKey();
    KeyUntouched(f, sort, parts, "tags");
    KeyUntouched(f, sort, parts, "tags_mode");
    KeyUntouched(f, sort, parts, "severity");
    KeyUntouched(f, sort, parts, "kev_only");
    KeyUntouched(f, sort, parts, "stale_only");
    KeyUntouched(f, sort, parts, "q");
    KeyUntouched(f, sort, parts, "status");
    KeyUntouched(f, sort, parts, "dir");
    KeyUntouched(f, sort, parts, "risk_band");
    KeyUntouched(f, sort, parts, "action_required");
    KeyUntouched(f, sort, parts, "application_group");
    KeyUntouched(f, sort, parts, "tag");
  }

  lemma SortOverridden(f: Filter, sort: string, parts: Params)
    requires f.applicationGroupId.Some? ==> f.applicationGroupId.value >= 0
    requires OverriddenBy(Print(f), [("sort", sort)], parts)
    ensures Get(parts, "sort") == Some(sort)
  {
    hide Print, GetList;
    OnePair("sort", sort);
  }

  lemma KeyUntouched(f: Filter, sort: string, parts: Params, key: string)
    requires f.applicationGroupId.Some? ==> f.applicationGroupId.value >= 0
    requires OverriddenBy(Print(f), [("sort", sort)], parts)
    requires key != "sort"
    ensures GetList(parts, key) == GetList(Print(f), key) && Get(parts, key) == Get(Print(f), key)
  {
    hide Print, GetList;
    OtherKey(key, "sort", sort);
  }

  lemma NotTheSortKey()
    ensures "sort" !in {"tags", "tags_mode", "severity", "kev_only", "stale_only", "q", "status", "dir",
                        "risk_band", "action_required", "application_group", "tag"}
  {}

  lemma OnePair(key: string, value: string)
    ensures Get([(key, value)], key) == Some(value)
  {
    assert GetList([(key, value)], key) == [value] + GetList([], key);
  }

  lemma OtherKey(k: string, key: string, value: string)
    requires k != key
    ensures Get([(key, value)], k) == None
  {
    assert GetList([(key, value)], k) == [] + GetList([], k);
  }
}
