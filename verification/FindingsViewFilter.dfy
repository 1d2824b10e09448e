/**
 * The filter of the server detail view. It shares its field parsers with the dashboard filter, but
 * a missing severity means the user's default threshold, which printing does not take into account.
 */
module FindingsViewFilter {
  import opened Models
  import opened Text
  import opened QueryParams

  const VALID_CLASS: set<string> := {"os-pkgs", "lang-pkgs", "both"}
  const VALID_SORTS: set<string> := {"risk", "cve", "pkg", "epss", "cvss", "sev", "status", "first_seen", "group"}
  const ALL_SEVERITIES: set<string> := {"critical", "high", "medium", "low", "unknown"}

  datatype Filter = Filter(
    status: string,
    findingClass: string,
    severity: Option<string>,
    kevOnly: bool,
    search: Option<string>,
    sort: string,
    dir: string,
    riskBand: Option<string>,
    actionRequired: Option<string>,
    applicationGroupId: Option<int>)

  /** An absent key means the user's threshold, `all` and everything unknown mean no threshold. */
  function SeverityOf(value: Option<string>, userDefault: Option<string>): Option<string> {
    if value.None? then userDefault
    else
      var t := Token(value, "all");
      if t == "all" || t !in VALID_SEVERITIES then None else Some(t)
  }

  /** `from_request`. */
  function Parse(args: Params, userDefault: Option<string>): Filter {
    Filter(Choice(Get(args, "status"), VALID_STATUS, "open"),
           Choice(Get(args, "class"), VALID_CLASS, "both"),
           SeverityOf(Get(args, "severity"), userDefault),
           ParseBool(Get(args, "kev_only")),
           CleanText(Get(args, "q")),
           Choice(Get(args, "sort"), VALID_SORTS, "risk"),
           Choice(Get(args, "dir"), VALID_DIRS, "desc"),
           OptionalChoice(Get(args, "risk_band"), VALID_RISK_BANDS),
           OptionalChoice(Get(args, "action_required"), VALID_ACTION_REQUIRED),
           PositiveInt(Get(args, "application_group")))
  }

  /** What every filter parsed under a legal user default satisfies. */
  predicate WellFormed(f: Filter) {
    && f.status in VALID_STATUS
    && f.findingClass in VALID_CLASS
    && (f.severity.Some? ==> f.severity.value in ALL_SEVERITIES)
    && IsSearch(f.search)
    && f.sort in VALID_SORTS
    && f.dir in VALID_DIRS
    && (f.riskBand.Some? ==> f.riskBand.value in VALID_RISK_BANDS)
    && (f.actionRequired.Some? ==> f.actionRequired.value in VALID_ACTION_REQUIRED)
    && (f.applicationGroupId.Some? ==> f.applicationGroupId.value >= 1)
  }

  lemma ParseIsWellFormed(args: Params, userDefault: Option<string>)
    requires userDefault.Some? ==> userDefault.value in ALL_SEVERITIES
    ensures WellFormed(Parse(args, userDefault))
  {
    hide Token, Get, PositiveInt, IsSearch, CleanText;
    CleanTextIsSearch(Get(args, "q"));
  }

  function Fields(f: Filter): seq<(string, Option<string>)>
    requires f.applicationGroupId.Some? ==> f.applicationGroupId.value >= 0
  {
    [("status", if f.status != "open" then Some(f.status) else None),
     ("class", if f.findingClass != "both" then Some(f.findingClass) else None),
     ("severity", f.severity),
     ("kev_only", if f.kevOnly then Some("1") else None),
     ("q", if f.search == Some("") then None else f.search),
     ("sort", if f.sort != "risk" then Some(f.sort) else None),
     ("dir", if f.dir != "desc" then Some(f.dir) else None),
     ("risk_band", f.riskBand),
     ("action_required", f.actionRequired),
     ("application_group", if f.applicationGroupId.Some? then Some(PrintNat(f.applicationGroupId.value)) else None)]
  }

  function Print(f: Filter): Params
    requires f.applicationGroupId.Some? ==> f.applicationGroupId.value >= 0
  {
    Present(Fields(f))
  }

  lemma FieldNamesDistinct(f: Filter)
    requires f.applicationGroupId.Some? ==> f.applicationGroupId.value >= 0
    ensures DistinctNames(Fields(f))
  {
    hide PrintNat;
  }

  /** `to_query_string`, up to URL encoding. */
  method ToQueryString(f: Filter, override: Params) returns (parts: Params)
    requires f.applicationGroupId.Some? ==> f.applicationGroupId.value >= 1
    requires DistinctKeys(override)
    ensures override == [] ==> parts == Print(f)
    ensures OverriddenBy(Print(f), override, parts)
  {
    hide Fields;
    FieldNamesDistinct(f);
    parts := PrintFields(Fields(f), override);
  }

  // ------------------------------------------------------------------ round trip

  lemma FieldNames(f: Filter)
    requires f.applicationGroupId.Some? ==> f.applicationGroupId.value >= 0
    ensures |Fields(f)| == 10
    ensures Fields(f)[0].0 == "status" && Fields(f)[1].0 == "class" && Fields(f)[2].0 == "severity"
    ensures Fields(f)[3].0 == "kev_only" && Fields(f)[4].0 == "q" && Fields(f)[5].0 == "sort"
    ensures Fields(f)[6].0 == "dir" && Fields(f)[7].0 == "risk_band" && Fields(f)[8].0 == "action_required"
    ensures Fields(f)[9].0 == "application_group"
  {
    hide PrintNat;
  }

  /** The value a printed filter has under each key. */
  lemma PrintedValues(f: Filter)
    requires f.applicationGroupId.Some? ==> f.applicationGroupId.value >= 0
    ensures Get(Print(f), "status") == Fields(f)[0].1
    ensures Get(Print(f), "class") == Fields(f)[1].1
    ensures Get(Print(f), "severity") == Fields(f)[2].1
    ensures Get(Print(f), "kev_only") == Fields(f)[3].1
    ensures Get(Print(f), "q") == Fields(f)[4].1
  {
    FieldNamesDistinct(f);
    FieldNames(f);
    hide Fields, Get, GetList, Present, DistinctNames;
    PresentLookup(Fields(f), 0);
    PresentLookup(Fields(f), 1);
    PresentLookup(Fields(f), 2);
    PresentLookup(Fields(f), 3);
    PresentLookup(Fields(f), 4);
  }

  lemma PrintedValuesRest(f: Filter)
    requires f.applicationGroupId.Some? ==> f.applicationGroupId.value >= 0
    ensures Get(Print(f), "sort") == Fields(f)[5].1
    ensures Get(Print(f), "dir") == Fields(f)[6].1
    ensures Get(Print(f), "risk_band") == Fields(f)[7].1
    ensures Get(Print(f), "action_required") == Fields(f)[8].1
    ensures Get(Print(f), "application_group") == Fields(f)[9].1
  {
    FieldNamesDistinct(f);
    FieldNames(f);
    hide Fields, Get, GetList, Present, DistinctNames;
    PresentLookup(Fields(f), 5);
    PresentLookup(Fields(f), 6);
    PresentLookup(Fields(f), 7);
    PresentLookup(Fields(f), 8);
    PresentLookup(Fields(f), 9);
  }

  lemma ClassesAreWords()
    ensures Words(VALID_CLASS)
  {}

  lemma SortsAreWords()
    ensures Words(VALID_SORTS)
  {}

  lemma AllSeveritiesAreWords()
    ensures Words(ALL_SEVERITIES)
  {}

  lemma FieldsParseBack(f: Filter)
    requires WellFormed(f)
    ensures Choice(if f.status != "open" then Some(f.status) else None, VALID_STATUS, "open") == f.status
    ensures Choice(if f.findingClass != "both" then Some(f.findingClass) else None, VALID_CLASS, "both")
         == f.findingClass
    ensures ParseBool(if f.kevOnly then Some("1") else None) == f.kevOnly
    ensures Choice(if f.sort != "risk" then Some(f.sort) else None, VALID_SORTS, "risk") == f.sort
    ensures Choice(if f.dir != "desc" then Some(f.dir) else None, VALID_DIRS, "desc") == f.dir
    ensures OptionalChoice(f.riskBand, VALID_RISK_BANDS) == f.riskBand
    ensures OptionalChoice(f.actionRequired, VALID_ACTION_REQUIRED) == f.actionRequired
    ensures PositiveInt(if f.applicationGroupId.Some? then Some(PrintNat(f.applicationGroupId.value)) else None)
         == f.applicationGroupId
  {
    hide Choice, OptionalChoice, ParseBool, PositiveInt, Words, PrintNat;
    ClassesAreWords();
    SortsAreWords();
    StatusAndSeveritiesAreWords();
    DirsAndActionsAreWords();
    BandsAreWords();
    ChoiceParsesBack(f.status, VALID_STATUS, "open");
    ChoiceParsesBack(f.findingClass, VALID_CLASS, "both");
    ChoiceParsesBack(f.sort, VALID_SORTS, "risk");
    ChoiceParsesBack(f.dir, VALID_DIRS, "desc");
    OptionalChoiceParsesBack(f.riskBand, VALID_RISK_BANDS);
    OptionalChoiceParsesBack(f.actionRequired, VALID_ACTION_REQUIRED);
    BoolParsesBack(f.kevOnly);
    PositiveIntParsesBack(f.applicationGroupId);
  }

  /** What a printed severity parses to. */
  lemma SeverityParsesBack(severity: Option<string>, userDefault: Option<string>)
    requires severity.Some? ==> severity.value in ALL_SEVERITIES
    ensures SeverityOf(severity, userDefault)
         == if severity.None? then userDefault else if severity.value == "unknown" then None else severity
  {
    hide Strip, Lower, IsWord;
    if severity.Some? {
      AllSeveritiesAreWords();
      WordIsFixed(severity.value);
    }
  }

  lemma ParsePrint(f: Filter, userDefault: Option<string>)
    requires WellFormed(f)
    ensures Parse(Print(f), userDefault)
         == f.(search := WithoutTrailingSpace(f.search), severity := SeverityOf(f.severity, userDefault))
  {
    hide Print, Get, PrintNat, CleanText, WithoutTrailingSpace;
    hide Choice, OptionalChoice, ParseBool, PositiveInt, Token, SeverityOf;
    PrintedValues(f);
    PrintedValuesRest(f);
    FieldsParseBack(f);
    SearchParsesBack(f.search);
  }

  /** The printed filter carries its severity: none only if none is the default, and never `unknown`. */
  predicate SeverityPrints(severity: Option<string>, userDefault: Option<string>) {
    if severity.None? then userDefault.None? else severity.value != "unknown"
  }

  /**
   * Under one user default, a filter is what its printed form parses to, exactly when its search
   * text does not end in space and its severity can be printed. So a view without threshold is
   * lost for every user who has a default one.
   */
  lemma RoundTripIff(f: Filter, userDefault: Option<string>)
    requires WellFormed(f)
    ensures Parse(Print(f), userDefault) == f <==> !EndsInSpace(f.search) && SeverityPrints(f.severity, userDefault)
  {
    hide Print, Parse, CleanText, EndsInSpace, IsSearch, WithoutTrailingSpace, SeverityOf;
    ParsePrint(f, userDefault);
    SearchParsesBack(f.search);
    SeverityParsesBack(f.severity, userDefault);
  }

  const NO_THRESHOLD := Filter("open", "both", None, false, None, "risk", "desc", None, None, None)

  /** The plain view of all severities, printed by a user whose threshold is HIGH, comes back as the HIGH view. */
  lemma ThresholdWitness()
    ensures WellFormed(NO_THRESHOLD)
    ensures Parse(Print(NO_THRESHOLD), Some("high")).severity == Some("high")
  {
    ParsePrint(NO_THRESHOLD, Some("high"));
  }
}
