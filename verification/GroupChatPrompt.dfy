/**
 * The system prompt of the per-group chat. Scanner data is untrusted; it goes between two
 * markers, and no data may spell a marker.
 */
module GroupChatPrompt {
  import opened Models
  import opened Text
  import opened Sequences
  import opened Markers
  import opened Sorting

  const TITLE_MAX := 200

  /** Text that the server renders itself: prose, numbers, ISO timestamps. */
  type Plain = s: string | '<' !in s witness ""

  datatype AttackVector = Network | Adjacent | Local | Physical | UnknownVector

  datatype ChatServer = ChatServer(
    name: Option<string>,
    osPrettyName: Option<string>,
    osFamily: Option<string>,
    kernelVersion: Option<string>,
    architecture: Option<string>,
    tagNames: seq<string>,
    lastScanAt: Option<Plain>)

  datatype Listener = Listener(
    process: Option<string>,
    addr: Option<string>,
    port: Option<Plain>,
    proto: Option<string>,
    exposure: Option<string>)

  datatype ChatFinding = ChatFinding(
    identifierKey: Option<string>,
    title: Option<string>,
    severity: Option<Severity>,
    attackVector: Option<AttackVector>,
    cvss: Option<Plain>,
    epss: Option<Plain>,
    isKev: bool)

  datatype FindingsAggregate = FindingsAggregate(
    restCount: nat,
    severityCounts: seq<(Severity, nat)>,
    maxEpss: Option<Plain>,
    fixableCount: nat,
    kevCount: nat)

  datatype Verdict = Verdict(
    delivery: Option<string>,
    fixedBuildRelease: Option<string>,
    fixedBuildReleaseDate: Option<string>,
    latestReleaseComponentVersion: Option<string>,
    operatorAction: Option<string>,
    error: Option<string>,
    sourcesUsed: Option<seq<string>>,
    checkedAt: Option<string>)

  // ------------------------------------------------------------------ fields

  function WithoutControls(s: string): string {
    if s == "" then ""
    else
      var c := s[0];
      (if c == '\t' || c == '\n' || (c as int >= 0x20 && c as int != 0x7F) then [c] else []) + WithoutControls(s[1..])
  }

  /** `_safe`: control characters out, markers harmless, length capped, never empty. */
  function Safe(text: Option<string>, maxLen: nat): string
    requires maxLen >= 1
  {
    if text.None? || text.value == "" then "-"
    else
      var cleaned := NeutralizeMarkers(WithoutControls(text.value));
      var capped := if |cleaned| > maxLen then cleaned[..maxLen - 1] + "\U{2026}" else cleaned;
      if capped == "" then "-" else capped
  }

  /** Neither neutralising nor the cut leaves a marker in a field. */
  lemma SafeIsClean(text: Option<string>, maxLen: nat)
    requires maxLen >= 1
    ensures Clean(Safe(text, maxLen))
  {
    PlainIsClean("-");
    if text.Some? && text.value != "" {
      var cleaned := NeutralizeMarkers(WithoutControls(text.value));
      NeutralizedIsClean(WithoutControls(text.value));
      if |cleaned| > maxLen {
        PrefixIsClean(cleaned, maxLen - 1);
        EndIsClean(cleaned[..maxLen - 1], "\U{2026}");
      }
    }
  }

  function SafeAll(texts: seq<string>, maxLen: nat): (r: seq<string>)
    requires maxLen >= 1
    ensures |r| == |texts|
  {
    seq(|texts|, k requires 0 <= k < |texts| => Safe(Some(texts[k]), maxLen))
  }

  lemma SafeAllIsClean(texts: seq<string>, maxLen: nat)
    requires maxLen >= 1
    ensures forall t :: t in SafeAll(texts, maxLen) ==> Clean(t)
  {
    forall k | 0 <= k < |texts|
      ensures Clean(SafeAll(texts, maxLen)[k])
    {
      SafeIsClean(Some(texts[k]), maxLen);
    }
  }

  /** Python's `a or b` on optional strings. */
  function Or(a: Option<string>, b: Option<string>): Option<string> {
    if a.Some? && a.value != "" then a else b
  }

  function OrDash(p: Option<Plain>): Plain {
    match p case None => "-" case Some(v) => v
  }

  function SeverityName(s: Severity): Plain {
    match s
    case Critical => "critical"
    case High => "high"
    case Medium => "medium"
    case Low => "low"
    case Unknown => "unknown"
  }

  function VectorName(v: AttackVector): Plain {
    match v
    case Network => "network"
    case Adjacent => "adjacent"
    case Local => "local"
    case Physical => "physical"
    case UnknownVector => "unknown"
  }

  function PlainNat(n: nat): Plain {
    PrintNat(n)
  }

  // ------------------------------------------------------------------ blocks

  // The literal parts of the formatted strings. The middle dot separates the parts of a line.

  const FINDING_LINE := ["- ", " | sev=", " | cvss=", " | epss=", " | kev=", " | vec=", " | ", ""]
  const FINGERPRINT := ["HOST: ", " \U{00B7} ", " \U{00B7} kernel ", " \U{00B7} ", "\nTAGS: ", "\nLAST SCAN: ", ""]
  const SERVICES := ["ACTIVE SERVICES:\n", ""]
  const BULLET := ["- ", ""]
  const ADDR_PORT := ["", ":", ""]
  const LISTENER_LINE := ["- ", " \U{00B7} ", " \U{00B7} ", " \U{00B7} ", ""]
  const LISTENERS := ["LISTENERS:\n", ""]
  const WORST := ["", " (", ")"]
  const GROUP_CONTEXT := ["GROUP: ", "\nWORKFLOW LANE: ", "\nWORST FINDING: ", "\nSCANNER REASON: ", ""]
  const COUNT := ["", "=", ""]
  const NOT_SHOWN := " more findings not shown (summary): "
  const AGGREGATE := ["... and ", NOT_SHOWN, "; max_epss=", "; kev=", "; fixable=", ""]
  const FINDINGS := ["FINDINGS:\n", ""]
  const DELIVERY := ["  delivery: ", ""]
  const FIXED_RELEASE := ["  fixed release: ", ""]
  const FIXED_RELEASE_DATED := ["  fixed release: ", " (", ")"]
  const LATEST_RELEASE := ["  latest release built with: ", ""]
  const SUGGESTED_ACTION := ["  suggested action: ", ""]
  const CHECK_NOTE := ["  note: check could not fully determine (", ")"]
  const SOURCES := ["  sources: ", ""]
  const CHECKED_AT := ["  checked at: ", " (may be stale)"]

  const UPSTREAM_1: Plain := "UPSTREAM CHECK (advisory, web-derived, "
  const UPSTREAM_2: Plain := "candidate \U{00B7} verify \U{2014} this is a "
  const UPSTREAM_3: Plain := "research hint, it never changes the "
  const UPSTREAM_4: Plain := "risk band; the operator decides):"
  const UPSTREAM_HEADING := UPSTREAM_1 + UPSTREAM_2 + UPSTREAM_3 + UPSTREAM_4

  function FormatFindingLine(f: ChatFinding): string {
    Format(FINDING_LINE,
           [Safe(f.identifierKey, 32),
            OrDash(if f.severity.None? then None else Some(SeverityName(f.severity.value))),
            OrDash(f.cvss),
            OrDash(f.epss),
            if f.isKev then "yes" else "no",
            OrDash(if f.attackVector.None? then None else Some(VectorName(f.attackVector.value))),
            Safe(f.title, TITLE_MAX)])
  }

  function FormatFingerprint(server: ChatServer): string {
    Format(FINGERPRINT,
           [Safe(server.name, 128),
            Safe(Or(server.osPrettyName, server.osFamily), 128),
            Safe(server.kernelVersion, 128),
            Safe(server.architecture, 32),
            if server.tagNames == [] then "-" else Join(", ", SafeAll(server.tagNames, 32)),
            OrDash(server.lastScanAt)])
  }

  /** One `- x` line per item under a heading, or the heading's own text for none. */
  function Bullets(items: seq<string>): (r: seq<string>)
    ensures |r| == |items|
  {
    seq(|items|, k requires 0 <= k < |items| => Format(BULLET, [items[k]]))
  }

  function FormatServices(services: seq<string>): string {
    if services == [] then "ACTIVE SERVICES: none"
    else Format(SERVICES, [Join("\n", Bullets(Sort(StringLeq, SafeAll(services, 64))))])
  }

  function ListenerLine(li: Listener): string {
    var addr := Safe(li.addr, 64);
    var addrPort := if li.port.Some? then Format(ADDR_PORT, [addr, li.port.value]) else addr;
    Format(LISTENER_LINE,
           [Safe(li.process, 64), addrPort, Safe(li.proto, 16), Safe(li.exposure, 32)])
  }

  function ListenerLines(listeners: seq<Listener>): (r: seq<string>)
    ensures |r| == |listeners|
  {
    seq(|listeners|, k requires 0 <= k < |listeners| => ListenerLine(listeners[k]))
  }

  function ListenersText(listeners: seq<Listener>): string {
    if listeners == [] then "LISTENERS: none"
    else Format(LISTENERS, [Join("\n", ListenerLines(listeners))])
  }

  /** `_format_listeners`. */
  method FormatListeners(listeners: seq<Listener>) returns (text: string)
    ensures text == ListenersText(listeners)
  {
    var lines: seq<string> := [];
    for k := 0 to |listeners|
      invariant lines == ListenerLines(listeners[..k])
    {
      assert listeners[..k + 1] == listeners[..k] + [listeners[k]];
      lines := lines + [ListenerLine(listeners[k])];
    }
    assert listeners[..|listeners|] == listeners;
    if lines == [] {
      return "LISTENERS: none";
    }
    text := Format(LISTENERS, [Join("\n", lines)]);
  }

  function FormatGroupContext(groupLabel: string, lane: Option<string>, worst: Option<ChatFinding>,
                              reason: Option<string>): string {
    Format(GROUP_CONTEXT,
           [Safe(Some(groupLabel), 128),
            Safe(Or(lane, Some("-")), 32),
            if worst.None? then "-"
            else Format(WORST, [Safe(worst.value.identifierKey, 32), Safe(worst.value.title, TITLE_MAX)]),
            Safe(reason, TITLE_MAX)])
  }

  function CountText(entry: (Severity, nat)): string {
    Format(COUNT, [SeverityName(entry.0), PlainNat(entry.1)])
  }

  function CountTexts(counts: seq<(Severity, nat)>): (r: seq<string>)
    ensures |r| == |counts|
  {
    seq(|counts|, k requires 0 <= k < |counts| => CountText(counts[k]))
  }

  function FormatAggregate(a: FindingsAggregate): string {
    Format(AGGREGATE,
           [PlainNat(a.restCount),
            if a.severityCounts == [] then "severity=mixed" else Join(", ", CountTexts(a.severityCounts)),
            match a.maxEpss case None => "n/a" case Some(p) => p,
            PlainNat(a.kevCount),
            PlainNat(a.fixableCount)])
  }

  function HasRest(aggregate: Option<FindingsAggregate>): bool {
    aggregate.Some? && aggregate.value.restCount > 0
  }

  function FindingLines(findings: seq<ChatFinding>): (r: seq<string>)
    ensures |r| == |findings|
  {
    seq(|findings|, k requires 0 <= k < |findings| => FormatFindingLine(findings[k]))
  }

  function FormatFindings(findings: seq<ChatFinding>, aggregate: Option<FindingsAggregate>): string {
    if findings == [] && !HasRest(aggregate) then "FINDINGS: No open findings in this group."
    else
      var lines := FindingLines(findings) + if HasRest(aggregate) then [FormatAggregate(aggregate.value)] else [];
      Format(FINDINGS, [Join("\n", lines)])
  }

  /** A verdict line, left out when its field is absent. */
  function OptionalLine(literals: seq<string>, field: string): seq<string>
    requires |literals| == 2
  {
    if field == "-" then [] else [Format(literals, [field])]
  }

  function VerdictLines(v: Verdict): seq<string> {
    [UPSTREAM_HEADING, Format(DELIVERY, [Safe(Or(v.delivery, Some("-")), 32)])]
    + FixedReleaseLine(Safe(v.fixedBuildRelease, 64), Safe(v.fixedBuildReleaseDate, 32))
    + OptionalLine(LATEST_RELEASE, Safe(v.latestReleaseComponentVersion, 64))
    + OptionalLine(SUGGESTED_ACTION, Safe(v.operatorAction, TITLE_MAX))
    + OptionalLine(CHECK_NOTE, Safe(v.error, 64))
    + SourcesLine(v.sourcesUsed)
    + (if v.checkedAt.Some? then [Format(CHECKED_AT, [Safe(v.checkedAt, 40)])] else [])
  }

  function FixedReleaseLine(fixed: string, date: string): seq<string> {
    if fixed == "-" then []
    else if date == "-" then [Format(FIXED_RELEASE, [fixed])]
    else [Format(FIXED_RELEASE_DATED, [fixed, date])]
  }

  /** The first three sources. */
  function SourcesLine(sources: Option<seq<string>>): seq<string> {
    if sources.None? || sources.value == [] then []
    else
      var firstThree := if |sources.value| <= 3 then sources.value else sources.value[..3];
      [Format(SOURCES, [Join(", ", SafeAll(firstThree, 128))])]
  }

  /** `_format_upstream_verdict`: the lines are appended one after the other. */
  method FormatUpstreamVerdict(v: Verdict) returns (text: string)
    ensures text == Join("\n", VerdictLines(v))
  {
    hide Safe, Format, OptionalLine, Join, SafeAll;
    var lines: seq<string> := [UPSTREAM_HEADING, Format(DELIVERY, [Safe(Or(v.delivery, Some("-")), 32)])];
    var fixed := Safe(v.fixedBuildRelease, 64);
    var fixedLine: seq<string> := [];
    if fixed != "-" {
      var date := Safe(v.fixedBuildReleaseDate, 32);
      fixedLine :=
        if date != "-" then [Format(FIXED_RELEASE_DATED, [fixed, date])] else [Format(FIXED_RELEASE, [fixed])];
    }
    lines := lines + fixedLine;
    lines := lines + OptionalLine(LATEST_RELEASE, Safe(v.latestReleaseComponentVersion, 64));
    lines := lines + OptionalLine(SUGGESTED_ACTION, Safe(v.operatorAction, TITLE_MAX));
    lines := lines + OptionalLine(CHECK_NOTE, Safe(v.error, 64));
    var sourcesLine: seq<string> := [];
    if v.sourcesUsed.Some? && v.sourcesUsed.value != [] {
      var sources := v.sourcesUsed.value;
      var firstThree := if |sources| <= 3 then sources else sources[..3];
      sourcesLine := [Format(SOURCES, [Join(", ", SafeAll(firstThree, 128))])];
    }
    lines := lines + sourcesLine;
    var checkedLine: seq<string> := [];
    if v.checkedAt.Some? {
      checkedLine := [Format(CHECKED_AT, [Safe(v.checkedAt, 40)])];
    }
    lines := lines + checkedLine;
    text := Join("\n", lines);
  }

  // ------------------------------------------------------------------ the data body

  datatype ChatInput = ChatInput(
    server: ChatServer,
    groupLabel: string,
    lane: Option<string>,
    worstFinding: Option<ChatFinding>,
    reason: Option<string>,
    services: seq<string>,
    listeners: seq<Listener>,
    findings: seq<ChatFinding>,
    aggregate: Option<FindingsAggregate>,
    verdict: Option<Verdict>)

  function DataBlocks(input: ChatInput): seq<string> {
    [FormatFingerprint(input.server),
     FormatServices(input.services),
     ListenersText(input.listeners),
     FormatGroupContext(input.groupLabel, input.lane, input.worstFinding, input.reason),
     FormatFindings(input.findings, input.aggregate)]
    + if input.verdict.Some? then [Join("\n", VerdictLines(input.verdict.value))] else []
  }

  function DataBody(input: ChatInput): string {
    Join("\n\n", DataBlocks(input))
  }

  lemma LineTemplate()
    ensures Template(FINDING_LINE)
  {}

  lemma FingerprintTemplate()
    ensures Template(FINGERPRINT)
  {}

  lemma ListenerTemplate()
    ensures Template(ADDR_PORT) && Template(LISTENER_LINE)
  {}

  lemma ListenersTemplate()
    ensures Template(LISTENERS)
  {}

  lemma ListTemplate()
    ensures Template(SERVICES) && Template(BULLET) && Template(FINDINGS) && Template(SOURCES)
  {}

  lemma ContextTemplate()
    ensures Template(GROUP_CONTEXT)
  {}

  lemma WorstTemplate()
    ensures Template(WORST)
  {}

  lemma NotShownSeparates()
    ensures Separator(NOT_SHOWN)
  {}

  lemma AggregateTemplate()
    ensures Template(AGGREGATE)
  {
    NotShownSeparates();
    hide NOT_SHOWN;
  }

  lemma CountTemplate()
    ensures Template(COUNT)
  {}

  lemma ReleaseTemplate()
    ensures Template(DELIVERY) && Template(FIXED_RELEASE)
  {}

  lemma DatedTemplate()
    ensures Template(FIXED_RELEASE_DATED)
  {}

  lemma LatestTemplate()
    ensures Template(LATEST_RELEASE)
  {}

  lemma ActionTemplate()
    ensures Template(SUGGESTED_ACTION)
  {}

  lemma NoteTemplate()
    ensures Template(CHECK_NOTE)
  {}

  lemma CheckedTemplate()
    ensures Template(CHECKED_AT)
  {}

  /** A template with one field between two literals. */
  lemma OneField(literals: seq<string>, field: string)
    requires Template(literals) && |literals| == 2 && Clean(field)
    ensures Clean(Format(literals, [field]))
  {
    FormatIsClean(literals, [field]);
  }

  lemma FindingLineIsClean(f: ChatFinding)
    ensures Clean(FormatFindingLine(f))
  {
    hide Clean, Safe, Format, Template;
    LineTemplate();
    SafeIsClean(f.identifierKey, 32);
    SafeIsClean(f.title, TITLE_MAX);
    var sev := OrDash(if f.severity.None? then None else Some(SeverityName(f.severity.value)));
    var vec := OrDash(if f.attackVector.None? then None else Some(VectorName(f.attackVector.value)));
    var kev := if f.isKev then "yes" else "no";
    PlainIsClean(sev);
    PlainIsClean(vec);
    PlainIsClean(kev);
    PlainIsClean(OrDash(f.cvss));
    PlainIsClean(OrDash(f.epss));
    FormatIsClean(FINDING_LINE,
                  [Safe(f.identifierKey, 32), sev, OrDash(f.cvss), OrDash(f.epss), kev, vec, Safe(f.title, TITLE_MAX)]);
  }

  lemma FingerprintIsClean(server: ChatServer)
    ensures Clean(FormatFingerprint(server))
  {
    hide Clean, Safe, Format, Join, SafeAll, Template;
    FingerprintTemplate();
    SafeIsClean(server.name, 128);
    SafeIsClean(Or(server.osPrettyName, server.osFamily), 128);
    SafeIsClean(server.kernelVersion, 128);
    SafeIsClean(server.architecture, 32);
    SafeAllIsClean(server.tagNames, 32);
    JoinIsClean(", ", SafeAll(server.tagNames, 32));
    PlainIsClean("-");
    PlainIsClean(OrDash(server.lastScanAt));
    FormatIsClean(FINGERPRINT,
                  [Safe(server.name, 128), Safe(Or(server.osPrettyName, server.osFamily), 128),
                   Safe(server.kernelVersion, 128), Safe(server.architecture, 32),
                   if server.tagNames == [] then "-" else Join(", ", SafeAll(server.tagNames, 32)),
                   OrDash(server.lastScanAt)]);
  }

  lemma ServicesAreClean(services: seq<string>)
    ensures Clean(FormatServices(services))
  {
    hide Clean, Safe, Format, Join, SafeAll, Sort, Template;
    if services == [] {
      PlainIsClean("ACTIVE SERVICES: none");
    } else {
      SafeAllIsClean(services, 64);
      var sorted := Sort(StringLeq, SafeAll(services, 64));
      SameMembers(sorted, SafeAll(services, 64));
      BulletsAreClean(sorted);
      JoinIsClean("\n", Bullets(sorted));
      ListTemplate();
      OneField(SERVICES, Join("\n", Bullets(sorted)));
    }
  }

  lemma BulletsAreClean(items: seq<string>)
    requires forall t :: t in items ==> Clean(t)
    ensures forall t :: t in Bullets(items) ==> Clean(t)
  {
    hide Clean, Format, Template;
    ListTemplate();
    forall k | 0 <= k < |items|
      ensures Clean(Bullets(items)[k])
    {
      assert items[k] in items;
      OneField(BULLET, items[k]);
    }
  }

  lemma ListenerLineIsClean(li: Listener)
    ensures Clean(ListenerLine(li))
  {
    hide Clean, Safe, Format, Template;
    ListenerTemplate();
    SafeIsClean(li.process, 64);
    SafeIsClean(li.addr, 64);
    SafeIsClean(li.proto, 16);
    SafeIsClean(li.exposure, 32);
    var addr := Safe(li.addr, 64);
    if li.port.Some? {
      PlainIsClean(li.port.value);
      FormatIsClean(ADDR_PORT, [addr, li.port.value]);
    }
    var addrPort := if li.port.Some? then Format(ADDR_PORT, [addr, li.port.value]) else addr;
    FormatIsClean(LISTENER_LINE,
                  [Safe(li.process, 64), addrPort, Safe(li.proto, 16), Safe(li.exposure, 32)]);
  }

  lemma ListenersAreClean(listeners: seq<Listener>)
    ensures Clean(ListenersText(listeners))
  {
    hide Clean, Format, Join, ListenerLine, Template;
    if listeners == [] {
      PlainIsClean("LISTENERS: none");
    } else {
      forall k | 0 <= k < |listeners|
        ensures Clean(ListenerLines(listeners)[k])
      {
        ListenerLineIsClean(listeners[k]);
      }
      JoinIsClean("\n", ListenerLines(listeners));
      ListenersTemplate();
      OneField(LISTENERS, Join("\n", ListenerLines(listeners)));
    }
  }

  lemma GroupContextIsClean(groupLabel: string, lane: Option<string>, worst: Option<ChatFinding>,
                            reason: Option<string>)
    ensures Clean(FormatGroupContext(groupLabel, lane, worst, reason))
  {
    hide Clean, Safe, Format, Template;
    ContextTemplate();
    WorstTemplate();
    SafeIsClean(Some(groupLabel), 128);
    SafeIsClean(Or(lane, Some("-")), 32);
    SafeIsClean(reason, TITLE_MAX);
    PlainIsClean("-");
    if worst.Some? {
      SafeIsClean(worst.value.identifierKey, 32);
      SafeIsClean(worst.value.title, TITLE_MAX);
      FormatIsClean(WORST, [Safe(worst.value.identifierKey, 32), Safe(worst.value.title, TITLE_MAX)]);
    }
    var worstText := if worst.None? then "-"
                     else Format(WORST, [Safe(worst.value.identifierKey, 32), Safe(worst.value.title, TITLE_MAX)]);
    FormatIsClean(GROUP_CONTEXT,
                  [Safe(Some(groupLabel), 128), Safe(Or(lane, Some("-")), 32), worstText, Safe(reason, TITLE_MAX)]);
  }

  lemma AggregateIsClean(a: FindingsAggregate)
    ensures Clean(FormatAggregate(a))
  {
    hide Clean, Format, Join, PrintNat, CountText, Template;
    AggregateTemplate();
    forall k | 0 <= k < |a.severityCounts|
      ensures Clean(CountTexts(a.severityCounts)[k])
    {
      CountTextIsClean(a.severityCounts[k]);
    }
    JoinIsClean(", ", CountTexts(a.severityCounts));
    PlainIsClean("severity=mixed");
    var epss: Plain := match a.maxEpss case None => "n/a" case Some(p) => p;
    PlainIsClean(epss);
    PlainIsClean(PlainNat(a.restCount));
    PlainIsClean(PlainNat(a.kevCount));
    PlainIsClean(PlainNat(a.fixableCount));
    FormatIsClean(AGGREGATE,
                  [PlainNat(a.restCount),
                   if a.severityCounts == [] then "severity=mixed" else Join(", ", CountTexts(a.severityCounts)),
                   epss, PlainNat(a.kevCount), PlainNat(a.fixableCount)]);
  }

  lemma CountTextIsClean(entry: (Severity, nat))
    ensures Clean(CountText(entry))
  {
    CountTemplate();
    PlainIsClean(SeverityName(entry.0));
    PlainIsClean(PlainNat(entry.1));
    FormatIsClean(COUNT, [SeverityName(entry.0), PlainNat(entry.1)]);
  }

  ghost predicate AllClean(lines: seq<string>) {
    forall l :: l in lines ==> Clean(l)
  }

  lemma AllCleanConcat(a: seq<string>, b: seq<string>)
    requires AllClean(a) && AllClean(b)
    ensures AllClean(a + b)
  {}

  lemma FindingLinesAreClean(findings: seq<ChatFinding>)
    ensures AllClean(FindingLines(findings))
  {
    hide Clean, FormatFindingLine;
    forall k | 0 <= k < |findings|
      ensures Clean(FindingLines(findings)[k])
    {
      FindingLineIsClean(findings[k]);
    }
  }

  lemma FindingsAreClean(findings: seq<ChatFinding>, aggregate: Option<FindingsAggregate>)
    ensures Clean(FormatFindings(findings, aggregate))
  {
    hide Clean, AllClean, Format, Join, FindingLines, FormatAggregate, Template;
    PlainIsClean("FINDINGS: No open findings in this group.");
    var more := if HasRest(aggregate) then [FormatAggregate(aggregate.value)] else [];
    RestIsClean(aggregate);
    FindingLinesAreClean(findings);
    AllCleanConcat(FindingLines(findings), more);
    LinesAreClean(FindingLines(findings) + more);
    ListTemplate();
    OneField(FINDINGS, Join("\n", FindingLines(findings) + more));
  }

  lemma RestIsClean(aggregate: Option<FindingsAggregate>)
    ensures AllClean(if HasRest(aggregate) then [FormatAggregate(aggregate.value)] else [])
  {
    hide Clean, FormatAggregate;
    if HasRest(aggregate) {
      AggregateIsClean(aggregate.value);
    }
  }

  lemma FixedReleaseIsClean(fixed: string, date: string)
    requires Clean(fixed) && Clean(date)
    ensures AllClean(FixedReleaseLine(fixed, date))
  {
    hide Clean, Format, Template;
    ReleaseTemplate();
    DatedTemplate();
    OneField(FIXED_RELEASE, fixed);
    FormatIsClean(FIXED_RELEASE_DATED, [fixed, date]);
  }

  lemma SourcesAreClean(sources: Option<seq<string>>)
    ensures AllClean(SourcesLine(sources))
  {
    hide Clean, Safe, Format, Join, SafeAll, Template;
    if sources.Some? {
      var firstThree := if |sources.value| <= 3 then sources.value else sources.value[..3];
      SafeAllIsClean(firstThree, 128);
      JoinIsClean(", ", SafeAll(firstThree, 128));
      ListTemplate();
      OneField(SOURCES, Join(", ", SafeAll(firstThree, 128)));
    }
  }

  lemma OpeningIsClean(delivery: string)
    requires Clean(delivery)
    ensures AllClean([UPSTREAM_HEADING, Format(DELIVERY, [delivery])])
  {
    hide Clean, Format, Template;
    assert Clean(UPSTREAM_HEADING) by {
      PlainIsClean(UPSTREAM_HEADING);
    }
    ReleaseTemplate();
    OneField(DELIVERY, delivery);
  }

  lemma ClosingIsClean(checkedAt: Option<string>)
    ensures AllClean(if checkedAt.Some? then [Format(CHECKED_AT, [Safe(checkedAt, 40)])] else [])
  {
    hide Clean, Safe, Format, Template;
    SafeIsClean(checkedAt, 40);
    CheckedTemplate();
    OneField(CHECKED_AT, Safe(checkedAt, 40));
  }

  lemma OptionalLineIsClean(literals: seq<string>, text: Option<string>, maxLen: nat)
    requires Template(literals) && |literals| == 2 && maxLen >= 1
    ensures AllClean(OptionalLine(literals, Safe(text, maxLen)))
  {
    SafeIsClean(text, maxLen);
    OneField(literals, Safe(text, maxLen));
  }

  lemma VerdictIsClean(v: Verdict)
    ensures Clean(Join("\n", VerdictLines(v)))
  {
    hide Clean, AllClean, Safe, Format, Join, OptionalLine, FixedReleaseLine, SourcesLine, Template;
    var delivery := Safe(Or(v.delivery, Some("-")), 32);
    SafeIsClean(Or(v.delivery, Some("-")), 32);
    OpeningIsClean(delivery);
    var lines := [UPSTREAM_HEADING, Format(DELIVERY, [delivery])];
    SafeIsClean(v.fixedBuildRelease, 64);
    SafeIsClean(v.fixedBuildReleaseDate, 32);
    var more := FixedReleaseLine(Safe(v.fixedBuildRelease, 64), Safe(v.fixedBuildReleaseDate, 32));
    FixedReleaseIsClean(Safe(v.fixedBuildRelease, 64), Safe(v.fixedBuildReleaseDate, 32));
    AllCleanConcat(lines, more);
    lines := lines + more;
    LatestTemplate();
    OptionalLineIsClean(LATEST_RELEASE, v.latestReleaseComponentVersion, 64);
    AllCleanConcat(lines, OptionalLine(LATEST_RELEASE, Safe(v.latestReleaseComponentVersion, 64)));
    lines := lines + OptionalLine(LATEST_RELEASE, Safe(v.latestReleaseComponentVersion, 64));
    ActionTemplate();
    OptionalLineIsClean(SUGGESTED_ACTION, v.operatorAction, TITLE_MAX);
    AllCleanConcat(lines, OptionalLine(SUGGESTED_ACTION, Safe(v.operatorAction, TITLE_MAX)));
    lines := lines + OptionalLine(SUGGESTED_ACTION, Safe(v.operatorAction, TITLE_MAX));
    NoteTemplate();
    OptionalLineIsClean(CHECK_NOTE, v.error, 64);
    AllCleanConcat(lines, OptionalLine(CHECK_NOTE, Safe(v.error, 64)));
    lines := lines + OptionalLine(CHECK_NOTE, Safe(v.error, 64));
    SourcesAreClean(v.sourcesUsed);
    AllCleanConcat(lines, SourcesLine(v.sourcesUsed));
    lines := lines + SourcesLine(v.sourcesUsed);
    var closing := if v.checkedAt.Some? then [Format(CHECKED_AT, [Safe(v.checkedAt, 40)])] else [];
    ClosingIsClean(v.checkedAt);
    AllCleanConcat(lines, closing);
    LinesAreClean(lines + closing);
  }

  lemma LinesAreClean(lines: seq<string>)
    requires AllClean(lines)
    ensures Clean(Join("\n", lines))
  {
    JoinIsClean("\n", lines);
  }

  /** Whatever the scanner sent, the data body spells no marker, not even across its fields. */
  lemma DataBodyIsClean(input: ChatInput)
    ensures Clean(DataBody(input))
  {
    hide Clean, Join, FormatFingerprint, FormatServices, ListenersText, FormatGroupContext;
    hide FormatFindings, VerdictLines;
    FingerprintIsClean(input.server);
    ServicesAreClean(input.services);
    ListenersAreClean(input.listeners);
    GroupContextIsClean(input.groupLabel, input.lane, input.worstFinding, input.reason);
    FindingsAreClean(input.findings, input.aggregate);
    if input.verdict.Some? {
      VerdictIsClean(input.verdict.value);
    }
    JoinIsClean("\n\n", DataBlocks(input));
  }

  // ------------------------------------------------------------------ the prompt

  /** The fixed prose: the introduction, and the guard before, between and after the marker names. */
  datatype Prose = Prose(intro: Plain, guardOpening: Plain, guardClosing: Plain)

  const TICK := "`"
  const TICK_AND_TICK := "` and `"
  const BLANK_LINE := "\n\n"
  const NEWLINE := "\n"

  function InjectionGuard(prose: Prose): string {
    prose.guardOpening + TICK + TRIVY_DATA_START + TICK_AND_TICK + TRIVY_DATA_END + TICK + prose.guardClosing
  }

  function DataSection(data: string): string {
    TRIVY_DATA_START + NEWLINE + data + NEWLINE + TRIVY_DATA_END
  }

  /**
   * Each marker occurs exactly twice: once in the guard, once around the data. The text between
   * the last start and the last end is the data, and nothing follows the last end.
   */
  ghost predicate MarkerDiscipline(prompt: string, data: string, start1: nat, end1: nat, start2: nat, end2: nat) {
    && start1 < end1 < start2 < end2
    && (forall i :: OccursAt(prompt, TRIVY_DATA_START, i) <==> i == start1 || i == start2)
    && (forall i :: OccursAt(prompt, TRIVY_DATA_END, i) <==> i == end1 || i == end2)
    && start2 + |TRIVY_DATA_START| <= end2 && end2 + |TRIVY_DATA_END| == |prompt|
    && prompt[start2 + |TRIVY_DATA_START|..end2] == NEWLINE + data + NEWLINE
  }

  /** `build_group_system_prompt`. */
  method BuildGroupSystemPrompt(input: ChatInput, prose: Prose)
    returns (prompt: string, ghost start1: nat, ghost end1: nat, ghost start2: nat, ghost end2: nat)
    ensures Clean(DataBody(input))
    ensures MarkerDiscipline(prompt, DataBody(input), start1, end1, start2, end2)
    ensures prompt == Join(BLANK_LINE, [prose.intro, InjectionGuard(prose), DataSection(DataBody(input))])
  {
    hide DataBody, OccursAt;
    var listeners := FormatListeners(input.listeners);
    var blocks := [
      FormatFingerprint(input.server),
      FormatServices(input.services),
      listeners,
      FormatGroupContext(input.groupLabel, input.lane, input.worstFinding, input.reason),
      FormatFindings(input.findings, input.aggregate)];
    if input.verdict.Some? {
      var verdict := FormatUpstreamVerdict(input.verdict.value);
      blocks := blocks + [verdict];
    }
    var dataBody := Join(BLANK_LINE, blocks);
    assert blocks == DataBlocks(input);
    BodyIsJoined(input);
    DataBodyIsClean(input);
    prompt := Join(BLANK_LINE, [prose.intro, InjectionGuard(prose), DataSection(dataBody)]);
    start1, end1, start2, end2 := PromptMarkers(prose, dataBody);
  }

  lemma BodyIsJoined(input: ChatInput)
    ensures DataBody(input) == Join(BLANK_LINE, DataBlocks(input))
  {}

  lemma MarkerInMarker(m: string, n: string, i: int)
    requires IsMarker(m) && IsMarker(n)
    ensures OccursAt(m, n, i) <==> m == n && i == 0
  {
    MarkerShape(m);
    MarkerShape(n);
    OccursChar(m, n, i, 1);
    OccursChar(m, n, i, 13);
    assert TRIVY_DATA_START[13] != TRIVY_DATA_END[13];
  }

  lemma PlainHasNone(s: string, m: string, i: int)
    requires '<' !in s && IsMarker(m)
    ensures !OccursAt(s, m, i)
  {
    PlainIsClean(s);
  }

  /** The prompt as one chain of marker-free pieces, markers and separators. */
  function Chained(a0: string, a1: string, data: string): string {
    a0 + TICK + (TRIVY_DATA_START + TICK_AND_TICK + (TRIVY_DATA_END + TICK + (a1 + BLANK_LINE + DataSection(data))))
  }

  /** The four marker positions in the chain. */
  function Start1(a0: string): nat {
    |a0| + |TICK|
  }

  function End1(a0: string): nat {
    Start1(a0) + |TRIVY_DATA_START| + |TICK_AND_TICK|
  }

  function Start2(a0: string, a1: string): nat {
    End1(a0) + |TRIVY_DATA_END| + |TICK| + |a1| + |BLANK_LINE|
  }

  function End2(a0: string, a1: string, data: string): nat {
    Start2(a0, a1) + SectionEnd(data)
  }

  /** Where the end marker begins in the data section. */
  function SectionEnd(data: string): nat {
    |TRIVY_DATA_START| + |NEWLINE| + |data| + |NEWLINE|
  }

  lemma SectionOccurs(data: string, m: string, i: int)
    requires Clean(data) && IsMarker(m)
    ensures OccursAt(DataSection(data), m, i)
       <==> (m == TRIVY_DATA_START && i == 0) || (m == TRIVY_DATA_END && i == SectionEnd(data))
  {
    hide OccursAt;
    var tail := data + NEWLINE + TRIVY_DATA_END;
    assert DataSection(data) == TRIVY_DATA_START + NEWLINE + tail;
    var j := i - |TRIVY_DATA_START| - |NEWLINE|;
    GlueOccurs(TRIVY_DATA_START, NEWLINE, tail, m, i);
    GlueOccurs(data, NEWLINE, TRIVY_DATA_END, m, j);
    MarkerInMarker(TRIVY_DATA_START, m, i);
    MarkerInMarker(TRIVY_DATA_END, m, j - |data| - |NEWLINE|);
    assert m == TRIVY_DATA_START || m == TRIVY_DATA_END;
  }

  lemma ChainedOccurs(a0: string, a1: string, data: string, m: string, i: int)
    requires '<' !in a0 && '<' !in a1 && Clean(data) && IsMarker(m)
    ensures OccursAt(Chained(a0, a1, data), m, i) <==>
              (m == TRIVY_DATA_START && (i == Start1(a0) || i == Start2(a0, a1)))
              || (m == TRIVY_DATA_END && (i == End1(a0) || i == End2(a0, a1, data)))
  {
    hide OccursAt, DataSection;
    var s3 := a1 + BLANK_LINE + DataSection(data);
    var s2 := TRIVY_DATA_END + TICK + s3;
    var s1 := TRIVY_DATA_START + TICK_AND_TICK + s2;
    var i1 := i - |a0| - |TICK|;
    var i2 := i1 - |TRIVY_DATA_START| - |TICK_AND_TICK|;
    var i3 := i2 - |TRIVY_DATA_END| - |TICK|;
    GlueOccurs(a0, TICK, s1, m, i);
    PlainHasNone(a0, m, i);
    GlueOccurs(TRIVY_DATA_START, TICK_AND_TICK, s2, m, i1);
    MarkerInMarker(TRIVY_DATA_START, m, i1);
    GlueOccurs(TRIVY_DATA_END, TICK, s3, m, i2);
    MarkerInMarker(TRIVY_DATA_END, m, i2);
    GlueOccurs(a1, BLANK_LINE, DataSection(data), m, i3);
    PlainHasNone(a1, m, i3);
    SectionOccurs(data, m, i3 - |a1| - |BLANK_LINE|);
  }

  lemma PromptIsChained(prose: Prose, data: string)
    ensures Join(BLANK_LINE, [prose.intro, InjectionGuard(prose), DataSection(data)])
         == Chained(prose.intro + BLANK_LINE + prose.guardOpening, prose.guardClosing, data)
  {
    hide DataSection, Join;
    var guard, d := InjectionGuard(prose), DataSection(data);
    JoinThree(BLANK_LINE, prose.intro, guard, d);
    var s3 := prose.guardClosing + BLANK_LINE + d;
    var s2 := TRIVY_DATA_END + TICK + s3;
    var s1 := TRIVY_DATA_START + TICK_AND_TICK + s2;
    assert guard + BLANK_LINE + d == prose.guardOpening + TICK + s1;
    assert prose.intro + BLANK_LINE + (prose.guardOpening + TICK + s1)
        == prose.intro + BLANK_LINE + prose.guardOpening + TICK + s1;
  }

  /** The marker discipline of the finished prompt, for every clean data body. */
  lemma PromptMarkers(prose: Prose, data: string) returns (start1: nat, end1: nat, start2: nat, end2: nat)
    requires Clean(data)
    ensures MarkerDiscipline(Join(BLANK_LINE, [prose.intro, InjectionGuard(prose), DataSection(data)]),
                             data, start1, end1, start2, end2)
  {
    hide OccursAt, InjectionGuard, Chained, DataSection;
    var a0, a1 := prose.intro + BLANK_LINE + prose.guardOpening, prose.guardClosing;
    var prompt := Chained(a0, a1, data);
    PromptIsChained(prose, data);
    start1, end1, start2, end2 := Start1(a0), End1(a0), Start2(a0, a1), End2(a0, a1, data);
    forall i
      ensures OccursAt(prompt, TRIVY_DATA_START, i) <==> i == start1 || i == start2
      ensures OccursAt(prompt, TRIVY_DATA_END, i) <==> i == end1 || i == end2
    {
      ChainedOccurs(a0, a1, data, TRIVY_DATA_START, i);
      ChainedOccurs(a0, a1, data, TRIVY_DATA_END, i);
    }
    ChainedSection(a0, a1, data);
  }

  /** The chain up to the data section. */
  function ChainHead(a0: string, a1: string): string {
    a0 + TICK + (TRIVY_DATA_START + TICK_AND_TICK + (TRIVY_DATA_END + TICK + (a1 + BLANK_LINE)))
  }

  lemma ChainSplits(a0: string, tick: string, start: string, between: string, end: string, a1: string, blank: string,
                    x: string)
    ensures a0 + tick + (start + between + (end + tick + (a1 + blank + x)))
         == a0 + tick + (start + between + (end + tick + (a1 + blank))) + x
  {
    Associative(end + tick, a1 + blank, x);
    Associative(start + between, end + tick + (a1 + blank), x);
    Associative(a0 + tick, start + between + (end + tick + (a1 + blank)), x);
  }

  lemma SectionText(data: string)
    ensures |TRIVY_DATA_START| <= SectionEnd(data) && |DataSection(data)| == SectionEnd(data) + |TRIVY_DATA_END|
    ensures DataSection(data)[|TRIVY_DATA_START|..SectionEnd(data)] == NEWLINE + data + NEWLINE
  {
    var inner := NEWLINE + data + NEWLINE;
    assert DataSection(data) == TRIVY_DATA_START + inner + TRIVY_DATA_END;
    MiddleSlice(TRIVY_DATA_START, inner, TRIVY_DATA_END);
  }

  lemma MiddleSlice(a: string, b: string, c: string)
    ensures (a + b + c)[|a|..|a| + |b|] == b
  {}

  lemma SliceOfTail(a: string, b: string, m: nat, n: nat)
    requires m <= n <= |b|
    ensures (a + b)[|a| + m..|a| + n] == b[m..n]
  {}

  /** The data section is the end of the prompt. */
  lemma ChainedSection(a0: string, a1: string, data: string)
    ensures
      var start2, end2 := Start2(a0, a1), End2(a0, a1, data);
      && |Chained(a0, a1, data)| == end2 + |TRIVY_DATA_END|
      && Chained(a0, a1, data)[start2 + |TRIVY_DATA_START|..end2] == NEWLINE + data + NEWLINE
  {
    ChainSplits(a0, TICK, TRIVY_DATA_START, TICK_AND_TICK, TRIVY_DATA_END, a1, BLANK_LINE, DataSection(data));
    assert |ChainHead(a0, a1)| == Start2(a0, a1);
    SectionText(data);
    hide DataSection, SectionEnd;
    SliceOfTail(ChainHead(a0, a1), DataSection(data), |TRIVY_DATA_START|, SectionEnd(data));
  }
}
