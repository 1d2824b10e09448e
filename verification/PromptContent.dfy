/**
 * What the data body of the chat prompt says: every field of the input stands in its line, and
 * nothing else does. The lines are spelled out here without the templates that format them.
 */
module PromptContent {
  import opened Models
  import opened Text
  import opened Sequences
  import opened Markers
  import opened Sorting
  import opened GroupChatPrompt

  // ------------------------------------------------------------------ one field

  predicate IsControl(c: char) {
    c != '\t' && c != '\n' && ((c as int) < 0x20 || c as int == 0x7F)
  }

  /** Text that needs no cleaning: some text without control character and without marker. */
  ghost predicate IsOrdinary(t: string) {
    t != "" && Clean(t) && forall k :: 0 <= k < |t| ==> !IsControl(t[k])
  }

  /** An ordinary field is shown as it is, and its first characters with an ellipsis when it is too long. */
  lemma OrdinaryIsShown(t: string, maxLen: nat)
    requires IsOrdinary(t) && maxLen >= 1
    ensures Safe(Some(t), maxLen) == if |t| <= maxLen then t else t[..maxLen - 1] + ['\U{2026}']
  {
    NothingControlled(t);
    CleanIsKept(t);
    hide Clean, WithoutControls, NeutralizeMarkers, IsControl;
    assert ['\U{2026}'] == "\U{2026}";
  }

  lemma {:induction false} NothingControlled(t: string)
    requires forall k :: 0 <= k < |t| ==> !IsControl(t[k])
    ensures WithoutControls(t) == t
  {
    if t != "" {
      NothingControlled(t[1..]);
    }
  }

  lemma CleanIsKept(s: string)
    requires Clean(s)
    ensures NeutralizeMarkers(s) == s
  {
    ContainsFromIff(s, TRIVY_DATA_START, 0);
    ContainsFromIff(s, TRIVY_DATA_END, 0);
    hide OccursAt;
  }

  /** A field without any printable text is a dash. */
  lemma {:induction false} NothingIsDash(t: string, maxLen: nat)
    requires maxLen >= 1 && forall k :: 0 <= k < |t| ==> IsControl(t[k])
    ensures Safe(None, maxLen) == "-" && Safe(Some(t), maxLen) == "-"
  {
    AllControlled(t);
    PlainIsClean("");
    CleanIsKept("");
  }

  lemma {:induction false} AllControlled(t: string)
    requires forall k :: 0 <= k < |t| ==> IsControl(t[k])
    ensures WithoutControls(t) == ""
  {
    if t != "" {
      AllControlled(t[1..]);
    }
  }

  function WithoutZeroWidth(s: string): string {
    if s == "" then ""
    else (if s[0] == ZERO_WIDTH_SPACE then "" else [s[0]]) + WithoutZeroWidth(s[1..])
  }

  lemma {:induction false} WithoutZeroWidthConcat(a: string, b: string)
    ensures WithoutZeroWidth(a + b) == WithoutZeroWidth(a) + WithoutZeroWidth(b)
  {
    if a == "" {
      assert a + b == b;
    } else {
      WithoutZeroWidthConcat(a[1..], b);
      assert (a + b)[1..] == a[1..] + b && (a + b)[0] == a[0];
      WithoutZeroWidthHead(a);
      WithoutZeroWidthHead(a + b);
      hide WithoutZeroWidth;
    }
  }

  lemma WithoutZeroWidthHead(s: string)
    requires s != ""
    ensures WithoutZeroWidth(s) == (if s[0] == ZERO_WIDTH_SPACE then "" else [s[0]]) + WithoutZeroWidth(s[1..])
  {}

  /** Neutralising inserts zero-width spaces and does nothing else: no character of the data is lost. */
  lemma NeutralizingOnlyInserts(s: string)
    ensures WithoutZeroWidth(NeutralizeMarkers(s)) == WithoutZeroWidth(s)
  {
    ReplaceOnlyInserts(s, TRIVY_DATA_START);
    ReplaceOnlyInserts(Defuse(s, TRIVY_DATA_START), TRIVY_DATA_END);
  }

  lemma {:induction false} ReplaceOnlyInserts(s: string, m: string)
    requires |m| >= 1
    ensures WithoutZeroWidth(Replace(s, m, Defused(m))) == WithoutZeroWidth(s)
  {
    if |s| >= |m| {
      var n, produced := Consumed(s, m), Produced(s, m);
      ReplaceOnlyInserts(s[n..], m);
      ReplaceStep(s, m);
      ProducedOnlyInserts(s, m);
      WithoutZeroWidthConcat(produced, Replace(s[n..], m, Defused(m)));
      WithoutZeroWidthConcat(s[..n], s[n..]);
      assert s == s[..n] + s[n..];
    }
  }

  lemma ProducedOnlyInserts(s: string, m: string)
    requires 1 <= |m| <= |s|
    ensures WithoutZeroWidth(Produced(s, m)) == WithoutZeroWidth(s[..Consumed(s, m)])
  {
    hide WithoutZeroWidth;
    if s[..|m|] == m {
      ZeroWidthVanishes();
      WithoutZeroWidthConcat([m[0]] + [ZERO_WIDTH_SPACE], m[1..]);
      WithoutZeroWidthConcat([m[0]], [ZERO_WIDTH_SPACE]);
      WithoutZeroWidthConcat([m[0]], m[1..]);
      assert Defused(m) == [m[0]] + [ZERO_WIDTH_SPACE] + m[1..] && m == [m[0]] + m[1..];
      assert WithoutZeroWidth([m[0]]) + "" == WithoutZeroWidth([m[0]]);
    } else {
      assert s[..1] == [s[0]];
    }
  }

  lemma ZeroWidthVanishes()
    ensures WithoutZeroWidth([ZERO_WIDTH_SPACE]) == ""
  {}

  // ------------------------------------------------------------------ the lines

  function HostLines(server: ChatServer): seq<string> {
    var os := if server.osPrettyName.Some? && server.osPrettyName.value != "" then server.osPrettyName
              else server.osFamily;
    ["HOST: " + Safe(server.name, 128) + " \U{00B7} " + Safe(os, 128) + " \U{00B7} kernel "
     + Safe(server.kernelVersion, 128) + " \U{00B7} " + Safe(server.architecture, 32),
     "\nTAGS: " + if server.tagNames == [] then "-" else Join(", ", SafeAll(server.tagNames, 32)),
     "\nLAST SCAN: " + if server.lastScanAt.Some? then server.lastScanAt.value else "-"]
  }

  function ServiceLines(services: seq<string>): seq<string> {
    if services == [] then ["\n\nACTIVE SERVICES: none"]
    else
      var shown := Sort(StringLeq, SafeAll(services, 64));
      ["\n\nACTIVE SERVICES:"] + seq(|shown|, k requires 0 <= k < |shown| => "\n- " + shown[k])
  }

  function ListenerText(li: Listener): string {
    "\n- " + Safe(li.process, 64) + " \U{00B7} "
    + (if li.port.Some? then Safe(li.addr, 64) + ":" + li.port.value else Safe(li.addr, 64))
    + " \U{00B7} " + Safe(li.proto, 16) + " \U{00B7} " + Safe(li.exposure, 32)
  }

  function ListenerBlock(listeners: seq<Listener>): seq<string> {
    if listeners == [] then ["\n\nLISTENERS: none"]
    else
      ["\n\nLISTENERS:"] + seq(|listeners|, k requires 0 <= k < |listeners| => ListenerText(listeners[k]))
  }

  function GroupLines(input: ChatInput): seq<string> {
    ["\n\nGROUP: " + Safe(Some(input.groupLabel), 128),
     "\nWORKFLOW LANE: " + if input.lane.None? || input.lane.value == "" then "-" else Safe(input.lane, 32),
     "\nWORST FINDING: "
     + (if input.worstFinding.None? then "-"
        else Safe(input.worstFinding.value.identifierKey, 32) + " (" + Safe(input.worstFinding.value.title, 200) + ")"),
     "\nSCANNER REASON: " + Safe(input.reason, 200)]
  }

  function SeverityWord(s: Option<Severity>): string {
    if s == Some(Critical) then "critical"
    else if s == Some(High) then "high"
    else if s == Some(Medium) then "medium"
    else if s == Some(Low) then "low"
    else if s == Some(Unknown) then "unknown"
    else "-"
  }

  function VectorWord(v: Option<AttackVector>): string {
    if v == Some(Network) then "network"
    else if v == Some(Adjacent) then "adjacent"
    else if v == Some(Local) then "local"
    else if v == Some(Physical) then "physical"
    else if v == Some(UnknownVector) then "unknown"
    else "-"
  }

  function OrNone(p: Option<Plain>): string {
    if p.Some? then p.value else "-"
  }

  function FindingText(f: ChatFinding): string {
    "\n- " + Safe(f.identifierKey, 32) + " | sev=" + SeverityWord(f.severity) + " | cvss=" + OrNone(f.cvss)
    + " | epss=" + OrNone(f.epss) + " | kev=" + (if f.isKev then "yes" else "no")
    + " | vec=" + VectorWord(f.attackVector) + " | " + Safe(f.title, 200)
  }

  function Counted(counts: seq<(Severity, nat)>): seq<string> {
    seq(|counts|, k requires 0 <= k < |counts| => SeverityWord(Some(counts[k].0)) + "=" + PrintNat(counts[k].1))
  }

  function RestText(a: FindingsAggregate): string {
    "\n... and " + PrintNat(a.restCount) + " more findings not shown (summary): "
    + (if a.severityCounts == [] then "severity=mixed" else Join(", ", Counted(a.severityCounts)))
    + "; max_epss=" + (if a.maxEpss.Some? then a.maxEpss.value else "n/a")
    + "; kev=" + PrintNat(a.kevCount) + "; fixable=" + PrintNat(a.fixableCount)
  }

  function FindingBlock(findings: seq<ChatFinding>, aggregate: Option<FindingsAggregate>): seq<string> {
    var rest := if aggregate.Some? && aggregate.value.restCount > 0 then [RestText(aggregate.value)] else [];
    if findings == [] && rest == [] then ["\n\nFINDINGS: No open findings in this group."]
    else
      ["\n\nFINDINGS:"] + seq(|findings|, k requires 0 <= k < |findings| => FindingText(findings[k])) + rest
  }

  function IfShown(before: string, field: string, behind: string): seq<string> {
    if field == "-" then [] else ["\n" + before + field + behind]
  }

  function VerdictBlock(v: Verdict): seq<string> {
    var fixed, date := Safe(v.fixedBuildRelease, 64), Safe(v.fixedBuildReleaseDate, 32);
    ["\n\n" + UPSTREAM_HEADING]
    + ["\n" + "  delivery: " + if v.delivery.None? || v.delivery.value == "" then "-" else Safe(v.delivery, 32)]
    + IfShown("  fixed release: ", fixed, if date == "-" then "" else " (" + date + ")")
    + IfShown("  latest release built with: ", Safe(v.latestReleaseComponentVersion, 64), "")
    + IfShown("  suggested action: ", Safe(v.operatorAction, 200), "")
    + IfShown("  note: check could not fully determine (", Safe(v.error, 64), ")")
    + SourceText(v.sourcesUsed)
    + if v.checkedAt.Some? then ["\n" + "  checked at: " + Safe(v.checkedAt, 40) + " (may be stale)"] else []
  }

  function SourceText(sources: Option<seq<string>>): seq<string> {
    if sources.None? || sources.value == [] then []
    else
      var n := if |sources.value| < 3 then |sources.value| else 3;
      ["\n" + "  sources: " + Join(", ", SafeAll(sources.value[..n], 128))]
  }

  function BodyLines(input: ChatInput): seq<string> {
    HostLines(input.server) + ServiceLines(input.services) + ListenerBlock(input.listeners) + GroupLines(input)
    + FindingBlock(input.findings, input.aggregate)
    + if input.verdict.Some? then VerdictBlock(input.verdict.value) else []
  }

  // ------------------------------------------------------------------ templates and joins, written out

  lemma FormatStep(done: string, l: string, literals: seq<string>, f: string, fields: seq<string>)
    requires |literals| == |fields| + 1
    ensures done + Format([l] + literals, [f] + fields) == done + l + f + Format(literals, fields)
  {
    FormatAfter(done, [l] + literals, [f] + fields);
    assert ([l] + literals)[1..] == literals && ([f] + fields)[1..] == fields;
  }

  lemma FormatEnd(done: string, l: string)
    ensures done + Format([l], []) == done + l
  {
    FormatNothing([l]);
  }

  lemma Unprefixed(s: string, t: string)
    ensures "" + s == s && "" + t == t
  {}

  lemma Format1(l0: string, f0: string, l1: string)
    ensures Format([l0, l1], [f0])
         == l0 + f0 + l1
  {
    hide Format;
    assert [l0, l1] == [l0] + [l1] && [f0] == [f0] + [];
    FormatStep("", l0, [l1], f0, []);
    Unprefixed(Format([l0, l1], [f0]), l0);
    FormatEnd(l0 + f0, l1);
  }

  lemma Format2(l0: string, f0: string, l1: string, f1: string, l2: string)
    ensures Format([l0, l1, l2], [f0, f1])
         == l0 + f0 + l1 + f1 + l2
  {
    hide Format;
    assert [l0, l1, l2] == [l0] + [l1, l2] && [f0, f1] == [f0] + [f1];
    FormatStep("", l0, [l1, l2], f0, [f1]);
    Unprefixed(Format([l0, l1, l2], [f0, f1]), l0);
    assert [l1, l2] == [l1] + [l2] && [f1] == [f1] + [];
    FormatStep(l0 + f0, l1, [l2], f1, []);
    FormatEnd(l0 + f0 + l1 + f1, l2);
  }

  lemma Format4(l0: string, f0: string, l1: string, f1: string, l2: string, f2: string, l3: string, f3: string, l4:
                string)
    ensures Format([l0, l1, l2, l3, l4], [f0, f1, f2, f3])
         == l0 + f0 + l1 + f1 + l2 + f2 + l3 + f3 + l4
  {
    hide Format;
    assert [l0, l1, l2, l3, l4] == [l0] + [l1, l2, l3, l4] && [f0, f1, f2, f3] == [f0] + [f1, f2, f3];
    FormatStep("", l0, [l1, l2, l3, l4], f0, [f1, f2, f3]);
    Unprefixed(Format([l0, l1, l2, l3, l4], [f0, f1, f2, f3]), l0);
    assert [l1, l2, l3, l4] == [l1] + [l2, l3, l4] && [f1, f2, f3] == [f1] + [f2, f3];
    FormatStep(l0 + f0, l1, [l2, l3, l4], f1, [f2, f3]);
    assert [l2, l3, l4] == [l2] + [l3, l4] && [f2, f3] == [f2] + [f3];
    FormatStep(l0 + f0 + l1 + f1, l2, [l3, l4], f2, [f3]);
    assert [l3, l4] == [l3] + [l4] && [f3] == [f3] + [];
    FormatStep(l0 + f0 + l1 + f1 + l2 + f2, l3, [l4], f3, []);
    FormatEnd(l0 + f0 + l1 + f1 + l2 + f2 + l3 + f3, l4);
  }

  lemma Format5(l0: string, f0: string, l1: string, f1: string, l2: string, f2: string, l3: string, f3: string, l4:
                string, f4: string, l5: string)
    ensures Format([l0, l1, l2, l3, l4, l5], [f0, f1, f2, f3, f4])
         == l0 + f0 + l1 + f1 + l2 + f2 + l3 + f3 + l4 + f4 + l5
  {
    hide Format;
    assert [l0, l1, l2, l3, l4, l5] == [l0] + [l1, l2, l3, l4, l5] && [f0, f1, f2, f3, f4] == [f0] + [f1, f2, f3, f4];
    FormatStep("", l0, [l1, l2, l3, l4, l5], f0, [f1, f2, f3, f4]);
    Unprefixed(Format([l0, l1, l2, l3, l4, l5], [f0, f1, f2, f3, f4]), l0);
    assert [l1, l2, l3, l4, l5] == [l1] + [l2, l3, l4, l5] && [f1, f2, f3, f4] == [f1] + [f2, f3, f4];
    FormatStep(l0 + f0, l1, [l2, l3, l4, l5], f1, [f2, f3, f4]);
    assert [l2, l3, l4, l5] == [l2] + [l3, l4, l5] && [f2, f3, f4] == [f2] + [f3, f4];
    FormatStep(l0 + f0 + l1 + f1, l2, [l3, l4, l5], f2, [f3, f4]);
    assert [l3, l4, l5] == [l3] + [l4, l5] && [f3, f4] == [f3] + [f4];
    FormatStep(l0 + f0 + l1 + f1 + l2 + f2, l3, [l4, l5], f3, [f4]);
    assert [l4, l5] == [l4] + [l5] && [f4] == [f4] + [];
    FormatStep(l0 + f0 + l1 + f1 + l2 + f2 + l3 + f3, l4, [l5], f4, []);
    FormatEnd(l0 + f0 + l1 + f1 + l2 + f2 + l3 + f3 + l4 + f4, l5);
  }

  lemma Format6(l0: string, f0: string, l1: string, f1: string, l2: string, f2: string, l3: string, f3: string, l4:
                string, f4: string, l5: string, f5: string, l6: string)
    ensures Format([l0, l1, l2, l3, l4, l5, l6], [f0, f1, f2, f3, f4, f5])
         == l0 + f0 + l1 + f1 + l2 + f2 + l3 + f3 + l4 + f4 + l5 + f5 + l6
  {
    hide Format;
    assert [l0, l1, l2, l3, l4, l5, l6] == [l0] + [l1, l2, l3, l4, l5, l6];
    assert [f0, f1, f2, f3, f4, f5] == [f0] + [f1, f2, f3, f4, f5];
    FormatStep("", l0, [l1, l2, l3, l4, l5, l6], f0, [f1, f2, f3, f4, f5]);
    Unprefixed(Format([l0, l1, l2, l3, l4, l5, l6], [f0, f1, f2, f3, f4, f5]), l0);
    assert [l1, l2, l3, l4, l5, l6] == [l1] + [l2, l3, l4, l5, l6] && [f1, f2, f3, f4, f5] == [f1] + [f2, f3, f4, f5];
    FormatStep(l0 + f0, l1, [l2, l3, l4, l5, l6], f1, [f2, f3, f4, f5]);
    assert [l2, l3, l4, l5, l6] == [l2] + [l3, l4, l5, l6] && [f2, f3, f4, f5] == [f2] + [f3, f4, f5];
    FormatStep(l0 + f0 + l1 + f1, l2, [l3, l4, l5, l6], f2, [f3, f4, f5]);
    assert [l3, l4, l5, l6] == [l3] + [l4, l5, l6] && [f3, f4, f5] == [f3] + [f4, f5];
    FormatStep(l0 + f0 + l1 + f1 + l2 + f2, l3, [l4, l5, l6], f3, [f4, f5]);
    assert [l4, l5, l6] == [l4] + [l5, l6] && [f4, f5] == [f4] + [f5];
    FormatStep(l0 + f0 + l1 + f1 + l2 + f2 + l3 + f3, l4, [l5, l6], f4, [f5]);
    assert [l5, l6] == [l5] + [l6] && [f5] == [f5] + [];
    FormatStep(l0 + f0 + l1 + f1 + l2 + f2 + l3 + f3 + l4 + f4, l5, [l6], f5, []);
    FormatEnd(l0 + f0 + l1 + f1 + l2 + f2 + l3 + f3 + l4 + f4 + l5 + f5, l6);
  }

  lemma Format7(l0: string, f0: string, l1: string, f1: string, l2: string, f2: string, l3: string, f3: string, l4:
                string, f4: string, l5: string, f5: string, l6: string, f6: string, l7: string)
    ensures Format([l0, l1, l2, l3, l4, l5, l6, l7], [f0, f1, f2, f3, f4, f5, f6])
         == l0 + f0 + l1 + f1 + l2 + f2 + l3 + f3 + l4 + f4 + l5 + f5 + l6 + f6 + l7
  {
    hide Format;
    assert [l0, l1, l2, l3, l4, l5, l6, l7] == [l0] + [l1, l2, l3, l4, l5, l6, l7];
    assert [f0, f1, f2, f3, f4, f5, f6] == [f0] + [f1, f2, f3, f4, f5, f6];
    FormatStep("", l0, [l1, l2, l3, l4, l5, l6, l7], f0, [f1, f2, f3, f4, f5, f6]);
    Unprefixed(Format([l0, l1, l2, l3, l4, l5, l6, l7], [f0, f1, f2, f3, f4, f5, f6]), l0);
    assert [l1, l2, l3, l4, l5, l6, l7] == [l1] + [l2, l3, l4, l5, l6, l7];
    assert [f1, f2, f3, f4, f5, f6] == [f1] + [f2, f3, f4, f5, f6];
    FormatStep(l0 + f0, l1, [l2, l3, l4, l5, l6, l7], f1, [f2, f3, f4, f5, f6]);
    assert [l2, l3, l4, l5, l6, l7] == [l2] + [l3, l4, l5, l6, l7] && [f2, f3, f4, f5, f6] == [f2] + [f3, f4, f5, f6];
    FormatStep(l0 + f0 + l1 + f1, l2, [l3, l4, l5, l6, l7], f2, [f3, f4, f5, f6]);
    assert [l3, l4, l5, l6, l7] == [l3] + [l4, l5, l6, l7] && [f3, f4, f5, f6] == [f3] + [f4, f5, f6];
    FormatStep(l0 + f0 + l1 + f1 + l2 + f2, l3, [l4, l5, l6, l7], f3, [f4, f5, f6]);
    assert [l4, l5, l6, l7] == [l4] + [l5, l6, l7] && [f4, f5, f6] == [f4] + [f5, f6];
    FormatStep(l0 + f0 + l1 + f1 + l2 + f2 + l3 + f3, l4, [l5, l6, l7], f4, [f5, f6]);
    assert [l5, l6, l7] == [l5] + [l6, l7] && [f5, f6] == [f5] + [f6];
    FormatStep(l0 + f0 + l1 + f1 + l2 + f2 + l3 + f3 + l4 + f4, l5, [l6, l7], f5, [f6]);
    assert [l6, l7] == [l6] + [l7] && [f6] == [f6] + [];
    FormatStep(l0 + f0 + l1 + f1 + l2 + f2 + l3 + f3 + l4 + f4 + l5 + f5, l6, [l7], f6, []);
    FormatEnd(l0 + f0 + l1 + f1 + l2 + f2 + l3 + f3 + l4 + f4 + l5 + f5 + l6 + f6, l7);
  }

  // ------------------------------------------------------------------ the blocks, line by line

  lemma ThreeLines(a: string, t: string, b: string, u: string, c: string)
    ensures a + t + b + u + c + "" == Flatten([a, t + b, u + c])
  {
    FlattenCons(a, [t + b, u + c]);
    FlattenCons(t + b, [u + c]);
    FlattenOne(u + c);
    assert [a, t + b, u + c] == [a] + [t + b, u + c] && [t + b, u + c] == [t + b] + [u + c];
    assert a + t + b + u + c + "" == a + (t + b + (u + c));
  }

  lemma HostText(server: ChatServer)
    ensures FormatFingerprint(server) == Flatten(HostLines(server))
  {
    hide Format, Flatten, Safe, Join, SafeAll;
    var name, os := Safe(server.name, 128), Safe(Or(server.osPrettyName, server.osFamily), 128);
    var kernel, arch := Safe(server.kernelVersion, 128), Safe(server.architecture, 32);
    var tags := if server.tagNames == [] then "-" else Join(", ", SafeAll(server.tagNames, 32));
    var scan := if server.lastScanAt.Some? then server.lastScanAt.value else "-";
    Format6("HOST: ", name, " \U{00B7} ", os, " \U{00B7} kernel ", kernel, " \U{00B7} ", arch, "\nTAGS: ", tags,
            "\nLAST SCAN: ", scan, "");
    ThreeLines("HOST: " + name + " \U{00B7} " + os + " \U{00B7} kernel " + kernel + " \U{00B7} " + arch,
               "\nTAGS: ", tags, "\nLAST SCAN: ", scan);
  }

  /** A heading and its lines: the line break after the heading begins the first line. */
  lemma Headed(blank: string, heading: string, literal: string, lines: seq<string>)
    requires lines != [] && literal == heading + "\n"
    ensures blank + (literal + Join("\n", lines) + "") == Flatten([blank + heading] + Prefixed("\n", lines))
  {
    hide Join, Flatten;
    JoinPrefixed("\n", lines);
    FlattenCons(blank + heading, Prefixed("\n", lines));
    HeadedParts(blank, heading, "\n", Join("\n", lines));
  }

  lemma HeadedParts(blank: string, heading: string, sep: string, text: string)
    ensures blank + (heading + sep + text + "") == blank + heading + (sep + text)
  {}

  lemma ServiceLiterals()
    ensures "ACTIVE SERVICES:\n" == "ACTIVE SERVICES:" + "\n"
    ensures "\n\n" + "ACTIVE SERVICES:" == "\n\nACTIVE SERVICES:"
    ensures "\n\n" + "ACTIVE SERVICES: none" == "\n\nACTIVE SERVICES: none"
    ensures "\n" + "- " == "\n- "
  {}

  lemma BulletText(item: string)
    ensures "\n" + Format(BULLET, [item]) == "\n- " + item
  {
    Format1("- ", item, "");
    ServiceLiterals();
    hide Format;
    BulletParts("\n", "- ", item);
  }

  lemma BulletParts(sep: string, dash: string, item: string)
    ensures sep + (dash + item + "") == sep + dash + item
  {}

  lemma ServiceText(services: seq<string>)
    ensures "\n\n" + FormatServices(services) == Flatten(ServiceLines(services))
  {
    hide Format, Flatten, Safe, Join, SafeAll, Sort, Prefixed, Bullets;
    ServiceLiterals();
    if services == [] {
      FlattenOne("\n\nACTIVE SERVICES: none");
    } else {
      var shown := Sort(StringLeq, SafeAll(services, 64));
      SameLength(shown, SafeAll(services, 64));
      Format1("ACTIVE SERVICES:\n", Join("\n", Bullets(shown)), "");
      BulletLines(shown);
      Headed("\n\n", "ACTIVE SERVICES:", "ACTIVE SERVICES:\n", Bullets(shown));
    }
  }

  lemma SameLength(a: seq<string>, b: seq<string>)
    requires multiset(a) == multiset(b)
    ensures |a| == |b|
  {
    assert |multiset(a)| == |a| && |multiset(b)| == |b|;
  }

  lemma BulletLines(items: seq<string>)
    ensures |Bullets(items)| == |items|
    ensures Prefixed("\n", Bullets(items)) == seq(|items|, k requires 0 <= k < |items| => "\n- " + items[k])
  {
    hide Format;
    forall k | 0 <= k < |items|
      ensures Prefixed("\n", Bullets(items))[k] == "\n- " + items[k]
    {
      BulletText(items[k]);
    }
  }

  lemma ListenerLiterals()
    ensures "LISTENERS:\n" == "LISTENERS:" + "\n"
    ensures "\n\n" + "LISTENERS:" == "\n\nLISTENERS:"
    ensures "\n\n" + "LISTENERS: none" == "\n\nLISTENERS: none"
  {}

  lemma ListenerIsText(li: Listener)
    ensures "\n" + ListenerLine(li) == ListenerText(li)
  {
    hide Format, Safe;
    var addr := Safe(li.addr, 64);
    if li.port.Some? {
      Format2("", addr, ":", li.port.value, "");
      AddrParts(addr, li.port.value);
    }
    var addrPort := if li.port.Some? then addr + ":" + li.port.value else addr;
    var dot := " \U{00B7} ";
    Format4("- ", Safe(li.process, 64), dot, addrPort, dot, Safe(li.proto, 16), dot, Safe(li.exposure, 32), "");
    ServiceLiterals();
    ListenerParts("\n", "- ", Safe(li.process, 64), dot, addrPort, Safe(li.proto, 16), Safe(li.exposure, 32));
  }

  lemma AddrParts(addr: string, port: string)
    ensures "" + addr + ":" + port + "" == addr + ":" + port
  {}

  lemma ListenerParts(sep: string, dash: string, a: string, dot: string, b: string, c: string, d: string)
    ensures sep + (dash + a + dot + b + dot + c + dot + d + "") == sep + dash + a + dot + b + dot + c + dot + d
  {}

  lemma ListenerBlockText(listeners: seq<Listener>)
    ensures "\n\n" + ListenersText(listeners) == Flatten(ListenerBlock(listeners))
  {
    hide Format, Flatten, Safe, Join, Prefixed, ListenerLines, ListenerText;
    ListenerLiterals();
    if listeners == [] {
      FlattenOne("\n\nLISTENERS: none");
    } else {
      Format1("LISTENERS:\n", Join("\n", ListenerLines(listeners)), "");
      ListenerLinesText(listeners);
      Headed("\n\n", "LISTENERS:", "LISTENERS:\n", ListenerLines(listeners));
    }
  }

  lemma ListenerLinesText(listeners: seq<Listener>)
    ensures Prefixed("\n", ListenerLines(listeners))
         == seq(|listeners|, k requires 0 <= k < |listeners| => ListenerText(listeners[k]))
  {
    hide ListenerLine, ListenerText;
    forall k | 0 <= k < |listeners|
      ensures Prefixed("\n", ListenerLines(listeners))[k] == ListenerText(listeners[k])
    {
      ListenerIsText(listeners[k]);
    }
  }

  lemma DashIsShown(maxLen: nat)
    requires maxLen >= 1
    ensures Safe(Some("-"), maxLen) == "-"
  {
    PlainIsClean("-");
    OrdinaryIsShown("-", maxLen);
  }

  lemma FourLines(a: string, t: string, b: string, u: string, c: string, v: string, d: string, blank: string)
    ensures blank + (a + t + b + u + c + v + d + "") == Flatten([blank + a, t + b, u + c, v + d])
  {
    FlattenCons(blank + a, [t + b, u + c, v + d]);
    FlattenCons(t + b, [u + c, v + d]);
    FlattenCons(u + c, [v + d]);
    FlattenOne(v + d);
    hide Flatten;
    assert [blank + a, t + b, u + c, v + d] == [blank + a] + [t + b, u + c, v + d];
    assert [t + b, u + c, v + d] == [t + b] + [u + c, v + d] && [u + c, v + d] == [u + c] + [v + d];
    assert blank + (a + t + b + u + c + v + d + "") == blank + a + (t + b + (u + c + (v + d)));
  }

  lemma GroupLiterals()
    ensures "\n\n" + "GROUP: " == "\n\nGROUP: "
  {}

  lemma WorstText(f: ChatFinding)
    ensures Format(WORST, [Safe(f.identifierKey, 32), Safe(f.title, TITLE_MAX)])
         == Safe(f.identifierKey, 32) + " (" + Safe(f.title, 200) + ")"
  {
    Format2("", Safe(f.identifierKey, 32), " (", Safe(f.title, TITLE_MAX), ")");
    hide Format, Safe;
    Unprefixed(Safe(f.identifierKey, 32), "");
  }

  lemma GroupText(input: ChatInput)
    ensures "\n\n" + FormatGroupContext(input.groupLabel, input.lane, input.worstFinding, input.reason)
         == Flatten(GroupLines(input))
  {
    hide Format, Flatten, Safe;
    DashIsShown(32);
    GroupLiterals();
    if input.worstFinding.Some? {
      WorstText(input.worstFinding.value);
    }
    var name, reason := Safe(Some(input.groupLabel), 128), Safe(input.reason, 200);
    var lane := if input.lane.None? || input.lane.value == "" then "-" else Safe(input.lane, 32);
    var worst := if input.worstFinding.None? then "-"
                 else Safe(input.worstFinding.value.identifierKey, 32) + " ("
                      + Safe(input.worstFinding.value.title, 200) + ")";
    Format4("GROUP: ", name, "\nWORKFLOW LANE: ", lane, "\nWORST FINDING: ", worst, "\nSCANNER REASON: ", reason, "");
    FourLines("GROUP: " + name, "\nWORKFLOW LANE: ", lane, "\nWORST FINDING: ", worst, "\nSCANNER REASON: ", reason,
              "\n\n");
    HeadedParts("\n\n", "GROUP: ", name, "");
    assert "\n\n" + ("GROUP: " + name) == "\n\nGROUP: " + name;
  }

  lemma WordsOf(f: ChatFinding)
    ensures OrDash(if f.severity.None? then None else Some(SeverityName(f.severity.value))) == SeverityWord(f.severity)
    ensures OrDash(if f.attackVector.None? then None else Some(VectorName(f.attackVector.value)))
         == VectorWord(f.attackVector)
    ensures OrDash(f.cvss) == OrNone(f.cvss) && OrDash(f.epss) == OrNone(f.epss)
  {}

  lemma FindingIsText(f: ChatFinding)
    ensures "\n" + FormatFindingLine(f) == FindingText(f)
  {
    hide Format, Safe, SeverityWord, VectorWord, OrNone, OrDash, SeverityName, VectorName;
    WordsOf(f);
    ServiceLiterals();
    var kev := if f.isKev then "yes" else "no";
    Format7("- ", Safe(f.identifierKey, 32), " | sev=", SeverityWord(f.severity), " | cvss=", OrNone(f.cvss),
            " | epss=", OrNone(f.epss), " | kev=", kev, " | vec=", VectorWord(f.attackVector), " | ",
            Safe(f.title, 200), "");
    FindingParts("\n", "- ", Safe(f.identifierKey, 32), " | sev=", SeverityWord(f.severity), " | cvss=", OrNone(f.cvss),
                 " | epss=", OrNone(f.epss), " | kev=", kev, " | vec=", VectorWord(f.attackVector), " | ",
                 Safe(f.title, 200));
  }

  lemma FindingParts(sep: string, l0: string, f0: string, l1: string, f1: string, l2: string, f2: string, l3: string,
                     f3: string, l4: string, f4: string, l5: string, f5: string, l6: string, f6: string)
    ensures sep + (l0 + f0 + l1 + f1 + l2 + f2 + l3 + f3 + l4 + f4 + l5 + f5 + l6 + f6 + "")
         == sep + l0 + f0 + l1 + f1 + l2 + f2 + l3 + f3 + l4 + f4 + l5 + f5 + l6 + f6
  {}

  lemma CountIsText(entry: (Severity, nat))
    ensures CountText(entry) == SeverityWord(Some(entry.0)) + "=" + PrintNat(entry.1)
  {
    Format2("", SeverityName(entry.0), "=", PlainNat(entry.1), "");
    assert SeverityName(entry.0) == SeverityWord(Some(entry.0));
    hide Format, PrintNat, SeverityName, SeverityWord;
    assert "" + SeverityWord(Some(entry.0)) + "=" + PrintNat(entry.1) + ""
        == SeverityWord(Some(entry.0)) + "=" + PrintNat(entry.1);
  }

  lemma CountsAreText(counts: seq<(Severity, nat)>)
    ensures CountTexts(counts) == Counted(counts)
  {
    hide CountText, SeverityWord, PrintNat;
    forall k | 0 <= k < |counts|
      ensures CountTexts(counts)[k] == Counted(counts)[k]
    {
      CountIsText(counts[k]);
    }
  }

  lemma RestLiterals()
    ensures "\n" + "... and " == "\n... and "
  {}

  lemma RestIsText(a: FindingsAggregate)
    ensures "\n" + FormatAggregate(a) == RestText(a)
  {
    hide Format, PrintNat, Join, CountTexts, Counted;
    CountsAreText(a.severityCounts);
    RestLiterals();
    var counts := if a.severityCounts == [] then "severity=mixed" else Join(", ", Counted(a.severityCounts));
    var epss := if a.maxEpss.Some? then a.maxEpss.value else "n/a";
    Format5("... and ", PrintNat(a.restCount), NOT_SHOWN, counts, "; max_epss=", epss, "; kev=", PrintNat(a.kevCount),
            "; fixable=", PrintNat(a.fixableCount), "");
    RestParts("\n", "... and ", PrintNat(a.restCount), NOT_SHOWN, counts, "; max_epss=", epss,
              "; kev=", PrintNat(a.kevCount), "; fixable=", PrintNat(a.fixableCount));
  }

  lemma RestParts(sep: string, l0: string, f0: string, l1: string, f1: string, l2: string, f2: string, l3: string,
                  f3: string, l4: string, f4: string)
    ensures sep + (l0 + f0 + l1 + f1 + l2 + f2 + l3 + f3 + l4 + f4 + "")
         == sep + l0 + f0 + l1 + f1 + l2 + f2 + l3 + f3 + l4 + f4
  {}

  lemma FindingLiterals()
    ensures "FINDINGS:\n" == "FINDINGS:" + "\n"
    ensures "\n\n" + "FINDINGS:" == "\n\nFINDINGS:"
    ensures "\n\n" + "FINDINGS: No open findings in this group." == "\n\nFINDINGS: No open findings in this group."
  {}

  lemma PrefixedConcat(sep: string, a: seq<string>, b: seq<string>)
    ensures Prefixed(sep, a + b) == Prefixed(sep, a) + Prefixed(sep, b)
  {}

  lemma PrefixedOne(sep: string, line: string)
    ensures Prefixed(sep, [line]) == [sep + line]
  {}

  lemma FindingLinesText(findings: seq<ChatFinding>)
    ensures Prefixed("\n", FindingLines(findings))
         == seq(|findings|, k requires 0 <= k < |findings| => FindingText(findings[k]))
  {
    hide FormatFindingLine, FindingText;
    forall k | 0 <= k < |findings|
      ensures Prefixed("\n", FindingLines(findings))[k] == FindingText(findings[k])
    {
      FindingIsText(findings[k]);
    }
  }

  lemma FindingBlockText(findings: seq<ChatFinding>, aggregate: Option<FindingsAggregate>)
    ensures "\n\n" + FormatFindings(findings, aggregate) == Flatten(FindingBlock(findings, aggregate))
  {
    hide Format, Flatten, Join, Prefixed, FindingLines, FindingText, RestText, FormatAggregate;
    FindingLiterals();
    var more := if HasRest(aggregate) then [FormatAggregate(aggregate.value)] else [];
    if findings == [] && more == [] {
      FlattenOne("\n\nFINDINGS: No open findings in this group.");
    } else {
      var lines := FindingLines(findings) + more;
      Format1("FINDINGS:\n", Join("\n", lines), "");
      FindingLinesText(findings);
      PrefixedConcat("\n", FindingLines(findings), more);
      if HasRest(aggregate) {
        RestIsText(aggregate.value);
        PrefixedOne("\n", FormatAggregate(aggregate.value));
      } else {
        NothingPrefixed("\n");
      }
      Headed("\n\n", "FINDINGS:", "FINDINGS:\n", lines);
      var texts := seq(|findings|, k requires 0 <= k < |findings| => FindingText(findings[k]));
      Associative(["\n\nFINDINGS:"], texts, Prefixed("\n", more));
    }
  }

  lemma OneFieldText(sep: string, before: string, field: string, behind: string)
    ensures sep + (before + field + behind) == sep + before + field + behind
  {}

  lemma OptionalLineText(before: string, field: string, behind: string)
    ensures Prefixed("\n", OptionalLine([before, behind], field)) == IfShown(before, field, behind)
  {
    Format1(before, field, behind);
    hide Format;
    OneFieldText("\n", before, field, behind);
    if field != "-" {
      PrefixedOne("\n", before + field + behind);
    }
  }

  lemma FixedReleaseText(fixed: string, date: string)
    ensures Prefixed("\n", FixedReleaseLine(fixed, date))
         == IfShown("  fixed release: ", fixed, if date == "-" then "" else " (" + date + ")")
  {
    Format1("  fixed release: ", fixed, "");
    Format2("  fixed release: ", fixed, " (", date, ")");
    hide Format;
    OneFieldText("\n", "  fixed release: ", fixed, "");
    OneFieldText("\n", "  fixed release: ", fixed, " (" + date + ")");
    DatedParts("  fixed release: ", fixed, " (", date, ")");
    PrefixedOne("\n", "  fixed release: " + fixed + "");
    PrefixedOne("\n", "  fixed release: " + fixed + (" (" + date + ")"));
    NothingPrefixed("\n");
    hide Prefixed;
  }

  lemma DatedParts(a: string, b: string, c: string, d: string, e: string)
    ensures a + b + c + d + e == a + b + (c + d + e)
  {}

  lemma SourcesText(sources: Option<seq<string>>)
    ensures Prefixed("\n", SourcesLine(sources)) == SourceText(sources)
  {
    hide Format, Safe, Join, SafeAll;
    NothingPrefixed("\n");
    if sources.Some? && sources.value != [] {
      var firstThree := if |sources.value| <= 3 then sources.value else sources.value[..3];
      assert firstThree == sources.value[..if |sources.value| < 3 then |sources.value| else 3];
      var text := Join(", ", SafeAll(firstThree, 128));
      Format1("  sources: ", text, "");
        OneFieldText("\n", "  sources: ", text, "");
      PrefixedOne("\n", "  sources: " + text + "");
      hide Prefixed;
      Unsuffixed("\n" + "  sources: " + text);
    }
  }

  lemma Unsuffixed(s: string)
    ensures s + "" == s
  {}

  lemma ClosingText(checkedAt: Option<string>)
    ensures Prefixed("\n", if checkedAt.Some? then [Format(CHECKED_AT, [Safe(checkedAt, 40)])] else [])
         == if checkedAt.Some? then ["\n" + "  checked at: " + Safe(checkedAt, 40) + " (may be stale)"] else []
  {
    hide Format, Safe;
    NothingPrefixed("\n");
    Format1("  checked at: ", Safe(checkedAt, 40), " (may be stale)");
    OneFieldText("\n", "  checked at: ", Safe(checkedAt, 40), " (may be stale)");
    PrefixedOne("\n", "  checked at: " + Safe(checkedAt, 40) + " (may be stale)");
    hide Prefixed;
  }

  lemma DeliveryText(delivery: Option<string>)
    ensures Prefixed("\n", [Format(DELIVERY, [Safe(Or(delivery, Some("-")), 32)])])
         == ["\n" + "  delivery: " + if delivery.None? || delivery.value == "" then "-" else Safe(delivery, 32)]
  {
    hide Format, Safe;
    var shown := if delivery.None? || delivery.value == "" then "-" else Safe(delivery, 32);
    DashIsShown(32);
    Format1("  delivery: ", shown, "");
    OneFieldText("\n", "  delivery: ", shown, "");
    PrefixedOne("\n", "  delivery: " + shown + "");
    hide Prefixed;
    Unsuffixed("\n" + "  delivery: " + shown);
  }

  /** The lines of a verdict after its heading. */
  function LaterLines(v: Verdict): seq<string> {
    [Format(DELIVERY, [Safe(Or(v.delivery, Some("-")), 32)])]
    + FixedReleaseLine(Safe(v.fixedBuildRelease, 64), Safe(v.fixedBuildReleaseDate, 32))
    + OptionalLine(LATEST_RELEASE, Safe(v.latestReleaseComponentVersion, 64))
    + OptionalLine(SUGGESTED_ACTION, Safe(v.operatorAction, TITLE_MAX))
    + OptionalLine(CHECK_NOTE, Safe(v.error, 64))
    + SourcesLine(v.sourcesUsed)
    + if v.checkedAt.Some? then [Format(CHECKED_AT, [Safe(v.checkedAt, 40)])] else []
  }

  lemma SevenPrefixed(sep: string, a: seq<string>, b: seq<string>, c: seq<string>, d: seq<string>, e: seq<string>,
                      f: seq<string>, g: seq<string>)
    ensures Prefixed(sep, a + b + c + d + e + f + g)
         == Prefixed(sep, a) + Prefixed(sep, b) + Prefixed(sep, c) + Prefixed(sep, d) + Prefixed(sep, e)
            + Prefixed(sep, f) + Prefixed(sep, g)
  {
    PrefixedConcat(sep, a, b);
    PrefixedConcat(sep, a + b, c);
    PrefixedConcat(sep, a + b + c, d);
    PrefixedConcat(sep, a + b + c + d, e);
    PrefixedConcat(sep, a + b + c + d + e, f);
    PrefixedConcat(sep, a + b + c + d + e + f, g);
    hide Prefixed;
  }

  lemma HeadedVerdict(h: seq<string>, a: seq<string>, b: seq<string>, c: seq<string>, d: seq<string>, e: seq<string>,
                      f: seq<string>, g: seq<string>)
    ensures h + a + b + c + d + e + f + g == h + (a + b + c + d + e + f + g)
  {}

  lemma VerdictBlockText(v: Verdict)
    ensures "\n\n" + Join("\n", VerdictLines(v)) == Flatten(VerdictBlock(v))
  {
    hide Format, Flatten, Safe, Join, Prefixed, OptionalLine, FixedReleaseLine, SourcesLine, SourceText, IfShown;
    var fixed, date := Safe(v.fixedBuildRelease, 64), Safe(v.fixedBuildReleaseDate, 32);
    var latest := Safe(v.latestReleaseComponentVersion, 64);
    var action, note := Safe(v.operatorAction, 200), Safe(v.error, 64);
    var delivery := [Format(DELIVERY, [Safe(Or(v.delivery, Some("-")), 32)])];
    var closing := if v.checkedAt.Some? then [Format(CHECKED_AT, [Safe(v.checkedAt, 40)])] else [];
    DeliveryText(v.delivery);
    FixedReleaseText(fixed, date);
    OptionalLineText("  latest release built with: ", latest, "");
    OptionalLineText("  suggested action: ", action, "");
    OptionalLineText("  note: check could not fully determine (", note, ")");
    SourcesText(v.sourcesUsed);
    ClosingText(v.checkedAt);
    VerdictLinesHead(v);
    JoinHead("\n", UPSTREAM_HEADING, LaterLines(v));
    SevenPrefixed("\n", delivery, FixedReleaseLine(fixed, date), OptionalLine(LATEST_RELEASE, latest),
                  OptionalLine(SUGGESTED_ACTION, action), OptionalLine(CHECK_NOTE, note), SourcesLine(v.sourcesUsed),
                  closing);
    FlattenCons("\n\n" + UPSTREAM_HEADING, Prefixed("\n", LaterLines(v)));
    Associative("\n\n", UPSTREAM_HEADING, Flatten(Prefixed("\n", LaterLines(v))));
    HeadedVerdict(["\n\n" + UPSTREAM_HEADING], Prefixed("\n", delivery), Prefixed("\n", FixedReleaseLine(fixed, date)),
                  Prefixed("\n", OptionalLine(LATEST_RELEASE, latest)),
                  Prefixed("\n", OptionalLine(SUGGESTED_ACTION, action)),
                  Prefixed("\n", OptionalLine(CHECK_NOTE, note)), Prefixed("\n", SourcesLine(v.sourcesUsed)),
                  Prefixed("\n", closing));
  }

  lemma VerdictLinesHead(v: Verdict)
    ensures VerdictLines(v) == [UPSTREAM_HEADING] + LaterLines(v)
  {
    hide Format, Safe, OptionalLine, FixedReleaseLine, SourcesLine;
    var delivery := Format(DELIVERY, [Safe(Or(v.delivery, Some("-")), 32)]);
    assert [UPSTREAM_HEADING, delivery] == [UPSTREAM_HEADING] + [delivery];
  }

  // ------------------------------------------------------------------ the whole body

  /** The data body is its lines, in this order and with nothing between them. */
  lemma BodyIsItsLines(input: ChatInput)
    ensures DataBody(input) == Flatten(BodyLines(input))
  {
    hide Flatten, Join, Prefixed, FormatFingerprint, FormatServices, ListenersText, FormatGroupContext, FormatFindings;
    hide HostLines, ServiceLines, ListenerBlock, GroupLines, FindingBlock, VerdictBlock, VerdictLines;
    HostText(input.server);
    ServiceText(input.services);
    ListenerBlockText(input.listeners);
    GroupText(input);
    FindingBlockText(input.findings, input.aggregate);
    var verdict := if input.verdict.Some? then [Join("\n", VerdictLines(input.verdict.value))] else [];
    var host, services, listeners := FormatFingerprint(input.server), FormatServices(input.services),
                                     ListenersText(input.listeners);
    var group := FormatGroupContext(input.groupLabel, input.lane, input.worstFinding, input.reason);
    var findings := FormatFindings(input.findings, input.aggregate);
    assert DataBlocks(input) == [host] + ([services, listeners, group, findings] + verdict);
    JoinHead("\n\n", host, [services, listeners, group, findings] + verdict);
    FourBlocks("\n\n", services, listeners, group, findings, verdict);
    var last := if input.verdict.Some? then VerdictBlock(input.verdict.value) else [];
    assert Flatten(Prefixed("\n\n", verdict)) == Flatten(last) by {
      if input.verdict.Some? {
        VerdictBlockText(input.verdict.value);
        PrefixedOne("\n\n", Join("\n", VerdictLines(input.verdict.value)));
        FlattenOne("\n\n" + Join("\n", VerdictLines(input.verdict.value)));
      } else {
        NothingPrefixed("\n\n");
      }
    }
    SixParts(HostLines(input.server), ServiceLines(input.services), ListenerBlock(input.listeners), GroupLines(input),
             FindingBlock(input.findings, input.aggregate), last);
  }

  lemma FourBlocks(sep: string, a: string, b: string, c: string, d: string, rest: seq<string>)
    ensures Flatten(Prefixed(sep, [a, b, c, d] + rest))
         == sep + a + (sep + b + (sep + c + (sep + d + Flatten(Prefixed(sep, rest)))))
  {
    hide Flatten;
    var tail := Prefixed(sep, rest);
    assert Prefixed(sep, [a, b, c, d] + rest)
        == [sep + a] + ([sep + b] + ([sep + c] + ([sep + d] + tail)));
    FlattenCons(sep + a, [sep + b] + ([sep + c] + ([sep + d] + tail)));
    FlattenCons(sep + b, [sep + c] + ([sep + d] + tail));
    FlattenCons(sep + c, [sep + d] + tail);
    FlattenCons(sep + d, tail);
  }

  lemma SixParts(a: seq<string>, b: seq<string>, c: seq<string>, d: seq<string>, e: seq<string>, f: seq<string>)
    ensures Flatten(a + b + c + d + e + f)
         == Flatten(a) + (Flatten(b) + (Flatten(c) + (Flatten(d) + (Flatten(e) + Flatten(f)))))
  {
    hide Flatten;
    assert a + b + c + d + e + f == a + (b + (c + (d + (e + f))));
    FlattenConcat(a, b + (c + (d + (e + f))));
    FlattenConcat(b, c + (d + (e + f)));
    FlattenConcat(c, d + (e + f));
    FlattenConcat(d, e + f);
    FlattenConcat(e, f);
  }

  // ------------------------------------------------------------------ where a line stands

  predicate StandsAt(text: string, part: string, p: int) {
    0 <= p && p + |part| <= |text| && text[p..p + |part|] == part
  }

  ghost predicate Says(text: string, part: string) {
    exists p :: StandsAt(text, part, p)
  }

  /** The pieces stand one after the other, each at the length of those before it. */
  lemma PieceStands(pieces: seq<string>, k: nat)
    requires k < |pieces|
    ensures StandsAt(Flatten(pieces), pieces[k], |Flatten(pieces[..k])|)
    ensures forall j :: k < j <= |pieces| ==> |Flatten(pieces[..k])| + |pieces[k]| <= |Flatten(pieces[..j])|
  {
    hide Flatten;
    assert pieces == pieces[..k] + ([pieces[k]] + pieces[k + 1..]);
    FlattenConcat(pieces[..k], [pieces[k]] + pieces[k + 1..]);
    FlattenCons(pieces[k], pieces[k + 1..]);
    var before, behind := Flatten(pieces[..k]), Flatten(pieces[k + 1..]);
    assert before + (pieces[k] + behind) == before + pieces[k] + behind;
    assert (before + pieces[k] + behind)[|before|..|before| + |pieces[k]|] == pieces[k];
    forall j | k < j <= |pieces|
      ensures |before| + |pieces[k]| <= |Flatten(pieces[..j])|
    {
      assert pieces[..j] == pieces[..k] + ([pieces[k]] + pieces[k + 1..j]);
      FlattenConcat(pieces[..k], [pieces[k]] + pieces[k + 1..j]);
      FlattenCons(pieces[k], pieces[k + 1..j]);
    }
  }

  /** The place of the line of a finding, a listener, a service among the lines of the body. */
  function FindingAt(input: ChatInput, k: nat): nat {
    var head := HostLines(input.server) + ServiceLines(input.services) + ListenerBlock(input.listeners)
                + GroupLines(input);
    |head| + 1 + k
  }

  function ListenerAt(input: ChatInput, k: nat): nat {
    |HostLines(input.server) + ServiceLines(input.services)| + 1 + k
  }

  lemma LineOfFinding(input: ChatInput, k: nat)
    requires k < |input.findings|
    ensures FindingAt(input, k) < |BodyLines(input)|
    ensures BodyLines(input)[FindingAt(input, k)] == FindingText(input.findings[k])
  {
    hide HostLines, ServiceLines, ListenerBlock, GroupLines, FindingText, RestText, VerdictBlock;
    var head := HostLines(input.server) + ServiceLines(input.services) + ListenerBlock(input.listeners)
                + GroupLines(input);
    var block := FindingBlock(input.findings, input.aggregate);
    assert block[1 + k] == FindingText(input.findings[k]);
    var last := if input.verdict.Some? then VerdictBlock(input.verdict.value) else [];
    assert (head + block + last)[|head| + 1 + k] == block[1 + k];
  }

  lemma LineOfListener(input: ChatInput, k: nat)
    requires k < |input.listeners|
    ensures ListenerAt(input, k) < |BodyLines(input)|
    ensures BodyLines(input)[ListenerAt(input, k)] == ListenerText(input.listeners[k])
  {
    hide HostLines, ServiceLines, ListenerText, GroupLines, FindingBlock, VerdictBlock;
    var head := HostLines(input.server) + ServiceLines(input.services);
    var block := ListenerBlock(input.listeners);
    assert block[1 + k] == ListenerText(input.listeners[k]);
    var rest := GroupLines(input) + FindingBlock(input.findings, input.aggregate)
                + if input.verdict.Some? then VerdictBlock(input.verdict.value) else [];
    assert BodyLines(input) == head + block + rest;
    assert (head + block + rest)[|head| + 1 + k] == block[1 + k];
  }

  /** The lines of two findings stand in the body in the order of the findings, and do not overlap. */
  lemma FindingsStandInOrder(input: ChatInput, j: nat, k: nat)
    requires j < k < |input.findings|
    ensures exists p, q ::
              && StandsAt(DataBody(input), FindingText(input.findings[j]), p)
              && StandsAt(DataBody(input), FindingText(input.findings[k]), q)
              && p + |FindingText(input.findings[j])| <= q
  {
    hide FindingText, BodyLines, Flatten, DataBody, StandsAt;
    BodyIsItsLines(input);
    LineOfFinding(input, j);
    LineOfFinding(input, k);
    hide FindingAt;
    PieceStands(BodyLines(input), FindingAt(input, j));
    PieceStands(BodyLines(input), FindingAt(input, k));
    assert FindingAt(input, j) < FindingAt(input, k) by {
      FindingsAscend(input, j, k);
    }
  }

  lemma FindingsAscend(input: ChatInput, j: nat, k: nat)
    requires j < k
    ensures FindingAt(input, j) < FindingAt(input, k)
  {
    hide HostLines, ServiceLines, ListenerBlock, GroupLines;
  }

  /** What the model reads about an ordinary finding: its identifier, severity, scores, KEV word and title. */
  lemma OrdinaryFindingStands(input: ChatInput, k: nat, id: string, title: string)
    requires k < |input.findings|
    requires input.findings[k].identifierKey == Some(id) && IsOrdinary(id) && |id| <= 32
    requires input.findings[k].title == Some(title) && IsOrdinary(title) && |title| <= 200
    ensures
      var f := input.findings[k];
      Says(DataBody(input),
           "\n- " + id + " | sev=" + SeverityWord(f.severity) + " | cvss=" + OrNone(f.cvss)
           + " | epss=" + OrNone(f.epss) + " | kev=" + (if f.isKev then "yes" else "no")
           + " | vec=" + VectorWord(f.attackVector) + " | " + title)
  {
    OrdinaryIsShown(id, 32);
    OrdinaryIsShown(title, 200);
    FindingStands(input, k);
    hide Says, DataBody, Safe, SeverityWord, VectorWord, OrNone, IsOrdinary;
  }

  lemma FindingStands(input: ChatInput, k: nat)
    requires k < |input.findings|
    ensures Says(DataBody(input), FindingText(input.findings[k]))
  {
    BodyIsItsLines(input);
    LineOfFinding(input, k);
    hide BodyLines, Flatten, DataBody, StandsAt, FindingAt, FindingText;
    PieceStands(BodyLines(input), FindingAt(input, k));
  }

  /** An ordinary server, listener and service stand in the body under their own words. */
  lemma HostStands(input: ChatInput, name: string, os: string, kernel: string, arch: string)
    requires input.server.name == Some(name) && IsOrdinary(name) && |name| <= 128
    requires input.server.osPrettyName == Some(os) && IsOrdinary(os) && |os| <= 128
    requires input.server.kernelVersion == Some(kernel) && IsOrdinary(kernel) && |kernel| <= 128
    requires input.server.architecture == Some(arch) && IsOrdinary(arch) && |arch| <= 32
    ensures StandsAt(DataBody(input),
                     "HOST: " + name + " \U{00B7} " + os + " \U{00B7} kernel " + kernel + " \U{00B7} " + arch, 0)
  {
    OrdinaryIsShown(name, 128);
    OrdinaryIsShown(os, 128);
    OrdinaryIsShown(kernel, 128);
    OrdinaryIsShown(arch, 32);
    BodyIsItsLines(input);
    hide Flatten, DataBody, StandsAt, Safe, IsOrdinary, ServiceLines, ListenerBlock, GroupLines, FindingBlock;
    hide VerdictBlock, Join;
    var rest := ServiceLines(input.services) + ListenerBlock(input.listeners) + GroupLines(input)
                + FindingBlock(input.findings, input.aggregate)
                + if input.verdict.Some? then VerdictBlock(input.verdict.value) else [];
    assert BodyLines(input)[0] == HostLines(input.server)[0];
    PieceStands(BodyLines(input), 0);
    assert BodyLines(input)[..0] == [];
    NothingFlat();
  }

  lemma NothingFlat()
    ensures Flatten([]) == ""
  {}

  lemma ListenerStands(input: ChatInput, k: nat)
    requires k < |input.listeners|
    ensures Says(DataBody(input), ListenerText(input.listeners[k]))
  {
    BodyIsItsLines(input);
    LineOfListener(input, k);
    hide BodyLines, Flatten, DataBody, StandsAt, ListenerAt, ListenerText;
    PieceStands(BodyLines(input), ListenerAt(input, k));
  }

  /** Every service stands in its own line. */
  lemma ServiceStands(input: ChatInput, service: string)
    requires service in input.services
    ensures Says(DataBody(input), "\n- " + Safe(Some(service), 64))
  {
    var k := LineOfService(input.services, service);
    BodyIsItsLines(input);
    hide *;
    ServicesInBody(input);
    var head, block := HostLines(input.server), ServiceLines(input.services);
    PieceStands(BodyLines(input), |head| + k);
    assert BodyLines(input)[|head| + k] == block[k];
    SaysAt(DataBody(input), block[k], |Flatten(BodyLines(input)[..|head| + k])|);
  }

  lemma SaysAt(text: string, part: string, p: int)
    requires StandsAt(text, part, p)
    ensures Says(text, part)
  {}

  lemma ServicesInBody(input: ChatInput)
    ensures
      var head, block := HostLines(input.server), ServiceLines(input.services);
      |BodyLines(input)| >= |head| + |block| && BodyLines(input)[|head|..|head| + |block|] == block
      && forall k :: 0 <= k < |block| ==> BodyLines(input)[|head| + k] == block[k]
  {
    hide HostLines, ServiceLines, ListenerBlock, GroupLines, FindingBlock, VerdictBlock;
  }

  lemma LineOfService(services: seq<string>, service: string) returns (k: nat)
    requires service in services
    ensures k < |ServiceLines(services)| && ServiceLines(services)[k] == "\n- " + Safe(Some(service), 64)
  {
    hide Safe, Sort;
    var shown := SafeAll(services, 64);
    var sorted := Sort(StringLeq, shown);
    var i :| 0 <= i < |services| && services[i] == service;
    assert shown[i] == Safe(Some(service), 64) && shown[i] in shown;
    SameMembers(sorted, shown);
    var j :| 0 <= j < |sorted| && sorted[j] == shown[i];
    k := 1 + j;
  }

  /** The finished prompt holds these lines between the last two markers. */
  lemma PromptHoldsTheLines(input: ChatInput, prompt: string, start1: nat, end1: nat, start2: nat, end2: nat)
    requires MarkerDiscipline(prompt, DataBody(input), start1, end1, start2, end2)
    ensures prompt[start2 + |TRIVY_DATA_START|..end2] == "\n" + Flatten(BodyLines(input)) + "\n"
  {
    BodyIsItsLines(input);
    hide OccursAt, DataBody, BodyLines, Flatten;
  }
}
