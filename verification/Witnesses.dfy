/** Inputs that the services can receive and for which a promise fails; the general laws say exactly when. */
module Witnesses {
  import opened Models
  import opened Text
  import opened Sorting
  import opened FindingsUpsert
  import opened FindingsIngest
  import opened FindingsIngestLaws
  import opened BucketQuery
  import opened Paging
  import BucketPages
  import BulkAcknowledge
  import GroupMatcher
  import InsertCounter
  import Json
  import LlmCache
  import MatchOrder
  import Pass1Validation
  import Pass2Validation
  import PatternSanitizer

  const FACTS := Facts(OsPkgs, High, false, None, None, true, None, "")

  /** The entries of a report with two results of one package each. */
  lemma TwoResults(r: TrivyResult, s: TrivyResult, v: Vuln, w: Vuln)
    requires r.vulnerabilities == [Some(v)] && s.vulnerabilities == [Some(w)]
    ensures Entries([r, s])
         == [Entry(NormalizedClass(r.klass), r.target, v), Entry(NormalizedClass(s.klass), s.target, w)]
  {
    OneVulnerability(r, v);
    OneVulnerability(s, w);
    hide EntriesOf;
    assert [r, s][..1] == [r] && [r][..0] == [];
    assert Entries([]) == [];
    assert Entries([r]) == [] + EntriesOf(r, 1);
    assert Entries([r, s]) == Entries([r]) + EntriesOf(s, 1);
  }

  lemma OneVulnerability(r: TrivyResult, v: Vuln)
    requires r.vulnerabilities == [Some(v)]
    ensures EntriesOf(r, 1) == [Entry(NormalizedClass(r.klass), r.target, v)]
  {
    assert EntriesOf(r, 0) == [];
  }

  lemma BothAccepted(e: Entry, f: Entry)
    requires DedupKey(e) != DedupKey(f)
    ensures Accepted([e, f]) == [e, f]
  {
    hide DedupKey;
    assert [e, f][..1] == [e] && [e][..0] == [];
    assert Accepted([e]) == [e];
  }

  // ------------------------------------------------------------------ a report that the database refuses

  /** One package, found by two results with different targets. */
  const SHARED_PACKAGE := Vuln("CVE-2024-0001", "vite", Some("app/package.json"), FACTS)
  const SHARED_REPORT := [
    TrivyResult("lang-pkgs", Some("a"), [Some(SHARED_PACKAGE)]),
    TrivyResult("lang-pkgs", Some("b"), [Some(SHARED_PACKAGE)])]

  const SHARED_IN_A := Entry(LangPkgs, Some("a"), SHARED_PACKAGE)
  const SHARED_IN_B := Entry(LangPkgs, Some("b"), SHARED_PACKAGE)

  lemma SharedEntries()
    ensures Accepted(Entries(SHARED_REPORT)) == [SHARED_IN_A, SHARED_IN_B]
  {
    TwoResults(SHARED_REPORT[0], SHARED_REPORT[1], SHARED_PACKAGE, SHARED_PACKAGE);
    SharedKeys(SHARED_IN_A, SHARED_IN_B);
    hide Entries, Accepted, DedupKey, StoredKey;
    BothAccepted(SHARED_IN_A, SHARED_IN_B);
  }

  /** Both entries pass the deduplication, and both rows have one stored key: the INSERT fails. */
  lemma RepeatedStoredKeyWitness(serverId: int)
    ensures |Accepted(Entries(SHARED_REPORT))| == 2
    ensures !ChunksDistinct(RowsOf(serverId, Accepted(Entries(SHARED_REPORT))))
  {
    hide Entries, Accepted, DedupKey, StoredKey;
    SharedEntries();
    SharedKeys(SHARED_IN_A, SHARED_IN_B);
    TwoWithOneKey(RowsOf(serverId, [SHARED_IN_A, SHARED_IN_B]));
  }

  lemma TwoWithOneKey(rows: seq<Row>)
    requires |rows| == 2 && rows[0].key == rows[1].key
    ensures !ChunksDistinct(rows)
  {
    assert rows[..2] == rows;
  }

  lemma SharedKeys(e: Entry, f: Entry)
    requires e == SHARED_IN_A && f == SHARED_IN_B
    ensures DedupKey(e) != DedupKey(f) && StoredKey(e) == StoredKey(f)
  {
    assert Trimmed("a") && Trimmed("b") && Trimmed("app/package.json");
    hide Strip;
    assert ("vite" + "@" + "a")[5] != ("vite" + "@" + "b")[5];
  }

  // ------------------------------------------------------------------ pages that are not determined

  /** Two packages of one source with one vulnerability. */
  const LIBRARY := Vuln("CVE-2024-0001", "libssl3", None, FACTS)
  const TOOL := Vuln("CVE-2024-0001", "openssl", None, FACTS)
  const TWIN_REPORT := [
    TrivyResult("os-pkgs", Some("debian"), [Some(LIBRARY)]),
    TrivyResult("os-pkgs", Some("debian"), [Some(TOOL)])]

  lemma TwinKeys(e: Entry, f: Entry)
    requires e == Entry(OsPkgs, Some("debian"), LIBRARY) && f == Entry(OsPkgs, Some("debian"), TOOL)
    ensures DedupKey(e) != DedupKey(f) && DedupKey(e) == StoredKey(e) && DedupKey(f) == StoredKey(f)
  {
    assert "libssl3"[0] != "openssl"[0];
  }

  /** Ingested into an empty table, the two are findings without a group that agree on all sort columns. */
  lemma TwinsTie(serverId: int, now: Time) returns (i: int, j: int)
    ensures
      var after := IngestFindings(map[], 0, serverId, Entries(TWIN_REPORT), now).findings;
      && i in after && j in after && i != j
      && after[i].key.serverId == after[j].key.serverId == serverId && after[i].groupId.None? && after[j].groupId.None?
      && BucketPages.SameOrderColumns(after[i], after[j])
  {
    TwoResults(TWIN_REPORT[0], TWIN_REPORT[1], LIBRARY, TOOL);
    var e, f := Entry(OsPkgs, Some("debian"), LIBRARY), Entry(OsPkgs, Some("debian"), TOOL);
    TwinKeys(e, f);
    BothAccepted(e, f);
    assert e.vuln.columns == FACTS && f.vuln.columns == FACTS && e.vuln.vulnerabilityId == f.vuln.vulnerabilityId;
    hide Entries, Accepted, IngestFindings, Insertion;
    assert forall x :: x in Accepted([e, f]) ==> DedupKey(x) == StoredKey(x);
    i := FreshRow(serverId, [e, f], now, e);
    j := FreshRow(serverId, [e, f], now, f);
  }

  lemma FreshRow(serverId: int, entries: seq<Entry>, now: Time, e: Entry) returns (i: int)
    requires entries != [] && e in Accepted(entries)
    requires forall x :: x in Accepted(entries) ==> DedupKey(x) == StoredKey(x)
    ensures
      var after := IngestFindings(map[], 0, serverId, entries, now).findings;
      && i in after && after[i].key == NaturalKeyOf(serverId, DedupKey(e))
      && after[i].facts == e.vuln.columns.(findingClass := e.findingClass)
      && after[i].firstSeenAt == now && after[i].groupId.None?
  {
    AcceptedEntryHasOneLiveRow(map[], 0, serverId, entries, now, e);
    IngestLaw(map[], 0, serverId, entries, now);
    hide IngestFindings, Accepted, DedupKey, StoredKey;
    var after := IngestFindings(map[], 0, serverId, entries, now).findings;
    i :| i in after && after[i].key == NaturalKeyOf(serverId, DedupKey(e))
      && after[i].facts == e.vuln.columns.(findingClass := e.findingClass);
    assert Insertion(after[i], serverId, CurrentKeys(entries), now);
  }

  /** Two findings that tie make some page break of pages of one finding fall between two that tie. */
  lemma TiesBreakPagesOfOne(findings: FindingsTable, keep: Finding -> bool, serverId: int, groupId: int,
                            a: seq<BucketPages.Row>, i: int, j: int)
    requires IsListing(BucketPages.BodyOrder(), a, BucketPages.BodyRows(findings, keep, serverId, groupId))
    requires
      var ids := BodyIds(findings, keep, serverId, groupId);
      i in ids && j in ids && i != j && BucketPages.SameOrderColumns(findings[i], findings[j])
    ensures !BucketPages.BreaksSeparate(a, 1)
  {
    var x, y := BucketPages.Row(i, findings[i]), BucketPages.Row(j, findings[j]);
    var leq := BucketPages.BodyOrder();
    BucketPages.BodyRowIff(findings, keep, serverId, groupId);
    BucketPages.BodyOrderIsTotal();
    BucketPages.BodyOrderTies(x, y);
    ListingMembers(leq, a, BucketPages.BodyRows(findings, keep, serverId, groupId));
    hide BucketPages.BodyOrder, BucketPages.BodyRows, BodyIds, BucketPages.SameOrderColumns;
    var m, n := Places(a, x, y);
    TieReachesNeighbour(leq, a, m, n);
    BucketPages.BodyOrderTies(a[m], a[m + 1]);
    hide TotalPreorder, SortedBy, IsListing;
    assert Breaks(m + 1, 1, |a|) && (m + 1) * 1 - 1 == m;
  }

  /** In a sorted listing an element that ties with a later one ties with the next one. */
  lemma TieReachesNeighbour<T(!new)>(leq: (T, T) -> bool, a: seq<T>, m: nat, n: nat)
    requires TotalPreorder(leq) && SortedBy(leq, a)
    requires m < n < |a| && leq(a[n], a[m])
    ensures leq(a[m], a[m + 1]) && leq(a[m + 1], a[m])
  {
    assert m + 1 < n ==> leq(a[m + 1], a[n]);
  }

  /** After one ingest of the two packages, no listing of the pending bucket fixes pages of one finding. */
  lemma TwinsShareNoFixedPage(serverId: int, now: Time, keep: Finding -> bool, a: seq<BucketPages.Row>)
    requires serverId != 0 && forall f :: keep(f)
    requires
      var after := IngestFindings(map[], 0, serverId, Entries(TWIN_REPORT), now).findings;
      IsListing(BucketPages.BodyOrder(), a, BucketPages.BodyRows(after, keep, serverId, 0))
    ensures
      var after := IngestFindings(map[], 0, serverId, Entries(TWIN_REPORT), now).findings;
      exists b :: IsListing(BucketPages.BodyOrder(), b, BucketPages.BodyRows(after, keep, serverId, 0)) &&
        !SamePages(a, b, 1)
  {
    hide IngestFindings, Entries, IsListing, SamePages;
    hide BucketPages.BodyRows, BucketPages.SameOrderColumns, BucketPages.BodyOrder;
    var after := IngestFindings(map[], 0, serverId, Entries(TWIN_REPORT), now).findings;
    var i, j := TwinsTie(serverId, now);
    assert i in BodyIds(after, keep, serverId, 0) && j in BodyIds(after, keep, serverId, 0);
    TiesBreakPagesOfOne(after, keep, serverId, 0, a, i, j);
    BucketPages.PagesDeterminedIff(after, keep, serverId, 0, a, 1);
  }

  // ------------------------------------------------------------------ a header that counts twice

  const GROUPED_FINDING :=
    Finding(NaturalKey(1, Vulnerability, "CVE-2024-0001", "openssl"), FACTS, 0, None, Some("engine"), None, Some(7),
            Open, 0, None, None, None)

  const GROUPED_FINDINGS: FindingsTable := map[1 := GROUPED_FINDING]

  /** The group has a verdict for either lane, though its only finding is in one of them. */
  const BOTH_LANES: EvaluationsTable :=
    map[EvaluationKey(7, 1, Patch) := Evaluation("act", None),
        EvaluationKey(7, 1, Mitigate) := Evaluation("monitor", None)]

  /** The headers of that bucket count two findings, its body one. */
  lemma HeaderExceedsBodyWitness(headers: seq<BucketHeader>, keep: Finding -> bool)
    requires AreHeaders(headers, GROUPED_FINDINGS, BOTH_LANES, keep) && keep(GROUPED_FINDING)
    ensures Constraints(GROUPED_FINDINGS, 2)
    ensures BucketTotal(headers, 1, 7) == 2 && |BodyIds(GROUPED_FINDINGS, keep, 1, 7)| == 1
  {
    HeadersCountPerLane(headers, GROUPED_FINDINGS, BOTH_LANES, keep, 1, 7);
    assert BodyIds(GROUPED_FINDINGS, keep, 1, 7) == {1};
    var lanes := LaneRows(BOTH_LANES, 1, 7);
    assert EvaluationKey(7, 1, Patch) in BOTH_LANES && EvaluationKey(7, 1, Mitigate) in BOTH_LANES;
    assert lanes == {Patch, Mitigate};
  }

  // ------------------------------------------------------------------ a counter that counts an update

  const LIBRARY_REPORT := [TrivyResult("os-pkgs", Some("debian"), [Some(LIBRARY)])]
  const LIBRARY_ENTRY := Entry(OsPkgs, Some("debian"), LIBRARY)

  lemma LibraryEntries()
    ensures Entries(LIBRARY_REPORT) == [LIBRARY_ENTRY] && Accepted([LIBRARY_ENTRY]) == [LIBRARY_ENTRY]
    ensures DedupKey(LIBRARY_ENTRY) == StoredKey(LIBRARY_ENTRY)
  {
    OneResult(LIBRARY_REPORT[0], LIBRARY);
    OneAccepted(LIBRARY_ENTRY);
    TwinKeys(LIBRARY_ENTRY, Entry(OsPkgs, Some("debian"), TOOL));
    hide Entries, Accepted, DedupKey, StoredKey;
    assert NormalizedClass("os-pkgs") == OsPkgs;
  }

  lemma OneResult(r: TrivyResult, v: Vuln)
    requires r.vulnerabilities == [Some(v)]
    ensures Entries([r]) == [Entry(NormalizedClass(r.klass), r.target, v)]
  {
    OneVulnerability(r, v);
    hide EntriesOf;
    assert [r][..0] == [] && Entries([]) == [];
    assert Entries([r]) == [] + EntriesOf(r, 1);
  }

  lemma OneAccepted(e: Entry)
    ensures Accepted([e]) == [e]
  {
    assert [e][..0] == [];
  }

  /** The same report twice at one moment: the second ingest reports one insert and adds no row. */
  lemma RepeatedIngestMiscountsWitness(serverId: int, now: Time)
    ensures
      var entries := Entries(LIBRARY_REPORT);
      var first := IngestFindings(map[], 0, serverId, entries, now);
      var second := IngestFindings(first.findings, first.nextFindingId, serverId, entries, now);
      && InsertedCount(first.findings, first.nextFindingId, serverId, entries, now) == 1
      && |second.findings| == |first.findings|
  {
    LibraryEntries();
    hide Entries, Accepted, DedupKey, StoredKey, IngestFindings, InsertedCount;
    var first := IngestFindings(map[], 0, serverId, [LIBRARY_ENTRY], now);
    var i := FreshRow(serverId, [LIBRARY_ENTRY], now, LIBRARY_ENTRY);
    assert first.findings[i].key == RowOf(serverId, LIBRARY_ENTRY).key;
    StoredRowCountsAgain(first.findings, first.nextFindingId, serverId, LIBRARY_ENTRY, now, i);
  }

  /** An entry whose finding was first seen at this very moment counts as inserted, and inserts nothing. */
  lemma StoredRowCountsAgain(findings: FindingsTable, nextFindingId: int, serverId: int, e: Entry, now: Time, i: int)
    requires Constraints(findings, nextFindingId) && Accepted([e]) == [e]
    requires i in findings && findings[i].key == RowOf(serverId, e).key && findings[i].firstSeenAt == now
    ensures InsertedCount(findings, nextFindingId, serverId, [e], now) == 1
    ensures |IngestFindings(findings, nextFindingId, serverId, [e], now).findings| == |findings|
  {
    hide IngestFindings, UpsertAll, Reopen, RowOf, Accepted, CurrentKeys, KeyStored, FirstSeenOf;
    var rows := [RowOf(serverId, e)];
    assert RowsOf(serverId, [e]) == rows;
    var reopened := Reopen(findings, serverId, CurrentKeys([e]));
    ReopenedKeepsRow(findings, nextFindingId, serverId, CurrentKeys([e]), i);
    InsertCounter.SizesOfIngest(findings, nextFindingId, serverId, [e], now);
    InsertCounter.UpsertGrowth(reopened, nextFindingId, rows, now);
    InsertCounter.FirstSeenAfterUpsert(reopened, nextFindingId, rows, now, rows[0]);
    OneStoredRow(reopened, rows, now);
    UpsertAllEffect(reopened, nextFindingId, rows, now);
    hide CountRecent, InsertCounter.CountNew;
    assert FirstSeen(UpsertAll(reopened, nextFindingId, rows, now).findings, rows) == [now];
  }

  lemma ReopenedKeepsRow(findings: FindingsTable, nextFindingId: int, serverId: int, keys: set<ScanKey>, i: int)
    requires Constraints(findings, nextFindingId) && i in findings
    ensures
      var reopened, key := Reopen(findings, serverId, keys), findings[i].key;
      Constraints(reopened, nextFindingId) && KeyStored(reopened, key)
      && FirstSeenOf(reopened, key) == findings[i].firstSeenAt
  {
    var reopened := Reopen(findings, serverId, keys);
    assert reopened[i].key == findings[i].key && reopened[i].firstSeenAt == findings[i].firstSeenAt;
  }

  lemma OneStoredRow(findings: FindingsTable, rows: seq<Row>, now: Time)
    requires |rows| == 1 && KeyStored(findings, rows[0].key)
    ensures InsertCounter.CountNew(findings, rows) == 0 && CountRecent([now], now) == 1
  {
    hide KeyStored;
    assert rows[..0] == [] && InsertCounter.CountNew(findings, []) == 0;
    assert [now][..0] == [] && CountRecent([], now) == 0;
  }

  // ------------------------------------------------------------------ model answers

  /** A band that Python cannot hash ends the validation of an otherwise possible entry in a TypeError. */
  lemma UnhashableBandWitness(groupLabel: string, shown: Pass2Validation.Shown, fixLane: Option<FixLane>)
    requires groupLabel in shown
    ensures
      var entry := Json.Obj(map["group_label" := Json.Str(groupLabel), "risk_band" := Json.List([])]);
      Pass2Validation.CrashesAt([entry], 0, shown, fixLane)
  {
    var entry := Json.Obj(map["group_label" := Json.Str(groupLabel), "risk_band" := Json.List([])]);
    assert [entry][..0] == [];
  }

  lemma NewlineLabelWitness()
    ensures Pass1Validation.IsLabel("a\n") && !Pass1Validation.IsPlainLabel("a\n")
  {
    assert "a\n"[..1] == "a";
  }

  /** One finding, ungrouped twice: accepted, with two ids named. */
  lemma RepeatedUngroupedWitness()
    ensures
      var response := map["groups" := Json.List([]), "ungrouped" := Json.List([Json.Int(1), Json.Int(1)])];
      && Pass1Validation.ResponseFits(response, {1})
      && |Json.Ints(Json.Get(response, "ungrouped").items)| == 2
  {
    var ungrouped := [Json.Int(1), Json.Int(1)];
    assert Json.Ints(ungrouped)[0] == 1;
  }

  /** The space after a leading slash is kept by the first sanitising and goes with the second. */
  lemma PrefixChangesWitness()
    ensures PatternSanitizer.SanitizePathPrefix(Json.Str("/ usr")) == Some(" usr")
    ensures PatternSanitizer.SanitizePathPrefix(Json.Str(" usr")) == Some("usr")
  {
    hide *;
    PrefixStripped();
    PrefixIsAscii("/ usr");
    PrefixIsAscii("usr");
    Sanitized("/ usr", "/ usr", " usr");
    Sanitized(" usr", "usr", "usr");
  }

  /** The two steps of the sanitiser on a text of harmless length. */
  lemma Sanitized(raw: string, stripped: string, stored: string)
    requires Strip(raw) == stripped && PatternSanitizer.LStripSlashes(stripped) == stored
    requires PatternSanitizer.IsAsciiNoNul(stripped) && 2 < |stored| <= |stripped| < 10
    ensures PatternSanitizer.SanitizePathPrefix(Json.Str(raw)) == Some(stored)
  {
    hide Strip, PatternSanitizer.LStripSlashes, PatternSanitizer.IsAsciiNoNul;
  }

  lemma PrefixStripped()
    ensures Strip("/ usr") == "/ usr" && PatternSanitizer.LStripSlashes("/ usr") == " usr"
    ensures Strip(" usr") == "usr" && PatternSanitizer.LStripSlashes("usr") == "usr"
  {
    hide RStrip;
    assert Trimmed("/ usr") && Trimmed("usr");
    assert "/ usr"[1..] == " usr" && " usr"[1..] == "usr";
    assert LStrip(" usr") == "usr";
  }

  lemma PrefixIsAscii(s: string)
    requires s == "/ usr" || s == "usr"
    ensures PatternSanitizer.IsAsciiNoNul(s)
  {}

  // ------------------------------------------------------------------ an order that decides

  const FIRST_GROUP := GroupMatcher.ApplicationGroup(1, ["usr/"], [], [], [], 0)
  const SECOND_GROUP := GroupMatcher.ApplicationGroup(2, ["usr/"], [], [], [], 0)
  const BELOW_BOTH := GroupMatcher.MatchRow(1, 1, Some("usr/lib"), "libssl3", None, None)

  /** Two groups with one prefix: the finding goes to the group that was loaded first. */
  lemma LoadOrderWitness(glob: GroupMatcher.Glob)
    ensures
      var a, b := [FIRST_GROUP, SECOND_GROUP], [SECOND_GROUP, FIRST_GROUP];
      && MatchOrder.SameGroups(a, b)
      && GroupMatcher.GroupAt(a, GroupMatcher.MatchIndex(glob, BELOW_BOTH, a)) == Some(FIRST_GROUP)
      && GroupMatcher.GroupAt(b, GroupMatcher.MatchIndex(glob, BELOW_BOTH, b)) == Some(SECOND_GROUP)
  {
    FirstOfTwins(glob, FIRST_GROUP, SECOND_GROUP);
    FirstOfTwins(glob, SECOND_GROUP, FIRST_GROUP);
    hide GroupMatcher.MatchIndex;
    assert multiset([FIRST_GROUP, SECOND_GROUP]) == multiset([SECOND_GROUP, FIRST_GROUP]);
  }

  lemma FirstOfTwins(glob: GroupMatcher.Glob, g: GroupMatcher.ApplicationGroup, h: GroupMatcher.ApplicationGroup)
    requires g.pathPrefixes == h.pathPrefixes == ["usr/"]
    ensures GroupMatcher.MatchIndex(glob, BELOW_BOTH, [g, h]) == Some(0)
  {
    hide GroupMatcher.MatchIndex, GroupMatcher.TargetOf, GroupMatcher.LayerHit, GroupMatcher.HitLength;
    hide MatchOrder.ReachesLongest, MatchOrder.LayerHits;
    var groups := [g, h];
    TargetBelow();
    TwinReaches("usr/lib", g, h);
    MatchOrder.MatchIsFirstCandidate(glob, BELOW_BOTH, groups);
    assert groups[0] in groups;
    assert MatchOrder.Candidate(glob, BELOW_BOTH, groups, groups[0]);
  }

  lemma TargetBelow()
    ensures GroupMatcher.TargetOf(BELOW_BOTH) == "usr/lib" && GroupMatcher.HitLength("usr/lib", "usr/") == 4
  {
    assert "usr/" <= "usr/lib";
  }

  lemma TwinReaches(target: string, g: GroupMatcher.ApplicationGroup, h: GroupMatcher.ApplicationGroup)
    requires g.pathPrefixes == h.pathPrefixes == ["usr/"] && GroupMatcher.HitLength(target, "usr/") > 0
    ensures MatchOrder.ReachesLongest(target, [g, h], g)
  {
    hide GroupMatcher.HitLength;
    assert ["usr/"][0] in g.pathPrefixes;
  }

  // ------------------------------------------------------------------ a verdict that is never seen

  /** The store after the lookup has found the row expired is dropped: the next lookup misses again. */
  lemma ExpiredStoreWitness(key: string, verdict: LlmCache.CachedVerdict, later: LlmCache.CachedVerdict, ttlDays: nat)
    ensures
      var late := ttlDays * DAY_LENGTH + 1;
      var trace := [LlmCache.Store(key, verdict, 0), LlmCache.Store(key, later, late)];
      LlmCache.LookupAt(LlmCache.Run(trace), key, late, ttlDays).None?
  {
    var late := ttlDays * DAY_LENGTH + 1;
    var trace := [LlmCache.Store(key, verdict, 0), LlmCache.Store(key, later, late)];
    assert trace[..1] == [LlmCache.Store(key, verdict, 0)] && trace[..1][..0] == [];
    assert LlmCache.Run([]) == map[];
    assert LlmCache.Run(trace[..1])[key].computedAt == 0;
  }

  // ------------------------------------------------------------------ a package that was not meant

  /** Acknowledging `a_b` takes the findings of `a-b` along. */
  lemma UnderscoreWitness()
    ensures BulkAcknowledge.PackageMatches("a_b", "a-b@x") && !BulkAcknowledge.IsPackage("a_b", "a-b@x")
  {
    BulkAcknowledge.LikeAny("x");
    assert "a_b" + "@%" == "a_b@%";
    assert "a_b@%"[1..] == "_b@%" && "a-b@x"[1..] == "-b@x";
    assert "_b@%"[1..] == "b@%" && "-b@x"[1..] == "b@x";
    assert "b@%"[1..] == "@%" && "b@x"[1..] == "@x";
    assert "@%"[1..] == "%" && "@x"[1..] == "x";
    assert BulkAcknowledge.Like("@%", "@x");
    assert BulkAcknowledge.Like("b@%", "b@x");
    assert BulkAcknowledge.Like("_b@%", "-b@x");
    assert ("a_b" + "@")[1] != "a-b@x"[1];
  }
}
