/**
 * What an ingest stores, in terms of the report: which entries a report has, what name a row gets,
 * and what becomes of every row. Nothing here uses the functions that compute the names.
 */
module ScanMeaning {
  import opened Models
  import opened Text
  import opened FindingsUpsert
  import opened FindingsIngest
  import opened FindingsIngestLaws
  import BulkAcknowledge
  import GroupMatcher

  // ------------------------------------------------------------------ the entries of a report

  /** The class by the word of the report; every other word is the third class. */
  predicate IsClassOf(klass: string, findingClass: FindingClass) {
    && (findingClass == OsPkgs <==> klass == "os-pkgs")
    && (findingClass == LangPkgs <==> klass == "lang-pkgs")
  }

  ghost predicate IsEntryOf(e: Entry, result: TrivyResult) {
    && IsClassOf(result.klass, e.findingClass) && e.target == result.target
    && exists k :: 0 <= k < |result.vulnerabilities| && result.vulnerabilities[k] == Some(e.vuln)
  }

  /** Every readable vulnerability is an entry of its result, with the class and target of that result. */
  lemma {:induction false} EntriesIff(results: seq<TrivyResult>, e: Entry)
    ensures e in Entries(results) <==> exists r :: r in results && IsEntryOf(e, r)
  {
    if results != [] {
      var n := |results| - 1;
      EntriesIff(results[..n], e);
      EntriesOfIff(results[n], |results[n].vulnerabilities|, e);
      assert IsEntryOf(e, results[n]) <==> e in EntriesOf(results[n], |results[n].vulnerabilities|);
      assert forall r :: r in results <==> r in results[..n] || r == results[n];
      hide EntriesOf, IsEntryOf;
      assert Entries(results) == Entries(results[..n]) + EntriesOf(results[n], |results[n].vulnerabilities|);
    }
  }

  lemma {:induction false} EntriesOfIff(result: TrivyResult, n: nat, e: Entry)
    requires n <= |result.vulnerabilities|
    ensures e in EntriesOf(result, n)
       <==> && IsClassOf(result.klass, e.findingClass) && e.target == result.target
            && exists k :: 0 <= k < n && result.vulnerabilities[k] == Some(e.vuln)
  {
    if n > 0 {
      EntriesOfIff(result, n - 1, e);
    }
  }

  /** The report read up to vulnerability `k` of its last result. */
  function ReadUpTo(results: seq<TrivyResult>, k: nat): seq<TrivyResult>
    requires results != [] && k <= |results[|results| - 1].vulnerabilities|
  {
    var n := |results| - 1;
    results[..n] + [results[n].(vulnerabilities := results[n].vulnerabilities[..k])]
  }

  /** The entries come in the order of the report: reading one vulnerability more appends its entry. */
  lemma EntriesInOrder(results: seq<TrivyResult>, k: nat)
    requires results != [] && k < |results[|results| - 1].vulnerabilities|
    ensures
      var before, v := Entries(ReadUpTo(results, k)), results[|results| - 1].vulnerabilities[k];
      && (v.None? ==> Entries(ReadUpTo(results, k + 1)) == before)
      && (v.Some? ==> exists e: Entry ::
            && e.vuln == v.value && IsClassOf(results[|results| - 1].klass, e.findingClass)
            && e.target == results[|results| - 1].target && Entries(ReadUpTo(results, k + 1)) == before + [e])
  {
    var n := |results| - 1;
    var r := results[n];
    EntriesOfRead(results, k);
    EntriesOfRead(results, k + 1);
    OneMoreEntry(r, k);
    hide ReadUpTo, Entries, EntriesOf;
    if r.vulnerabilities[k].Some? {
      var e := Entry(NormalizedClass(r.klass), r.target, r.vulnerabilities[k].value);
      assert Entries(results[..n]) + (EntriesOf(r, k) + [e]) == Entries(results[..n]) + EntriesOf(r, k) + [e];
      assert Entries(ReadUpTo(results, k + 1)) == Entries(ReadUpTo(results, k)) + [e];
    }
  }

  lemma OneMoreEntry(r: TrivyResult, k: nat)
    requires k < |r.vulnerabilities|
    ensures r.vulnerabilities[k].None? ==> EntriesOf(r, k + 1) == EntriesOf(r, k)
    ensures r.vulnerabilities[k].Some? ==>
              EntriesOf(r, k + 1)
              == EntriesOf(r, k) + [Entry(NormalizedClass(r.klass), r.target, r.vulnerabilities[k].value)]
  {}

  lemma EntriesOfRead(results: seq<TrivyResult>, k: nat)
    requires results != [] && k <= |results[|results| - 1].vulnerabilities|
    ensures Entries(ReadUpTo(results, k)) == Entries(results[..|results| - 1]) + EntriesOf(results[|results| - 1], k)
  {
    var n := |results| - 1;
    var read := results[n].(vulnerabilities := results[n].vulnerabilities[..k]);
    EntriesOfPrefix(results[n], read, k);
    hide EntriesOf;
    assert (results[..n] + [read])[..n] == results[..n];
  }

  lemma {:induction false} EntriesOfPrefix(r: TrivyResult, s: TrivyResult, k: nat)
    requires k <= |s.vulnerabilities| <= |r.vulnerabilities|
    requires s == r.(vulnerabilities := r.vulnerabilities[..|s.vulnerabilities|])
    ensures EntriesOf(s, k) == EntriesOf(r, k)
  {
    if k > 0 {
      EntriesOfPrefix(r, s, k - 1);
    }
  }

  // ------------------------------------------------------------------ the stored name

  function PathLimit(path: string): nat {
    if |path| < 160 then |path| else 160
  }

  predicate HasPath(findingClass: FindingClass, path: Option<string>) {
    findingClass == LangPkgs && path.Some? && Strip(path.value) != ""
  }

  /** A library package found under a path is called `package@path`, any other package by its own name. */
  predicate NamesPackage(name: string, pkgName: string, findingClass: FindingClass, path: Option<string>) {
    if HasPath(findingClass, path)
    then name == pkgName + "@" + path.value[..PathLimit(path.value)]
    else name == pkgName
  }

  /** The path of a package: its own one, and without it the target of the result. */
  function PathOf(e: Entry): Option<string> {
    if e.vuln.pkgPath.Some? && Strip(e.vuln.pkgPath.value) != "" then Some(Strip(e.vuln.pkgPath.value)) else e.target
  }

  /** Rows are stored under the name with the package's own path, the scan is compared by the target's. */
  lemma KeysNamePackages(e: Entry)
    ensures StoredKey(e).identifierKey == DedupKey(e).identifierKey == e.vuln.vulnerabilityId
    ensures NamesPackage(StoredKey(e).packageName, e.vuln.pkgName, e.findingClass, PathOf(e))
    ensures NamesPackage(DedupKey(e).packageName, e.vuln.pkgName, e.findingClass, e.target)
  {
    CutIsPrefix(e.target);
    CutIsPrefix(PathOf(e));
  }

  lemma CutIsPrefix(path: Option<string>)
    ensures path.Some? ==> Truncated(path.value, TARGET_MAX_LEN) == path.value[..PathLimit(path.value)]
  {
    if path.Some? {
      assert path.value[..|path.value|] == path.value;
    }
  }

  /**
   * What the matcher and the bulk criterion see of a stored name: the package, whatever path it was
   * found under. LIKE reads a backslash as an escape; a request cannot contain one.
   */
  lemma StoredNameMeansPackage(e: Entry)
    requires '@' !in e.vuln.pkgName
    ensures GroupMatcher.BeforeAt(StoredKey(e).packageName) == e.vuln.pkgName
    ensures GroupMatcher.BeforeAt(DedupKey(e).packageName) == e.vuln.pkgName
    ensures '\\' !in e.vuln.pkgName ==> BulkAcknowledge.PackageMatches(e.vuln.pkgName, StoredKey(e).packageName)
    ensures e.findingClass != LangPkgs ==> StoredKey(e).packageName == e.vuln.pkgName
  {
    KeysNamePackages(e);
    NameMeansPackage(StoredKey(e).packageName, e.vuln.pkgName, e.findingClass, PathOf(e));
    NameMeansPackage(DedupKey(e).packageName, e.vuln.pkgName, e.findingClass, e.target);
  }

  lemma NameMeansPackage(name: string, pkgName: string, findingClass: FindingClass, path: Option<string>)
    requires '@' !in pkgName && NamesPackage(name, pkgName, findingClass, path)
    ensures GroupMatcher.BeforeAt(name) == pkgName
    ensures '\\' !in pkgName ==> BulkAcknowledge.PackageMatches(pkgName, name)
  {
    hide GroupMatcher.BeforeAt, BulkAcknowledge.PackageMatches, Strip;
    if HasPath(findingClass, path) {
      SuffixedMeansPackage(pkgName, path.value[..PathLimit(path.value)]);
    } else {
      PlainMeansPackage(pkgName);
    }
  }

  lemma PlainMeansPackage(pkgName: string)
    requires '@' !in pkgName
    ensures GroupMatcher.BeforeAt(pkgName) == pkgName && BulkAcknowledge.PackageMatches(pkgName, pkgName)
  {
    BeforeAtOf(pkgName, "");
    assert pkgName + "" == pkgName;
  }

  lemma SuffixedMeansPackage(pkgName: string, cut: string)
    requires '@' !in pkgName
    ensures GroupMatcher.BeforeAt(pkgName + "@" + cut) == pkgName
    ensures '\\' !in pkgName ==> BulkAcknowledge.PackageMatches(pkgName, pkgName + "@" + cut)
  {
    BeforeAtOf(pkgName, "@" + cut);
    Shifted(pkgName, "@", cut);
    if '\\' !in pkgName {
      AtAny(cut);
      LikeSelf(pkgName, "@%", "@" + cut);
    }
    hide BulkAcknowledge.Like;
  }

  lemma Shifted(a: string, b: string, c: string)
    ensures a + b + c == a + (b + c)
  {}

  lemma AtAny(cut: string)
    ensures BulkAcknowledge.Like("@%", "@" + cut)
  {
    BulkAcknowledge.LikeAny(cut);
    assert "@%"[1..] == "%" && ("@" + cut)[1..] == cut;
  }

  lemma {:induction false} BeforeAtOf(name: string, rest: string)
    requires '@' !in name && (rest != "" ==> rest[0] == '@')
    ensures GroupMatcher.BeforeAt(name + rest) == name
  {
    if name == "" {
      assert name + rest == rest;
    } else {
      assert name[0] in name;
      BeforeAtOf(name[1..], rest);
      assert (name + rest)[1..] == name[1..] + rest;
    }
  }

  /** LIKE takes a text without backslash literally, among other readings. */
  lemma {:induction false} LikeSelf(text: string, pattern: string, rest: string)
    requires '\\' !in text && BulkAcknowledge.Like(pattern, rest)
    ensures BulkAcknowledge.Like(text + pattern, text + rest)
  {
    if text == "" {
      assert text + pattern == pattern && text + rest == rest;
    } else {
      assert text[0] in text;
      LikeSelf(text[1..], pattern, rest);
      assert (text + pattern)[1..] == text[1..] + pattern && (text + rest)[1..] == text[1..] + rest;
      if text[0] == '%' {
        assert BulkAcknowledge.Like(text + pattern, text[1..] + rest);
      }
    }
  }

  /** One stored key means one package, found under paths with one beginning, or under none. */
  lemma OneKeyOnePackage(e: Entry, f: Entry)
    requires StoredKey(e) == StoredKey(f) && '@' !in e.vuln.pkgName && '@' !in f.vuln.pkgName
    ensures e.vuln.vulnerabilityId == f.vuln.vulnerabilityId && e.vuln.pkgName == f.vuln.pkgName
    ensures HasPath(e.findingClass, PathOf(e)) <==> HasPath(f.findingClass, PathOf(f))
    ensures HasPath(e.findingClass, PathOf(e)) ==>
              PathOf(e).value[..PathLimit(PathOf(e).value)] == PathOf(f).value[..PathLimit(PathOf(f).value)]
  {
    KeysNamePackages(e);
    KeysNamePackages(f);
    StoredNameMeansPackage(e);
    StoredNameMeansPackage(f);
    hide StoredKey, DedupKey, PathOf, HasPath, PathLimit, GroupMatcher.BeforeAt;
    NamesAgree(StoredKey(e).packageName, e.vuln.pkgName, e.findingClass, PathOf(e), f.findingClass, PathOf(f));
  }

  lemma NamesAgree(name: string, pkgName: string, c: FindingClass, path: Option<string>, d: FindingClass,
                   other: Option<string>)
    requires NamesPackage(name, pkgName, c, path) && NamesPackage(name, pkgName, d, other)
    ensures HasPath(c, path) <==> HasPath(d, other)
    ensures HasPath(c, path) ==> path.value[..PathLimit(path.value)] == other.value[..PathLimit(other.value)]
  {
    hide Strip;
    if HasPath(c, path) {
      BehindAt(pkgName, path.value[..PathLimit(path.value)]);
    }
    if HasPath(d, other) {
      BehindAt(pkgName, other.value[..PathLimit(other.value)]);
    }
  }

  lemma BehindAt(name: string, cut: string)
    ensures |name + "@" + cut| == |name| + 1 + |cut| && (name + "@" + cut)[|name| + 1..] == cut
  {}

  // ------------------------------------------------------------------ the rows afterwards

  /** The scan has the finding: an entry with its identifier and, by the target's path, its name. */
  ghost predicate Scanned(f: Finding, entries: seq<Entry>) {
    exists e :: e in entries && e.vuln.vulnerabilityId == f.key.identifierKey
             && NamesPackage(f.key.packageName, e.vuln.pkgName, e.findingClass, e.target)
  }

  /** The scan writes the finding: an accepted entry is stored under its key. */
  ghost predicate WrittenBy(f: Finding, serverId: int, e: Entry) {
    && f.key.serverId == serverId && f.key.findingType == Vulnerability
    && f.key.identifierKey == e.vuln.vulnerabilityId
    && NamesPackage(f.key.packageName, e.vuln.pkgName, e.findingClass, PathOf(e))
  }

  lemma ScannedIff(f: Finding, entries: seq<Entry>)
    ensures Scanned(f, entries) <==> ScanKeyOf(f) in CurrentKeys(entries)
  {
    forall e | e in entries
      ensures DedupKey(e) == ScanKeyOf(f)
         <==> e.vuln.vulnerabilityId == f.key.identifierKey
              && NamesPackage(f.key.packageName, e.vuln.pkgName, e.findingClass, e.target)
    {
      KeysNamePackages(e);
      hide DedupKey, StoredKey, HasPath;
    }
    hide DedupKey, NamesPackage;
  }

  lemma WrittenIff(f: Finding, serverId: int, e: Entry)
    ensures WrittenBy(f, serverId, e) <==> f.key == RowOf(serverId, e).key
  {
    KeysNamePackages(e);
    hide StoredKey, DedupKey, HasPath;
  }

  /** Status and resolution time after a scan, by status before and by what the scan has. */
  ghost predicate StatusAfterScan(f: Finding, g: Finding, scanned: bool, now: Time) {
    if scanned then
      if f.status == Resolved then g.status == Open && g.resolvedAt == None
      else g.status == f.status && g.resolvedAt == f.resolvedAt
    else
      if f.status == Resolved then g.status == Resolved && g.resolvedAt == f.resolvedAt
      else g.status == Resolved && g.resolvedAt == Some(now)
  }

  /** The overwritten columns of a row come from an accepted entry stored under its key. */
  ghost predicate HoldsEntry(f: Finding, serverId: int, entries: seq<Entry>, now: Time) {
    f.lastSeenAt == now && exists e ::
      e in Accepted(entries) && WrittenBy(f, serverId, e) && f.facts == e.vuln.columns.(findingClass := e.findingClass)
  }

  ghost predicate Written(f: Finding, serverId: int, entries: seq<Entry>) {
    exists e :: e in Accepted(entries) && WrittenBy(f, serverId, e)
  }

  ghost predicate HoldsRow(f: Finding, rows: seq<Row>, now: Time) {
    f.lastSeenAt == now && exists r :: r in rows && f.key == r.key && f.facts == r.facts
  }

  lemma {:induction false} UpsertWrites(findings: FindingsTable, nextFindingId: int, rows: seq<Row>, now: Time, i: int)
    requires Constraints(findings, nextFindingId)
    requires i in UpsertAll(findings, nextFindingId, rows, now).findings
    requires KeyIn(rows, UpsertAll(findings, nextFindingId, rows, now).findings[i].key)
    ensures HoldsRow(UpsertAll(findings, nextFindingId, rows, now).findings[i], rows, now)
  {
    if rows != [] {
      var before, last := rows[..|rows| - 1], rows[|rows| - 1];
      var u := UpsertAll(findings, nextFindingId, before, now);
      var f := UpsertAll(findings, nextFindingId, rows, now).findings[i];
      assert last in rows && forall r :: r in before ==> r in rows;
      if f.key == last.key {
        assert f.lastSeenAt == now && f.facts == last.facts;
      } else {
        assert i in u.findings && u.findings[i] == f;
        assert rows == before + [last];
        UpsertWrites(findings, nextFindingId, before, now, i);
      }
    }
  }

  lemma WrittenIsKeyIn(f: Finding, serverId: int, entries: seq<Entry>, now: Time)
    ensures Written(f, serverId, entries) <==> KeyIn(RowsOf(serverId, Accepted(entries)), f.key)
    ensures HoldsRow(f, RowsOf(serverId, Accepted(entries)), now) ==> HoldsEntry(f, serverId, entries, now)
  {
    var rows, accepted := RowsOf(serverId, Accepted(entries)), Accepted(entries);
    forall e | e in accepted
      ensures RowOf(serverId, e) in rows
      ensures WrittenBy(f, serverId, e) <==> f.key == RowOf(serverId, e).key
    {
      var k :| 0 <= k < |accepted| && accepted[k] == e;
      assert rows[k] == RowOf(serverId, e);
      WrittenIff(f, serverId, e);
    }
    forall r | r in rows
      ensures exists e :: e in accepted && r == RowOf(serverId, e)
    {
      var k :| 0 <= k < |rows| && rows[k] == r;
    }
    assert forall e :: RowOf(serverId, e).facts == e.vuln.columns.(findingClass := e.findingClass);
    hide WrittenBy, RowOf, Accepted;
  }

  /** The columns that the upsert overwrites, on any row after the scan. */
  lemma ColumnsAfterScan(findings: FindingsTable, nextFindingId: int, serverId: int, entries: seq<Entry>, now: Time,
                         i: int)
    requires Constraints(findings, nextFindingId) && entries != []
    requires i in IngestFindings(findings, nextFindingId, serverId, entries, now).findings
    ensures
      var g := IngestFindings(findings, nextFindingId, serverId, entries, now).findings[i];
      if Written(g, serverId, entries) then HoldsEntry(g, serverId, entries, now)
      else i in findings && g.facts == findings[i].facts && g.lastSeenAt == findings[i].lastSeenAt
  {
    AcceptedNonempty(entries);
    var rows := RowsOf(serverId, Accepted(entries));
    var reopened := Reopen(findings, serverId, CurrentKeys(entries));
    var u := UpsertAll(reopened, nextFindingId, rows, now);
    var g := IngestFindings(findings, nextFindingId, serverId, entries, now).findings[i];
    assert i in u.findings && SameColumns(g, u.findings[i]);
    WrittenIsKeyIn(g, serverId, entries, now);
    hide IngestFindings, Accepted, Written, HoldsEntry, CurrentKeys, UpsertAll, RowsOf, Resolve;
    if KeyIn(rows, g.key) {
      UpsertWrites(reopened, nextFindingId, rows, now, i);
    } else {
      UpsertAllEffect(reopened, nextFindingId, rows, now);
      assert u.findings[i] == reopened[i] && SameColumns(reopened[i], findings[i]);
    }
  }

  predicate SameColumns(f: Finding, g: Finding) {
    f.key == g.key && f.facts == g.facts && f.lastSeenAt == g.lastSeenAt
  }

  /**
   * What a scan with entries does to a stored row. Other servers and other kinds of findings are left
   * alone; the scan decides the status; identity, first-seen time, acknowledgement, band and group stay.
   */
  lemma RowAfterScan(findings: FindingsTable, nextFindingId: int, serverId: int, entries: seq<Entry>, now: Time, i: int)
    requires Constraints(findings, nextFindingId) && entries != [] && i in findings
    ensures i in IngestFindings(findings, nextFindingId, serverId, entries, now).findings
    ensures
      var f, g := findings[i], IngestFindings(findings, nextFindingId, serverId, entries, now).findings[i];
      if f.key.serverId != serverId || f.key.findingType != Vulnerability then g == f
      else
        && StatusAfterScan(f, g, Scanned(f, entries), now)
        && g == f.(facts := g.facts, lastSeenAt := g.lastSeenAt, status := g.status, resolvedAt := g.resolvedAt)
  {
    IngestLaw(findings, nextFindingId, serverId, entries, now);
    ScannedIff(findings[i], entries);
    hide IngestFindings, Accepted, CurrentKeys, Scanned, Insertion, RowsOf;
  }

  /**
   * A row that a scan inserts is named after an accepted entry; it is new, without band and group,
   * and open if the scan has its name.
   */
  lemma RowBornInScan(findings: FindingsTable, nextFindingId: int, serverId: int, entries: seq<Entry>, now: Time,
                      i: int)
    requires Constraints(findings, nextFindingId) && entries != [] && i !in findings
    requires i in IngestFindings(findings, nextFindingId, serverId, entries, now).findings
    ensures
      var g := IngestFindings(findings, nextFindingId, serverId, entries, now).findings[i];
      && Written(g, serverId, entries) && g.firstSeenAt == now
      && g.riskBand == None && g.riskBandSource == Some("engine") && g.riskBandComputedAt == None && g.groupId == None
      && g.acknowledgedAt == None && g.acknowledgedBy == None
      && (if Scanned(g, entries) then g.status == Open && g.resolvedAt == None
          else g.status == Resolved && g.resolvedAt == Some(now))
  {
    IngestLaw(findings, nextFindingId, serverId, entries, now);
    var after := IngestFindings(findings, nextFindingId, serverId, entries, now).findings;
    ScannedIff(after[i], entries);
    WrittenIsKeyIn(after[i], serverId, entries, now);
    hide IngestFindings, Accepted, CurrentKeys, Scanned, Transition, RowsOf, Written;
  }

  /** Every accepted entry has a row afterwards. */
  lemma EveryEntryHasRow(findings: FindingsTable, nextFindingId: int, serverId: int, entries: seq<Entry>, now: Time,
                         e: Entry)
    requires Constraints(findings, nextFindingId) && e in Accepted(entries)
    ensures
      var after := IngestFindings(findings, nextFindingId, serverId, entries, now).findings;
      exists i :: i in after && WrittenBy(after[i], serverId, e)
  {
    AcceptedNonempty(entries);
    var after := IngestFindings(findings, nextFindingId, serverId, entries, now).findings;
    IngestLaw(findings, nextFindingId, serverId, entries, now);
    var k :| 0 <= k < |Accepted(entries)| && Accepted(entries)[k] == e;
    var r := RowsOf(serverId, Accepted(entries))[k];
    hide IngestFindings, Accepted, CurrentKeys, Transition, Insertion, RowOf, WrittenBy;
    assert KeyStored(after, r.key);
    var i :| i in after && after[i].key == r.key;
    WrittenIff(after[i], serverId, e);
  }

  /** After the scan the matcher and the bulk criterion find a row for every accepted entry by its package name. */
  lemma EntryIsFoundByPackage(findings: FindingsTable, nextFindingId: int, serverId: int, entries: seq<Entry>,
                              now: Time, e: Entry)
    requires Constraints(findings, nextFindingId) && e in Accepted(entries)
    requires '@' !in e.vuln.pkgName && '\\' !in e.vuln.pkgName
    ensures
      var after := IngestFindings(findings, nextFindingId, serverId, entries, now).findings;
      exists i :: i in after && FoundByPackage(after[i], serverId, e)
  {
    EveryEntryHasRow(findings, nextFindingId, serverId, entries, now, e);
    var after := IngestFindings(findings, nextFindingId, serverId, entries, now).findings;
    hide IngestFindings, Accepted, NamesPackage, PathOf;
    var i :| i in after && WrittenBy(after[i], serverId, e);
    NameMeansPackage(after[i].key.packageName, e.vuln.pkgName, e.findingClass, PathOf(e));
    assert FoundByPackage(after[i], serverId, e);
  }

  ghost predicate FoundByPackage(f: Finding, serverId: int, e: Entry) {
    && f.key.serverId == serverId && f.key.findingType == Vulnerability
    && f.key.identifierKey == e.vuln.vulnerabilityId
    && GroupMatcher.BeforeAt(f.key.packageName) == e.vuln.pkgName
    && BulkAcknowledge.PackageMatches(e.vuln.pkgName, f.key.packageName)
  }

  /** And a row that a scan inserts is found by the package name of an entry of that scan. */
  lemma BornRowIsFoundByPackage(findings: FindingsTable, nextFindingId: int, serverId: int, entries: seq<Entry>,
                                now: Time, i: int)
    requires Constraints(findings, nextFindingId) && entries != [] && i !in findings
    requires i in IngestFindings(findings, nextFindingId, serverId, entries, now).findings
    requires forall e :: e in Accepted(entries) ==> '@' !in e.vuln.pkgName && '\\' !in e.vuln.pkgName
    ensures
      var g := IngestFindings(findings, nextFindingId, serverId, entries, now).findings[i];
      exists e :: e in Accepted(entries) && FoundByPackage(g, serverId, e)
  {
    RowBornInScan(findings, nextFindingId, serverId, entries, now, i);
    var g := IngestFindings(findings, nextFindingId, serverId, entries, now).findings[i];
    hide IngestFindings, Accepted, NamesPackage, PathOf;
    var e :| e in Accepted(entries) && WrittenBy(g, serverId, e);
    NameMeansPackage(g.key.packageName, e.vuln.pkgName, e.findingClass, PathOf(e));
    assert FoundByPackage(g, serverId, e);
  }

  /** Besides the findings, an ingest records the scan and the time, also when it has no entries. */
  lemma RecordsTheScan(db: Db, serverId: int, entries: seq<Entry>, now: Time)
    requires Constraints(db.findings, db.nextFindingId)
    ensures
      var after := IngestDb(db, serverId, entries, now);
      && after.scans == db.scans + [Scan(serverId, now)]
      && (forall s :: s in after.lastScanAt <==> s == serverId || s in db.lastScanAt)
      && (forall s :: s in after.lastScanAt ==> after.lastScanAt[s] == if s == serverId then now else db.lastScanAt[s])
      && after.servers == db.servers && after.evaluations == db.evaluations && after.frozen == db.frozen
      && (entries == [] ==> after.findings == db.findings)
  {
    if entries == [] {
      EmptyScanChangesNothing(db.findings, db.nextFindingId, serverId, now);
    }
    hide IngestFindings;
  }
}
