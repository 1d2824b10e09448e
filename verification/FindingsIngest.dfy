/**
 * The scan ingest: deduplicate the entries of a Trivy report, reopen returning findings,
 * upsert the rows, resolve what the scan no longer reports.
 *
 * Two package names are computed for one entry. The scan's own key (`DedupKey`) uses the
 * target of the enclosing result; the stored row (`StoredKey`) prefers the entry's package path.
 */
module FindingsIngest {
  import opened Models
  import opened Text
  import opened FindingsUpsert

  const TARGET_MAX_LEN := 160

  // ------------------------------------------------------------------ the report

  /** `columns` holds the payload after host-update join and feed enrichment. */
  datatype Vuln = Vuln(vulnerabilityId: string, pkgName: string, pkgPath: Option<string>, columns: Facts)

  /** An item of `vulnerabilities` is `None` when it does not pass validation. */
  datatype TrivyResult = TrivyResult(klass: string, target: Option<string>, vulnerabilities: seq<Option<Vuln>>)

  /** One valid vulnerability with what it inherits from its result. */
  datatype Entry = Entry(findingClass: FindingClass, target: Option<string>, vuln: Vuln)

  /** `(identifier_key, package_name)`. */
  datatype ScanKey = ScanKey(identifierKey: string, packageName: string)

  function NormalizedClass(klass: string): FindingClass {
    if klass == "os-pkgs" then OsPkgs
    else if klass == "lang-pkgs" then LangPkgs
    else Other
  }

  function Truncated(s: string, n: nat): string {
    if |s| <= n then s else s[..n]
  }

  function EffectiveTargetPath(e: Entry): Option<string> {
    var pkgPath := match e.vuln.pkgPath case None => "" case Some(p) => Strip(p);
    if pkgPath != "" then Some(pkgPath) else e.target
  }

  function DisambiguatedPackageName(pkgName: string, target: Option<string>, findingClass: FindingClass): string {
    if findingClass != LangPkgs || target.None? || Strip(target.value) == "" then pkgName
    else pkgName + "@" + Truncated(target.value, TARGET_MAX_LEN)
  }

  /** The key that deduplicates the scan and drives reopen and resolve. */
  function DedupKey(e: Entry): ScanKey {
    ScanKey(e.vuln.vulnerabilityId, DisambiguatedPackageName(e.vuln.pkgName, e.target, e.findingClass))
  }

  /** The key under which the entry is stored. */
  function StoredKey(e: Entry): ScanKey {
    ScanKey(e.vuln.vulnerabilityId, DisambiguatedPackageName(e.vuln.pkgName, EffectiveTargetPath(e), e.findingClass))
  }

  function NaturalKeyOf(serverId: int, key: ScanKey): NaturalKey {
    NaturalKey(serverId, Vulnerability, key.identifierKey, key.packageName)
  }

  function RowOf(serverId: int, e: Entry): Row {
    Row(NaturalKeyOf(serverId, StoredKey(e)), e.vuln.columns.(findingClass := e.findingClass))
  }

  function RowsOf(serverId: int, entries: seq<Entry>): (rows: seq<Row>)
    ensures |rows| == |entries|
    ensures forall i :: 0 <= i < |rows| ==> rows[i] == RowOf(serverId, entries[i])
  {
    seq(|entries|, i requires 0 <= i < |entries| => RowOf(serverId, entries[i]))
  }

  /** The valid entries among the first `n` items of a result. */
  function EntriesOf(result: TrivyResult, n: nat): seq<Entry>
    requires n <= |result.vulnerabilities|
  {
    if n == 0 then []
    else
      var before := EntriesOf(result, n - 1);
      match result.vulnerabilities[n - 1]
      case None => before
      case Some(vuln) => before + [Entry(NormalizedClass(result.klass), result.target, vuln)]
  }

  /** The valid entries of a report, in order. */
  function Entries(results: seq<TrivyResult>): seq<Entry> {
    if results == [] then []
    else
      var last := results[|results| - 1];
      Entries(results[..|results| - 1]) + EntriesOf(last, |last.vulnerabilities|)
  }

  function CurrentKeys(entries: seq<Entry>): set<ScanKey> {
    set e | e in entries :: DedupKey(e)
  }

  /** The entries that survive deduplication: the first one with each key. */
  function Accepted(entries: seq<Entry>): seq<Entry> {
    if entries == [] then []
    else
      var before, last := entries[..|entries| - 1], entries[|entries| - 1];
      if DedupKey(last) in CurrentKeys(before) then Accepted(before) else Accepted(before) + [last]
  }

  function CountClass(entries: seq<Entry>, findingClass: FindingClass): nat {
    if entries == [] then 0
    else
      CountClass(entries[..|entries| - 1], findingClass)
      + if entries[|entries| - 1].findingClass == findingClass then 1 else 0
  }

  datatype ClassCounter = ClassCounter(osPkgs: nat, langPkgs: nat, other: nat)
  {
    function Bump(findingClass: FindingClass): ClassCounter {
      match findingClass
      case OsPkgs => this.(osPkgs := osPkgs + 1)
      case LangPkgs => this.(langPkgs := langPkgs + 1)
      case Other => this.(other := other + 1)
    }
  }

  ghost predicate Counts(counter: ClassCounter, entries: seq<Entry>) {
    && counter.osPkgs == CountClass(entries, OsPkgs)
    && counter.langPkgs == CountClass(entries, LangPkgs)
    && counter.other == CountClass(entries, Other)
  }

  /** What the collecting loops have built after the entries `entries`. */
  ghost predicate Collected(serverId: int, entries: seq<Entry>, rows: seq<Row>, keys: set<ScanKey>,
                            counter: ClassCounter) {
    && rows == RowsOf(serverId, Accepted(entries))
    && keys == CurrentKeys(entries)
    && Counts(counter, Accepted(entries))
    && counter.osPkgs + counter.langPkgs + counter.other == |rows|
  }

  lemma CurrentKeysSnoc(entries: seq<Entry>, e: Entry)
    ensures CurrentKeys(entries + [e]) == CurrentKeys(entries) + {DedupKey(e)}
  {}

  lemma CollectDuplicate(serverId: int, entries: seq<Entry>, e: Entry, rows: seq<Row>, keys: set<ScanKey>,
                         counter: ClassCounter)
    requires Collected(serverId, entries, rows, keys, counter)
    requires DedupKey(e) in keys
    ensures Collected(serverId, entries + [e], rows, keys, counter)
  {
    hide DedupKey, CurrentKeys;
    assert (entries + [e])[..|entries|] == entries;
    CurrentKeysSnoc(entries, e);
  }

  lemma CollectNew(serverId: int, entries: seq<Entry>, e: Entry, rows: seq<Row>, keys: set<ScanKey>,
                   counter: ClassCounter)
    requires Collected(serverId, entries, rows, keys, counter)
    requires DedupKey(e) !in keys
    ensures Collected(serverId, entries + [e], rows + [RowOf(serverId, e)], keys + {DedupKey(e)},
                      counter.Bump(e.findingClass))
  {
    CurrentKeysSnoc(entries, e);
    AcceptedSnoc(entries, e);
    CountsSnoc(counter, Accepted(entries), e);
    hide DedupKey, CurrentKeys, Accepted, RowOf, Counts;
    assert RowsOf(serverId, Accepted(entries) + [e]) == RowsOf(serverId, Accepted(entries)) + [RowOf(serverId, e)];
  }

  lemma AcceptedSnoc(entries: seq<Entry>, e: Entry)
    requires DedupKey(e) !in CurrentKeys(entries)
    ensures Accepted(entries + [e]) == Accepted(entries) + [e]
  {
    hide DedupKey, CurrentKeys;
    assert (entries + [e])[..|entries|] == entries;
  }

  lemma CountsSnoc(counter: ClassCounter, entries: seq<Entry>, e: Entry)
    requires Counts(counter, entries)
    ensures Counts(counter.Bump(e.findingClass), entries + [e])
    ensures
      var bumped := counter.Bump(e.findingClass);
      bumped.osPkgs + bumped.langPkgs + bumped.other == counter.osPkgs + counter.langPkgs + counter.other + 1
  {
    assert (entries + [e])[..|entries|] == entries;
  }

  /** The two collecting loops. */
  method CollectRows(serverId: int, results: seq<TrivyResult>)
    returns (rows: seq<Row>, currentKeys: set<ScanKey>, classCounter: ClassCounter)
    ensures Collected(serverId, Entries(results), rows, currentKeys, classCounter)
  {
    rows, currentKeys, classCounter := [], {}, ClassCounter(0, 0, 0);
    ghost var entries: seq<Entry> := [];
    for i := 0 to |results|
      invariant entries == Entries(results[..i])
      invariant Collected(serverId, entries, rows, currentKeys, classCounter)
    {
      ghost var before := entries;
      rows, currentKeys, classCounter := CollectResult(serverId, results[i], before, rows, currentKeys, classCounter);
      entries := before + EntriesOf(results[i], |results[i].vulnerabilities|);
      assert results[..i + 1][..i] == results[..i];
    }
    assert results[..|results|] == results;
  }

  /** The inner loop, over the vulnerabilities of one result. */
  method CollectResult(serverId: int, result: TrivyResult, ghost before: seq<Entry>,
                       rows0: seq<Row>, currentKeys0: set<ScanKey>, classCounter0: ClassCounter)
    returns (rows: seq<Row>, currentKeys: set<ScanKey>, classCounter: ClassCounter)
    requires Collected(serverId, before, rows0, currentKeys0, classCounter0)
    ensures Collected(serverId, before + EntriesOf(result, |result.vulnerabilities|), rows, currentKeys, classCounter)
  {
    hide Collected, DedupKey, RowOf;
    rows, currentKeys, classCounter := rows0, currentKeys0, classCounter0;
    ghost var entries := before;
    assert before + [] == before;
    for j := 0 to |result.vulnerabilities|
      invariant entries == before + EntriesOf(result, j)
      invariant Collected(serverId, entries, rows, currentKeys, classCounter)
    {
      match result.vulnerabilities[j] {
        case None =>
        case Some(vuln) =>
          var e := Entry(NormalizedClass(result.klass), result.target, vuln);
          var key := DedupKey(e);
          if key in currentKeys {
            CollectDuplicate(serverId, entries, e, rows, currentKeys, classCounter);
          } else {
            CollectNew(serverId, entries, e, rows, currentKeys, classCounter);
            currentKeys := currentKeys + {key};
            rows := rows + [RowOf(serverId, e)];
            classCounter := classCounter.Bump(e.findingClass);
          }
          entries := entries + [e];
          assert entries == before + EntriesOf(result, j + 1);
      }
    }
  }

  // ------------------------------------------------------------------ the statements

  function ScanKeyOf(f: Finding): ScanKey {
    ScanKey(f.key.identifierKey, f.key.packageName)
  }

  /** The rows that reopen and resolve look at. */
  predicate OfServer(f: Finding, serverId: int) {
    f.key.serverId == serverId && f.key.findingType == Vulnerability
  }

  predicate ToReopen(f: Finding, serverId: int, keys: set<ScanKey>) {
    OfServer(f, serverId) && f.status == Resolved && ScanKeyOf(f) in keys
  }

  predicate ToResolve(f: Finding, serverId: int, keys: set<ScanKey>) {
    OfServer(f, serverId) && f.status in {Open, Acknowledged} && ScanKeyOf(f) !in keys
  }

  function Reopen(findings: FindingsTable, serverId: int, keys: set<ScanKey>): (r: FindingsTable)
    ensures forall n :: Constraints(findings, n) ==> Constraints(r, n)
  {
    map i | i in findings ::
      if ToReopen(findings[i], serverId, keys)
      then findings[i].(status := Open, resolvedAt := None)
      else findings[i]
  }

  function Resolve(findings: FindingsTable, serverId: int, keys: set<ScanKey>, now: Time): (r: FindingsTable)
    ensures forall n :: Constraints(findings, n) ==> Constraints(r, n)
  {
    map i | i in findings ::
      if ToResolve(findings[i], serverId, keys)
      then findings[i].(status := Resolved, resolvedAt := Some(now))
      else findings[i]
  }

  // ------------------------------------------------------------------ the ingest

  datatype ScanIngestResult = ScanIngestResult(
    findingsTotal: nat,
    findingsInserted: nat,
    findingsUpdated: nat,
    findingsResolved: nat,
    findingsReopened: nat,
    classCounter: ClassCounter)

  /** The database error of a statement that would update one row a second time. */
  datatype IngestOutcome = CardinalityViolation | Ingested(result: ScanIngestResult)

  /** What a successful ingest makes of the findings table. */
  function IngestFindings(findings: FindingsTable, nextFindingId: int, serverId: int, entries: seq<Entry>, now: Time)
    : (u: Upserted)
    requires Constraints(findings, nextFindingId)
    ensures Constraints(u.findings, u.nextFindingId)
  {
    var rows := RowsOf(serverId, Accepted(entries));
    if rows == [] then Upserted(findings, nextFindingId)
    else
      var keys := CurrentKeys(entries);
      var u := UpsertAll(Reopen(findings, serverId, keys), nextFindingId, rows, now);
      Upserted(Resolve(u.findings, serverId, keys, now), u.nextFindingId)
  }

  /** What a successful ingest makes of the database. */
  function IngestDb(db: Db, serverId: int, entries: seq<Entry>, now: Time): Db
    requires Constraints(db.findings, db.nextFindingId)
  {
    var u := IngestFindings(db.findings, db.nextFindingId, serverId, entries, now);
    db.(findings := u.findings,
        nextFindingId := u.nextFindingId,
        lastScanAt := db.lastScanAt[serverId := now],
        scans := db.scans + [Scan(serverId, now)])
  }

  /** The rows of the ingest whose RETURNING time is less than a second from `now`. */
  ghost function InsertedCount(findings: FindingsTable, nextFindingId: int, serverId: int, entries: seq<Entry>,
                               now: Time): nat
    requires Constraints(findings, nextFindingId)
  {
    var rows := RowsOf(serverId, Accepted(entries));
    var reopened := Reopen(findings, serverId, CurrentKeys(entries));
    UpsertAllEffect(reopened, nextFindingId, rows, now);
    CountRecent(FirstSeen(UpsertAll(reopened, nextFindingId, rows, now).findings, rows), now)
  }

  /** SELECT the returning findings, then UPDATE them by id. */
  method ReopenPhase(session: Session, serverId: int, currentKeys: set<ScanKey>) returns (reopenedCount: nat)
    requires session.Valid()
    modifies session
    ensures session.Valid()
    ensures session.State() == old(session.State()).(findings := Reopen(old(session.findings), serverId, currentKeys))
    ensures reopenedCount == |Reopened(old(session.findings), session.findings)|
  {
    var idsToReopen := set i | i in session.findings && ToReopen(session.findings[i], serverId, currentKeys);
    ghost var before := session.findings;
    session.findings := Reopen(session.findings, serverId, currentKeys);
    reopenedCount := |idsToReopen|;
    assert idsToReopen == Reopened(before, session.findings);
  }

  /** SELECT the open and acknowledged findings the scan no longer has, then UPDATE them by id. */
  method ResolvePhase(session: Session, serverId: int, currentKeys: set<ScanKey>, now: Time)
    returns (resolvedCount: nat)
    requires session.Valid()
    modifies session
    ensures session.Valid()
    ensures session.State()
         == old(session.State()).(findings := Resolve(old(session.findings), serverId, currentKeys, now))
    ensures resolvedCount
         == |set i | i in old(session.findings) && ToResolve(old(session.findings)[i], serverId, currentKeys)|
  {
    var idsToResolve := set i | i in session.findings && ToResolve(session.findings[i], serverId, currentKeys);
    session.findings := Resolve(session.findings, serverId, currentKeys, now);
    resolvedCount := |idsToResolve|;
  }

  /** `ingest_scan`. On the database error the caller's rollback restores the session. */
  method IngestScan(session: Session, serverId: int, results: seq<TrivyResult>, now: Time)
    returns (outcome: IngestOutcome)
    requires session.Valid()
    modifies session
    ensures session.Valid()
    ensures outcome.Ingested? <==> ChunksDistinct(RowsOf(serverId, Accepted(Entries(results))))
    ensures outcome.CardinalityViolation? ==> session.State() == old(session.State())
    ensures outcome.Ingested? ==> session.State() == IngestDb(old(session.State()), serverId, Entries(results), now)
    ensures outcome.Ingested? ==>
      var r := outcome.result;
      var entries := Entries(results);
      && r.findingsTotal == |Accepted(entries)| == r.findingsInserted + r.findingsUpdated
      && r.findingsInserted == InsertedCount(old(session.findings), old(session.nextFindingId), serverId, entries, now)
      && r.findingsTotal == r.classCounter.osPkgs + r.classCounter.langPkgs + r.classCounter.other
      && Counts(r.classCounter, Accepted(entries))
      && r.findingsReopened == |Reopened(old(session.findings), session.findings)|
      && r.findingsResolved == |ResolvedOld(old(session.findings), session.findings)|
                               + |ResolvedNew(old(session.findings), session.findings)|
  {
    hide Collected, UpsertAll, ChunksDistinct, Constraints, Reopen, Resolve, UpsertEffect, Counts, Accepted;
    hide RowsOf, CurrentKeys, FirstSeen, CountRecent, KeyStored, Reopened, ResolvedOld, ResolvedNew, ToResolve;
    ghost var entries, before := Entries(results), session.findings;
    var rows, currentKeys, classCounter := CollectRows(serverId, results);
    CollectedFacts(serverId, entries, rows, currentKeys, classCounter);
    var savedFindings, savedNextFindingId := session.findings, session.nextFindingId;
    var insertedCount, updatedCount, reopenedCount, resolvedCount := 0, 0, 0, 0;
    if rows != [] {
      reopenedCount := ReopenPhase(session, serverId, currentKeys);
      ghost var reopened := session.findings;
      var ok;
      ok, insertedCount, updatedCount := UpsertInChunks(session, rows, now);
      if !ok {
        session.findings, session.nextFindingId := savedFindings, savedNextFindingId;
        return CardinalityViolation;
      }
      resolvedCount := ResolvePhase(session, serverId, currentKeys, now);
      PhaseCounts(before, savedNextFindingId, serverId, entries, now);
    } else {
      NothingCounted(before);
      NothingInserted(before, savedNextFindingId, serverId, entries, now);
    }
    session.lastScanAt := session.lastScanAt[serverId := now];
    session.scans := session.scans + [Scan(serverId, now)];
    outcome := Ingested(ScanIngestResult(|rows|, insertedCount, updatedCount, resolvedCount, reopenedCount,
                                         classCounter));
  }

  lemma CollectedFacts(serverId: int, entries: seq<Entry>, rows: seq<Row>, keys: set<ScanKey>, counter: ClassCounter)
    requires Collected(serverId, entries, rows, keys, counter)
    ensures rows == RowsOf(serverId, Accepted(entries)) && keys == CurrentKeys(entries)
    ensures Counts(counter, Accepted(entries))
    ensures counter.osPkgs + counter.langPkgs + counter.other == |rows|
    ensures rows == [] <==> entries == []
    ensures rows == [] ==> keys == {} && ChunksDistinct(rows)
  {
    AcceptedNonempty(entries);
  }

  lemma NothingCounted(findings: FindingsTable)
    ensures |Reopened(findings, findings)| + |ResolvedOld(findings, findings)| + |ResolvedNew(findings, findings)| == 0
  {
    assert Reopened(findings, findings) == ResolvedOld(findings, findings) == ResolvedNew(findings, findings) == {};
  }

  lemma NothingInserted(findings: FindingsTable, nextFindingId: int, serverId: int, entries: seq<Entry>, now: Time)
    requires Constraints(findings, nextFindingId) && RowsOf(serverId, Accepted(entries)) == []
    ensures InsertedCount(findings, nextFindingId, serverId, entries, now) == 0
  {
    hide Accepted, Reopen, UpsertAll;
  }

  lemma {:induction false} AcceptedNonempty(entries: seq<Entry>)
    ensures Accepted(entries) == [] <==> entries == []
  {
    if entries != [] {
      AcceptedNonempty(entries[..|entries| - 1]);
    }
  }

  /** The stored rows that leave RESOLVED. */
  function Reopened(before: FindingsTable, after: FindingsTable): set<int> {
    set i | i in after && i in before && before[i].status == Resolved && after[i].status != Resolved
  }

  /** The stored rows that go to RESOLVED. */
  function ResolvedOld(before: FindingsTable, after: FindingsTable): set<int> {
    set i | i in after && i in before && before[i].status != Resolved && after[i].status == Resolved
  }

  /** The rows written by this scan that are RESOLVED at its end. */
  function ResolvedNew(before: FindingsTable, after: FindingsTable): set<int> {
    set i | i in after && i !in before && after[i].status == Resolved
  }

  /** The ids the two phases select are the rows that change status over the whole ingest. */
  lemma PhaseCounts(before: FindingsTable, nextFindingId: int, serverId: int, entries: seq<Entry>, now: Time)
    requires Constraints(before, nextFindingId)
    requires entries != []
    ensures
      var keys := CurrentKeys(entries);
      var reopened := Reopen(before, serverId, keys);
      var upserted := UpsertAll(reopened, nextFindingId, RowsOf(serverId, Accepted(entries)), now).findings;
      var after := IngestFindings(before, nextFindingId, serverId, entries, now).findings;
      && Reopened(before, reopened) == Reopened(before, after)
      && (set i | i in upserted && ToResolve(upserted[i], serverId, keys))
           == ResolvedOld(before, after) + ResolvedNew(before, after)
      && ResolvedOld(before, after) !! ResolvedNew(before, after)
  {
    hide UpsertAll, RowsOf, Accepted, CurrentKeys;
    AcceptedNonempty(entries);
    var keys := CurrentKeys(entries);
    var reopened := Reopen(before, serverId, keys);
    var rows := RowsOf(serverId, Accepted(entries));
    UpsertAllEffect(reopened, nextFindingId, rows, now);
    var u := UpsertAll(reopened, nextFindingId, rows, now);
    var after := IngestFindings(before, nextFindingId, serverId, entries, now).findings;
    assert after == Resolve(u.findings, serverId, keys, now);
    hide IngestFindings, Reopen, Resolve, UpsertEffect, ToResolve, Reopened, ResolvedOld, ResolvedNew;
    forall i
      ensures i in Reopened(before, reopened) <==> i in Reopened(before, after)
      ensures i in u.findings && ToResolve(u.findings[i], serverId, keys) <==>
                i in ResolvedOld(before, after) + ResolvedNew(before, after)
      ensures !(i in ResolvedOld(before, after) && i in ResolvedNew(before, after))
    {
      PhasesOnRow(before, nextFindingId, rows, serverId, keys, now, u, i);
    }
  }

  /** Which phases select a row, against its status before and after. */
  lemma PhasesOnRow(before: FindingsTable, nextFindingId: int, rows: seq<Row>, serverId: int, keys: set<ScanKey>,
                    now: Time, u: Upserted, i: int)
    requires UpsertEffect(Reopen(before, serverId, keys), nextFindingId, rows, now, u)
    ensures
      var reopened := Reopen(before, serverId, keys);
      var after := Resolve(u.findings, serverId, keys, now);
      && (i in Reopened(before, reopened) <==> i in Reopened(before, after))
      && (i in u.findings && ToResolve(u.findings[i], serverId, keys) <==>
           i in ResolvedOld(before, after) + ResolvedNew(before, after))
      && !(i in ResolvedOld(before, after) && i in ResolvedNew(before, after))
  {
    var reopened := Reopen(before, serverId, keys);
    if i in before {
      assert i in reopened && SameLifecycle(u.findings[i], reopened[i]);
    } else if i in u.findings {
      assert IsFresh(u.findings[i], now);
    }
  }
}
