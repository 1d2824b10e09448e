/** What an ingest guarantees about the findings table, with and without agreement of the two keys. */
module FindingsIngestLaws {
  import opened Models
  import opened Text
  import opened FindingsUpsert
  import opened FindingsIngest

  // ------------------------------------------------------------------ deduplication

  /** Deduplication keeps exactly the entries that no earlier entry shares its key with. */
  ghost predicate FirstWithKey(entries: seq<Entry>, e: Entry) {
    exists n :: 0 <= n < |entries| && entries[n] == e && DedupKey(e) !in CurrentKeys(entries[..n])
  }

  lemma {:induction false} AcceptedIsFirst(entries: seq<Entry>, e: Entry)
    ensures e in Accepted(entries) <==> FirstWithKey(entries, e)
  {
    if entries != [] {
      var before, last := entries[..|entries| - 1], entries[|entries| - 1];
      AcceptedIsFirst(before, e);
      if FirstWithKey(before, e) {
        var n :| 0 <= n < |before| && before[n] == e && DedupKey(e) !in CurrentKeys(before[..n]);
        assert entries[..n] == before[..n] && entries[n] == e;
      }
      if FirstWithKey(entries, e) {
        var n :| 0 <= n < |entries| && entries[n] == e && DedupKey(e) !in CurrentKeys(entries[..n]);
        if n < |before| {
          assert entries[..n] == before[..n] && before[n] == e;
        } else {
          assert entries[..n] == before;
        }
      }
      if e == last && DedupKey(e) !in CurrentKeys(before) {
        assert entries[..|before|] == before && entries[|before|] == e;
      }
    }
  }

  predicate DistinctDedupKeys(entries: seq<Entry>) {
    forall i, j :: 0 <= i < j < |entries| ==> DedupKey(entries[i]) != DedupKey(entries[j])
  }

  lemma DistinctSnoc(entries: seq<Entry>, e: Entry)
    requires DistinctDedupKeys(entries) && DedupKey(e) !in CurrentKeys(entries)
    ensures DistinctDedupKeys(entries + [e])
  {
    hide DedupKey;
    forall i | 0 <= i < |entries|
      ensures DedupKey(entries[i]) != DedupKey(e)
    {
      assert entries[i] in entries;
    }
  }

  /** The accepted entries have pairwise different keys, and together all the keys of the scan. */
  lemma {:induction false} AcceptedKeys(entries: seq<Entry>)
    ensures CurrentKeys(Accepted(entries)) == CurrentKeys(entries)
    ensures DistinctDedupKeys(Accepted(entries))
    ensures forall e :: e in Accepted(entries) ==> e in entries
  {
    if entries != [] {
      hide DedupKey, DistinctDedupKeys;
      var before, last := entries[..|entries| - 1], entries[|entries| - 1];
      AcceptedKeys(before);
      assert entries == before + [last];
      CurrentKeysSnoc(before, last);
      CurrentKeysSnoc(Accepted(before), last);
      if DedupKey(last) !in CurrentKeys(before) {
        DistinctSnoc(Accepted(before), last);
      }
    } else {
      assert DistinctDedupKeys([]);
    }
  }

  // ------------------------------------------------------------------ the unconditional law

  /** The lifecycle columns a stored row has after an ingest that finds or misses its key. */
  ghost predicate Transition(before: Finding, after: Finding, serverId: int, keys: set<ScanKey>, now: Time) {
    if !OfServer(before, serverId) then after == before
    else if ScanKeyOf(before) in keys then
      if before.status == Resolved
      then SameLifecycle(after, before.(status := Open, resolvedAt := None))
      else SameLifecycle(after, before)
    else
      if before.status == Resolved
      then SameLifecycle(after, before)
      else SameLifecycle(after, before.(status := Resolved, resolvedAt := Some(now)))
  }

  /** A row the ingest inserts: open if the scan has its key, otherwise resolved at once. */
  ghost predicate Insertion(after: Finding, serverId: int, keys: set<ScanKey>, now: Time) {
    && OfServer(after, serverId)
    && (if ScanKeyOf(after) in keys
        then IsFresh(after, now)
        else
          && IsFresh(after.(status := Open, resolvedAt := None), now)
          && after.status == Resolved && after.resolvedAt == Some(now))
  }

  /**
   * The law of a non-empty scan, whatever keys its entries have: every stored row makes the
   * transition its key asks for, every new row carries the stored key of an accepted entry.
   */
  lemma IngestLaw(findings: FindingsTable, nextFindingId: int, serverId: int, entries: seq<Entry>, now: Time)
    requires Constraints(findings, nextFindingId)
    requires entries != []
    ensures
      var after := IngestFindings(findings, nextFindingId, serverId, entries, now).findings;
      var rows := RowsOf(serverId, Accepted(entries));
      && (forall i :: i in findings ==>
           i in after && Transition(findings[i], after[i], serverId, CurrentKeys(entries), now))
      && (forall i :: i in after && i !in findings ==>
            && nextFindingId <= i
            && Insertion(after[i], serverId, CurrentKeys(entries), now)
            && KeyIn(rows, after[i].key)
            && !KeyStored(findings, after[i].key))
      && (forall r :: r in rows ==> KeyStored(after, r.key))
  {
    hide UpsertAll, RowsOf, Accepted, CurrentKeys;
    AcceptedNonempty(entries);
    var keys := CurrentKeys(entries);
    var rows := RowsOf(serverId, Accepted(entries));
    var reopened := Reopen(findings, serverId, keys);
    UpsertAllEffect(reopened, nextFindingId, rows, now);
    var u := UpsertAll(reopened, nextFindingId, rows, now);
    var after := IngestFindings(findings, nextFindingId, serverId, entries, now).findings;
    assert after == Resolve(u.findings, serverId, keys, now);
    RowsAreOfServer(serverId, Accepted(entries));
    hide IngestFindings, Transition, Insertion, Reopen, Resolve, UpsertEffect;
    forall i | i in findings
      ensures i in after && Transition(findings[i], after[i], serverId, keys, now)
    {
      StoredRowAfter(findings, nextFindingId, rows, serverId, keys, now, u, i);
    }
    forall i | i in after && i !in findings
      ensures nextFindingId <= i && Insertion(after[i], serverId, keys, now)
      ensures KeyIn(rows, after[i].key) && !KeyStored(findings, after[i].key)
    {
      NewRowAfter(findings, nextFindingId, rows, serverId, keys, now, u, i);
    }
    forall r | r in rows
      ensures KeyStored(after, r.key)
    {
      RowIsStoredAfter(findings, nextFindingId, rows, serverId, keys, now, u, r);
    }
  }

  lemma RowsAreOfServer(serverId: int, entries: seq<Entry>)
    ensures forall r :: r in RowsOf(serverId, entries) ==>
              r.key.serverId == serverId && r.key.findingType == Vulnerability
  {}

  /** The three phases on a stored row. */
  lemma StoredRowAfter(findings: FindingsTable, nextFindingId: int, rows: seq<Row>, serverId: int, keys: set<ScanKey>,
                       now: Time, u: Upserted, i: int)
    requires UpsertEffect(Reopen(findings, serverId, keys), nextFindingId, rows, now, u)
    requires forall r :: r in rows ==> r.key.serverId == serverId && r.key.findingType == Vulnerability
    requires i in findings
    ensures i in Resolve(u.findings, serverId, keys, now)
    ensures Transition(findings[i], Resolve(u.findings, serverId, keys, now)[i], serverId, keys, now)
  {
    var reopened := Reopen(findings, serverId, keys);
    assert i in reopened && SameLifecycle(u.findings[i], reopened[i]);
    StoredRowTransition(findings, reopened, u.findings, Resolve(u.findings, serverId, keys, now), serverId, keys, now,
                        rows, i);
  }

  /** The last two phases on a row that the upsert inserts. */
  lemma NewRowAfter(findings: FindingsTable, nextFindingId: int, rows: seq<Row>, serverId: int, keys: set<ScanKey>,
                    now: Time, u: Upserted, i: int)
    requires UpsertEffect(Reopen(findings, serverId, keys), nextFindingId, rows, now, u)
    requires forall r :: r in rows ==> r.key.serverId == serverId && r.key.findingType == Vulnerability
    requires i in Resolve(u.findings, serverId, keys, now) && i !in findings
    ensures
      var after := Resolve(u.findings, serverId, keys, now)[i];
      nextFindingId <= i && Insertion(after, serverId, keys, now) && KeyIn(rows, after.key) &&
        !KeyStored(findings, after.key)
  {
    var reopened := Reopen(findings, serverId, keys);
    assert i !in reopened && IsFresh(u.findings[i], now) && KeyIn(rows, u.findings[i].key);
    ReopenKeepsKeys(findings, serverId, keys, u.findings[i].key);
  }

  lemma ReopenKeepsKeys(findings: FindingsTable, serverId: int, keys: set<ScanKey>, key: NaturalKey)
    ensures KeyStored(findings, key) ==> KeyStored(Reopen(findings, serverId, keys), key)
  {
    if i :| i in findings && findings[i].key == key {
      assert i in Reopen(findings, serverId, keys) && Reopen(findings, serverId, keys)[i].key == key;
    }
  }

  lemma RowIsStoredAfter(findings: FindingsTable, nextFindingId: int, rows: seq<Row>, serverId: int, keys: set<ScanKey>,
                         now: Time, u: Upserted, r: Row)
    requires UpsertEffect(Reopen(findings, serverId, keys), nextFindingId, rows, now, u) && r in rows
    ensures KeyStored(Resolve(u.findings, serverId, keys, now), r.key)
  {
    var i :| i in u.findings && u.findings[i].key == r.key;
    assert Resolve(u.findings, serverId, keys, now)[i].key == r.key;
  }

  lemma StoredRowTransition(findings: FindingsTable, reopened: FindingsTable, upserted: FindingsTable,
                            after: FindingsTable, serverId: int, keys: set<ScanKey>, now: Time, rows: seq<Row>,
                            i: int)
    requires i in findings && i in upserted
    requires reopened == Reopen(findings, serverId, keys)
    requires SameLifecycle(upserted[i], reopened[i])
    requires !KeyIn(rows, reopened[i].key) ==> upserted[i] == reopened[i]
    requires after == Resolve(upserted, serverId, keys, now)
    requires forall r :: r in rows ==> r.key.serverId == serverId && r.key.findingType == Vulnerability
    ensures Transition(findings[i], after[i], serverId, keys, now)
  {}

  /** After a non-empty scan, a vulnerability of the server is RESOLVED exactly when the scan lacks its key. */
  lemma ResolvedIffNotScanned(findings: FindingsTable, nextFindingId: int, serverId: int, entries: seq<Entry>,
                              now: Time)
    requires Constraints(findings, nextFindingId)
    requires entries != []
    ensures
      var after := IngestFindings(findings, nextFindingId, serverId, entries, now).findings;
      forall i :: i in after && OfServer(after[i], serverId) ==>
        (after[i].status == Resolved <==> ScanKeyOf(after[i]) !in CurrentKeys(entries))
  {
    IngestLaw(findings, nextFindingId, serverId, entries, now);
    var after := IngestFindings(findings, nextFindingId, serverId, entries, now).findings;
    var keys := CurrentKeys(entries);
    hide IngestFindings, Transition, Insertion, OfServer, RowsOf, Accepted, CurrentKeys;
    forall i | i in after && OfServer(after[i], serverId)
      ensures after[i].status == Resolved <==> ScanKeyOf(after[i]) !in keys
    {
      var before := if i in findings then findings[i] else after[i];
      ResolvedIffMissing(before, after[i], serverId, keys, now);
    }
  }

  lemma ResolvedIffMissing(before: Finding, after: Finding, serverId: int, keys: set<ScanKey>, now: Time)
    requires Transition(before, after, serverId, keys, now) || Insertion(after, serverId, keys, now)
    requires OfServer(after, serverId)
    ensures after.status == Resolved <==> ScanKeyOf(after) !in keys
  {}

  /** An empty scan leaves every finding as it is. */
  lemma EmptyScanChangesNothing(findings: FindingsTable, nextFindingId: int, serverId: int, now: Time)
    requires Constraints(findings, nextFindingId)
    ensures IngestFindings(findings, nextFindingId, serverId, [], now) == Upserted(findings, nextFindingId)
  {
    AcceptedNonempty([]);
  }

  // ------------------------------------------------------------------ ingesting twice

  lemma SecondTransition(first: Finding, second: Finding, serverId: int, keys: set<ScanKey>, now: Time, later: Time)
    requires (exists f :: Transition(f, first, serverId, keys, now)) || Insertion(first, serverId, keys, now)
    requires Transition(first, second, serverId, keys, later)
    ensures SameLifecycle(second, first)
  {}

  /** The same report again, at any later time, changes no status and no resolution time. */
  lemma IngestTwice(findings: FindingsTable, nextFindingId: int, serverId: int, entries: seq<Entry>, now: Time,
                    later: Time)
    requires Constraints(findings, nextFindingId)
    ensures
      var first := IngestFindings(findings, nextFindingId, serverId, entries, now);
      var second := IngestFindings(first.findings, first.nextFindingId, serverId, entries, later);
      && second.findings.Keys == first.findings.Keys
      && forall i :: i in first.findings ==> SameLifecycle(second.findings[i], first.findings[i])
  {
    AcceptedNonempty(entries);
    var first := IngestFindings(findings, nextFindingId, serverId, entries, now);
    var second := IngestFindings(first.findings, first.nextFindingId, serverId, entries, later);
    if entries != [] {
      hide IngestFindings, Transition, Insertion, SameLifecycle, RowsOf, Accepted, KeyStored, Constraints;
      IngestLaw(findings, nextFindingId, serverId, entries, now);
      IngestLaw(first.findings, first.nextFindingId, serverId, entries, later);
      NoNewRow(first.findings, second.findings, RowsOf(serverId, Accepted(entries)));
      forall i | i in first.findings
        ensures SameLifecycle(second.findings[i], first.findings[i])
      {
        if i in findings {
          assert Transition(findings[i], first.findings[i], serverId, CurrentKeys(entries), now);
        }
        SecondTransition(first.findings[i], second.findings[i], serverId, CurrentKeys(entries), now, later);
      }
    }
  }

  lemma NoNewRow(before: FindingsTable, after: FindingsTable, rows: seq<Row>)
    requires forall i :: i in before ==> i in after
    requires forall i :: i in after && i !in before ==> KeyIn(rows, after[i].key) && !KeyStored(before, after[i].key)
    requires forall r :: r in rows ==> KeyStored(before, r.key)
    ensures after.Keys == before.Keys
  {
    forall key | KeyIn(rows, key)
      ensures KeyStored(before, key)
    {
      var r :| r in rows && r.key == key;
    }
    assert forall i :: i in after.Keys ==> i in before;
    assert forall i :: i in before.Keys ==> i in after;
  }

  // ------------------------------------------------------------------ the two keys

  /** A condition on the report alone: the entry's path does not separate its two keys. */
  predicate PathsAgree(e: Entry) {
    || e.findingClass != LangPkgs
    || e.vuln.pkgPath.None?
    || Strip(e.vuln.pkgPath.value) == ""
    || (&& e.target.Some?
        && Strip(e.target.value) != ""
        && Truncated(e.target.value, TARGET_MAX_LEN) == Truncated(Strip(e.vuln.pkgPath.value), TARGET_MAX_LEN))
  }

  lemma KeysAgreeIff(e: Entry)
    ensures DedupKey(e) == StoredKey(e) <==> PathsAgree(e)
  {
    hide Strip;
    var name := e.vuln.pkgName;
    if !PathsAgree(e) {
      var path := Strip(e.vuln.pkgPath.value);
      assert StoredKey(e).packageName == name + "@" + Truncated(path, TARGET_MAX_LEN);
      if e.target.Some? && Strip(e.target.value) != "" {
        var target := Truncated(e.target.value, TARGET_MAX_LEN);
        assert (name + "@" + target)[|name| + 1..] == target;
        assert (name + "@" + Truncated(path, TARGET_MAX_LEN))[|name| + 1..] == Truncated(path, TARGET_MAX_LEN);
      } else {
        assert |StoredKey(e).packageName| > |DedupKey(e).packageName|;
      }
    }
  }

  /** With agreement the rows have distinct natural keys, so no upsert statement can fail. */
  lemma AgreementDistinctRows(serverId: int, entries: seq<Entry>)
    requires forall e :: e in Accepted(entries) ==> DedupKey(e) == StoredKey(e)
    ensures DistinctKeys(RowsOf(serverId, Accepted(entries)))
    ensures ChunksDistinct(RowsOf(serverId, Accepted(entries)))
  {
    AcceptedKeys(entries);
    hide DedupKey, StoredKey;
    var accepted := Accepted(entries);
    var rows := RowsOf(serverId, accepted);
    forall i, j | 0 <= i < j < |rows|
      ensures rows[i].key != rows[j].key
    {
      assert accepted[i] in accepted && accepted[j] in accepted;
      assert DedupKey(accepted[i]) != DedupKey(accepted[j]);
    }
    DistinctChunks(rows);
  }

  lemma {:induction false} DistinctChunks(rows: seq<Row>)
    requires DistinctKeys(rows)
    ensures ChunksDistinct(rows)
    decreases |rows|
  {
    if rows != [] {
      var n := if |rows| <= FINDINGS_INSERT_CHUNK_SIZE then |rows| else FINDINGS_INSERT_CHUNK_SIZE;
      DistinctChunks(rows[n..]);
    }
  }

  function LiveKeys(findings: FindingsTable, serverId: int): set<ScanKey> {
    set i | i in findings && OfServer(findings[i], serverId) && findings[i].status != Resolved :: ScanKeyOf(findings[i])
  }

  function StoredKeys(findings: FindingsTable, serverId: int): set<ScanKey> {
    set i | i in findings && OfServer(findings[i], serverId) :: ScanKeyOf(findings[i])
  }

  function ScannedRows(entries: seq<Entry>): set<ScanKey> {
    set e | e in Accepted(entries) :: StoredKey(e)
  }

  lemma RowKeysAreScannedRows(serverId: int, entries: seq<Entry>, key: NaturalKey)
    ensures KeyIn(RowsOf(serverId, Accepted(entries)), key)
       <==> exists k :: k in ScannedRows(entries) && key == NaturalKeyOf(serverId, k)
  {
    var accepted := Accepted(entries);
    var rows := RowsOf(serverId, accepted);
    if KeyIn(rows, key) {
      var r :| r in rows && r.key == key;
      var n :| 0 <= n < |rows| && rows[n] == r;
      assert accepted[n] in accepted;
      assert StoredKey(accepted[n]) in ScannedRows(entries);
    }
    if k :| k in ScannedRows(entries) && key == NaturalKeyOf(serverId, k) {
      var e :| e in accepted && StoredKey(e) == k;
      var n :| 0 <= n < |accepted| && accepted[n] == e;
      assert rows[n] in rows;
    }
  }

  /** A non-empty scan adds the stored keys of its accepted entries, and only those. */
  lemma StoredKeysAfterIngest(findings: FindingsTable, nextFindingId: int, serverId: int, entries: seq<Entry>,
                              now: Time)
    requires Constraints(findings, nextFindingId)
    requires entries != []
    ensures
      var after := IngestFindings(findings, nextFindingId, serverId, entries, now).findings;
      StoredKeys(after, serverId) == StoredKeys(findings, serverId) + ScannedRows(entries)
  {
    IngestLaw(findings, nextFindingId, serverId, entries, now);
    var after := IngestFindings(findings, nextFindingId, serverId, entries, now).findings;
    hide IngestFindings, Constraints, Accepted, RowsOf, SameLifecycle, IsFresh, ScannedRows, StoredKey;
    var rows := RowsOf(serverId, Accepted(entries));
    assert forall i :: i in findings ==> i in after && after[i].key == findings[i].key by {
      forall i | i in findings
        ensures i in after && after[i].key == findings[i].key
      {
        TransitionKeepsKey(findings[i], after[i], serverId, CurrentKeys(entries), now);
      }
    }
    forall k | k in StoredKeys(after, serverId)
      ensures k in StoredKeys(findings, serverId) + ScannedRows(entries)
    {
      var i :| i in after && OfServer(after[i], serverId) && ScanKeyOf(after[i]) == k;
      if i in findings {
        assert OfServer(findings[i], serverId) && ScanKeyOf(findings[i]) == k;
      } else {
        RowKeysAreScannedRows(serverId, entries, after[i].key);
      }
    }
    forall k | k in StoredKeys(findings, serverId)
      ensures k in StoredKeys(after, serverId)
    {
      var i :| i in findings && OfServer(findings[i], serverId) && ScanKeyOf(findings[i]) == k;
      assert i in after && OfServer(after[i], serverId) && ScanKeyOf(after[i]) == k;
    }
    forall k | k in ScannedRows(entries)
      ensures k in StoredKeys(after, serverId)
    {
      var key := NaturalKeyOf(serverId, k);
      RowKeysAreScannedRows(serverId, entries, key);
      var r :| r in rows && r.key == key;
      var i :| i in after && after[i].key == r.key;
      assert OfServer(after[i], serverId) && ScanKeyOf(after[i]) == k;
    }
  }

  lemma TransitionKeepsKey(before: Finding, after: Finding, serverId: int, keys: set<ScanKey>, now: Time)
    requires Transition(before, after, serverId, keys, now)
    ensures after.key == before.key
  {}

  /** After a non-empty scan the live keys of the server are the scanned keys that have a row at all. */
  lemma LiveKeysAfterIngest(findings: FindingsTable, nextFindingId: int, serverId: int, entries: seq<Entry>, now: Time)
    requires Constraints(findings, nextFindingId)
    requires entries != []
    ensures
      var after := IngestFindings(findings, nextFindingId, serverId, entries, now).findings;
      LiveKeys(after, serverId) == CurrentKeys(entries) * (StoredKeys(findings, serverId) + ScannedRows(entries))
  {
    hide IngestFindings, ScannedRows, CurrentKeys, Constraints;
    StoredKeysAfterIngest(findings, nextFindingId, serverId, entries, now);
    ResolvedIffNotScanned(findings, nextFindingId, serverId, entries, now);
    var after := IngestFindings(findings, nextFindingId, serverId, entries, now).findings;
    assert LiveKeys(after, serverId) == CurrentKeys(entries) * StoredKeys(after, serverId);
  }

  /**
   * The table mirrors the scan exactly when every scanned key has a row, old or just written.
   * Agreement of the two keys is enough.
   */
  lemma TableMirrorsScanIff(findings: FindingsTable, nextFindingId: int, serverId: int, entries: seq<Entry>, now: Time)
    requires Constraints(findings, nextFindingId)
    requires entries != []
    ensures
      var after := IngestFindings(findings, nextFindingId, serverId, entries, now).findings;
      LiveKeys(after, serverId) == CurrentKeys(entries)
      <==> CurrentKeys(entries) <= StoredKeys(findings, serverId) + ScannedRows(entries)
    ensures (forall e :: e in Accepted(entries) ==> DedupKey(e) == StoredKey(e)) ==>
              CurrentKeys(entries) == ScannedRows(entries)
  {
    LiveKeysAfterIngest(findings, nextFindingId, serverId, entries, now);
    if forall e :: e in Accepted(entries) ==> DedupKey(e) == StoredKey(e) {
      AcceptedKeys(entries);
      assert CurrentKeys(Accepted(entries)) == ScannedRows(entries);
    }
  }

  /** The row written for an accepted entry survives the same ingest exactly when its stored key is a scanned key. */
  lemma WrittenRowStaysIff(findings: FindingsTable, nextFindingId: int, serverId: int, entries: seq<Entry>, now: Time,
                           e: Entry)
    requires Constraints(findings, nextFindingId)
    requires e in Accepted(entries)
    ensures
      var after := IngestFindings(findings, nextFindingId, serverId, entries, now).findings;
      && KeyStored(after, NaturalKeyOf(serverId, StoredKey(e)))
      && forall i :: i in after && after[i].key == NaturalKeyOf(serverId, StoredKey(e)) ==>
           (after[i].status != Resolved <==> StoredKey(e) in CurrentKeys(entries))
  {
    AcceptedNonempty(entries);
    IngestLaw(findings, nextFindingId, serverId, entries, now);
    ResolvedIffNotScanned(findings, nextFindingId, serverId, entries, now);
    RowKeysAreScannedRows(serverId, entries, NaturalKeyOf(serverId, StoredKey(e)));
    assert StoredKey(e) in ScannedRows(entries);
    hide IngestFindings, Accepted, Constraints, Transition, Insertion, RowsOf, ScannedRows;
  }

  // ------------------------------------------------------------------ what is written

  /** Some row holds exactly the written columns of `row`. */
  ghost predicate Holds(findings: FindingsTable, row: Row, now: Time) {
    exists i ::
      i in findings && findings[i].key == row.key && findings[i].facts == row.facts && findings[i].lastSeenAt == now
  }

  lemma {:induction false} UpsertWrites(findings: FindingsTable, nextFindingId: int, rows: seq<Row>, now: Time, n: nat)
    requires Constraints(findings, nextFindingId)
    requires DistinctKeys(rows) && n < |rows|
    ensures Holds(UpsertAll(findings, nextFindingId, rows, now).findings, rows[n], now)
  {
    var before, last := rows[..|rows| - 1], rows[|rows| - 1];
    var u := UpsertAll(findings, nextFindingId, before, now);
    var v := UpsertRow(u.findings, u.nextFindingId, last, now);
    if n == |before| {
      var i := match IdWithKey(u.findings, last.key) case Some(i) => i case None => u.nextFindingId;
      assert i in v.findings && v.findings[i].key == last.key;
    } else {
      UpsertWrites(findings, nextFindingId, before, now, n);
      var i :| i in u.findings && u.findings[i].key == before[n].key
            && u.findings[i].facts == before[n].facts && u.findings[i].lastSeenAt == now;
      assert rows[n].key != rows[|before|].key;
      assert i in v.findings && v.findings[i] == u.findings[i];
    }
  }

  /**
   * With agreement, the accepted entries and the live findings of the server correspond one
   * to one: each entry has exactly one row, it is live, and it holds the entry's columns.
   */
  lemma AcceptedEntryHasOneLiveRow(findings: FindingsTable, nextFindingId: int, serverId: int, entries: seq<Entry>,
                                   now: Time, e: Entry)
    requires Constraints(findings, nextFindingId)
    requires forall x :: x in Accepted(entries) ==> DedupKey(x) == StoredKey(x)
    requires e in Accepted(entries)
    ensures
      var after := IngestFindings(findings, nextFindingId, serverId, entries, now).findings;
      var key := NaturalKeyOf(serverId, DedupKey(e));
      && (exists i :: i in after && after[i].key == key && after[i].status != Resolved && after[i].lastSeenAt == now
                   && after[i].facts == e.vuln.columns.(findingClass := e.findingClass))
      && (forall i, j :: i in after && j in after && after[i].key == key && after[j].key == key ==> i == j)
  {
    AcceptedNonempty(entries);
    AcceptedKeys(entries);
    AgreementDistinctRows(serverId, entries);
    WrittenRowStaysIff(findings, nextFindingId, serverId, entries, now, e);
    var keys := CurrentKeys(entries);
    var accepted := Accepted(entries);
    var rows := RowsOf(serverId, accepted);
    var n :| 0 <= n < |accepted| && accepted[n] == e;
    UpsertWrites(Reopen(findings, serverId, keys), nextFindingId, rows, now, n);
    var upserted := UpsertAll(Reopen(findings, serverId, keys), nextFindingId, rows, now).findings;
    var i :| i in upserted && upserted[i].key == rows[n].key
          && upserted[i].facts == rows[n].facts && upserted[i].lastSeenAt == now;
    var after := IngestFindings(findings, nextFindingId, serverId, entries, now).findings;
    assert after == Resolve(upserted, serverId, keys, now);
    assert DedupKey(e) in CurrentKeys(accepted);
    assert i in after && after[i].key == NaturalKeyOf(serverId, DedupKey(e));
  }

  // ------------------------------------------------------------------ disagreement

  /** A Node.js package whose path is known: its row is stored under the path, deduplicated under "Node.js". */
  const NODE_PACKAGE := Vuln("CVE-2024-0001", "vite", Some("app/package.json"),
                             Facts(LangPkgs, High, false, None, None, false, None, ""))
  const NODE_ENTRY := Entry(LangPkgs, Some("Node.js"), NODE_PACKAGE)
  const NODE_REPORT := [TrivyResult("lang-pkgs", Some("Node.js"), [Some(NODE_PACKAGE)])]

  lemma NodeReportEntries()
    ensures Entries(NODE_REPORT) == [NODE_ENTRY]
    ensures Accepted([NODE_ENTRY]) == [NODE_ENTRY]
  {
    assert NODE_REPORT[..0] == [];
    var result := NODE_REPORT[0];
    assert EntriesOf(result, 0) == [];
    assert EntriesOf(result, 1) == [] + [NODE_ENTRY];
    assert Entries([]) == [];
    assert [NODE_ENTRY][..0] == [];
  }

  lemma NodeKeysDiffer()
    ensures DedupKey(NODE_ENTRY) != StoredKey(NODE_ENTRY)
  {
    assert "app/package.json"[0] != "Node.js"[0];
    assert !PathsAgree(NODE_ENTRY);
    KeysAgreeIff(NODE_ENTRY);
  }

  /** Without agreement the row an ingest has just written can end that same ingest RESOLVED. */
  lemma FreshRowResolvedWitness(serverId: int, now: Time)
    ensures
      var after := IngestFindings(map[], 0, serverId, Entries(NODE_REPORT), now).findings;
      && |Accepted(Entries(NODE_REPORT))| == 1
      && (exists i ::
            && i in after && after[i].status == Resolved
            && after[i].firstSeenAt == now && after[i].resolvedAt == Some(now))
      && LiveKeys(after, serverId) == {}
  {
    NodeReportEntries();
    NodeKeysDiffer();
    var e := NODE_ENTRY;
    hide Entries, Accepted, DedupKey, StoredKey, IngestFindings;
    var after := IngestFindings(map[], 0, serverId, [e], now).findings;
    IngestLaw(map[], 0, serverId, [e], now);
    WrittenRowStaysIff(map[], 0, serverId, [e], now, e);
    var i :| i in after && after[i].key == NaturalKeyOf(serverId, StoredKey(e));
    assert CurrentKeys([e]) == {DedupKey(e)};
    assert Insertion(after[i], serverId, CurrentKeys([e]), now);
    LiveKeysAfterIngest(map[], 0, serverId, [e], now);
    assert StoredKeys(map[], serverId) == {};
    assert ScannedRows([e]) == {StoredKey(e)};
  }
}
