/** What the counter `findings_inserted` of an ingest means. */
module InsertCounter {
  import opened Models
  import opened FindingsUpsert
  import opened FindingsIngest

  /** How many of the rows insert: the first row of each key that the table does not hold yet. */
  ghost function CountNew(findings: FindingsTable, rows: seq<Row>): nat {
    if rows == [] then 0
    else
      var before, last := rows[..|rows| - 1], rows[|rows| - 1];
      CountNew(findings, before) + if KeyStored(findings, last.key) || KeyIn(before, last.key) then 0 else 1
  }

  /** An upsert grows the table by the number of its new keys. */
  lemma {:induction false} UpsertGrowth(findings: FindingsTable, nextFindingId: int, rows: seq<Row>, now: Time)
    requires Constraints(findings, nextFindingId)
    ensures |UpsertAll(findings, nextFindingId, rows, now).findings| == |findings| + CountNew(findings, rows)
  {
    if rows != [] {
      var before, last := rows[..|rows| - 1], rows[|rows| - 1];
      UpsertGrowth(findings, nextFindingId, before, now);
      KeysAfterUpsert(findings, nextFindingId, before, now, last.key);
    }
  }

  lemma KeysAfterUpsert(findings: FindingsTable, nextFindingId: int, rows: seq<Row>, now: Time, key: NaturalKey)
    requires Constraints(findings, nextFindingId)
    ensures KeyStored(UpsertAll(findings, nextFindingId, rows, now).findings, key)
       <==> KeyStored(findings, key) || KeyIn(rows, key)
  {
    UpsertAllEffect(findings, nextFindingId, rows, now);
    var u := UpsertAll(findings, nextFindingId, rows, now);
    hide UpsertAll;
    StoredKeysPersist(findings, u.findings, key, now);
  }

  /** Row `n` updates a finding that was first seen less than a second ago: by this ingest or shortly before. */
  ghost predicate MiscountsRow(findings: FindingsTable, rows: seq<Row>, n: int, now: Time)
    requires UniqueKeys(findings) && 0 <= n < |rows|
  {
    if KeyStored(findings, rows[n].key) then -1_000_000 < FirstSeenOf(findings, rows[n].key) - now < 1_000_000
    else KeyIn(rows[..n], rows[n].key)
  }

  lemma {:induction false} CountRecentNew(findings: FindingsTable, after: FindingsTable, rows: seq<Row>, now: Time)
    requires UniqueKeys(findings) && UniqueKeys(after)
    requires forall r :: r in rows ==> KeyStored(after, r.key)
    requires forall r :: r in rows ==>
      FirstSeenOf(after, r.key) == if KeyStored(findings, r.key) then FirstSeenOf(findings, r.key) else now
    ensures CountRecent(FirstSeen(after, rows), now) >= CountNew(findings, rows)
    ensures CountRecent(FirstSeen(after, rows), now) == CountNew(findings, rows)
       <==> forall n :: 0 <= n < |rows| ==> !MiscountsRow(findings, rows, n, now)
  {
    hide FirstSeenOf, KeyStored, KeyIn, UniqueKeys;
    if rows != [] {
      var before, last := rows[..|rows| - 1], rows[|rows| - 1];
      CountRecentNew(findings, after, before, now);
      assert FirstSeen(after, rows)[..|before|] == FirstSeen(after, before);
      assert FirstSeen(after, rows)[|before|] == FirstSeenOf(after, last.key);
      assert last in rows;
      forall n | 0 <= n < |before|
        ensures MiscountsRow(findings, rows, n, now) <==> MiscountsRow(findings, before, n, now)
      {
        assert rows[..n] == before[..n];
      }
      var n := |before|;
      assert MiscountsRow(findings, rows, n, now) <==>
        (if KeyStored(findings, last.key) then Recent(FirstSeenOf(findings, last.key), now)
          else KeyIn(before, last.key));
      assert (forall m :: 0 <= m < |rows| ==> !MiscountsRow(findings, rows, m, now)) <==>
        ((forall m :: 0 <= m < |before| ==> !MiscountsRow(findings, before, m, now)) &&
          !MiscountsRow(findings, rows, n, now));
    }
  }

  lemma FirstSeenAfterUpsert(findings: FindingsTable, nextFindingId: int, rows: seq<Row>, now: Time, r: Row)
    requires Constraints(findings, nextFindingId) && r in rows
    ensures
      var after := UpsertAll(findings, nextFindingId, rows, now).findings;
      && KeyStored(after, r.key)
      && FirstSeenOf(after, r.key) == if KeyStored(findings, r.key) then FirstSeenOf(findings, r.key) else now
  {
    UpsertAllEffect(findings, nextFindingId, rows, now);
    var after := UpsertAll(findings, nextFindingId, rows, now).findings;
    hide UpsertAll;
    var i := IdWithKey(after, r.key).value;
    if KeyStored(findings, r.key) {
      var j := IdWithKey(findings, r.key).value;
      assert SameLifecycle(after[j], findings[j]);
    } else {
      assert i !in findings && IsFresh(after[i], now);
    }
  }

  lemma ReopenKeepsFirstSeen(findings: FindingsTable, serverId: int, keys: set<ScanKey>, key: NaturalKey)
    requires UniqueKeys(findings) && UniqueKeys(Reopen(findings, serverId, keys))
    ensures KeyStored(Reopen(findings, serverId, keys), key) <==> KeyStored(findings, key)
    ensures KeyStored(findings, key) ==>
              FirstSeenOf(Reopen(findings, serverId, keys), key) == FirstSeenOf(findings, key)
  {
    var reopened := Reopen(findings, serverId, keys);
    assert forall i :: i in findings ==>
             reopened[i].key == findings[i].key && reopened[i].firstSeenAt == findings[i].firstSeenAt;
    if KeyStored(findings, key) {
      var i :| i in findings && findings[i].key == key;
      assert reopened[i].key == key;
    }
  }

  /**
   * `findings_inserted` is judged by the clock. It never falls short of the rows that the ingest
   * adds, and it is their number if and only if no row updates a finding that was first seen less
   * than a second ago: neither one that was stored, nor one that an earlier chunk has inserted.
   */
  lemma InsertedCountExactIff(findings: FindingsTable, nextFindingId: int, serverId: int, entries: seq<Entry>,
                              now: Time)
    requires Constraints(findings, nextFindingId)
    ensures
      var after := IngestFindings(findings, nextFindingId, serverId, entries, now).findings;
      var inserted := InsertedCount(findings, nextFindingId, serverId, entries, now);
      var rows := RowsOf(serverId, Accepted(entries));
      && inserted >= |after| - |findings|
      && (inserted == |after| - |findings| <==> forall n :: 0 <= n < |rows| ==> !MiscountsRow(findings, rows, n, now))
  {
    hide MiscountsRow;
    var keys, rows := CurrentKeys(entries), RowsOf(serverId, Accepted(entries));
    var reopened := Reopen(findings, serverId, keys);
    var upserted := UpsertAll(reopened, nextFindingId, rows, now).findings;
    UpsertAllEffect(reopened, nextFindingId, rows, now);
    UpsertGrowth(reopened, nextFindingId, rows, now);
    forall r | r in rows
      ensures FirstSeenOf(upserted, r.key) == if KeyStored(reopened, r.key) then FirstSeenOf(reopened, r.key) else now
    {
      FirstSeenAfterUpsert(reopened, nextFindingId, rows, now, r);
    }
    CountRecentNew(reopened, upserted, rows, now);
    SizesOfIngest(findings, nextFindingId, serverId, entries, now);
    ReopenKeepsMiscounts(findings, serverId, keys, rows, now);
  }

  lemma ReopenKeepsMiscounts(findings: FindingsTable, serverId: int, keys: set<ScanKey>, rows: seq<Row>, now: Time)
    requires UniqueKeys(findings) && UniqueKeys(Reopen(findings, serverId, keys))
    ensures forall n :: 0 <= n < |rows| ==>
              (MiscountsRow(Reopen(findings, serverId, keys), rows, n, now) <==> MiscountsRow(findings, rows, n, now))
  {
    hide UniqueKeys, Reopen, KeyStored, FirstSeenOf;
    forall n | 0 <= n < |rows|
      ensures MiscountsRow(Reopen(findings, serverId, keys), rows, n, now) <==> MiscountsRow(findings, rows, n, now)
    {
      ReopenKeepsFirstSeen(findings, serverId, keys, rows[n].key);
    }
  }

  /** Reopening and resolving add and remove no rows. */
  lemma SizesOfIngest(findings: FindingsTable, nextFindingId: int, serverId: int, entries: seq<Entry>, now: Time)
    requires Constraints(findings, nextFindingId)
    ensures
      var reopened := Reopen(findings, serverId, CurrentKeys(entries));
      var upserted := UpsertAll(reopened, nextFindingId, RowsOf(serverId, Accepted(entries)), now).findings;
      && |reopened| == |findings|
      && |IngestFindings(findings, nextFindingId, serverId, entries, now).findings| == |upserted|
  {
    hide ToReopen, ToResolve;
    var keys, rows := CurrentKeys(entries), RowsOf(serverId, Accepted(entries));
    var reopened := Reopen(findings, serverId, keys);
    var upserted := UpsertAll(reopened, nextFindingId, rows, now).findings;
    SameKeysSameSize(reopened, findings);
    SameKeysSameSize(Resolve(upserted, serverId, keys, now), upserted);
  }

  lemma SameKeysSameSize(a: FindingsTable, b: FindingsTable)
    requires a.Keys == b.Keys
    ensures |a| == |b|
  {
    assert |a| == |a.Keys| && |b| == |b.Keys|;
  }
}
