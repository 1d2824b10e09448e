/**
 * The upsert of an ingest: INSERT ... ON CONFLICT DO UPDATE on the natural key, in chunks, and
 * the count of inserted rows.
 */
module FindingsUpsert {
  import opened Models

  const FINDINGS_INSERT_CHUNK_SIZE := 1000

  /** The bind values of one row of the INSERT, without its constant columns. */
  datatype Row = Row(key: NaturalKey, facts: Facts)

  /** DO UPDATE SET: status, first_seen_at, acknowledgement, resolved_at and band stay. */
  function Overwritten(f: Finding, row: Row, now: Time): Finding {
    f.(facts := row.facts, lastSeenAt := now)
  }

  function Fresh(row: Row, now: Time): Finding {
    Finding(row.key, row.facts, now, None, Some("engine"), None, None, Open, now, None, None, None)
  }

  datatype Upserted = Upserted(findings: FindingsTable, nextFindingId: int)

  function IdWithKey(findings: FindingsTable, key: NaturalKey): (r: Option<int>)
    requires UniqueKeys(findings)
    ensures r.Some? ==> r.value in findings && findings[r.value].key == key
    ensures r.None? ==> forall i :: i in findings ==> findings[i].key != key
  {
    if exists i :: i in findings && findings[i].key == key
    then var i :| i in findings && findings[i].key == key; Some(i)
    else None
  }

  /** INSERT ... ON CONFLICT DO UPDATE for one row; the id sequence advances either way. */
  function UpsertRow(findings: FindingsTable, nextFindingId: int, row: Row, now: Time): (u: Upserted)
    requires Constraints(findings, nextFindingId)
    ensures Constraints(u.findings, u.nextFindingId)
  {
    match IdWithKey(findings, row.key)
    case Some(i) => Upserted(findings[i := Overwritten(findings[i], row, now)], nextFindingId + 1)
    case None => Upserted(findings[nextFindingId := Fresh(row, now)], nextFindingId + 1)
  }

  function UpsertAll(findings: FindingsTable, nextFindingId: int, rows: seq<Row>, now: Time): (u: Upserted)
    requires Constraints(findings, nextFindingId)
    ensures Constraints(u.findings, u.nextFindingId)
  {
    if rows == [] then Upserted(findings, nextFindingId)
    else
      var u := UpsertAll(findings, nextFindingId, rows[..|rows| - 1], now);
      UpsertRow(u.findings, u.nextFindingId, rows[|rows| - 1], now)
  }

  predicate DistinctKeys(rows: seq<Row>) {
    forall i, j :: 0 <= i < j < |rows| ==> rows[i].key != rows[j].key
  }

  /** No statement of the chunked upsert names one stored row twice. */
  predicate ChunksDistinct(rows: seq<Row>) {
    rows == [] ||
    var n := if |rows| <= FINDINGS_INSERT_CHUNK_SIZE then |rows| else FINDINGS_INSERT_CHUNK_SIZE;
    DistinctKeys(rows[..n]) && ChunksDistinct(rows[n..])
  }

  /** Two rows collide when they have one key and stand in one block of a thousand. */
  lemma {:induction false} ChunksDistinctIff(rows: seq<Row>)
    ensures ChunksDistinct(rows) <==>
              forall i, j :: 0 <= i < j < |rows| && i / 1000 == j / 1000 ==> rows[i].key != rows[j].key
  {
    if |rows| <= 1000 {
      hide ChunksDistinct;
      OneChunk(rows);
    } else {
      ChunksDistinctIff(rows[1000..]);
      assert forall i :: 0 <= i < |rows| - 1000 ==> rows[1000..][i] == rows[i + 1000];
      assert ChunksDistinct(rows) <==> DistinctKeys(rows[..1000]) && ChunksDistinct(rows[1000..]);
      hide ChunksDistinct;
      if forall i, j :: 0 <= i < j < |rows| && i / 1000 == j / 1000 ==> rows[i].key != rows[j].key {
        forall i, j | 0 <= i < j < 1000
          ensures rows[i].key != rows[j].key
        {}
        forall i, j | 0 <= i < j < |rows| - 1000 && i / 1000 == j / 1000
          ensures rows[1000..][i].key != rows[1000..][j].key
        {
          assert (i + 1000) / 1000 == (j + 1000) / 1000;
        }
      }
      if DistinctKeys(rows[..1000]) && ChunksDistinct(rows[1000..]) {
        forall i, j | 0 <= i < j < |rows| && i / 1000 == j / 1000
          ensures rows[i].key != rows[j].key
        {
          if j < 1000 {
            assert rows[..1000][i] == rows[i] && rows[..1000][j] == rows[j];
          } else {
            assert i >= 1000 && (i - 1000) / 1000 == (j - 1000) / 1000;
            assert rows[1000..][i - 1000] == rows[i] && rows[1000..][j - 1000] == rows[j];
          }
        }
      }
    }
  }

  lemma OneChunk(rows: seq<Row>)
    requires |rows| <= 1000
    ensures ChunksDistinct(rows) <==> forall i, j :: 0 <= i < j < |rows| ==> rows[i].key != rows[j].key
  {
    assert rows[..|rows|] == rows && rows[|rows|..] == [];
  }

  /** Same identity and same lifecycle columns: the two rows differ in the overwritten columns at most. */
  predicate SameLifecycle(f: Finding, g: Finding) {
    f == g.(facts := f.facts, lastSeenAt := f.lastSeenAt)
  }

  predicate IsFresh(f: Finding, now: Time) {
    SameLifecycle(f, Fresh(Row(f.key, f.facts), now))
  }

  ghost predicate KeyStored(findings: FindingsTable, key: NaturalKey) {
    exists i :: i in findings && findings[i].key == key
  }

  ghost predicate KeyIn(rows: seq<Row>, key: NaturalKey) {
    exists r :: r in rows && r.key == key
  }

  /**
   * What the upsert does to the table, without its recursion: old rows keep their lifecycle
   * and are unchanged unless `rows` names them, new rows are open and carry a key of `rows`
   * that no old row had, every key of `rows` is stored.
   */
  ghost predicate UpsertEffect(findings: FindingsTable, nextFindingId: int, rows: seq<Row>, now: Time, u: Upserted) {
    && nextFindingId <= u.nextFindingId
    && (forall i :: i in findings ==> i in u.findings && SameLifecycle(u.findings[i], findings[i]))
    && (forall i :: i in findings && !KeyIn(rows, findings[i].key) ==> u.findings[i] == findings[i])
    && (forall i :: i in u.findings && i !in findings ==>
          && nextFindingId <= i
          && IsFresh(u.findings[i], now)
          && KeyIn(rows, u.findings[i].key)
          && !KeyStored(findings, u.findings[i].key))
    && (forall r :: r in rows ==> KeyStored(u.findings, r.key))
  }

  lemma UpsertRowEffect(findings: FindingsTable, nextFindingId: int, row: Row, now: Time)
    requires Constraints(findings, nextFindingId)
    ensures UpsertEffect(findings, nextFindingId, [row], now, UpsertRow(findings, nextFindingId, row, now))
  {
    var u := UpsertRow(findings, nextFindingId, row, now);
    var i := match IdWithKey(findings, row.key) case Some(i) => i case None => nextFindingId;
    assert i in u.findings && u.findings[i].key == row.key;
    assert row in [row];
  }

  lemma SameLifecycleTrans(f: Finding, g: Finding, h: Finding, now: Time)
    requires SameLifecycle(f, g)
    ensures f.key == g.key
    ensures SameLifecycle(g, h) ==> SameLifecycle(f, h)
    ensures IsFresh(g, now) ==> IsFresh(f, now)
  {}

  lemma UpsertEffectTrans(findings: FindingsTable, nextFindingId: int, a: seq<Row>, b: seq<Row>, now: Time,
                          u: Upserted, v: Upserted)
    requires UpsertEffect(findings, nextFindingId, a, now, u)
    requires UpsertEffect(u.findings, u.nextFindingId, b, now, v)
    ensures UpsertEffect(findings, nextFindingId, a + b, now, v)
  {
    hide SameLifecycle, IsFresh, KeyIn;
    forall i | i in findings
      ensures i in v.findings && SameLifecycle(v.findings[i], findings[i])
    {
      SameLifecycleTrans(v.findings[i], u.findings[i], findings[i], now);
    }
    forall i | i in findings && !KeyIn(a + b, findings[i].key)
      ensures v.findings[i] == findings[i]
    {
      KeyInConcat(a, b, findings[i].key);
    }
    forall i | i in v.findings && i !in findings
      ensures nextFindingId <= i && IsFresh(v.findings[i], now)
      ensures KeyIn(a + b, v.findings[i].key) && !KeyStored(findings, v.findings[i].key)
    {
      if i in u.findings {
        SameLifecycleTrans(v.findings[i], u.findings[i], u.findings[i], now);
        KeyInConcat(a, b, v.findings[i].key);
      } else {
        KeyInConcat(a, b, v.findings[i].key);
        StoredKeysPersist(findings, u.findings, v.findings[i].key, now);
      }
    }
    forall r | r in a + b
      ensures KeyStored(v.findings, r.key)
    {
      if r in a {
        StoredKeysPersist(u.findings, v.findings, r.key, now);
      }
    }
  }

  lemma KeyInConcat(a: seq<Row>, b: seq<Row>, key: NaturalKey)
    ensures KeyIn(a + b, key) <==> KeyIn(a, key) || KeyIn(b, key)
  {
    if KeyIn(a, key) {
      var r :| r in a && r.key == key;
      assert r in a + b;
    } else if KeyIn(b, key) {
      var r :| r in b && r.key == key;
      assert r in a + b;
    }
  }

  lemma StoredKeysPersist(before: FindingsTable, after: FindingsTable, key: NaturalKey, now: Time)
    requires forall i :: i in before ==> i in after && SameLifecycle(after[i], before[i])
    ensures KeyStored(before, key) ==> KeyStored(after, key)
  {
    if KeyStored(before, key) {
      var i :| i in before && before[i].key == key;
      assert SameLifecycle(after[i], before[i]);
      assert i in after && after[i].key == key;
    }
  }

  lemma {:induction false} UpsertAllEffect(findings: FindingsTable, nextFindingId: int, rows: seq<Row>, now: Time)
    requires Constraints(findings, nextFindingId)
    ensures UpsertEffect(findings, nextFindingId, rows, now, UpsertAll(findings, nextFindingId, rows, now))
  {
    if rows != [] {
      hide UpsertEffect, UpsertRow;
      var before, last := rows[..|rows| - 1], rows[|rows| - 1];
      UpsertAllEffect(findings, nextFindingId, before, now);
      var u := UpsertAll(findings, nextFindingId, before, now);
      UpsertRowEffect(u.findings, u.nextFindingId, last, now);
      UpsertEffectTrans(findings, nextFindingId, before, [last], now, u,
                        UpsertRow(u.findings, u.nextFindingId, last, now));
      assert before + [last] == rows;
    }
  }

  /** Upserting two batches one after the other is upserting them as one. */
  lemma {:induction false} UpsertAllConcat(findings: FindingsTable, nextFindingId: int, a: seq<Row>, b: seq<Row>,
                                           now: Time)
    requires Constraints(findings, nextFindingId)
    ensures
      var u := UpsertAll(findings, nextFindingId, a, now);
      UpsertAll(findings, nextFindingId, a + b, now) == UpsertAll(u.findings, u.nextFindingId, b, now)
  {
    if b == [] {
      assert a + b == a;
    } else {
      var init := b[..|b| - 1];
      UpsertAllConcat(findings, nextFindingId, a, init, now);
      assert (a + b)[..|a + b| - 1] == a + init;
    }
  }

  // ------------------------------------------------------------------ counting inserts

  function FirstSeenOf(findings: FindingsTable, key: NaturalKey): Time
    requires UniqueKeys(findings) && KeyStored(findings, key)
  {
    findings[IdWithKey(findings, key).value].firstSeenAt
  }

  /** RETURNING first_seen_at: one value per row of the statement. */
  function FirstSeen(findings: FindingsTable, rows: seq<Row>): (r: seq<Time>)
    requires UniqueKeys(findings)
    requires forall r :: r in rows ==> KeyStored(findings, r.key)
    ensures |r| == |rows|
  {
    seq(|rows|, k requires 0 <= k < |rows| => FirstSeenOf(findings, rows[k].key))
  }

  predicate Recent(firstSeen: Time, now: Time) {
    -SECOND < firstSeen - now < SECOND
  }

  function CountRecent(firstSeen: seq<Time>, now: Time): nat {
    if firstSeen == [] then 0
    else CountRecent(firstSeen[..|firstSeen| - 1], now) + if Recent(firstSeen[|firstSeen| - 1], now) then 1 else 0
  }

  lemma {:induction false} CountRecentConcat(a: seq<Time>, b: seq<Time>, now: Time)
    ensures CountRecent(a + b, now) == CountRecent(a, now) + CountRecent(b, now)
  {
    if b == [] {
      assert a + b == a;
    } else {
      CountRecentConcat(a, b[..|b| - 1], now);
      assert (a + b)[..|a + b| - 1] == a + b[..|b| - 1];
    }
  }

  /** Later upserts leave the first-seen time of a stored key alone. */
  lemma FirstSeenStays(findings: FindingsTable, nextFindingId: int, earlier: seq<Row>, rows: seq<Row>, now: Time)
    requires Constraints(findings, nextFindingId)
    requires forall r :: r in earlier ==> KeyStored(findings, r.key)
    ensures
      var u := UpsertAll(findings, nextFindingId, rows, now);
      && (forall r :: r in earlier ==> KeyStored(u.findings, r.key))
      && FirstSeen(u.findings, earlier) == FirstSeen(findings, earlier)
  {
    UpsertAllEffect(findings, nextFindingId, rows, now);
    var u := UpsertAll(findings, nextFindingId, rows, now);
    forall r | r in earlier
      ensures KeyStored(u.findings, r.key)
    {
      StoredKeysPersist(findings, u.findings, r.key, now);
    }
    forall k | 0 <= k < |earlier|
      ensures FirstSeen(u.findings, earlier)[k] == FirstSeen(findings, earlier)[k]
    {
      assert earlier[k] in earlier;
      var i := IdWithKey(findings, earlier[k].key).value;
      assert SameLifecycle(u.findings[i], findings[i]);
    }
  }

  // ------------------------------------------------------------------ the chunk loop

  /** One INSERT statement for one chunk. */
  method UpsertChunk(session: Session, chunk: seq<Row>, now: Time) returns (returning: Option<seq<Time>>)
    requires session.Valid()
    modifies session
    ensures session.Valid()
    ensures returning.Some? <==> DistinctKeys(chunk)
    ensures returning.None? ==> session.State() == old(session.State())
    ensures returning.Some? ==>
      var u := UpsertAll(old(session.findings), old(session.nextFindingId), chunk, now);
      && session.State() == old(session.State()).(findings := u.findings, nextFindingId := u.nextFindingId)
      && (forall r :: r in chunk ==> KeyStored(u.findings, r.key))
      && returning.value == FirstSeen(u.findings, chunk)
  {
    if !DistinctKeys(chunk) {
      return None;
    }
    UpsertAllEffect(session.findings, session.nextFindingId, chunk, now);
    var u := UpsertAll(session.findings, session.nextFindingId, chunk, now);
    session.findings, session.nextFindingId := u.findings, u.nextFindingId;
    returning := Some(FirstSeen(u.findings, chunk));
  }

  /** The loop over the RETURNING rows: a first-seen time close to `now` counts as an insert. */
  method CountReturning(returning: seq<Time>, now: Time) returns (inserted: nat, updated: nat)
    ensures inserted == CountRecent(returning, now)
    ensures inserted + updated == |returning|
  {
    inserted, updated := 0, 0;
    for k := 0 to |returning|
      invariant inserted == CountRecent(returning[..k], now)
      invariant inserted + updated == k
    {
      assert returning[..k + 1][..k] == returning[..k];
      if Recent(returning[k], now) {
        inserted := inserted + 1;
      } else {
        updated := updated + 1;
      }
    }
    assert returning[..|returning|] == returning;
  }

  /** The tables after the rows `done`, and the counters that go with them. */
  ghost predicate ChunksDone(start: Db, now: Time, done: seq<Row>, current: Db, inserted: nat, updated: nat)
    requires Constraints(start.findings, start.nextFindingId)
  {
    var u := UpsertAll(start.findings, start.nextFindingId, done, now);
    && current == start.(findings := u.findings, nextFindingId := u.nextFindingId)
    && (forall r :: r in done ==> KeyStored(u.findings, r.key))
    && inserted == CountRecent(FirstSeen(u.findings, done), now)
    && inserted + updated == |done|
  }

  lemma ChunksDoneStep(start: Db, now: Time, done: seq<Row>, current: Db, inserted: nat, updated: nat,
                       chunk: seq<Row>, next: Db, returning: seq<Time>, more: nat, rest: nat)
    requires Constraints(start.findings, start.nextFindingId)
    requires ChunksDone(start, now, done, current, inserted, updated)
    requires
      var u := UpsertAll(current.findings, current.nextFindingId, chunk, now);
      && next == current.(findings := u.findings, nextFindingId := u.nextFindingId)
      && (forall r :: r in chunk ==> KeyStored(u.findings, r.key))
      && returning == FirstSeen(u.findings, chunk)
    requires more == CountRecent(returning, now) && more + rest == |returning|
    ensures ChunksDone(start, now, done + chunk, next, inserted + more, updated + rest)
  {
    hide UpsertAll, FirstSeen, KeyStored, CountRecent, UniqueKeys;
    UpsertAllConcat(start.findings, start.nextFindingId, done, chunk, now);
    FirstSeenStays(current.findings, current.nextFindingId, done, chunk, now);
    FirstSeenConcat(next.findings, done, chunk);
    CountRecentConcat(FirstSeen(next.findings, done), returning, now);
  }

  lemma FirstSeenConcat(findings: FindingsTable, a: seq<Row>, b: seq<Row>)
    requires UniqueKeys(findings)
    requires forall r :: r in a ==> KeyStored(findings, r.key)
    requires forall r :: r in b ==> KeyStored(findings, r.key)
    ensures forall r :: r in a + b ==> KeyStored(findings, r.key)
    ensures FirstSeen(findings, a + b) == FirstSeen(findings, a) + FirstSeen(findings, b)
  {
    hide FirstSeenOf, KeyStored;
    forall r | r in a + b
      ensures KeyStored(findings, r.key)
    {}
  }

  /** The chunk loop. A failing statement is reported with the table as the statement found it. */
  method UpsertInChunks(session: Session, rows: seq<Row>, now: Time)
    returns (ok: bool, insertedCount: nat, updatedCount: nat)
    requires session.Valid()
    modifies session
    ensures session.Valid()
    ensures ok <==> ChunksDistinct(rows)
    ensures ok ==> ChunksDone(old(session.State()), now, rows, session.State(), insertedCount, updatedCount)
    ensures session.State()
         == old(session.State()).(findings := session.findings, nextFindingId := session.nextFindingId)
  {
    hide ChunksDone, ChunksDistinct, Constraints, DistinctKeys, UpsertAll, FirstSeen, CountRecent, KeyStored;
    insertedCount, updatedCount := 0, 0;
    var chunkStart := 0;
    ghost var start := session.State();
    ChunksDoneStart(start, now);
    assert rows[0..] == rows && rows[..0] == [];
    while chunkStart < |rows|
      invariant 0 <= chunkStart <= |rows|
      invariant session.Valid()
      invariant ChunksDistinct(rows) <==> ChunksDistinct(rows[chunkStart..])
      invariant ChunksDone(start, now, rows[..chunkStart], session.State(), insertedCount, updatedCount)
      invariant session.State() == start.(findings := session.findings, nextFindingId := session.nextFindingId)
    {
      var left := |rows| - chunkStart;
      var n := if left <= FINDINGS_INSERT_CHUNK_SIZE then left else FINDINGS_INSERT_CHUNK_SIZE;
      var chunk := rows[chunkStart..chunkStart + n];
      NextChunk(rows, chunkStart, n);
      ghost var before := session.State();
      var returning := UpsertChunk(session, chunk, now);
      if returning.None? {
        return false, 0, 0;
      }
      var more, rest := CountReturning(returning.value, now);
      ChunksDoneStep(start, now, rows[..chunkStart], before, insertedCount, updatedCount,
                     chunk, session.State(), returning.value, more, rest);
      insertedCount, updatedCount := insertedCount + more, updatedCount + rest;
      chunkStart := chunkStart + n;
    }
    NoChunk();
    assert rows[..chunkStart] == rows && rows[chunkStart..] == [];
    ok := true;
  }

  lemma NextChunk(rows: seq<Row>, chunkStart: nat, n: nat)
    requires chunkStart < |rows|
    requires
      var left := |rows| - chunkStart;
      n == if left <= FINDINGS_INSERT_CHUNK_SIZE then left else FINDINGS_INSERT_CHUNK_SIZE
    ensures rows[..chunkStart + n] == rows[..chunkStart] + rows[chunkStart..chunkStart + n]
    ensures ChunksDistinct(rows[chunkStart..])
       <==> DistinctKeys(rows[chunkStart..chunkStart + n]) && ChunksDistinct(rows[chunkStart + n..])
  {
    hide DistinctKeys;
    var rest := rows[chunkStart..];
    assert rest[..n] == rows[chunkStart..chunkStart + n] && rest[n..] == rows[chunkStart + n..];
  }

  lemma NoChunk()
    ensures ChunksDistinct([])
  {}

  lemma ChunksDoneStart(start: Db, now: Time)
    requires Constraints(start.findings, start.nextFindingId)
    ensures ChunksDone(start, now, [], start, 0, 0)
  {}
}
