/** The cache of model verdicts: TTL on the read side, least-recently-used eviction on the write side. */
module LlmCache {
  import opened Models
  import opened Sorting

  /** The verdict and the columns that describe it; `details` stands for the fingerprints and the model name. */
  datatype CachedVerdict = CachedVerdict(groupId: int, riskBand: string, worstFindingId: Option<int>, reason: string,
                                         details: string)

  datatype CacheRow = CacheRow(verdict: CachedVerdict, computedAt: Time, usedCount: nat, lastUsedAt: Time)

  type CacheTable = map<string, CacheRow>

  // ------------------------------------------------------------------ the four operations

  function LookupAt(rows: CacheTable, key: string, now: Time, ttlDays: nat): Option<CacheRow> {
    if key in rows && now - rows[key].computedAt <= ttlDays * DAY_LENGTH then Some(rows[key]) else None
  }

  predicate OlderUse(x: (string, CacheRow), y: (string, CacheRow)) {
    x.1.lastUsedAt <= y.1.lastUsedAt
  }

  function Entries(rows: CacheTable): set<(string, CacheRow)> {
    set k | k in rows :: (k, rows[k])
  }

  function KeysOf(entries: seq<(string, CacheRow)>): set<string> {
    set e | e in entries :: e.0
  }

  /** The victims are the `excess` least recently used keys; among equal times the database chooses. */
  ghost predicate AreVictims(rows: CacheTable, maxRows: nat, victims: set<string>) {
    && victims <= rows.Keys
    && |victims| == (if |rows| > maxRows then |rows| - maxRows else 0)
    && forall v, k :: v in victims && k in rows && k !in victims ==> rows[v].lastUsedAt <= rows[k].lastUsedAt
  }

  class RiskCache {
    const ttlDays: nat
    const maxRows: nat
    var rows: CacheTable

    constructor (ttlDays: nat, maxRows: nat)
      ensures rows == map[] && this.ttlDays == ttlDays && this.maxRows == maxRows
    {
      this.ttlDays, this.maxRows, rows := ttlDays, maxRows, map[];
    }

    method Lookup(key: string, now: Time) returns (cached: Option<CacheRow>)
      ensures cached == LookupAt(rows, key, now, ttlDays)
    {
      if key !in rows {
        return None;
      }
      if now - rows[key].computedAt > ttlDays * DAY_LENGTH {
        return None;
      }
      cached := Some(rows[key]);
    }

    method RecordHit(key: string, now: Time)
      requires key in rows
      modifies this
      ensures rows == Next(old(rows), Hit(key, now))
    {
      rows := rows[key := rows[key].(usedCount := rows[key].usedCount + 1, lastUsedAt := now)];
    }

    method Store(key: string, verdict: CachedVerdict, now: Time)
      modifies this
      ensures rows == Next(old(rows), Step.Store(key, verdict, now))
    {
      if key !in rows {
        rows := rows[key := CacheRow(verdict, now, 1, now)];
      }
    }

    /** Returns the number of deleted rows. */
    method LruEvictIfNeeded() returns (deleted: nat)
      modifies this
      ensures exists victims :: AreVictims(old(rows), maxRows, victims) && rows == Next(old(rows), Evict(victims)) &&
                deleted == |victims|
    {
      var total := |rows|;
      if total <= maxRows {
        assert AreVictims(rows, maxRows, {}) && rows == rows - {};
        return 0;
      }
      hide AreVictims;
      var victims := SelectVictims(rows, maxRows);
      rows := rows - victims;
      deleted := total - maxRows;
    }
  }

  /** The subquery of the DELETE: ORDER BY last_used_at, LIMIT excess. */
  method SelectVictims(rows: CacheTable, maxRows: nat) returns (victims: set<string>)
    requires |rows| > maxRows
    ensures AreVictims(rows, maxRows, victims) && |victims| == |rows| - maxRows
  {
    hide AreVictims, SortedBy, KeysOf;
    var entries := FetchAll(Entries(rows));
    var listing := Sort(OlderUse, entries);
    OlderUseIsTotal();
    SortSorts(OlderUse, entries);
    assert IsListing(OlderUse, listing, Entries(rows));
    ListingMembers(OlderUse, listing, Entries(rows));
    EntriesSize(rows, rows.Keys);
    VictimsOfListing(rows, maxRows, listing);
    victims := KeysOf(listing[..|rows| - maxRows]);
  }

  lemma OlderUseIsTotal()
    ensures TotalPreorder(OlderUse)
  {}

  lemma VictimsOfListing(rows: CacheTable, maxRows: nat, listing: seq<(string, CacheRow)>)
    requires IsListing(OlderUse, listing, Entries(rows)) && |listing| == |rows| > maxRows
    ensures AreVictims(rows, maxRows, KeysOf(listing[..|rows| - maxRows])) &&
              |KeysOf(listing[..|rows| - maxRows])| == |rows| - maxRows
  {
    ListingMembers(OlderUse, listing, Entries(rows));
    var first := listing[..|rows| - maxRows];
    forall m, n | 0 <= m < n < |first|
      ensures first[m].0 != first[n].0
    {
      assert listing[m] in listing && listing[n] in listing;
    }
    KeysOfSize(first);
    forall e | e in first
      ensures e.0 in rows && e == (e.0, rows[e.0])
    {
      assert e in listing;
    }
    forall v, k | v in KeysOf(first) && k in rows && k !in KeysOf(first)
      ensures rows[v].lastUsedAt <= rows[k].lastUsedAt
    {
      assert (k, rows[k]) in listing;
      var i :| 0 <= i < |listing| && listing[i] == (k, rows[k]);
      KeysOfAt(first);
      assert i >= |first|;
      var j :| 0 <= j < |first| && first[j].0 == v;
      assert first[j] in first && listing[j] == (v, rows[v]);
      assert OlderUse(listing[j], listing[i]);
    }
  }

  lemma {:induction false} EntriesSize(rows: CacheTable, keys: set<string>)
    requires keys <= rows.Keys
    ensures |set k | k in keys && k in rows :: (k, rows[k])| == |keys|
    ensures keys == rows.Keys ==> |Entries(rows)| == |rows|
  {
    var entries := set k | k in keys && k in rows :: (k, rows[k]);
    if keys == {} {
      assert entries == {};
    } else {
      var k :| k in keys;
      EntriesSize(rows, keys - {k});
      assert entries == (set x | x in keys - {k} && x in rows :: (x, rows[x])) + {(k, rows[k])};
    }
    assert keys == rows.Keys ==> Entries(rows) == entries;
    assert |rows.Keys| == |rows|;
  }

  lemma KeysOfAt(entries: seq<(string, CacheRow)>)
    ensures forall i :: 0 <= i < |entries| ==> entries[i].0 in KeysOf(entries)
  {
    forall i | 0 <= i < |entries|
      ensures entries[i].0 in KeysOf(entries)
    {
      assert entries[i] in entries;
    }
  }

  lemma {:induction false} KeysOfSize(entries: seq<(string, CacheRow)>)
    requires forall m, n :: 0 <= m < n < |entries| ==> entries[m].0 != entries[n].0
    ensures |KeysOf(entries)| == |entries|
  {
    if entries != [] {
      var before, last := entries[..|entries| - 1], entries[|entries| - 1];
      KeysOfSize(before);
      assert entries == before + [last];
      assert KeysOf(entries) == KeysOf(before) + {last.0};
      assert last.0 !in KeysOf(before);
    }
  }

  /** What eviction leaves: at most the limit, untouched, and nothing older than what went. */
  lemma EvictionKeepsRecent(rows: CacheTable, maxRows: nat, victims: set<string>)
    requires AreVictims(rows, maxRows, victims)
    ensures
      var kept := Next(rows, Evict(victims));
      && |kept| == (if |rows| > maxRows then maxRows else |rows|)
      && (forall k :: k in kept ==> k in rows && kept[k] == rows[k])
      && forall v, k :: v in rows && v !in kept && k in kept ==> rows[v].lastUsedAt <= kept[k].lastUsedAt
  {
    var kept := rows - victims;
    assert kept.Keys == rows.Keys - victims;
    assert |kept| == |kept.Keys| && |rows| == |rows.Keys|;
  }

  // ------------------------------------------------------------------ runs

  datatype Step =
    | Hit(key: string, now: Time)
    | Store(key: string, verdict: CachedVerdict, now: Time)
    | Evict(victims: set<string>)

  function Next(rows: CacheTable, step: Step): CacheTable {
    match step
    case Hit(key, now) =>
      if key in rows then rows[key := rows[key].(usedCount := rows[key].usedCount + 1, lastUsedAt := now)] else rows
    case Store(key, verdict, now) =>
      if key in rows then rows else rows[key := CacheRow(verdict, now, 1, now)]
    case Evict(victims) => rows - victims
  }

  function Run(trace: seq<Step>): CacheTable {
    if trace == [] then map[] else Next(Run(trace[..|trace| - 1]), trace[|trace| - 1])
  }

  predicate Evicts(step: Step, key: string) {
    step.Evict? && key in step.victims
  }

  predicate Stores(step: Step, key: string) {
    step.Store? && step.key == key
  }

  predicate Hits(step: Step, key: string) {
    step.Hit? && step.key == key
  }

  predicate EvictedBetween(trace: seq<Step>, key: string, lo: int, hi: int) {
    exists e :: lo < e < hi && 0 <= e < |trace| && Evicts(trace[e], key)
  }

  /** Step `s` stored the key while it was absent, and it has not been evicted since. */
  predicate IsOrigin(trace: seq<Step>, key: string, s: int) {
    && 0 <= s < |trace| && Stores(trace[s], key)
    && !EvictedBetween(trace, key, s, |trace|)
    && forall p :: 0 <= p < s && Stores(trace[p], key) ==> EvictedBetween(trace, key, p, s)
  }

  /** The number of hits on the key after step `s`. */
  function HitsAfter(trace: seq<Step>, key: string, s: int): nat {
    if |trace| == 0 || |trace| - 1 <= s then 0
    else HitsAfter(trace[..|trace| - 1], key, s) + if Hits(trace[|trace| - 1], key) then 1 else 0
  }

  /** The time of the last hit on the key after its store at `s`, or of the store. */
  function LastUse(trace: seq<Step>, key: string, s: int): Time
    requires 0 <= s < |trace| && trace[s].Store?
    decreases |trace|
  {
    var n := |trace| - 1;
    if n == s then trace[s].now
    else if Hits(trace[n], key) then trace[n].now
    else LastUse(trace[..n], key, s)
  }

  ghost predicate RowTellsHistory(trace: seq<Step>, key: string, s: int) {
    && IsOrigin(trace, key, s)
    && key in Run(trace)
    && Run(trace)[key] == CacheRow(trace[s].verdict, trace[s].now, 1 + HitsAfter(trace, key, s), LastUse(trace, key, s))
  }

  /**
   * In every run, a key is in the table exactly when it has an origin, and its row shows the
   * verdict of that first store, its time, the hits since and the last use.
   */
  lemma {:induction false} RowsTellHistory(trace: seq<Step>, key: string)
    ensures key in Run(trace) <==> exists s :: IsOrigin(trace, key, s)
    ensures forall s :: IsOrigin(trace, key, s) ==> RowTellsHistory(trace, key, s)
  {
    if trace != [] {
      var n := |trace| - 1;
      var before := trace[..n];
      RowsTellHistory(before, key);
      OriginsOfLonger(trace, key);
      hide IsOrigin;
      forall s | IsOrigin(trace, key, s)
        ensures RowTellsHistory(trace, key, s)
      {
        OriginIsStore(trace, key, s);
        if s < n {
          assert RowTellsHistory(before, key, s);
        }
      }
      if key in Run(trace) {
        if key in Run(before) {
          var s :| IsOrigin(before, key, s);
          assert IsOrigin(trace, key, s);
        } else {
          assert IsOrigin(trace, key, n);
        }
      }
    }
  }

  lemma OriginIsStore(trace: seq<Step>, key: string, s: int)
    requires IsOrigin(trace, key, s)
    ensures 0 <= s < |trace| && Stores(trace[s], key)
  {}

  /** How the last step changes the origin of a key. */
  lemma OriginsOfLonger(trace: seq<Step>, key: string)
    requires trace != []
    ensures
      var n := |trace| - 1;
      var before, step := trace[..n], trace[n];
      && (forall s :: 0 <= s < n ==> (IsOrigin(trace, key, s) <==> IsOrigin(before, key, s) && !Evicts(step, key)))
      && (IsOrigin(trace, key, n) <==> Stores(step, key) && !exists s :: IsOrigin(before, key, s))
  {
    var n := |trace| - 1;
    var before := trace[..n];
    assert forall k :: 0 <= k < n ==> before[k] == trace[k];
    forall s, hi | 0 <= s && hi <= n
      ensures EvictedBetween(trace, key, s, hi) <==> EvictedBetween(before, key, s, hi)
    {
      EvictedInPrefix(trace, n, key, s, hi);
    }
    forall s | 0 <= s < n
      ensures EvictedBetween(trace, key, s, n + 1) <==> EvictedBetween(trace, key, s, n) || Evicts(trace[n], key)
    {}
    forall p | 0 <= p < n && Stores(before[p], key) && !EvictedBetween(before, key, p, n)
      ensures exists s :: IsOrigin(before, key, s)
    {
      OriginBefore(before, key, p);
    }
  }

  lemma EvictedInPrefix(trace: seq<Step>, n: nat, key: string, lo: int, hi: int)
    requires hi <= n <= |trace|
    ensures EvictedBetween(trace, key, lo, hi) <==> EvictedBetween(trace[..n], key, lo, hi)
  {
    if EvictedBetween(trace, key, lo, hi) {
      var e :| lo < e < hi && 0 <= e < |trace| && Evicts(trace[e], key);
      assert Evicts(trace[..n][e], key);
    }
  }

  /** A store that was never evicted has an origin at or before it. */
  lemma {:induction false} OriginBefore(trace: seq<Step>, key: string, p: nat)
    requires p < |trace| && Stores(trace[p], key) && !EvictedBetween(trace, key, p, |trace|)
    ensures exists s :: IsOrigin(trace, key, s)
  {
    if IsOrigin(trace, key, p) {
    } else {
      var q :| 0 <= q < p && Stores(trace[q], key) && !EvictedBetween(trace, key, q, p);
      OriginBefore(trace, key, q);
    }
  }

  // ------------------------------------------------------------------ what a lookup returns

  /** A hit returns the first store since the key was last absent, and is at most TTL old. */
  lemma HitReturnsFirstStore(trace: seq<Step>, key: string, now: Time, ttlDays: nat)
    ensures LookupAt(Run(trace), key, now, ttlDays).Some?
       <==> exists s :: IsOrigin(trace, key, s) && now - trace[s].now <= ttlDays * DAY_LENGTH
    ensures forall s :: IsOrigin(trace, key, s) && LookupAt(Run(trace), key, now, ttlDays).Some? ==>
              LookupAt(Run(trace), key, now, ttlDays).value.verdict == trace[s].verdict
  {
    RowsTellHistory(trace, key);
    hide IsOrigin, Run;
    forall s | IsOrigin(trace, key, s)
      ensures 0 <= s < |trace| && Stores(trace[s], key)
    {
      OriginIsStore(trace, key, s);
    }
    if key in Run(trace) {
      var s :| IsOrigin(trace, key, s);
      assert RowTellsHistory(trace, key, s);
    }
  }

  /**
   * An expired key stays a miss, through any number of stores, until an eviction takes it: the
   * fresh verdict of the next model call is dropped because the old row still holds the key.
   */
  lemma {:induction false} ExpiredStaysMiss(before: seq<Step>, more: seq<Step>, key: string, then_: Time, now: Time,
                                            ttlDays: nat)
    requires key in Run(before) && LookupAt(Run(before), key, then_, ttlDays).None?
    requires then_ <= now
    requires forall k :: 0 <= k < |more| ==> !Evicts(more[k], key)
    ensures LookupAt(Run(before + more), key, now, ttlDays).None?
    ensures key in Run(before + more) && Run(before + more)[key].computedAt == Run(before)[key].computedAt
  {
    if more == [] {
      assert before + more == before;
    } else {
      var n := |more| - 1;
      ExpiredStaysMiss(before, more[..n], key, then_, now, ttlDays);
      assert (before + more)[..|before + more| - 1] == before + more[..n];
    }
  }

  /**
   * A store shows in a lookup right after it exactly when the key was absent, or its row is still
   * valid and says the same.
   */
  lemma StoreIsVisibleIff(rows: CacheTable, key: string, verdict: CachedVerdict, now: Time, ttlDays: nat)
    ensures
      var found := LookupAt(Next(rows, Store(key, verdict, now)), key, now, ttlDays);
      (found.Some? && found.value.verdict == verdict)
      <==> (key !in rows || (LookupAt(rows, key, now, ttlDays).Some? && rows[key].verdict == verdict))
  {
    assert 0 <= ttlDays * DAY_LENGTH;
  }
}
