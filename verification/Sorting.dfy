/** Stable sorting under a total preorder, and the order of Python strings. */
module Sorting {

  ghost predicate TotalPreorder<T(!new)>(leq: (T, T) -> bool) {
    && (forall x, y :: leq(x, y) || leq(y, x))
    && (forall x, y, z :: leq(x, y) && leq(y, z) ==> leq(x, z))
  }

  ghost predicate SortedBy<T>(leq: (T, T) -> bool, s: seq<T>) {
    forall i, j :: 0 <= i < j < |s| ==> leq(s[i], s[j])
  }

  /** Inserts `x` before the first element that it does not exceed. */
  function Insert<T>(leq: (T, T) -> bool, x: T, s: seq<T>): (r: seq<T>)
    ensures multiset(r) == multiset{x} + multiset(s)
  {
    if s == [] then [x]
    else if leq(x, s[0]) then
      [x] + s
    else
      assert s == [s[0]] + s[1..];
      [s[0]] + Insert(leq, x, s[1..])
  }

  function Sort<T>(leq: (T, T) -> bool, s: seq<T>): (r: seq<T>)
    ensures multiset(r) == multiset(s)
  {
    if s == [] then []
    else
      assert s == [s[0]] + s[1..];
      Insert(leq, s[0], Sort(leq, s[1..]))
  }

  lemma SameMembers<T>(a: seq<T>, b: seq<T>)
    requires multiset(a) == multiset(b)
    ensures |a| == |b|
    ensures forall x :: x in a <==> x in b
  {
    assert |multiset(a)| == |a| && |multiset(b)| == |b|;
    forall x
      ensures x in a <==> x in b
    {
      assert x in multiset(a) <==> x in multiset(b);
    }
  }

  lemma {:induction false} InsertSorted<T(!new)>(leq: (T, T) -> bool, x: T, s: seq<T>)
    requires TotalPreorder(leq) && SortedBy(leq, s)
    ensures SortedBy(leq, Insert(leq, x, s))
  {
    if s != [] && !leq(x, s[0]) {
      InsertSorted(leq, x, s[1..]);
      var rest := Insert(leq, x, s[1..]);
      assert multiset(rest) == multiset([x] + s[1..]);
      SameMembers(rest, [x] + s[1..]);
      forall j | 0 <= j < |rest|
        ensures leq(s[0], rest[j])
      {
        assert rest[j] in rest;
      }
    }
  }

  lemma {:induction false} SortSorts<T(!new)>(leq: (T, T) -> bool, s: seq<T>)
    requires TotalPreorder(leq)
    ensures SortedBy(leq, Sort(leq, s))
  {
    if s != [] {
      SortSorts(leq, s[1..]);
      InsertSorted(leq, s[0], Sort(leq, s[1..]));
    }
  }

  /** The order does not confuse different elements of `s`. */
  ghost predicate Separates<T(!new)>(leq: (T, T) -> bool, s: seq<T>) {
    forall x, y :: x in s && y in s && leq(x, y) && leq(y, x) ==> x == y
  }

  lemma SortedHeads<T(!new)>(leq: (T, T) -> bool, a: seq<T>, b: seq<T>)
    requires SortedBy(leq, a) && SortedBy(leq, b) && Separates(leq, a)
    requires multiset(a) == multiset(b) && a != []
    ensures b != [] && a[0] == b[0]
  {
    SameMembers(a, b);
    assert a[0] in b && b[0] in a;
    var i :| 0 <= i < |b| && b[i] == a[0];
    var j :| 0 <= j < |a| && a[j] == b[0];
    assert i == 0 || leq(b[0], a[0]);
    assert j == 0 || leq(a[0], b[0]);
  }

  lemma SameTails<T>(a: seq<T>, b: seq<T>)
    requires multiset(a) == multiset(b) && a != [] && b != [] && a[0] == b[0]
    ensures multiset(a[1..]) == multiset(b[1..])
  {
    assert a == [a[0]] + a[1..] && b == [b[0]] + b[1..];
    assert multiset(a[1..]) == multiset(a) - multiset{a[0]};
    assert multiset(b[1..]) == multiset(b) - multiset{a[0]};
  }

  /** A multiset that the order separates has only one sorted sequence. */
  lemma {:induction false} SortedUnique<T(!new)>(leq: (T, T) -> bool, a: seq<T>, b: seq<T>)
    requires SortedBy(leq, a) && SortedBy(leq, b) && Separates(leq, a)
    requires multiset(a) == multiset(b)
    ensures a == b
  {
    if a == [] {
      SameMembers(a, b);
    } else {
      SortedHeads(leq, a, b);
      SameTails(a, b);
      SortedUnique(leq, a[1..], b[1..]);
      assert a == [a[0]] + a[1..] && b == [b[0]] + b[1..];
    }
  }

  // ------------------------------------------------------------------ ORDER BY

  /** Compares by a key. */
  function By<T, K>(key: T -> K, leq: (K, K) -> bool): (T, T) -> bool {
    (x, y) => leq(key(x), key(y))
  }

  /** The second order decides where the first one ties. */
  function Then<T>(first: (T, T) -> bool, second: (T, T) -> bool): (T, T) -> bool {
    (x, y) => first(x, y) && (first(y, x) ==> second(x, y))
  }

  lemma ByOrder<T(!new), K(!new)>(key: T -> K, leq: (K, K) -> bool)
    requires TotalPreorder(leq)
    ensures TotalPreorder(By(key, leq))
  {
    var byKey := By(key, leq);
    assert forall x, y :: byKey(x, y) == leq(key(x), key(y));
  }

  lemma ThenOrder<T(!new)>(first: (T, T) -> bool, second: (T, T) -> bool)
    requires TotalPreorder(first) && TotalPreorder(second)
    ensures TotalPreorder(Then(first, second))
  {
    var leq := Then(first, second);
    assert forall x, y :: leq(x, y) == (first(x, y) && (first(y, x) ==> second(x, y)));
  }

  /** Rows tie under both orders together when they tie under each. */
  lemma ThenTies<T>(first: (T, T) -> bool, second: (T, T) -> bool, x: T, y: T)
    ensures
      var leq := Then(first, second);
      leq(x, y) && leq(y, x) <==> first(x, y) && first(y, x) && second(x, y) && second(y, x)
  {}

  lemma ThenSays<T>(first: (T, T) -> bool, second: (T, T) -> bool, x: T, y: T)
    ensures Then(first, second)(x, y) == (first(x, y) && (first(y, x) ==> second(x, y)))
  {}

  lemma BySays<T, K>(key: T -> K, leq: (K, K) -> bool, x: T, y: T)
    ensures By(key, leq)(x, y) == leq(key(x), key(y)) && By(key, leq)(y, x) == leq(key(y), key(x))
  {}

  /** The row order that an ORDER BY allows for a set of rows; the database picks one of them. */
  ghost predicate IsListing<T>(leq: (T, T) -> bool, listing: seq<T>, rows: set<T>) {
    SortedBy(leq, listing) && multiset(listing) == multiset(rows)
  }

  ghost predicate TieFree<T(!new)>(leq: (T, T) -> bool, rows: set<T>) {
    forall x, y :: x in rows && y in rows && leq(x, y) && leq(y, x) ==> x == y
  }

  lemma {:induction false} InSomeOrder<T>(rows: set<T>) returns (s: seq<T>)
    ensures multiset(s) == multiset(rows)
  {
    if rows == {} {
      s := [];
    } else {
      var x :| x in rows;
      var rest := InSomeOrder(rows - {x});
      s := [x] + rest;
      assert multiset(rows) == multiset(rows - {x}) + multiset{x};
    }
  }

  lemma ListingExists<T(!new)>(leq: (T, T) -> bool, rows: set<T>) returns (listing: seq<T>)
    requires TotalPreorder(leq)
    ensures IsListing(leq, listing, rows)
  {
    var s := InSomeOrder(rows);
    SortSorts(leq, s);
    listing := Sort(leq, s);
  }

  lemma ListingMembers<T>(leq: (T, T) -> bool, listing: seq<T>, rows: set<T>)
    requires IsListing(leq, listing, rows)
    ensures forall x :: x in listing <==> x in rows
    ensures forall m, n :: 0 <= m < n < |listing| ==> listing[m] != listing[n]
    ensures |listing| == |rows|
  {
    assert forall x :: x in listing <==> x in multiset(listing);
    assert |multiset(listing)| == |listing|;
    forall m, n | 0 <= m < n < |listing|
      ensures listing[m] != listing[n]
    {
      var before, after := listing[..m] + [listing[m]], listing[m + 1..];
      assert listing == before + after;
      assert multiset(listing)[listing[n]] == multiset(before)[listing[n]] + multiset(after)[listing[n]];
      assert listing[n] == after[n - m - 1] && listing[n] in after;
      assert listing[m] in before;
    }
  }

  /** Swapping two elements that tie keeps a sequence sorted. */
  lemma TieSwap<T(!new)>(leq: (T, T) -> bool, s: seq<T>, p: nat, q: nat)
    requires TotalPreorder(leq) && SortedBy(leq, s)
    requires p < q < |s| && leq(s[q], s[p])
    ensures SortedBy(leq, s[p := s[q]][q := s[p]])
    ensures multiset(s[p := s[q]][q := s[p]]) == multiset(s)
  {
    var t := s[p := s[q]][q := s[p]];
    assert leq(s[p], s[q]);
    forall i, j | 0 <= i < j < |t|
      ensures leq(t[i], t[j])
    {
      TieSwapAt(leq, s, p, q, i, j);
    }
  }

  lemma TieSwapAt<T(!new)>(leq: (T, T) -> bool, s: seq<T>, p: nat, q: nat, i: nat, j: nat)
    requires TotalPreorder(leq) && SortedBy(leq, s)
    requires p < q < |s| && leq(s[q], s[p])
    requires i < j < |s|
    ensures
      var t := s[p := s[q]][q := s[p]];
      leq(t[i], t[j])
  {
    var a := if i == p then q else if i == q then p else i;
    var b := if j == p then q else if j == q then p else j;
    assert leq(s[i], s[j]);
    assert leq(s[a], s[i]);
    assert leq(s[j], s[b]);
  }

  /** An ORDER BY determines the listing if and only if no two rows tie. */
  lemma ListingUniqueIff<T(!new)>(leq: (T, T) -> bool, rows: set<T>)
    requires TotalPreorder(leq)
    ensures (forall a, b :: IsListing(leq, a, rows) && IsListing(leq, b, rows) ==> a == b) <==> TieFree(leq, rows)
  {
    if TieFree(leq, rows) {
      forall a, b | IsListing(leq, a, rows) && IsListing(leq, b, rows)
        ensures a == b
      {
        ListingMembers(leq, a, rows);
        SortedUnique(leq, a, b);
      }
    } else {
      var x, y :| x in rows && y in rows && leq(x, y) && leq(y, x) && x != y;
      var a, b, m, n := TiedListings(leq, rows, x, y);
    }
  }

  /** Two tied rows have two listings that differ only in their places. */
  lemma TiedListings<T(!new)>(leq: (T, T) -> bool, rows: set<T>, x: T, y: T)
    returns (a: seq<T>, b: seq<T>, m: nat, n: nat)
    requires TotalPreorder(leq)
    requires x in rows && y in rows && leq(x, y) && leq(y, x) && x != y
    ensures IsListing(leq, a, rows) && IsListing(leq, b, rows)
    ensures m < n < |a| && {a[m], a[n]} == {x, y}
    ensures b == a[m := a[n]][n := a[m]] && a != b
  {
    a := ListingExists(leq, rows);
    hide SortedBy, TotalPreorder;
    ListingMembers(leq, a, rows);
    m, n := Places(a, x, y);
    TieSwap(leq, a, m, n);
    b := a[m := a[n]][n := a[m]];
    assert a[m] != b[m];
  }

  /** The places of two elements, the earlier first. */
  lemma Places<T>(s: seq<T>, x: T, y: T) returns (m: nat, n: nat)
    requires x in s && y in s && x != y
    ensures m < n < |s| && ((s[m] == x && s[n] == y) || (s[m] == y && s[n] == x))
  {
    var i :| 0 <= i < |s| && s[i] == x;
    var j :| 0 <= j < |s| && s[j] == y;
    m, n := if i < j then i else j, if i < j then j else i;
  }

  /** Collects the rows of a set in an arbitrary order. */
  method FetchAll<T(==)>(rows: set<T>) returns (fetched: seq<T>)
    ensures multiset(fetched) == multiset(rows)
  {
    var todo := rows;
    fetched := [];
    while todo != {}
      invariant todo <= rows && multiset(fetched) == multiset(rows - todo)
      decreases |todo|
    {
      var row :| row in todo;
      assert rows - (todo - {row}) == (rows - todo) + {row};
      todo := todo - {row};
      fetched := fetched + [row];
    }
    assert rows - todo == rows;
  }

  // ------------------------------------------------------------------ numbers and strings

  predicate IntLeq(a: int, b: int) {
    a <= b
  }

  lemma IntLeqOrder()
    ensures TotalPreorder(IntLeq)
  {}

  /** `a <= b` for Python strings: code points compared from the left. */
  predicate StringLeq(a: string, b: string) {
    if a == "" then true
    else if b == "" then false
    else if a[0] != b[0] then a[0] < b[0]
    else StringLeq(a[1..], b[1..])
  }

  lemma {:induction false} StringLeqTotal(a: string, b: string)
    ensures StringLeq(a, b) || StringLeq(b, a)
    ensures StringLeq(a, b) && StringLeq(b, a) ==> a == b
  {
    if a != "" && b != "" && a[0] == b[0] {
      StringLeqTotal(a[1..], b[1..]);
      assert a == [a[0]] + a[1..] && b == [b[0]] + b[1..];
    }
  }

  lemma {:induction false} StringLeqTrans(a: string, b: string, c: string)
    requires StringLeq(a, b) && StringLeq(b, c)
    ensures StringLeq(a, c)
  {
    if a != "" && b != "" && c != "" && a[0] == b[0] == c[0] {
      StringLeqTrans(a[1..], b[1..], c[1..]);
    }
  }

  lemma StringLeqOrder()
    ensures TotalPreorder(StringLeq)
  {
    forall a, b
      ensures StringLeq(a, b) || StringLeq(b, a)
    {
      StringLeqTotal(a, b);
    }
    forall a, b, c | StringLeq(a, b) && StringLeq(b, c)
      ensures StringLeq(a, c)
    {
      StringLeqTrans(a, b, c);
    }
  }
}
