/** Sequences without repetition and the sets of their elements. */
module Sequences {

  predicate Distinct<T(==)>(s: seq<T>) {
    forall i, j :: 0 <= i < j < |s| ==> s[i] != s[j]
  }

  lemma DistinctConcat<T>(a: seq<T>, b: seq<T>)
    ensures Distinct(a + b) <==> Distinct(a) && Distinct(b) && forall k :: 0 <= k < |b| ==> b[k] !in a
  {
    var c := a + b;
    if Distinct(c) {
      assert forall i :: 0 <= i < |a| ==> a[i] == c[i];
      assert forall i :: 0 <= i < |b| ==> b[i] == c[|a| + i];
    }
  }

  lemma Associative<T>(a: seq<T>, b: seq<T>, c: seq<T>)
    ensures (a + b) + c == a + (b + c)
  {}

  function Members<T>(s: seq<T>): set<T> {
    set x | x in s
  }

  /** A sequence has as many elements as its set exactly when it repeats none. */
  lemma {:induction false} MembersSize<T>(s: seq<T>)
    ensures |Members(s)| <= |s|
    ensures |Members(s)| == |s| <==> Distinct(s)
  {
    if s != [] {
      var before, last := s[..|s| - 1], s[|s| - 1];
      MembersSize(before);
      assert s == before + [last];
      DistinctConcat(before, [last]);
      assert [last][0] == last && Distinct([last]);
      assert Members(s) == Members(before) + {last};
      assert last in before ==> Members(s) == Members(before);
    }
  }

  function Flatten<T>(pieces: seq<seq<T>>): seq<T> {
    if pieces == [] then [] else pieces[0] + Flatten(pieces[1..])
  }

  lemma {:induction false} FlattenConcat<T>(a: seq<seq<T>>, b: seq<seq<T>>)
    ensures Flatten(a + b) == Flatten(a) + Flatten(b)
  {
    if a == [] {
      assert a + b == b;
    } else {
      FlattenConcat(a[1..], b);
      assert (a + b)[1..] == a[1..] + b && (a + b)[0] == a[0];
    }
  }

  lemma FlattenOne<T>(s: seq<T>)
    ensures Flatten([s]) == s
  {
    assert Flatten([s]) == s + Flatten([s][1..]);
  }

  lemma FlattenCons<T>(s: seq<T>, rest: seq<seq<T>>)
    ensures Flatten([s] + rest) == s + Flatten(rest)
  {
    assert ([s] + rest)[1..] == rest;
  }
}
