/** OFFSET and LIMIT over a sorted listing, and when the pages do not depend on the listing. */
module Paging {
  import opened Sequences
  import opened Sorting

  function Window<T>(s: seq<T>, offset: nat, limit: nat): seq<T> {
    var from := if offset < |s| then offset else |s|;
    if from + limit < |s| then s[from..from + limit] else s[from..]
  }

  function Page<T>(listing: seq<T>, page: int, perPage: nat): seq<T> {
    var offset := (if page - 1 > 0 then page - 1 else 0) * perPage;
    Window(listing, offset, perPage)
  }

  /** The index of the first row of a page; a page number below 1 reads as 1. */
  function PageStart(page: int, perPage: nat): nat {
    if page <= 1 then 0 else (page - 1) * perPage
  }

  /** A page holds the next rows from its start on, as many as fit and as there are. */
  lemma PageIsWindow<T>(listing: seq<T>, page: int, perPage: nat, k: nat)
    ensures
      var start, rows := PageStart(page, perPage), Page(listing, page, perPage);
      && (k < |rows| <==> k < perPage && start + k < |listing|)
      && (k < |rows| ==> rows[k] == listing[start + k])
  {}

  /** The pages `1` to `n` after one another. */
  function PagesUpTo<T>(listing: seq<T>, perPage: nat, n: nat): seq<T> {
    if n == 0 then [] else PagesUpTo(listing, perPage, n - 1) + Page(listing, n, perPage)
  }

  lemma WindowsJoin<T>(listing: seq<T>, k: nat, limit: nat)
    ensures Window(listing, 0, k) + Window(listing, k, limit) == Window(listing, 0, k + limit)
  {}

  lemma {:induction false} PagesArePrefix<T>(listing: seq<T>, perPage: nat, n: nat)
    ensures PagesUpTo(listing, perPage, n) == Window(listing, 0, n * perPage)
  {
    if n > 0 {
      PagesArePrefix(listing, perPage, n - 1);
      assert n * perPage == (n - 1) * perPage + perPage;
      WindowsJoin(listing, (n - 1) * perPage, perPage);
    }
  }

  // ------------------------------------------------------------------ what a prefix holds

  /** A set that a sequence never enters after leaving it is the prefix of its size. */
  lemma {:induction false} DownClosedIsPrefix<T>(s: seq<T>, down: set<T>)
    requires Distinct(s) && down <= Members(s)
    requires forall i, j :: 0 <= i < j < |s| && s[j] in down ==> s[i] in down
    ensures |down| <= |s| && Members(s[..|down|]) == down
  {
    if s == [] {
      assert down == {};
    } else {
      var n := |s| - 1;
      assert s == s[..n] + [s[n]];
      if s[n] in down {
        assert down == Members(s);
        MembersSize(s);
        assert s[..|s|] == s;
      } else {
        DownClosedIsPrefix(s[..n], down);
        assert s[..n][..|down|] == s[..|down|];
      }
    }
  }

  /** Where the order separates two neighbours of one listing, every listing has the same prefix. */
  lemma PrefixIsFixed<T(!new)>(leq: (T, T) -> bool, rows: set<T>, a: seq<T>, b: seq<T>, m: nat)
    requires TotalPreorder(leq) && IsListing(leq, a, rows) && IsListing(leq, b, rows)
    requires 0 < m < |a| && !leq(a[m], a[m - 1])
    ensures |a| == |b| && Members(a[..m]) == Members(b[..m])
  {
    ListingMembers(leq, a, rows);
    ListingMembers(leq, b, rows);
    var down := set x | x in rows && leq(x, a[m - 1]);
    PrefixIsDown(leq, rows, a, m);
    MembersSize(a[..m]);
    forall i, j | 0 <= i < j < |b| && b[j] in down
      ensures b[i] in down
    {
      assert leq(b[i], b[j]) && b[i] in b;
    }
    DownClosedIsPrefix(b, down);
  }

  lemma PrefixIsDown<T(!new)>(leq: (T, T) -> bool, rows: set<T>, a: seq<T>, m: nat)
    requires TotalPreorder(leq) && IsListing(leq, a, rows)
    requires 0 < m < |a| && !leq(a[m], a[m - 1])
    ensures Members(a[..m]) == set x | x in rows && leq(x, a[m - 1])
    ensures Distinct(a[..m])
  {
    ListingMembers(leq, a, rows);
    assert leq(a[m - 1], a[m - 1]);
    forall n | 0 <= n < |a|
      ensures leq(a[n], a[m - 1]) <==> n < m
    {
      assert n < m - 1 ==> leq(a[n], a[m - 1]);
      assert n > m ==> leq(a[m], a[n]);
    }
    forall x | x in rows && leq(x, a[m - 1])
      ensures x in a[..m]
    {
      assert x in a;
      var n :| 0 <= n < |a| && a[n] == x;
      assert a[..m][n] == x;
    }
    forall x | x in a[..m]
      ensures x in rows && leq(x, a[m - 1])
    {
      var n :| 0 <= n < m && a[..m][n] == x;
      assert a[n] == x && a[n] in a;
    }
  }

  // ------------------------------------------------------------------ what a page holds

  function Clip(n: nat, size: nat): nat {
    if n < size then n else size
  }

  lemma PageIsDifference<T>(s: seq<T>, page: nat, perPage: nat)
    requires Distinct(s) && page > 0
    ensures Members(Page(s, page, perPage))
         == Members(s[..Clip(page * perPage, |s|)]) - Members(s[..Clip((page - 1) * perPage, |s|)])
  {
    PageIsSlice(s, page, perPage);
    SliceIsDifference(s, Clip((page - 1) * perPage, |s|), Clip(page * perPage, |s|));
  }

  lemma PageIsSlice<T>(s: seq<T>, page: nat, perPage: nat)
    requires page > 0
    ensures
      var from, to := Clip((page - 1) * perPage, |s|), Clip(page * perPage, |s|);
      from <= to <= |s| && Page(s, page, perPage) == s[from..to]
  {
    assert page * perPage == (page - 1) * perPage + perPage;
  }

  lemma SliceIsDifference<T>(s: seq<T>, from: nat, to: nat)
    requires Distinct(s) && from <= to <= |s|
    ensures Members(s[from..to]) == Members(s[..to]) - Members(s[..from])
  {
    assert s[..to] == s[..from] + s[from..to];
    DistinctConcat(s[..from], s[from..to]);
    hide Distinct;
    assert Distinct(s[..to]) by {
      DistinctPrefix(s, to);
    }
    assert forall x :: x in s[from..to] ==> x !in s[..from];
  }

  lemma DistinctPrefix<T>(s: seq<T>, n: nat)
    requires Distinct(s) && n <= |s|
    ensures Distinct(s[..n])
  {}

  /** No two rows that tie stand on both sides of a page break. */
  ghost predicate NoTieAcross<T>(leq: (T, T) -> bool, listing: seq<T>, perPage: nat) {
    forall k: nat :: k > 0 && Breaks(k, perPage, |listing|) ==> !leq(listing[k * perPage], listing[k * perPage - 1])
  }

  predicate Breaks(k: nat, perPage: nat, size: nat) {
    0 < k * perPage < size
  }

  lemma PagePrefixIsFixed<T(!new)>(leq: (T, T) -> bool, rows: set<T>, a: seq<T>, b: seq<T>, perPage: nat, k: nat)
    requires TotalPreorder(leq) && IsListing(leq, a, rows) && IsListing(leq, b, rows)
    requires NoTieAcross(leq, a, perPage)
    ensures |a| == |b| && Members(a[..Clip(k * perPage, |a|)]) == Members(b[..Clip(k * perPage, |b|)])
  {
    ListingMembers(leq, a, rows);
    ListingMembers(leq, b, rows);
    if k * perPage >= |a| {
      assert a[..|a|] == a && b[..|b|] == b;
    } else if k * perPage == 0 {
    } else {
      assert k > 0 && Breaks(k, perPage, |a|);
      PrefixIsFixed(leq, rows, a, b, k * perPage);
    }
  }

  /** Swapping the two rows at a page break where they tie. */
  lemma SwapAcross<T(!new)>(leq: (T, T) -> bool, rows: set<T>, a: seq<T>, m: nat) returns (b: seq<T>)
    requires TotalPreorder(leq) && IsListing(leq, a, rows)
    requires 0 < m < |a| && leq(a[m], a[m - 1])
    ensures IsListing(leq, b, rows) && b == a[m - 1 := a[m]][m := a[m - 1]]
  {
    TieSwap(leq, a, m - 1, m);
    b := a[m - 1 := a[m]][m := a[m - 1]];
  }

  ghost predicate SamePages<T>(a: seq<T>, b: seq<T>, perPage: nat) {
    forall page: nat :: page > 0 ==> Members(Page(a, page, perPage)) == Members(Page(b, page, perPage))
  }

  /**
   * The rows of every page are the same in all listings that an ORDER BY allows, if and only if no
   * tie crosses a page break.
   */
  lemma PagesFixedIff<T(!new)>(leq: (T, T) -> bool, rows: set<T>, a: seq<T>, perPage: nat)
    requires TotalPreorder(leq) && IsListing(leq, a, rows)
    ensures (forall b :: IsListing(leq, b, rows) ==> SamePages(a, b, perPage)) <==> NoTieAcross(leq, a, perPage)
  {
    ListingMembers(leq, a, rows);
    hide TotalPreorder, IsListing, SamePages, NoTieAcross, Page;
    if NoTieAcross(leq, a, perPage) {
      forall b | IsListing(leq, b, rows)
        ensures SamePages(a, b, perPage)
      {
        NoTieGivesSamePages(leq, rows, a, b, perPage);
      }
    } else {
      var b := TieGivesOtherPages(leq, rows, a, perPage);
    }
  }

  lemma NoTieGivesSamePages<T(!new)>(leq: (T, T) -> bool, rows: set<T>, a: seq<T>, b: seq<T>, perPage: nat)
    requires TotalPreorder(leq) && IsListing(leq, a, rows) && IsListing(leq, b, rows)
    requires NoTieAcross(leq, a, perPage)
    ensures SamePages(a, b, perPage)
  {
    ListingMembers(leq, a, rows);
    ListingMembers(leq, b, rows);
    hide TotalPreorder, IsListing, NoTieAcross, Page, Members;
    forall page: nat | page > 0
      ensures Members(Page(a, page, perPage)) == Members(Page(b, page, perPage))
    {
      PagePrefixIsFixed(leq, rows, a, b, perPage, page);
      PagePrefixIsFixed(leq, rows, a, b, perPage, page - 1);
      PageIsDifference(a, page, perPage);
      PageIsDifference(b, page, perPage);
    }
  }

  lemma TieGivesOtherPages<T(!new)>(leq: (T, T) -> bool, rows: set<T>, a: seq<T>, perPage: nat) returns (b: seq<T>)
    requires TotalPreorder(leq) && IsListing(leq, a, rows)
    requires !NoTieAcross(leq, a, perPage)
    ensures IsListing(leq, b, rows) && !SamePages(a, b, perPage)
  {
    ListingMembers(leq, a, rows);
    var k: nat :| k > 0 && Breaks(k, perPage, |a|) && leq(a[k * perPage], a[k * perPage - 1]);
    hide TotalPreorder, IsListing, Page;
    b := SwapAcross(leq, rows, a, k * perPage);
    PageBreakSwapped(a, b, k, perPage);
    assert a[k * perPage] in Members(Page(b, k, perPage)) && a[k * perPage] !in Members(Page(a, k, perPage));
  }

  /** The page that ends at a break, the first row of the one after it, and all pages up to the break. */
  lemma PagesAtBreak<T>(s: seq<T>, k: nat, perPage: nat)
    requires k > 0 && Breaks(k, perPage, |s|)
    ensures
      var m := k * perPage;
      && 0 < perPage <= m
      && Page(s, k, perPage) == s[m - perPage..m]
      && Page(s, k + 1, perPage) != [] && Page(s, k + 1, perPage)[0] == s[m]
      && PagesUpTo(s, perPage, k) == s[..m]
  {
    hide Page, PagesUpTo;
    BreakArithmetic(k, perPage);
    PageIsSlice(s, k, perPage);
    PageIsSlice(s, k + 1, perPage);
    PagesArePrefix(s, perPage, k);
    WindowIsPrefix(s, k * perPage);
  }

  lemma BreakArithmetic(k: nat, perPage: nat)
    requires k * perPage > 0
    ensures k > 0 && perPage > 0
    ensures (k - 1) * perPage == k * perPage - perPage >= 0
    ensures (k + 1) * perPage == k * perPage + perPage
  {
    assert k != 0 && perPage != 0;
  }

  lemma WindowIsPrefix<T>(s: seq<T>, m: nat)
    requires m <= |s|
    ensures Window(s, 0, m) == s[..m]
  {}

  /**
   * After the swap the row before the break is on both pages, read from the two listings, and the
   * row after it on none of the pages up to the break in the first and after it in the second.
   */
  lemma PageBreakSwapped<T>(a: seq<T>, b: seq<T>, k: nat, perPage: nat)
    requires Distinct(a) && k > 0 && Breaks(k, perPage, |a|)
    requires b == a[k * perPage - 1 := a[k * perPage]][k * perPage := a[k * perPage - 1]]
    ensures
      var shown, missed := a[k * perPage - 1], a[k * perPage];
      && shown in Page(a, k, perPage) && shown in Page(b, k + 1, perPage)
      && missed in Page(b, k, perPage) && missed !in Page(a, k, perPage)
      && missed !in PagesUpTo(a, perPage, k)
      && forall page: nat :: page > k ==> missed !in Page(b, page, perPage)
  {
    hide Page, PagesUpTo;
    PagesAtBreak(a, k, perPage);
    PagesAtBreak(b, k, perPage);
    var m := k * perPage;
    assert a[m - perPage..m][perPage - 1] == a[m - 1] && b[m - perPage..m][perPage - 1] == a[m];
    forall page: nat | page > k
      ensures a[m] !in Page(b, page, perPage)
    {
      PageIsLater(b, k, page, perPage);
    }
  }

  lemma PageIsLater<T>(s: seq<T>, k: nat, page: nat, perPage: nat)
    requires page > k
    ensures forall x :: x in Page(s, page, perPage) ==> exists n :: k * perPage <= n < |s| && s[n] == x
  {
    var offset: nat := (page - 1) * perPage;
    assert Page(s, page, perPage) == Window(s, offset, perPage);
    OffsetIsLater(k, page, perPage);
    WindowMembers(s, offset, perPage);
    hide Page, Window;
  }

  lemma OffsetIsLater(k: nat, page: nat, perPage: nat)
    requires page > k
    ensures (page - 1) * perPage >= k * perPage
  {}

  lemma WindowMembers<T>(s: seq<T>, offset: nat, limit: nat)
    ensures forall x :: x in Window(s, offset, limit) ==> exists n :: offset <= n < |s| && s[n] == x
  {
    var from := Clip(offset, |s|);
    forall i | 0 <= i < |Window(s, offset, limit)|
      ensures offset <= from + i < |s| && s[from + i] == Window(s, offset, limit)[i]
    {}
  }
}
