/** The body of a bucket: its pages, the lanes of a page, and its resolution to ids. */
module BucketPages {
  import opened Models
  import opened Sorting
  import opened Paging
  import opened BucketOrder
  import opened BucketQuery

  datatype Row = Row(id: int, finding: Finding)

  function Rows(findings: FindingsTable, ids: set<int>): set<Row> {
    set i | i in ids && i in findings :: Row(i, findings[i])
  }

  function BodyRows(findings: FindingsTable, keep: Finding -> bool, serverId: int, groupId: int): set<Row> {
    Rows(findings, BodyIds(findings, keep, serverId, groupId))
  }

  predicate TrueFirst(x: bool, y: bool) {
    y ==> x
  }

  predicate DescendingNullsLast(x: Option<real>, y: Option<real>) {
    y.None? || (x.Some? && x.value >= y.value)
  }

  function Id(r: Row): int { r.id }
  function IsKev(r: Row): bool { r.finding.facts.isKev }
  function EpssScore(r: Row): Option<real> { r.finding.facts.epssScore }
  function CvssScore(r: Row): Option<real> { r.finding.facts.cvssScore }
  function FirstSeenAt(r: Row): Time { r.finding.firstSeenAt }
  function IdentifierKey(r: Row): string { r.finding.key.identifierKey }

  /** `_bucket_finding_order_clauses`. */
  function BodyOrder(): (Row, Row) -> bool {
    Then(By(IsKev, TrueFirst),
    Then(By(EpssScore, DescendingNullsLast),
    Then(By(CvssScore, DescendingNullsLast),
    Then(By(FirstSeenAt, IntLeq),
         By(IdentifierKey, StringLeq)))))
  }

  predicate SameOrderColumns(x: Finding, y: Finding) {
    && x.facts.isKev == y.facts.isKev
    && x.facts.epssScore == y.facts.epssScore
    && x.facts.cvssScore == y.facts.cvssScore
    && x.firstSeenAt == y.firstSeenAt
    && x.key.identifierKey == y.key.identifierKey
  }

  lemma BodyOrderIsTotal()
    ensures TotalPreorder(BodyOrder())
  {
    hide StringLeq;
    StringLeqOrder();
    IntLeqOrder();
    ByOrder(IsKev, TrueFirst);
    ByOrder(EpssScore, DescendingNullsLast);
    ByOrder(CvssScore, DescendingNullsLast);
    ByOrder(FirstSeenAt, IntLeq);
    ByOrder(IdentifierKey, StringLeq);
    hide TotalPreorder, By, Then;
    var last := Then(By(FirstSeenAt, IntLeq), By(IdentifierKey, StringLeq));
    ThenOrder(By(FirstSeenAt, IntLeq), By(IdentifierKey, StringLeq));
    ThenOrder(By(CvssScore, DescendingNullsLast), last);
    ThenOrder(By(EpssScore, DescendingNullsLast), Then(By(CvssScore, DescendingNullsLast), last));
    ThenOrder(By(IsKev, TrueFirst),
              Then(By(EpssScore, DescendingNullsLast), Then(By(CvssScore, DescendingNullsLast), last)));
  }

  lemma BodyOrderTies(x: Row, y: Row)
    ensures BodyOrder()(x, y) && BodyOrder()(y, x) <==> SameOrderColumns(x.finding, y.finding)
  {
    StringLeqTotal(x.finding.key.identifierKey, y.finding.key.identifierKey);
    var kev, epss, cvss := By(IsKev, TrueFirst), By(EpssScore, DescendingNullsLast), By(CvssScore, DescendingNullsLast);
    var seen, identifier := By(FirstSeenAt, IntLeq), By(IdentifierKey, StringLeq);
    ThenTies(seen, identifier, x, y);
    ThenTies(cvss, Then(seen, identifier), x, y);
    ThenTies(epss, Then(cvss, Then(seen, identifier)), x, y);
    ThenTies(kev, Then(epss, Then(cvss, Then(seen, identifier))), x, y);
    hide Then, StringLeq;
    forall a, b | a in {x, y} && b in {x, y}
      ensures seen(a, b) <==> IntLeq(FirstSeenAt(a), FirstSeenAt(b))
      ensures cvss(a, b) <==> DescendingNullsLast(CvssScore(a), CvssScore(b))
      ensures epss(a, b) <==> DescendingNullsLast(EpssScore(a), EpssScore(b))
      ensures kev(a, b) <==> TrueFirst(IsKev(a), IsKev(b))
    {}
  }

  /** The comparison without the comparators: KEV, scores, age, identifier. */
  lemma BodyOrderSays(x: Row, y: Row)
    ensures BodyOrder()(x, y) <==> MayPrecede(x.finding, y.finding)
  {
    StringLeqSays(x.finding.key.identifierKey, y.finding.key.identifierKey);
    StringLeqSays(y.finding.key.identifierKey, x.finding.key.identifierKey);
    StringLeqTotal(x.finding.key.identifierKey, y.finding.key.identifierKey);
    var kev, epss, cvss := By(IsKev, TrueFirst), By(EpssScore, DescendingNullsLast), By(CvssScore, DescendingNullsLast);
    var seen, identifier := By(FirstSeenAt, IntLeq), By(IdentifierKey, StringLeq);
    ThenSays(seen, identifier, x, y);
    ThenSays(cvss, Then(seen, identifier), x, y);
    ThenSays(epss, Then(cvss, Then(seen, identifier)), x, y);
    ThenSays(kev, Then(epss, Then(cvss, Then(seen, identifier))), x, y);
    BySays(IsKev, TrueFirst, x, y);
    BySays(EpssScore, DescendingNullsLast, x, y);
    BySays(CvssScore, DescendingNullsLast, x, y);
    BySays(FirstSeenAt, IntLeq, x, y);
    BySays(IdentifierKey, StringLeq, x, y);
    hide StringLeq, TextAscends, By, Then;
  }

  /** Rows of one listing stand in the promised order. */
  lemma ListingSays(listing: seq<Row>, m: nat, n: nat)
    requires SortedBy(BodyOrder(), listing) && m < n < |listing|
    ensures MayPrecede(listing[m].finding, listing[n].finding)
  {
    hide BodyOrder, MayPrecede;
    BodyOrderSays(listing[m], listing[n]);
  }

  /** `list_bucket_findings`: one page of some listing that the ORDER BY allows, and the total. */
  method ListBucketFindings(session: Session, keep: Finding -> bool, serverId: int, groupId: int, page: int,
                            perPage: nat)
    returns (result: seq<Row>, total: nat)
    ensures total == |BodyIds(session.findings, keep, serverId, groupId)|
    ensures exists listing :: IsListing(BodyOrder(), listing, BodyRows(session.findings, keep, serverId, groupId))
                           && result == Page(listing, page, perPage)
    ensures forall m, n :: 0 <= m < n < |result| ==> MayPrecede(result[m].finding, result[n].finding)
  {
    total := |BodyIds(session.findings, keep, serverId, groupId)|;
    var rows := FetchAll(BodyRows(session.findings, keep, serverId, groupId));
    hide BodyOrder, BodyRows, BodyIds;
    BodyOrderIsTotal();
    SortSorts(BodyOrder(), rows);
    var listing := Sort(BodyOrder(), rows);
    result := Page(listing, page, perPage);
    hide MayPrecede;
    forall m, n | 0 <= m < n < |result|
      ensures MayPrecede(result[m].finding, result[n].finding)
    {
      PageIsWindow(listing, page, perPage, m);
      PageIsWindow(listing, page, perPage, n);
      hide Page;
      ListingSays(listing, PageStart(page, perPage) + m, PageStart(page, perPage) + n);
    }
  }

  /**
   * Under one fixed listing the pages, read up to the total, are every matching finding exactly
   * once: the same ids that a bulk operation on the bucket resolves to.
   */
  lemma PagesCoverBucket(findings: FindingsTable, keep: Finding -> bool, serverId: int, groupId: int,
                         listing: seq<Row>, perPage: nat, n: nat)
    requires IsListing(BodyOrder(), listing, BodyRows(findings, keep, serverId, groupId))
    requires n * perPage >= |BodyIds(findings, keep, serverId, groupId)|
    ensures IsWholeBucket(findings, BodyIds(findings, keep, serverId, groupId), PagesUpTo(listing, perPage, n))
  {
    hide BodyOrder, BodyIds, SortedBy, Rows;
    var ids := BodyIds(findings, keep, serverId, groupId);
    BodyIdsAreStored(findings, keep, serverId, groupId);
    RowsSize(findings, ids);
    ListingMembers(BodyOrder(), listing, Rows(findings, ids));
    PagesArePrefix(listing, perPage, n);
    assert PagesUpTo(listing, perPage, n) == listing;
    IdsOfListing(findings, ids, listing);
    RowsAreStored(findings, ids);
  }

  /** Every id of the bucket exactly once, each with its stored row. */
  ghost predicate IsWholeBucket(findings: FindingsTable, ids: set<int>, rows: seq<Row>) {
    && multiset(IdsOf(rows)) == multiset(ids)
    && forall r :: r in rows ==> r.id in findings && r.finding == findings[r.id]
  }

  lemma RowsAreStored(findings: FindingsTable, ids: set<int>)
    ensures forall r :: r in Rows(findings, ids) ==> r.id in findings && r.finding == findings[r.id]
  {}

  lemma BodyIdsAreStored(findings: FindingsTable, keep: Finding -> bool, serverId: int, groupId: int)
    ensures BodyIds(findings, keep, serverId, groupId) <= findings.Keys
  {}

  lemma {:induction false} RowsSize(findings: FindingsTable, ids: set<int>)
    requires ids <= findings.Keys
    ensures |Rows(findings, ids)| == |ids|
  {
    if ids == {} {
      assert Rows(findings, ids) == {};
    } else {
      NonEmpty(ids);
      var i :| i in ids;
      RowsSize(findings, ids - {i});
      assert Rows(findings, ids) == Rows(findings, ids - {i}) + {Row(i, findings[i])};
    }
  }

  lemma BodyRowIff(findings: FindingsTable, keep: Finding -> bool, serverId: int, groupId: int)
    ensures forall r :: r in BodyRows(findings, keep, serverId, groupId) <==>
                          r.id in BodyIds(findings, keep, serverId, groupId) && r.finding == findings[r.id]
  {
    hide InBucket;
  }

  /**
   * The five ORDER BY columns fix the listing of a bucket if and only if no two matching findings
   * agree on all of them: the identifier alone breaks no tie between two packages with one CVE.
   */
  lemma ListingDeterminedIff(findings: FindingsTable, keep: Finding -> bool, serverId: int, groupId: int)
    ensures
      var ids := BodyIds(findings, keep, serverId, groupId);
      var rows := BodyRows(findings, keep, serverId, groupId);
      (forall a, b :: IsListing(BodyOrder(), a, rows) && IsListing(BodyOrder(), b, rows) ==> a == b)
      <==> forall i, j :: i in ids && j in ids && SameOrderColumns(findings[i], findings[j]) ==> i == j
  {
    hide BodyOrder, BodyIds, BodyRows, SameOrderColumns;
    var rows := BodyRows(findings, keep, serverId, groupId);
    BodyOrderIsTotal();
    ListingUniqueIff(BodyOrder(), rows);
    BodyIdsAreStored(findings, keep, serverId, groupId);
    BodyRowIff(findings, keep, serverId, groupId);
    forall x, y | x in rows && y in rows
      ensures BodyOrder()(x, y) && BodyOrder()(y, x) <==> SameOrderColumns(x.finding, y.finding)
    {
      BodyOrderTies(x, y);
    }
    forall i | i in BodyIds(findings, keep, serverId, groupId)
      ensures Row(i, findings[i]) in rows
    {}
  }

  /** No page break of the listing falls between two findings that agree on the sort columns. */
  ghost predicate BreaksSeparate(listing: seq<Row>, perPage: nat) {
    forall k: nat :: k > 0 && Breaks(k, perPage, |listing|) ==>
      !SameOrderColumns(listing[k * perPage - 1].finding, listing[k * perPage].finding)
  }

  /**
   * The findings on every page are the same in all listings that the ORDER BY allows, if and only
   * if no page break of one of them falls between two findings that agree on the five columns.
   */
  lemma PagesDeterminedIff(findings: FindingsTable, keep: Finding -> bool, serverId: int, groupId: int,
                           a: seq<Row>, perPage: nat)
    requires IsListing(BodyOrder(), a, BodyRows(findings, keep, serverId, groupId))
    ensures
      var rows := BodyRows(findings, keep, serverId, groupId);
      (forall b :: IsListing(BodyOrder(), b, rows) ==> SamePages(a, b, perPage)) <==> BreaksSeparate(a, perPage)
  {
    hide BodyOrder, BodyRows, SameOrderColumns, SamePages;
    var rows := BodyRows(findings, keep, serverId, groupId);
    BodyOrderIsTotal();
    PagesFixedIff(BodyOrder(), rows, a, perPage);
    forall k: nat | k > 0 && Breaks(k, perPage, |a|)
      ensures BodyOrder()(a[k * perPage], a[k * perPage - 1])
         <==> SameOrderColumns(a[k * perPage - 1].finding, a[k * perPage].finding)
    {
      BodyOrderTies(a[k * perPage - 1], a[k * perPage]);
      assert BodyOrder()(a[k * perPage - 1], a[k * perPage]);
    }
  }

  /**
   * At a page break between two such findings they can trade places between two page loads: then
   * the one is on page `k` and again on page `k + 1`, and the other is on no page that was read.
   */
  lemma TiedFindingCanBeMissed(findings: FindingsTable, keep: Finding -> bool, serverId: int, groupId: int,
                               a: seq<Row>, perPage: nat, k: nat)
    returns (b: seq<Row>)
    requires IsListing(BodyOrder(), a, BodyRows(findings, keep, serverId, groupId))
    requires k > 0 && Breaks(k, perPage, |a|)
    requires SameOrderColumns(a[k * perPage - 1].finding, a[k * perPage].finding)
    ensures IsListing(BodyOrder(), b, BodyRows(findings, keep, serverId, groupId))
    ensures
      var shown, missed := a[k * perPage - 1], a[k * perPage];
      && shown in Page(a, k, perPage) && shown in Page(b, k + 1, perPage)
      && missed !in PagesUpTo(a, perPage, k)
      && forall page: nat :: page > k ==> missed !in Page(b, page, perPage)
  {
    hide BodyOrder, BodyRows, SameOrderColumns, Page, PagesUpTo;
    var rows := BodyRows(findings, keep, serverId, groupId);
    BodyOrderIsTotal();
    BodyOrderTies(a[k * perPage - 1], a[k * perPage]);
    ListingMembers(BodyOrder(), a, rows);
    b := SwapAcross(BodyOrder(), rows, a, k * perPage);
    PageBreakSwapped(a, b, k, perPage);
  }

  /** `resolve_bucket_to_finding_ids`: the whole bucket by (identifier, id). */
  function ResolveOrder(): (Row, Row) -> bool {
    Then(By(IdentifierKey, StringLeq), By(Id, IntLeq))
  }

  method ResolveBucketToFindingIds(session: Session, keep: Finding -> bool, serverId: int, groupId: int)
    returns (ids: seq<int>)
    ensures exists listing ::
              IsListing(ResolveOrder(), listing, BodyRows(session.findings, keep, serverId, groupId)) &&
              ids == IdsOf(listing)
  {
    var rows := FetchAll(BodyRows(session.findings, keep, serverId, groupId));
    hide ResolveOrder, BodyRows;
    ResolveOrderIsTotal();
    SortSorts(ResolveOrder(), rows);
    var listing := Sort(ResolveOrder(), rows);
    ids := IdsOf(listing);
  }

  function IdsOf(listing: seq<Row>): seq<int> {
    seq(|listing|, k requires 0 <= k < |listing| => listing[k].id)
  }

  lemma ResolveOrderIsTotal()
    ensures TotalPreorder(ResolveOrder())
  {
    hide StringLeq;
    StringLeqOrder();
    IntLeqOrder();
    ByOrder(IdentifierKey, StringLeq);
    ByOrder(Id, IntLeq);
    hide TotalPreorder, By, Then;
    ThenOrder(By(IdentifierKey, StringLeq), By(Id, IntLeq));
  }

  /** Unlike the pages, the resolved list is always determined; its ids are the bucket's, each once. */
  lemma ResolvedIsDetermined(findings: FindingsTable, keep: Finding -> bool, serverId: int, groupId: int, a: seq<Row>,
                             b: seq<Row>)
    requires
      var rows := BodyRows(findings, keep, serverId, groupId);
      IsListing(ResolveOrder(), a, rows) && IsListing(ResolveOrder(), b, rows)
    ensures a == b
    ensures multiset(IdsOf(a)) == multiset(BodyIds(findings, keep, serverId, groupId))
  {
    hide BodyIds, StringLeq;
    var rows := BodyRows(findings, keep, serverId, groupId);
    ResolveOrderIsTotal();
    ResolveOrderSeparates(findings, rows);
    ListingUniqueIff(ResolveOrder(), rows);
    hide ResolveOrder;
    ListingMembers(ResolveOrder(), a, rows);
    BodyIdsAreStored(findings, keep, serverId, groupId);
    IdsOfListing(findings, BodyIds(findings, keep, serverId, groupId), a);
  }

  lemma ResolveOrderSeparates(findings: FindingsTable, rows: set<Row>)
    requires forall r :: r in rows ==> r.id in findings && r.finding == findings[r.id]
    ensures TieFree(ResolveOrder(), rows)
  {
    forall x, y | x in rows && y in rows && ResolveOrder()(x, y) && ResolveOrder()(y, x)
      ensures x == y
    {
      ThenTies(By(IdentifierKey, StringLeq), By(Id, IntLeq), x, y);
      hide Then;
      assert By(Id, IntLeq)(x, y) && By(Id, IntLeq)(y, x);
    }
  }

  lemma IdsOfListing(findings: FindingsTable, ids: set<int>, listing: seq<Row>)
    requires ids <= findings.Keys
    requires forall r :: r in listing <==> r in Rows(findings, ids)
    requires forall m, n :: 0 <= m < n < |listing| ==> listing[m] != listing[n]
    ensures multiset(IdsOf(listing)) == multiset(ids)
  {
    var s := IdsOf(listing);
    forall i | i in ids
      ensures i in s
    {
      assert Row(i, findings[i]) in listing;
      var k :| 0 <= k < |listing| && listing[k] == Row(i, findings[i]);
      assert s[k] == i;
    }
    forall k | 0 <= k < |s|
      ensures s[k] in ids
    {
      assert listing[k] in listing;
      assert listing[k] in Rows(findings, ids);
    }
    forall m, n | 0 <= m < n < |s|
      ensures s[m] != s[n]
    {
      assert listing[m] in listing && listing[n] in listing;
      assert listing[m] in Rows(findings, ids) && listing[n] in Rows(findings, ids);
    }
    DistinctMultiset(s, ids);
  }

  lemma {:induction false} DistinctMultiset(s: seq<int>, ids: set<int>)
    requires forall i :: i in s <==> i in ids
    requires forall m, n :: 0 <= m < n < |s| ==> s[m] != s[n]
    ensures multiset(s) == multiset(ids)
  {
    if s == [] {
      forall i
        ensures i !in ids
      {
        assert i !in s;
      }
      assert ids == {};
    } else {
      assert s == [s[0]] + s[1..];
      assert s[0] in s;
      assert forall i :: i in s[1..] ==> i in s;
      DistinctMultiset(s[1..], ids - {s[0]});
      WithoutOne(ids, s[0]);
    }
  }

  lemma WithoutOne(ids: set<int>, i: int)
    requires i in ids
    ensures multiset(ids) == multiset(ids - {i}) + multiset{i}
  {}

  // ------------------------------------------------------------------ lanes of a page

  datatype BucketLaneGroup = BucketLaneGroup(fixLane: FixLane, riskBand: string, riskBandReason: Option<string>,
                                             findings: seq<Finding>)

  function InLane(findings: seq<Finding>, lane: FixLane): seq<Finding> {
    if findings == [] then []
    else
      var last := findings[|findings| - 1];
      InLane(findings[..|findings| - 1], lane) + if FixLaneOf(last.facts) == lane then [last] else []
  }

  /** The entry of a lane: its verdict where there is one, and its findings; no entry for an empty lane. */
  function LaneGroup(evaluations: EvaluationsTable, serverId: int, groupId: int, findings: seq<Finding>, lane: FixLane):
    seq<BucketLaneGroup>
  {
    var key := EvaluationKey(groupId, serverId, lane);
    if InLane(findings, lane) == [] then []
    else if key !in evaluations then [BucketLaneGroup(lane, PENDING_BAND, None, InLane(findings, lane))]
    else
      var ev := evaluations[key];
      [BucketLaneGroup(lane, if ev.riskBand != "" then ev.riskBand else PENDING_BAND, ev.reason,
                       InLane(findings, lane))]
  }

  /** `group_bucket_findings_by_lane`. */
  method GroupBucketFindingsByLane(session: Session, serverId: int, groupId: int, findings: seq<Finding>)
    returns (result: seq<BucketLaneGroup>)
    ensures groupId == 0 ==> result == []
    ensures groupId != 0 ==> result == LaneGroup(session.evaluations, serverId, groupId, findings, Patch)
                                     + LaneGroup(session.evaluations, serverId, groupId, findings, Mitigate)
  {
    hide InLane, LaneGroup;
    EmptyPage(session.evaluations, serverId, groupId);
    if groupId == 0 || findings == [] {
      return [];
    }
    var byLane := SortIntoLanes(findings);
    var lanes := [Patch, Mitigate];
    ghost var patch := LaneGroup(session.evaluations, serverId, groupId, findings, Patch);
    result := [];
    for n := 0 to 2
      invariant n == 1 ==> result == patch
      invariant n == 2 ==> result == patch + LaneGroup(session.evaluations, serverId, groupId, findings, Mitigate)
      invariant n == 0 ==> result == []
    {
      var group := LaneGroupOf(session, serverId, groupId, findings, byLane, lanes[n]);
      assert [] + group == group;
      result := result + group;
    }
  }

  lemma EmptyPage(evaluations: EvaluationsTable, serverId: int, groupId: int)
    ensures LaneGroup(evaluations, serverId, groupId, [], Patch)
              + LaneGroup(evaluations, serverId, groupId, [], Mitigate) == []
  {}

  /** `by_lane.get(lane)`, with nothing for a missing lane. */
  function Listed(byLane: map<FixLane, seq<Finding>>, lane: FixLane): seq<Finding> {
    if lane in byLane then byLane[lane] else []
  }

  method SortIntoLanes(findings: seq<Finding>) returns (byLane: map<FixLane, seq<Finding>>)
    ensures forall lane :: Listed(byLane, lane) == InLane(findings, lane)
  {
    hide FixLaneOf, InLane;
    byLane := map[];
    EmptyLanes();
    assert findings[..0] == [];
    for n := 0 to |findings|
      invariant forall lane :: Listed(byLane, lane) == InLane(findings[..n], lane)
    {
      var before, f := findings[..n], findings[n];
      var lane := FixLaneOf(f.facts);
      LastInLane(before, f);
      assert findings[..n + 1] == before + [f];
      byLane := byLane[lane := Listed(byLane, lane) + [f]];
    }
    assert findings[..|findings|] == findings;
  }

  lemma EmptyLanes()
    ensures forall lane :: InLane([], lane) == []
  {}

  /** The entry of one lane, or nothing for an empty lane. */
  method LaneGroupOf(session: Session, serverId: int, groupId: int, ghost findings: seq<Finding>,
                     byLane: map<FixLane, seq<Finding>>, lane: FixLane) returns (group: seq<BucketLaneGroup>)
    requires Listed(byLane, lane) == InLane(findings, lane)
    ensures group == LaneGroup(session.evaluations, serverId, groupId, findings, lane)
  {
    hide InLane;
    if lane !in byLane || byLane[lane] == [] {
      return [];
    }
    var key := EvaluationKey(groupId, serverId, lane);
    var ev := if key in session.evaluations then Some(session.evaluations[key]) else None;
    var band := if ev.Some? && ev.value.riskBand != "" then ev.value.riskBand else PENDING_BAND;
    group := [BucketLaneGroup(lane, band, if ev.Some? then ev.value.reason else None, byLane[lane])];
  }

  /** Deals the two lanes back out in the order that `lanes` dictates. */
  function Deal(lanes: seq<FixLane>, patch: seq<Finding>, mitigate: seq<Finding>): Option<seq<Finding>> {
    if lanes == [] then
      if patch == [] && mitigate == [] then Some([]) else None
    else
      var from := if lanes[|lanes| - 1] == Patch then patch else mitigate;
      if from == [] then None
      else
        var rest := from[..|from| - 1];
        var before := if lanes[|lanes| - 1] == Patch then Deal(lanes[..|lanes| - 1], rest, mitigate)
                                                    else Deal(lanes[..|lanes| - 1], patch, rest);
        if before.None? then None else Some(before.value + [from[|from| - 1]])
  }

  function LanesOf(findings: seq<Finding>): seq<FixLane> {
    seq(|findings|, n requires 0 <= n < |findings| => FixLaneOf(findings[n].facts))
  }

  lemma LastInLane(findings: seq<Finding>, f: Finding)
    ensures InLane(findings + [f], FixLaneOf(f.facts)) == InLane(findings, FixLaneOf(f.facts)) + [f]
    ensures forall lane :: lane != FixLaneOf(f.facts) ==> InLane(findings + [f], lane) == InLane(findings, lane)
    ensures LanesOf(findings + [f]) == LanesOf(findings) + [FixLaneOf(f.facts)]
  {
    hide FixLaneOf;
    assert (findings + [f])[..|findings|] == findings;
  }

  lemma DealLast(lanes: seq<FixLane>, patch: seq<Finding>, mitigate: seq<Finding>, f: Finding)
    ensures
      var before := Deal(lanes, patch, mitigate);
      var after := if before.None? then None else Some(before.value + [f]);
      && Deal(lanes + [Patch], patch + [f], mitigate) == after
      && Deal(lanes + [Mitigate], patch, mitigate + [f]) == after
  {
    assert (lanes + [Patch])[..|lanes|] == lanes && (lanes + [Mitigate])[..|lanes|] == lanes;
    assert (patch + [f])[..|patch|] == patch && (mitigate + [f])[..|mitigate|] == mitigate;
  }

  /** The lanes of a page are a stable partition: dealing them back out gives the page. */
  lemma {:induction false} LanesPartitionPage(findings: seq<Finding>)
    ensures Deal(LanesOf(findings), InLane(findings, Patch), InLane(findings, Mitigate)) == Some(findings)
    ensures forall lane, f :: f in InLane(findings, lane) ==> FixLaneOf(f.facts) == lane
  {
    if findings != [] {
      var before, f := findings[..|findings| - 1], findings[|findings| - 1];
      assert findings == before + [f];
      LanesPartitionPage(before);
      LastInLane(before, f);
      DealLast(LanesOf(before), InLane(before, Patch), InLane(before, Mitigate), f);
      hide FixLaneOf, Deal, InLane, LanesOf;
      if FixLaneOf(f.facts) == Patch {
        assert InLane(findings, Patch) == InLane(before, Patch) + [f];
      } else {
        assert InLane(findings, Mitigate) == InLane(before, Mitigate) + [f];
      }
    }
  }
}
