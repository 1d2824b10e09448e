/**
 * The bucket view over all servers: one header per (server, group). Headers, pages and bulk
 * resolution use one filter, here the parameter `keep`.
 */
module BucketQuery {
  import opened Models
  import opened Sorting

  // ------------------------------------------------------------------ sets of findings

  function Matching(findings: FindingsTable, keep: Finding -> bool): set<int> {
    set i | i in findings && keep(findings[i])
  }

  /** The WHERE clause of a bucket: server 0 means any server, group 0 means no group. */
  predicate InBucket(f: Finding, serverId: int, groupId: int) {
    && (serverId != 0 ==> f.key.serverId == serverId)
    && (if groupId == 0 then f.groupId.None? else f.groupId == Some(groupId))
  }

  function BodyIds(findings: FindingsTable, keep: Finding -> bool, serverId: int, groupId: int): set<int> {
    set i | i in findings && keep(findings[i]) && InBucket(findings[i], serverId, groupId)
  }

  // ------------------------------------------------------------------ headers

  /** The GROUP BY columns that can differ inside the query. */
  datatype HeaderKey = HeaderKey(serverId: int, groupId: int, band: Option<string>)

  /** The header's own band is the one that is shown, `pending` without a verdict. */
  datatype BucketHeader = BucketHeader(
    key: HeaderKey,
    serverName: string,
    groupLabel: string,
    riskBand: string,
    findingCount: nat)

  const PENDING_BAND: string := "pending"
  const PENDING_LABEL: string := "(ohne Group)"

  const RISK_BAND_SORT_RANK: map<string, nat> :=
    map["escalate" := 70, "act" := 60, "mitigate" := 50, "pending" := 40, "unknown" := 30, "monitor" := 20,
        "noise" := 10]

  /** The two joined tables: server names and group labels, both unique. */
  datatype Names = Names(server: int -> string, group: int -> string)

  /** `COALESCE(risk_band, 'pending')`. */
  function ShownBand(key: HeaderKey): string {
    if key.band.None? then PENDING_BAND else key.band.value
  }

  function BandSortRank(key: HeaderKey): int {
    if ShownBand(key) in RISK_BAND_SORT_RANK then RISK_BAND_SORT_RANK[ShownBand(key)] else 0
  }

  function ServerNameOf(names: Names): HeaderKey -> string {
    (key: HeaderKey) => names.server(key.serverId)
  }

  function GroupLabelOf(names: Names): HeaderKey -> string {
    (key: HeaderKey) => names.group(key.groupId)
  }

  predicate Descending(a: int, b: int) {
    a >= b
  }

  /** The ORDER BY of the header list: rank descending, then server name, then group label. */
  function HeaderOrder(names: Names): (HeaderKey, HeaderKey) -> bool {
    Then(By(BandSortRank, Descending), Then(By(ServerNameOf(names), StringLeq), By(GroupLabelOf(names), StringLeq)))
  }

  /** A row of the left join: a finding and one of its evaluation rows, or none. */
  datatype Joined = Joined(id: int, lane: Option<FixLane>)

  /** The evaluation rows of a (server, group), of which there is one per lane. */
  function LaneRows(evaluations: EvaluationsTable, serverId: int, groupId: int): set<FixLane> {
    set k | k in evaluations && k.serverId == serverId && k.groupId == groupId :: k.fixLane
  }

  /** The right side of the left join: the lane rows, or one row of NULLs. */
  function JoinedLanes(evaluations: EvaluationsTable, serverId: int, groupId: int): set<Option<FixLane>> {
    var lanes := LaneRows(evaluations, serverId, groupId);
    if lanes == {} then {None} else set l | l in lanes :: Some(l)
  }

  predicate Grouped(f: Finding, keep: Finding -> bool) {
    keep(f) && f.groupId.Some?
  }

  function LeftJoin(findings: FindingsTable, evaluations: EvaluationsTable, keep: Finding -> bool): set<Joined> {
    set i, l | i in findings && Grouped(findings[i], keep)
            && l in JoinedLanes(evaluations, findings[i].key.serverId, findings[i].groupId.value) :: Joined(i, l)
  }

  function KeyOf(findings: FindingsTable, evaluations: EvaluationsTable, j: Joined): HeaderKey
    requires j.id in findings && findings[j.id].groupId.Some?
  {
    var f := findings[j.id];
    var key := if j.lane.None? then None else Some(EvaluationKey(f.groupId.value, f.key.serverId, j.lane.value));
    HeaderKey(f.key.serverId, f.groupId.value,
              if key.Some? && key.value in evaluations then Some(evaluations[key.value].riskBand) else None)
  }

  /** The joined rows of one group of the GROUP BY. */
  function RowsWithKey(findings: FindingsTable, evaluations: EvaluationsTable, keep: Finding -> bool, key: HeaderKey)
    : set<Joined>
  {
    set j | j in LeftJoin(findings, evaluations, keep) && KeyOf(findings, evaluations, j) == key
  }

  function HeaderKeys(findings: FindingsTable, evaluations: EvaluationsTable, keep: Finding -> bool): set<HeaderKey> {
    set j | j in LeftJoin(findings, evaluations, keep) :: KeyOf(findings, evaluations, j)
  }

  function KeysOf(headers: seq<BucketHeader>): set<HeaderKey> {
    set h | h in headers :: h.key
  }

  predicate DistinctHeaders(headers: seq<BucketHeader>) {
    forall m, n :: 0 <= m < n < |headers| ==> headers[m].key != headers[n].key
  }

  ghost predicate CountsRows(headers: seq<BucketHeader>, findings: FindingsTable, evaluations: EvaluationsTable,
                             keep: Finding -> bool) {
    forall n :: 0 <= n < |headers| ==>
      headers[n].findingCount == |RowsWithKey(findings, evaluations, keep, headers[n].key)|
  }

  /** One header per group, with its row count, in some order. */
  ghost predicate AreHeaders(headers: seq<BucketHeader>, findings: FindingsTable, evaluations: EvaluationsTable,
                             keep: Finding -> bool) {
    && DistinctHeaders(headers)
    && CountsRows(headers, findings, evaluations, keep)
    && KeysOf(headers) == HeaderKeys(findings, evaluations, keep)
  }

  function HeaderOf(findings: FindingsTable, evaluations: EvaluationsTable, keep: Finding -> bool, names: Names,
                    key: HeaderKey):
    BucketHeader
  {
    BucketHeader(key, names.server(key.serverId), names.group(key.groupId), ShownBand(key),
                 |RowsWithKey(findings, evaluations, keep, key)|)
  }

  /** The headers of the groups in some order that the ORDER BY allows. */
  ghost predicate AreOrdered(headers: seq<BucketHeader>, findings: FindingsTable, evaluations: EvaluationsTable,
                             keep: Finding -> bool, names: Names, listing: seq<HeaderKey>) {
    && IsListing(HeaderOrder(names), listing, HeaderKeys(findings, evaluations, keep))
    && |headers| == |listing|
    && forall n :: 0 <= n < |listing| ==> headers[n] == HeaderOf(findings, evaluations, keep, names, listing[n])
  }

  /** `list_buckets`. */
  method ListBuckets(session: Session, keep: Finding -> bool, names: Names) returns (result: seq<BucketHeader>)
    ensures AreHeaders(result, session.findings, session.evaluations, keep)
    ensures exists listing :: AreOrdered(result, session.findings, session.evaluations, keep, names, listing)
  {
    hide RowsWithKey, HeaderKeys, HeaderOrder, HeaderOf, SortedBy, AreHeaders;
    var keys := FetchAll(HeaderKeys(session.findings, session.evaluations, keep));
    var rows := Sort(HeaderOrder(names), keys);
    HeaderOrderIsTotal(names);
    SortSorts(HeaderOrder(names), keys);
    result := [];
    for n := 0 to |rows|
      invariant |result| == n
      invariant forall k :: 0 <= k < n ==>
                  result[k] == HeaderOf(session.findings, session.evaluations, keep, names, rows[k])
    {
      result := result + [HeaderOf(session.findings, session.evaluations, keep, names, rows[n])];
    }
    assert AreOrdered(result, session.findings, session.evaluations, keep, names, rows);
    OrderedAreHeaders(result, session.findings, session.evaluations, keep, names, rows);
  }

  lemma OrderedAreHeaders(headers: seq<BucketHeader>, findings: FindingsTable, evaluations: EvaluationsTable,
                          keep: Finding -> bool, names: Names, listing: seq<HeaderKey>)
    requires AreOrdered(headers, findings, evaluations, keep, names, listing)
    ensures AreHeaders(headers, findings, evaluations, keep)
  {
    hide RowsWithKey, HeaderKeys, HeaderOrder, SortedBy;
    var keys := HeaderKeys(findings, evaluations, keep);
    ListingMembers(HeaderOrder(names), listing, keys);
    forall key | key in keys
      ensures key in KeysOf(headers)
    {
      assert key in listing;
      var n :| 0 <= n < |listing| && listing[n] == key;
      assert headers[n] in headers;
    }
    forall key | key in KeysOf(headers)
      ensures key in keys
    {
      var h :| h in headers && h.key == key;
      var n :| 0 <= n < |headers| && headers[n] == h;
      assert listing[n] in listing;
    }
  }

  lemma HeaderOrderIsTotal(names: Names)
    ensures TotalPreorder(HeaderOrder(names))
  {
    StringLeqOrder();
    DescendingOrder();
    ByOrder(BandSortRank, Descending);
    ByOrder(ServerNameOf(names), StringLeq);
    ByOrder(GroupLabelOf(names), StringLeq);
    hide TotalPreorder, By, Then;
    ThenOrder(By(ServerNameOf(names), StringLeq), By(GroupLabelOf(names), StringLeq));
    ThenOrder(By(BandSortRank, Descending),
              Then(By(ServerNameOf(names), StringLeq), By(GroupLabelOf(names), StringLeq)));
  }

  lemma DescendingOrder()
    ensures TotalPreorder(Descending)
  {}

  /** What the schema guarantees: unique names, and verdicts with one of the ranked bands. */
  ghost predicate NamedAndRanked(names: Names, evaluations: EvaluationsTable) {
    && (forall a, b :: names.server(a) == names.server(b) ==> a == b)
    && (forall a, b :: names.group(a) == names.group(b) ==> a == b)
    && forall k :: k in evaluations ==> evaluations[k].riskBand in RISK_BAND_SORT_RANK
  }

  /** Under the constraints of the schema the list of headers is determined, down to its order. */
  lemma HeaderListIsDetermined(findings: FindingsTable, evaluations: EvaluationsTable, keep: Finding -> bool,
                               names: Names, a: seq<BucketHeader>, b: seq<BucketHeader>, listingA: seq<HeaderKey>,
                               listingB: seq<HeaderKey>)
    requires NamedAndRanked(names, evaluations)
    requires AreOrdered(a, findings, evaluations, keep, names, listingA)
    requires AreOrdered(b, findings, evaluations, keep, names, listingB)
    ensures a == b
  {
    var keys := HeaderKeys(findings, evaluations, keep);
    hide HeaderKeys, HeaderOrder, HeaderOf, NamedAndRanked;
    HeaderOrderIsTotal(names);
    ListingUniqueIff(HeaderOrder(names), keys);
    forall x, y | x in keys && y in keys && HeaderOrder(names)(x, y) && HeaderOrder(names)(y, x)
      ensures x == y
    {
      HeaderOrderTies(names, x, y);
      KeysOfOneBucket(findings, evaluations, keep, names, x, y);
    }
    assert listingA == listingB;
  }

  lemma HeaderOrderTies(names: Names, x: HeaderKey, y: HeaderKey)
    requires HeaderOrder(names)(x, y) && HeaderOrder(names)(y, x)
    ensures BandSortRank(x) == BandSortRank(y)
    ensures names.server(x.serverId) == names.server(y.serverId) && names.group(x.groupId) == names.group(y.groupId)
  {
    var rank := By(BandSortRank, Descending);
    var server, group := By(ServerNameOf(names), StringLeq), By(GroupLabelOf(names), StringLeq);
    ThenTies(server, group, x, y);
    ThenTies(rank, Then(server, group), x, y);
    StringLeqTotal(names.server(x.serverId), names.server(y.serverId));
    StringLeqTotal(names.group(x.groupId), names.group(y.groupId));
    hide Then, StringLeq, BandSortRank;
    assert Descending(BandSortRank(x), BandSortRank(y)) && Descending(BandSortRank(y), BandSortRank(x));
  }

  lemma RanksDiffer(a: string, b: string)
    requires a in RISK_BAND_SORT_RANK && b in RISK_BAND_SORT_RANK && RISK_BAND_SORT_RANK[a] == RISK_BAND_SORT_RANK[b]
    ensures a == b
  {}

  /** Two groups of one bucket that tie have the same band: a bucket has a verdict in both or in neither. */
  lemma KeysOfOneBucket(findings: FindingsTable, evaluations: EvaluationsTable, keep: Finding -> bool, names: Names,
                        x: HeaderKey, y: HeaderKey)
    requires NamedAndRanked(names, evaluations)
    requires x in HeaderKeys(findings, evaluations, keep) && y in HeaderKeys(findings, evaluations, keep)
    requires BandSortRank(x) == BandSortRank(y)
    requires names.server(x.serverId) == names.server(y.serverId) && names.group(x.groupId) == names.group(y.groupId)
    ensures x == y
  {
    BandOfKey(findings, evaluations, keep, x);
    BandOfKey(findings, evaluations, keep, y);
    hide HeaderKeys, LaneRows;
    assert x.band.Some? ==> x.band.value in RISK_BAND_SORT_RANK;
    assert y.band.Some? ==> y.band.value in RISK_BAND_SORT_RANK;
    if x.band.Some? && y.band.Some? {
      RanksDiffer(x.band.value, y.band.value);
    }
  }

  lemma BandOfKey(findings: FindingsTable, evaluations: EvaluationsTable, keep: Finding -> bool, key: HeaderKey)
    requires key in HeaderKeys(findings, evaluations, keep)
    ensures key.band.None? <==> LaneRows(evaluations, key.serverId, key.groupId) == {}
    ensures key.band.Some? ==> exists k :: k in evaluations && evaluations[k].riskBand == key.band.value
  {
    var j :| j in LeftJoin(findings, evaluations, keep) && KeyOf(findings, evaluations, j) == key;
    if j.lane.Some? {
      assert EvaluationKey(key.groupId, key.serverId, j.lane.value) in evaluations;
    }
  }

  lemma KeysSnoc(headers: seq<BucketHeader>, h: BucketHeader)
    ensures KeysOf(headers + [h]) == KeysOf(headers) + {h.key}
    ensures DistinctHeaders(headers) && h.key !in KeysOf(headers) ==> DistinctHeaders(headers + [h])
  {
    assert forall n :: 0 <= n < |headers| ==> headers[n] in headers;
  }

  /** `pending_bucket_header`: the collecting header of the findings without a group, if there are any. */
  method PendingBucketHeader(session: Session, keep: Finding -> bool) returns (header: Option<BucketHeader>)
    ensures header.None? <==> BodyIds(session.findings, keep, 0, 0) == {}
    ensures header.Some? ==>
      header.value == BucketHeader(HeaderKey(0, 0, None), "", "(ohne Group)", "pending",
                                   |BodyIds(session.findings, keep, 0, 0)|)
  {
    var total := |BodyIds(session.findings, keep, 0, 0)|;
    if total == 0 {
      return None;
    }
    header := Some(BucketHeader(HeaderKey(0, 0, None), "", PENDING_LABEL, PENDING_BAND, total));
  }

  // ------------------------------------------------------------------ header counts against body totals

  /** The finding counts of the headers of one bucket, added up; a (server, group) can have several. */
  function BucketTotal(headers: seq<BucketHeader>, serverId: int, groupId: int): nat {
    if headers == [] then 0
    else
      var h := headers[|headers| - 1];
      BucketTotal(headers[..|headers| - 1], serverId, groupId)
      + if h.key.serverId == serverId && h.key.groupId == groupId then h.findingCount else 0
  }

  function GrandTotal(headers: seq<BucketHeader>): nat {
    if headers == [] then 0
    else GrandTotal(headers[..|headers| - 1]) + headers[|headers| - 1].findingCount
  }

  /** The joined rows that the headers account for. */
  ghost function Accounted(headers: seq<BucketHeader>, findings: FindingsTable, evaluations: EvaluationsTable,
                           keep: Finding -> bool): set<Joined> {
    set j | j in LeftJoin(findings, evaluations, keep) && KeyOf(findings, evaluations, j) in KeysOf(headers)
  }

  ghost function OfBucket(findings: FindingsTable, rows: set<Joined>, serverId: int, groupId: int): set<Joined> {
    set j | j in rows && j.id in findings && findings[j.id].key.serverId == serverId &&
      findings[j.id].groupId == Some(groupId)
  }

  /** Headers with distinct keys count disjoint joined rows. */
  lemma {:induction false} TotalsCountRows(headers: seq<BucketHeader>, findings: FindingsTable,
                                           evaluations: EvaluationsTable, keep: Finding -> bool, serverId: int,
                                           groupId: int)
    requires DistinctHeaders(headers) && CountsRows(headers, findings, evaluations, keep)
    ensures GrandTotal(headers) == |Accounted(headers, findings, evaluations, keep)|
    ensures BucketTotal(headers, serverId, groupId)
         == |OfBucket(findings, Accounted(headers, findings, evaluations, keep), serverId, groupId)|
  {
    var all := Accounted(headers, findings, evaluations, keep);
    if headers == [] {
      assert all == {} && OfBucket(findings, all, serverId, groupId) == {};
    } else {
      hide Accounted, OfBucket, RowsWithKey, LeftJoin;
      var n := |headers| - 1;
      var key := headers[n].key;
      var before := Accounted(headers[..n], findings, evaluations, keep);
      var rows := RowsWithKey(findings, evaluations, keep, key);
      TotalsCountRows(headers[..n], findings, evaluations, keep, serverId, groupId);
      AccountedSnoc(headers, findings, evaluations, keep);
      OfBucketSplits(findings, before, rows, serverId, groupId);
      RowsOfOneKey(findings, evaluations, keep, key, serverId, groupId);
      assert |before + rows| == |before| + |rows|;
    }
  }

  /** The last header accounts for new rows: those with its key. */
  lemma AccountedSnoc(headers: seq<BucketHeader>, findings: FindingsTable, evaluations: EvaluationsTable,
                      keep: Finding -> bool)
    requires headers != [] && DistinctHeaders(headers)
    ensures
      var before := Accounted(headers[..|headers| - 1], findings, evaluations, keep);
      var rows := RowsWithKey(findings, evaluations, keep, headers[|headers| - 1].key);
      before !! rows && Accounted(headers, findings, evaluations, keep) == before + rows
  {
    hide LeftJoin, KeyOf, KeysOf;
    JoinedRowsAreGrouped(findings, evaluations, keep);
    LastKeyIsNew(headers);
  }

  lemma LastKeyIsNew(headers: seq<BucketHeader>)
    requires headers != [] && DistinctHeaders(headers)
    ensures headers[|headers| - 1].key !in KeysOf(headers[..|headers| - 1])
    ensures KeysOf(headers) == KeysOf(headers[..|headers| - 1]) + {headers[|headers| - 1].key}
  {
    assert headers == headers[..|headers| - 1] + [headers[|headers| - 1]];
    KeysSnoc(headers[..|headers| - 1], headers[|headers| - 1]);
  }

  lemma OfBucketSplits(findings: FindingsTable, a: set<Joined>, b: set<Joined>, serverId: int, groupId: int)
    requires a !! b
    ensures |OfBucket(findings, a + b, serverId, groupId)|
         == |OfBucket(findings, a, serverId, groupId)| + |OfBucket(findings, b, serverId, groupId)|
  {
    var x, y := OfBucket(findings, a, serverId, groupId), OfBucket(findings, b, serverId, groupId);
    assert OfBucket(findings, a + b, serverId, groupId) == x + y && x !! y;
  }

  /** All rows of one header belong to its bucket. */
  lemma RowsOfOneKey(findings: FindingsTable, evaluations: EvaluationsTable, keep: Finding -> bool, key: HeaderKey,
                     serverId: int, groupId: int)
    ensures OfBucket(findings, RowsWithKey(findings, evaluations, keep, key), serverId, groupId)
         == if key.serverId == serverId && key.groupId == groupId
            then RowsWithKey(findings, evaluations, keep, key)
            else {}
  {
    hide LeftJoin;
    JoinedRowsAreGrouped(findings, evaluations, keep);
  }

  lemma JoinedRowsAreGrouped(findings: FindingsTable, evaluations: EvaluationsTable, keep: Finding -> bool)
    ensures forall j :: j in LeftJoin(findings, evaluations, keep) ==> j.id in findings && findings[j.id].groupId.Some?
  {}

  function Product(ids: set<int>, lanes: set<Option<FixLane>>): set<Joined> {
    set i, l | i in ids && l in lanes :: Joined(i, l)
  }

  lemma {:induction false} ProductSize(ids: set<int>, lanes: set<Option<FixLane>>)
    ensures |Product(ids, lanes)| == |ids| * |lanes|
  {
    if ids == {} {
      assert Product(ids, lanes) == {};
    } else {
      NonEmpty(ids);
      var i :| i in ids;
      ProductSize(ids - {i}, lanes);
      RowOfProductSize(i, lanes);
      ProductSplits(ids, i, lanes);
      hide Product;
      calc {
        |Product(ids, lanes)|;
        |Product(ids - {i}, lanes)| + |Product({i}, lanes)|;
        (|ids| - 1) * |lanes| + |lanes|;
        |ids| * |lanes|;
      }
    }
  }

  lemma ProductSplits(ids: set<int>, i: int, lanes: set<Option<FixLane>>)
    requires i in ids
    ensures |Product(ids, lanes)| == |Product(ids - {i}, lanes)| + |Product({i}, lanes)|
  {
    assert Product(ids, lanes) == Product(ids - {i}, lanes) + Product({i}, lanes);
    assert Product(ids - {i}, lanes) !! Product({i}, lanes);
  }

  lemma {:induction false} RowOfProductSize(i: int, lanes: set<Option<FixLane>>)
    ensures |Product({i}, lanes)| == |lanes|
  {
    if lanes == {} {
      assert Product({i}, lanes) == {};
    } else {
      var l :| l in lanes;
      RowOfProductSize(i, lanes - {l});
      assert Product({i}, lanes) == Product({i}, lanes - {l}) + {Joined(i, l)};
    }
  }

  lemma {:induction false} SomeSize(lanes: set<FixLane>)
    ensures |set l | l in lanes :: Some(l)| == |lanes|
  {
    if lanes == {} {
      assert (set l | l in lanes :: Some(l)) == {};
    } else {
      var l :| l in lanes;
      SomeSize(lanes - {l});
      assert (set x | x in lanes :: Some(x)) == (set x | x in lanes - {l} :: Some(x)) + {Some(l)};
    }
  }

  lemma JoinedLanesSize(evaluations: EvaluationsTable, serverId: int, groupId: int)
    ensures
      var n := |LaneRows(evaluations, serverId, groupId)|;
      |JoinedLanes(evaluations, serverId, groupId)| == if n == 0 then 1 else n
  {
    SomeSize(LaneRows(evaluations, serverId, groupId));
  }

  /**
   * The header join ignores the lane: the headers of a bucket count every finding of its body once
   * per evaluation row, and once when there is none.
   */
  lemma HeadersCountPerLane(headers: seq<BucketHeader>, findings: FindingsTable, evaluations: EvaluationsTable,
                            keep: Finding -> bool, serverId: int, groupId: int)
    requires AreHeaders(headers, findings, evaluations, keep)
    requires serverId != 0 && groupId != 0
    ensures
      var n := |LaneRows(evaluations, serverId, groupId)|;
      BucketTotal(headers, serverId, groupId) == |BodyIds(findings, keep, serverId, groupId)| * if n == 0 then 1 else n
  {
    TotalsCountRows(headers, findings, evaluations, keep, serverId, groupId);
    AllAccounted(headers, findings, evaluations, keep);
    var ids, lanes := BodyIds(findings, keep, serverId, groupId), JoinedLanes(evaluations, serverId, groupId);
    ProductSize(ids, lanes);
    JoinedLanesSize(evaluations, serverId, groupId);
    BucketRowsAreProduct(findings, evaluations, keep, serverId, groupId);
  }

  lemma BucketRowsAreProduct(findings: FindingsTable, evaluations: EvaluationsTable, keep: Finding -> bool,
                             serverId: int, groupId: int)
    requires serverId != 0 && groupId != 0
    ensures OfBucket(findings, LeftJoin(findings, evaluations, keep), serverId, groupId)
         == Product(BodyIds(findings, keep, serverId, groupId), JoinedLanes(evaluations, serverId, groupId))
  {
    hide JoinedLanes;
  }

  lemma AllAccounted(headers: seq<BucketHeader>, findings: FindingsTable, evaluations: EvaluationsTable,
                     keep: Finding -> bool)
    requires AreHeaders(headers, findings, evaluations, keep)
    ensures Accounted(headers, findings, evaluations, keep) == LeftJoin(findings, evaluations, keep)
  {
    hide LeftJoin, RowsWithKey, KeysOf;
    JoinedRowsAreGrouped(findings, evaluations, keep);
  }

  /** So headers and body agree exactly when the bucket is empty or has at most one evaluation row. */
  lemma HeadersMatchBodyIff(headers: seq<BucketHeader>, findings: FindingsTable, evaluations: EvaluationsTable,
                            keep: Finding -> bool, serverId: int, groupId: int)
    requires AreHeaders(headers, findings, evaluations, keep)
    requires serverId != 0 && groupId != 0
    ensures BucketTotal(headers, serverId, groupId) == |BodyIds(findings, keep, serverId, groupId)|
       <==> BodyIds(findings, keep, serverId, groupId) == {} || |LaneRows(evaluations, serverId, groupId)| <= 1
  {
    hide BucketTotal, BodyIds, LaneRows, AreHeaders;
    HeadersCountPerLane(headers, findings, evaluations, keep, serverId, groupId);
    TimesIsSelfIff(|BodyIds(findings, keep, serverId, groupId)|, |LaneRows(evaluations, serverId, groupId)|);
  }

  lemma TimesIsSelfIff(b: nat, n: nat)
    ensures b * (if n == 0 then 1 else n) == b <==> b == 0 || n <= 1
  {
    assert n >= 2 && b >= 1 ==> b * n >= b * 2;
  }

  // ------------------------------------------------------------------ all headers together

  /** One joined row per finding. */
  function FirstLane(evaluations: EvaluationsTable, serverId: int, groupId: int): Option<FixLane> {
    var lanes := LaneRows(evaluations, serverId, groupId);
    if Patch in lanes then Some(Patch) else if Mitigate in lanes then Some(Mitigate) else None
  }

  function OneRowEach(findings: FindingsTable, evaluations: EvaluationsTable, ids: set<int>): set<Joined> {
    set i | i in ids && i in findings && findings[i].groupId.Some? ::
      Joined(i, FirstLane(evaluations, findings[i].key.serverId, findings[i].groupId.value))
  }

  lemma {:induction false} OneRowEachSize(findings: FindingsTable, evaluations: EvaluationsTable, ids: set<int>)
    requires forall i :: i in ids ==> i in findings && findings[i].groupId.Some?
    ensures |OneRowEach(findings, evaluations, ids)| == |ids|
  {
    hide FirstLane;
    if ids == {} {
      assert OneRowEach(findings, evaluations, ids) == {};
    } else {
      NonEmpty(ids);
      var i :| i in ids;
      OneRowEachSize(findings, evaluations, ids - {i});
      var row := Joined(i, FirstLane(evaluations, findings[i].key.serverId, findings[i].groupId.value));
      assert OneRowEach(findings, evaluations, ids) == OneRowEach(findings, evaluations, ids - {i}) + {row};
    }
  }

  lemma FirstLaneIsJoined(evaluations: EvaluationsTable, serverId: int, groupId: int)
    ensures FirstLane(evaluations, serverId, groupId) in JoinedLanes(evaluations, serverId, groupId)
    ensures JoinedLanes(evaluations, serverId, groupId) == {FirstLane(evaluations, serverId, groupId)}
       <==> |LaneRows(evaluations, serverId, groupId)| <= 1
  {
    var lanes := LaneRows(evaluations, serverId, groupId);
    assert forall l :: l in lanes ==> l == Patch || l == Mitigate;
    if lanes == {} {
    } else if Patch in lanes && Mitigate in lanes {
      assert lanes == {Patch, Mitigate};
      assert Some(Mitigate) in JoinedLanes(evaluations, serverId, groupId);
    } else {
      var l := if Patch in lanes then Patch else Mitigate;
      assert l in lanes && lanes == {l};
    }
  }

  /**
   * All headers and the pending header together count exactly the matching findings, if and only
   * if no matching finding belongs to a (server, group) with two evaluation rows.
   */
  lemma GrandTotalIff(headers: seq<BucketHeader>, findings: FindingsTable, evaluations: EvaluationsTable,
                      keep: Finding -> bool)
    requires AreHeaders(headers, findings, evaluations, keep)
    ensures GrandTotal(headers) + |BodyIds(findings, keep, 0, 0)| == |Matching(findings, keep)|
       <==> forall i :: i in Matching(findings, keep) && findings[i].groupId.Some? ==>
              |LaneRows(evaluations, findings[i].key.serverId, findings[i].groupId.value)| <= 1
  {
    hide LeftJoin, OneRowEach, LaneRows, Accounted, OfBucket, AreHeaders;
    AreHeadersParts(headers, findings, evaluations, keep);
    TotalsCountRows(headers, findings, evaluations, keep, 0, 0);
    AllAccounted(headers, findings, evaluations, keep);
    var grouped := GroupedIds(findings, keep);
    MatchingSize(findings, keep);
    OneRowEachSize(findings, evaluations, grouped);
    JoinIsOneRowEachIff(findings, evaluations, keep);
    SubsetSize(OneRowEach(findings, evaluations, grouped), LeftJoin(findings, evaluations, keep));
  }

  lemma AreHeadersParts(headers: seq<BucketHeader>, findings: FindingsTable, evaluations: EvaluationsTable,
                        keep: Finding -> bool)
    requires AreHeaders(headers, findings, evaluations, keep)
    ensures DistinctHeaders(headers) && CountsRows(headers, findings, evaluations, keep)
  {}

  function GroupedIds(findings: FindingsTable, keep: Finding -> bool): set<int> {
    set i | i in findings && Grouped(findings[i], keep)
  }

  lemma MatchingSize(findings: FindingsTable, keep: Finding -> bool)
    ensures |Matching(findings, keep)| == |GroupedIds(findings, keep)| + |BodyIds(findings, keep, 0, 0)|
    ensures forall i :: i in GroupedIds(findings, keep) <==> i in Matching(findings, keep) && findings[i].groupId.Some?
  {
    var all, grouped, pending := Matching(findings, keep), GroupedIds(findings, keep), BodyIds(findings, keep, 0, 0);
    assert forall i :: i in grouped <==> i in all && findings[i].groupId.Some?;
    assert forall i :: i in pending <==> i in all && findings[i].groupId.None?;
    assert all == grouped + pending;
    assert |grouped + pending| == |grouped| + |pending|;
  }

  lemma SubsetSize(a: set<Joined>, b: set<Joined>)
    requires a <= b
    ensures |a| <= |b|
    ensures |a| == |b| <==> a == b
  {
    assert |b| == |a| + |b - a|;
    assert b == a + (b - a);
  }

  /** A finding has one joined row exactly when its bucket has at most one evaluation row. */
  lemma OneRowIff(findings: FindingsTable, evaluations: EvaluationsTable, keep: Finding -> bool, i: int)
    requires i in GroupedIds(findings, keep)
    ensures
      var s, g := findings[i].key.serverId, findings[i].groupId.value;
      && Joined(i, FirstLane(evaluations, s, g)) in LeftJoin(findings, evaluations, keep)
      && (|LaneRows(evaluations, s, g)| <= 1
          <==> forall l :: Joined(i, l) in LeftJoin(findings, evaluations, keep) ==> l == FirstLane(evaluations, s, g))
  {
    hide FirstLane, JoinedLanes, LaneRows;
    var s, g := findings[i].key.serverId, findings[i].groupId.value;
    FirstLaneIsJoined(evaluations, s, g);
    assert forall l :: Joined(i, l) in LeftJoin(findings, evaluations, keep) <==> l in JoinedLanes(evaluations, s, g);
  }

  lemma JoinIsOneRowEachIff(findings: FindingsTable, evaluations: EvaluationsTable, keep: Finding -> bool)
    ensures
      var one := OneRowEach(findings, evaluations, GroupedIds(findings, keep));
      var join := LeftJoin(findings, evaluations, keep);
      && one <= join
      && (one == join <==> forall i :: i in GroupedIds(findings, keep) ==>
                             |LaneRows(evaluations, findings[i].key.serverId, findings[i].groupId.value)| <= 1)
  {
    var grouped := GroupedIds(findings, keep);
    var one, join := OneRowEach(findings, evaluations, grouped), LeftJoin(findings, evaluations, keep);
    JoinIsOverGrouped(findings, evaluations, keep);
    forall i | i in grouped {
      OneRowIff(findings, evaluations, keep, i);
    }
    hide FirstLane, LaneRows, LeftJoin, Grouped;
    if one == join {
      forall i | i in grouped
        ensures |LaneRows(evaluations, findings[i].key.serverId, findings[i].groupId.value)| <= 1
      {
        assert forall l :: Joined(i, l) in one ==>
                 l == FirstLane(evaluations, findings[i].key.serverId, findings[i].groupId.value);
      }
    }
  }

  lemma JoinIsOverGrouped(findings: FindingsTable, evaluations: EvaluationsTable, keep: Finding -> bool)
    ensures forall j :: j in LeftJoin(findings, evaluations, keep) ==> j.id in GroupedIds(findings, keep)
  {}
}
