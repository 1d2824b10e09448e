/** What the bucket view shows, in terms of the columns. */
module BucketLaws {
  import opened Models
  import opened Sorting
  import opened Paging
  import opened BucketOrder
  import opened BucketQuery
  import opened BucketPages

  /** Rows of successive pages of one listing stand in the promised order as well. */
  lemma PagesAscend(listing: seq<Row>, perPage: nat, p: int, q: int, m: nat, n: nat)
    requires SortedBy(BodyOrder(), listing) && 1 <= p < q
    requires m < |Page(listing, p, perPage)| && n < |Page(listing, q, perPage)|
    ensures MayPrecede(Page(listing, p, perPage)[m].finding, Page(listing, q, perPage)[n].finding)
  {
    PageIsWindow(listing, p, perPage, m);
    PageIsWindow(listing, q, perPage, n);
    LaterPageStartsLater(p, q, perPage);
    hide BodyOrder, Page, MayPrecede;
    ListingSays(listing, PageStart(p, perPage) + m, PageStart(q, perPage) + n);
  }

  lemma LaterPageStartsLater(p: int, q: int, perPage: nat)
    requires 1 <= p < q
    ensures PageStart(p, perPage) + perPage <= PageStart(q, perPage)
  {
    assert (q - 1) * perPage == (p - 1) * perPage + (q - p) * perPage;
    assert (q - p) * perPage == perPage + (q - p - 1) * perPage;
    assert (q - p - 1) * perPage >= 0;
  }

  /** Which findings a bucket holds; server 0 stands for all servers, group 0 for the findings without a group. */
  lemma BodySays(findings: FindingsTable, keep: Finding -> bool, serverId: int, groupId: int, i: int)
    ensures i in BodyIds(findings, keep, serverId, groupId)
       <==> && i in findings && keep(findings[i])
            && (serverId == 0 || findings[i].key.serverId == serverId)
            && findings[i].groupId == (if groupId == 0 then None else Some(groupId))
  {}

  /** The ids of a bulk operation ascend by identifier, and by id where the identifier is the same. */
  lemma ResolvedAscend(listing: seq<Row>, m: nat, n: nat)
    requires SortedBy(ResolveOrder(), listing) && m < n < |listing|
    ensures
      var x, y := listing[m], listing[n];
      if x.finding.key.identifierKey == y.finding.key.identifierKey then x.id <= y.id
      else TextAscends(x.finding.key.identifierKey, y.finding.key.identifierKey)
  {
    var x, y := listing[m], listing[n];
    assert ResolveOrder()(x, y);
    StringLeqSays(x.finding.key.identifierKey, y.finding.key.identifierKey);
    StringLeqSays(y.finding.key.identifierKey, x.finding.key.identifierKey);
    StringLeqTotal(x.finding.key.identifierKey, y.finding.key.identifierKey);
    hide StringLeq, TextAscends;
    var identifier, id := By(IdentifierKey, StringLeq), By(Id, IntLeq);
    assert identifier(x, y) == StringLeq(x.finding.key.identifierKey, y.finding.key.identifierKey);
    assert identifier(y, x) == StringLeq(y.finding.key.identifierKey, x.finding.key.identifierKey);
  }

  // ------------------------------------------------------------------ headers

  lemma PlaceSays(key: HeaderKey)
    ensures
      var shown := if key.band.Some? then key.band.value else "pending";
      BandSortRank(key) == if Place(shown) < 7 then 70 - 10 * Place(shown) else 0
  {}

  /** The header list goes from the worst band down, then by server name, then by group label. */
  lemma HeadersAscend(headers: seq<BucketHeader>, findings: FindingsTable, evaluations: EvaluationsTable,
                      keep: Finding -> bool, names: Names, listing: seq<HeaderKey>, m: nat, n: nat)
    requires AreOrdered(headers, findings, evaluations, keep, names, listing) && m < n < |headers|
    ensures Place(headers[m].riskBand) <= Place(headers[n].riskBand)
    ensures
      Place(headers[m].riskBand) == Place(headers[n].riskBand) ==>
        || TextAscends(headers[m].serverName, headers[n].serverName)
        || (headers[m].serverName == headers[n].serverName
            && (headers[m].groupLabel == headers[n].groupLabel
                || TextAscends(headers[m].groupLabel, headers[n].groupLabel)))
  {
    var x, y := listing[m], listing[n];
    assert HeaderOrder(names)(x, y);
    assert headers[m] == HeaderOf(findings, evaluations, keep, names, x);
    assert headers[n] == HeaderOf(findings, evaluations, keep, names, y);
    HeaderOrderSays(names, x, y);
    hide HeaderOrder, AreOrdered, RowsWithKey, TextAscends;
    PlaceSays(x);
    PlaceSays(y);
    hide BandSortRank;
    assert headers[m].riskBand == if x.band.Some? then x.band.value else "pending";
    hide Place;
    PlaceIsSmall(headers[m].riskBand);
    PlaceIsSmall(headers[n].riskBand);
  }

  lemma PlaceIsSmall(band: string)
    ensures Place(band) <= 7
  {}

  lemma HeaderOrderSays(names: Names, x: HeaderKey, y: HeaderKey)
    requires HeaderOrder(names)(x, y)
    ensures BandSortRank(x) >= BandSortRank(y)
    ensures BandSortRank(x) == BandSortRank(y) ==>
              || TextAscends(names.server(x.serverId), names.server(y.serverId))
              || (names.server(x.serverId) == names.server(y.serverId)
                  && (names.group(x.groupId) == names.group(y.groupId)
                      || TextAscends(names.group(x.groupId), names.group(y.groupId))))
  {
    StringLeqSays(names.server(x.serverId), names.server(y.serverId));
    StringLeqSays(names.group(x.groupId), names.group(y.groupId));
    StringLeqTotal(names.server(x.serverId), names.server(y.serverId));
    hide StringLeq, TextAscends, BandSortRank;
    var rank, server, group := By(BandSortRank, Descending), By(ServerNameOf(names), StringLeq),
                               By(GroupLabelOf(names), StringLeq);
    assert rank(x, y) == Descending(BandSortRank(x), BandSortRank(y));
    assert rank(y, x) == Descending(BandSortRank(y), BandSortRank(x));
    assert Then(server, group)(x, y) == (server(x, y) && (server(y, x) ==> group(x, y)));
    assert server(x, y) == StringLeq(names.server(x.serverId), names.server(y.serverId));
    assert server(y, x) == StringLeq(names.server(y.serverId), names.server(x.serverId));
    assert group(x, y) == StringLeq(names.group(x.groupId), names.group(y.groupId));
  }

  // ------------------------------------------------------------------ lanes

  /** What a host update can fix: a fix exists, and the operating system or the host's own update brings it. */
  predicate Patchable(f: Finding) {
    f.facts.hasFix && (f.facts.findingClass == OsPkgs || f.facts.hostUpdateAvailable == Some(true))
  }

  /** What each lane of a page holds, and that nothing of the page is lost or shown twice. */
  lemma LaneHolds(findings: seq<Finding>, lane: FixLane)
    ensures forall f :: f in InLane(findings, lane) <==> f in findings && (Patchable(f) <==> lane == Patch)
    ensures multiset(InLane(findings, Patch)) + multiset(InLane(findings, Mitigate)) == multiset(findings)
  {
    hide InLane, Patchable;
    LaneMembers(findings, lane);
    LanesTogether(findings);
  }

  lemma {:induction false} LaneMembers(findings: seq<Finding>, lane: FixLane)
    ensures forall f :: f in InLane(findings, lane) <==> f in findings && (Patchable(f) <==> lane == Patch)
  {
    if findings != [] {
      var before, last := findings[..|findings| - 1], findings[|findings| - 1];
      LaneMembers(before, lane);
      assert findings == before + [last];
      assert FixLaneOf(last.facts) == if Patchable(last) then Patch else Mitigate;
      hide FixLaneOf, Patchable;
    }
  }

  lemma {:induction false} LanesTogether(findings: seq<Finding>)
    ensures multiset(InLane(findings, Patch)) + multiset(InLane(findings, Mitigate)) == multiset(findings)
  {
    if findings != [] {
      var before, last := findings[..|findings| - 1], findings[|findings| - 1];
      LanesTogether(before);
      LaneSnoc(findings, Patch);
      LaneSnoc(findings, Mitigate);
      hide *;
      DealtOut(InLane(before, Patch), InLane(before, Mitigate), before, last, FixLaneOf(last.facts) == Patch,
               InLane(findings, Patch), InLane(findings, Mitigate), findings);
    }
  }

  lemma LaneSnoc(findings: seq<Finding>, lane: FixLane)
    requires findings != []
    ensures
      var before, last := findings[..|findings| - 1], findings[|findings| - 1];
      InLane(findings, lane)
      == if FixLaneOf(last.facts) == lane then InLane(before, lane) + [last] else InLane(before, lane)
  {
    hide FixLaneOf;
  }

  lemma DealtOut<T>(a: seq<T>, b: seq<T>, all: seq<T>, last: T, first: bool, c: seq<T>, d: seq<T>, whole: seq<T>)
    requires multiset(a) + multiset(b) == multiset(all)
    requires c == (if first then a + [last] else a) && d == (if first then b else b + [last])
    requires |whole| == |all| + 1 && whole[..|all|] == all && whole[|all|] == last
    ensures multiset(c) + multiset(d) == multiset(whole)
  {
    assert whole == all + [last];
    MultisetSnoc(all, last);
    if first {
      MultisetSnoc(a, last);
    } else {
      MultisetSnoc(b, last);
    }
  }

  lemma MultisetSnoc<T>(a: seq<T>, last: T)
    ensures multiset(a + [last]) == multiset(a) + multiset{last}
  {}

  /** A lane is shown when it has findings, under its verdict's band and reason; without a verdict it is pending. */
  lemma LaneGroupSays(evaluations: EvaluationsTable, serverId: int, groupId: int, findings: seq<Finding>, lane: FixLane)
    ensures
      var shown := LaneGroup(evaluations, serverId, groupId, findings, lane);
      var key := EvaluationKey(groupId, serverId, lane);
      && (shown == [] <==> forall f :: f in findings ==> (Patchable(f) <==> lane != Patch))
      && (shown != [] ==>
            && |shown| == 1 && shown[0].fixLane == lane && shown[0].findings == InLane(findings, lane)
            && (key in evaluations && evaluations[key].riskBand != "" ==>
                  shown[0].riskBand == evaluations[key].riskBand)
            && (key !in evaluations || evaluations[key].riskBand == "" ==> shown[0].riskBand == "pending")
            && shown[0].riskBandReason == if key in evaluations then evaluations[key].reason else None)
  {
    LaneHolds(findings, lane);
    hide Patchable, InLane;
    if InLane(findings, lane) != [] {
      assert InLane(findings, lane)[0] in InLane(findings, lane);
    }
  }

  /** The band of a header is that of an evaluation of its pair, or none when the pair has none. */
  lemma HeaderBandSays(findings: FindingsTable, evaluations: EvaluationsTable, keep: Finding -> bool, key: HeaderKey)
    requires key in HeaderKeys(findings, evaluations, keep)
    ensures exists i :: i in findings && keep(findings[i]) && findings[i].key.serverId == key.serverId
                     && findings[i].groupId == Some(key.groupId)
    ensures key.band.None? <==>
              forall lane :: EvaluationKey(key.groupId, key.serverId, lane) !in evaluations
    ensures key.band.Some? ==>
              exists lane :: && EvaluationKey(key.groupId, key.serverId, lane) in evaluations
                             && evaluations[EvaluationKey(key.groupId, key.serverId, lane)].riskBand == key.band.value
  {
    var j :| j in LeftJoin(findings, evaluations, keep) && KeyOf(findings, evaluations, j) == key;
    var lanes := LaneRows(evaluations, key.serverId, key.groupId);
    forall lane
      ensures lane in lanes <==> EvaluationKey(key.groupId, key.serverId, lane) in evaluations
    {}
  }
}
