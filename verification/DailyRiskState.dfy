/**
 * The frozen heartbeat: past days are computed once, in SQL, into an append-only table; today
 * is aggregated live. Highest rank wins here as in the Python fold, by MAX over a CASE column
 * and a reverse CASE.
 */
module DailyRiskState {
  import opened Models
  import opened HeartbeatAggregation

  const FINALIZE_WINDOW_DAYS := 30

  // ------------------------------------------------------------------ the SQL expressions

  lemma {:induction false} MaxExists(s: set<int>)
    requires s != {}
    ensures exists m :: m in s && forall x :: x in s ==> x <= m
  {
    NonEmpty(s);
    var y :| y in s;
    var rest := s - {y};
    assert forall x :: x in s <==> x == y || x in rest;
    if rest != {} {
      MaxExists(rest);
      var m :| m in rest && forall x :: x in rest ==> x <= m;
      assert y <= m || forall x :: x in s ==> x <= y;
    }
  }

  /** MAX over a non-empty group. */
  function MaxOf(s: set<int>): (m: int)
    requires s != {}
    ensures m in s && forall x :: x in s ==> x <= m
  {
    MaxExists(s);
    var m :| m in s && forall x :: x in s ==> x <= m;
    m
  }

  function BandRankExpr(band: Option<string>): nat {
    match band
    case None => 0
    case Some(b) => BandRank(b)
  }

  function RankToBandExpr(rank: int): Option<string> {
    if rank == 7 then Some("escalate")
    else if rank == 6 then Some("act")
    else if rank == 5 then Some("mitigate")
    else if rank == 4 then Some("pending")
    else if rank == 3 then Some("monitor")
    else if rank == 2 then Some("noise")
    else if rank == 1 then Some("unknown")
    else None
  }

  /** Shifted by one, so that a present finding of unknown severity differs from no finding. */
  function SeverityRankExpr(severity: Severity): nat {
    SeverityRank(severity) + 1
  }

  function RankToSeverityExpr(rank: int): Option<Severity> {
    if rank == 5 then Some(Critical)
    else if rank == 4 then Some(High)
    else if rank == 3 then Some(Medium)
    else if rank == 2 then Some(Low)
    else if rank == 1 then Some(Unknown)
    else None
  }

  predicate HadScan(scans: seq<Scan>, serverId: int, day: Day) {
    exists k :: 0 <= k < |scans| && scans[k].serverId == serverId && DayOf(scans[k].receivedAt) == day
  }

  function PresentIds(findings: FindingsTable, serverId: int, end: Time): set<int> {
    set i | i in findings && findings[i].key.serverId == serverId && Present(findings[i], end)
  }

  function BandRanks(findings: FindingsTable, rows: set<int>, end: Time): set<int>
    requires forall i :: i in rows ==> i in findings
  {
    set i | i in rows :: if Present(findings[i], end) then BandRankExpr(findings[i].riskBand) else 0
  }

  function SeverityRanks(findings: FindingsTable, rows: set<int>, end: Time): set<int>
    requires forall i :: i in rows ==> i in findings
  {
    set i | i in rows :: if Present(findings[i], end) then SeverityRankExpr(findings[i].facts.severity) else 0
  }

  /** MAX over the joined rows of a group; the outer join keeps one all-NULL row, of rank 0, when there are none. */
  function MaxRank(ranks: set<int>): int {
    if ranks == {} then 0 else MaxOf(ranks)
  }

  /** The group of one (server, day). */
  function FrozenCell(findings: FindingsTable, scans: seq<Scan>, serverId: int, day: Day): Cell {
    var end := EndOfDay(day);
    var present := PresentIds(findings, serverId, end);
    Cell(RankToBandExpr(MaxRank(BandRanks(findings, present, end))),
         RankToSeverityExpr(MaxRank(SeverityRanks(findings, present, end))),
         |set i | i in present && findings[i].facts.isKev|,
         HadScan(scans, serverId, day))
  }

  function ServerIds(findings: FindingsTable, serverId: int): set<int> {
    set i | i in findings && findings[i].key.serverId == serverId
  }

  /** The group of one server in the query for today: all its findings, absent ones with rank 0. */
  function TodayCell(findings: FindingsTable, scans: seq<Scan>, serverId: int, now: Time): Cell {
    var rows := ServerIds(findings, serverId);
    var hadScan := HadScan(scans, serverId, DayOf(now));
    if rows == {} then EMPTY_CELL.(hadScan := hadScan)
    else
      Cell(RankToBandExpr(MaxRank(BandRanks(findings, rows, now))),
           RankToSeverityExpr(MaxRank(SeverityRanks(findings, rows, now))),
           |set i | i in rows && Present(findings[i], now) && findings[i].facts.isKev|,
           hadScan)
  }

  // ------------------------------------------------------------------ the operations

  function PendingCells(db: Db, now: Time): set<CellKey> {
    var today := DayOf(now);
    set s, d | s in db.servers && today - FINALIZE_WINDOW_DAYS <= d <= today - 1 && CellKey(s, d) !in db.frozen ::
      CellKey(s, d)
  }

  function FinalizeDb(db: Db, now: Time): Db {
    db.(frozen := db.frozen
                + map k | k in PendingCells(db, now) :: FrozenCell(db.findings, db.scans, k.serverId, k.day))
  }

  /** `finalize_pending_days`: INSERT the cells of the window that have no row yet. */
  method FinalizePendingDays(session: Session, now: Time) returns (inserted: nat)
    modifies session
    ensures session.State() == FinalizeDb(old(session.State()), now)
    ensures inserted == |session.frozen| - |old(session.frozen)|
  {
    hide FrozenCell;
    ghost var before := session.frozen;
    var pending := PendingCells(session.State(), now);
    var rows := map k | k in pending :: FrozenCell(session.findings, session.scans, k.serverId, k.day);
    session.frozen := session.frozen + rows;
    inserted := |pending|;
    PendingSize(before, pending, session.frozen);
  }

  lemma PendingSize(before: FrozenTable, pending: set<CellKey>, after: FrozenTable)
    requires before.Keys !! pending && after.Keys == before.Keys + pending
    ensures |after| == |before| + |pending|
  {
    assert |after.Keys| == |before.Keys| + |pending|;
  }

  /** `today_live_aggregate`. */
  method TodayLiveAggregate(session: Session, serverIds: seq<int>, now: Time) returns (out: map<int, DailyStatus>)
    ensures out.Keys == set sid | sid in serverIds
    ensures forall sid :: sid in serverIds ==>
      out[sid] == DailyStatus(DayOf(now), TodayCell(session.findings, session.scans, sid, now))
  {
    out := map[];
    for k := 0 to |serverIds|
      invariant out.Keys == set sid | sid in serverIds[..k]
      invariant forall sid :: sid in serverIds[..k] ==>
        out[sid] == DailyStatus(DayOf(now), TodayCell(session.findings, session.scans, sid, now))
    {
      assert serverIds[..k + 1] == serverIds[..k] + [serverIds[k]];
      var cell := TodayCell(session.findings, session.scans, serverIds[k], now);
      out := out[serverIds[k] := DailyStatus(DayOf(now), cell)];
    }
    assert serverIds[..|serverIds|] == serverIds;
  }

  /** What the materialised read path shows for a day up to today. */
  function ShownCell(db: Db, serverId: int, day: Day, now: Time): Cell {
    if day == DayOf(now) then TodayCell(db.findings, db.scans, serverId, now)
    else if CellKey(serverId, day) in db.frozen then db.frozen[CellKey(serverId, day)]
    else EMPTY_CELL
  }

  /** `heartbeats_for_servers`: frozen cells for the past, the live aggregate for today. */
  method HeartbeatsForServers(session: Session, serverIds: seq<int>, days: nat, now: Time)
    returns (out: map<int, seq<DailyStatus>>)
    requires days >= 1
    ensures out.Keys == set sid | sid in serverIds
    ensures forall sid :: sid in serverIds ==> |out[sid]| == days
    ensures forall sid, k :: sid in serverIds && 0 <= k < days ==>
      var d := DayRange(DayOf(now), days)[k];
      out[sid][k] == DailyStatus(d, ShownCell(session.State(), sid, d, now))
  {
    var today := DayOf(now);
    var dayList := DayRange(today, days);
    var todayCells := TodayLiveAggregate(session, serverIds, now);
    out := map[];
    for k := 0 to |serverIds|
      invariant out.Keys == set sid | sid in serverIds[..k]
      invariant forall sid :: sid in serverIds[..k] ==> |out[sid]| == days
      invariant forall sid, j :: sid in serverIds[..k] && 0 <= j < days ==>
        out[sid][j] == DailyStatus(dayList[j], ShownCell(session.State(), sid, dayList[j], now))
    {
      hide ShownCell;
      var sid := serverIds[k];
      assert serverIds[..k + 1] == serverIds[..k] + [sid];
      var cells := ShownCells(session, sid, dayList, todayCells[sid], now);
      out := out[sid := cells];
    }
    assert serverIds[..|serverIds|] == serverIds;
  }

  /** The inner loop of the read path: the cells of one server. */
  method ShownCells(session: Session, sid: int, dayList: seq<Day>, todayCell: DailyStatus, now: Time)
    returns (cells: seq<DailyStatus>)
    requires todayCell == DailyStatus(DayOf(now), TodayCell(session.findings, session.scans, sid, now))
    ensures |cells| == |dayList|
    ensures forall j :: 0 <= j < |dayList| ==>
      cells[j] == DailyStatus(dayList[j], ShownCell(session.State(), sid, dayList[j], now))
  {
    cells := [];
    for j := 0 to |dayList|
      invariant |cells| == j
      invariant forall i :: 0 <= i < j ==>
        cells[i] == DailyStatus(dayList[i], ShownCell(session.State(), sid, dayList[i], now))
    {
      hide TodayCell;
      var d := dayList[j];
      if d == DayOf(now) {
        cells := cells + [todayCell];
      } else {
        var key := CellKey(sid, d);
        cells := cells + [DailyStatus(d, if key in session.frozen then session.frozen[key] else EMPTY_CELL)];
      }
    }
  }

  // ------------------------------------------------------------------ the frozen cell against the fold

  /** The rows of a SELECT over the findings of one server: each of them once, in some order. */
  ghost predicate Loaded(findings: FindingsTable, serverId: int, ids: seq<int>, rows: seq<Finding>) {
    && |ids| == |rows|
    && (forall k :: 0 <= k < |ids| ==>
         ids[k] in findings && findings[ids[k]] == rows[k] && rows[k].key.serverId == serverId)
    && (forall j, k :: 0 <= j < k < |ids| ==> ids[j] != ids[k])
  }

  /** The loader may leave out findings, but none that is present at `end`. */
  ghost predicate Covers(findings: FindingsTable, serverId: int, ids: seq<int>, end: Time) {
    forall i :: i in PresentIds(findings, serverId, end) ==> i in ids
  }

  predicate Ranked(band: Option<string>) {
    band.Some? ==> band.value in RISK_BAND_RANK
  }

  lemma ReverseMaps(band: string, severity: Severity)
    ensures band in RISK_BAND_RANK <==> BandRank(band) >= 1
    ensures band in RISK_BAND_RANK ==> RankToBandExpr(BandRank(band)) == Some(band)
    ensures RankToSeverityExpr(SeverityRankExpr(severity)) == Some(severity)
  {}

  function Image(ids: seq<int>, ks: set<int>): set<int> {
    set k | k in ks && 0 <= k < |ids| :: ids[k]
  }

  lemma {:induction false} InjectiveImageSize(ids: seq<int>, ks: set<int>)
    requires forall j, k :: 0 <= j < k < |ids| ==> ids[j] != ids[k]
    requires forall k :: k in ks ==> 0 <= k < |ids|
    ensures |Image(ids, ks)| == |ks|
  {
    if ks != {} {
      NonEmpty(ks);
      var k :| k in ks;
      InjectiveImageSize(ids, ks - {k});
      assert Image(ids, ks) == Image(ids, ks - {k}) + {ids[k]};
      assert ids[k] !in Image(ids, ks - {k});
    }
  }

  /** The rows of the loader that are present are the present findings of the table. */
  lemma LoadedPresent(findings: FindingsTable, serverId: int, ids: seq<int>, rows: seq<Finding>, end: Time, f: Finding)
    requires Loaded(findings, serverId, ids, rows) && Covers(findings, serverId, ids, end)
    ensures f in rows && Present(f, end) <==> exists i :: i in PresentIds(findings, serverId, end) && findings[i] == f
  {
    if f in rows && Present(f, end) {
      var k :| 0 <= k < |rows| && rows[k] == f;
      assert ids[k] in PresentIds(findings, serverId, end) && findings[ids[k]] == f;
    }
    if i :| i in PresentIds(findings, serverId, end) && findings[i] == f {
      var k :| 0 <= k < |ids| && ids[k] == i;
      assert rows[k] in rows;
    }
  }

  lemma SeverityParity(findings: FindingsTable, scans: seq<Scan>, serverId: int, ids: seq<int>, rows: seq<Finding>,
                       day: Day, severity: Option<Severity>)
    requires Loaded(findings, serverId, ids, rows) && Covers(findings, serverId, ids, EndOfDay(day))
    requires IsMaxSeverity(rows, EndOfDay(day), severity)
    ensures FrozenCell(findings, scans, serverId, day).maxSeverity == severity
  {
    var end := EndOfDay(day);
    var present := PresentIds(findings, serverId, end);
    forall f {
      LoadedPresent(findings, serverId, ids, rows, end, f);
    }
    assert forall i :: i in present ==> findings[i] in rows;
    var ranks := SeverityRanks(findings, present, end);
    if severity.None? {
      assert present == {};
    } else {
      var f :| f in rows && Present(f, end) && f.facts.severity == severity.value;
      var i :| i in present && findings[i] == f;
      MaxRankIs(ranks, SeverityRankExpr(findings[i].facts.severity));
      ReverseMaps("", severity.value);
    }
  }

  lemma MaxRankIs(ranks: set<int>, m: int)
    requires m in ranks && forall r :: r in ranks ==> r <= m
    ensures MaxRank(ranks) == m
  {}

  lemma KevParity(findings: FindingsTable, scans: seq<Scan>, serverId: int, ids: seq<int>, rows: seq<Finding>, day: Day)
    requires Loaded(findings, serverId, ids, rows) && Covers(findings, serverId, ids, EndOfDay(day))
    ensures FrozenCell(findings, scans, serverId, day).kevCount == |KevIndices(rows, EndOfDay(day))|
  {
    var end := EndOfDay(day);
    var kev := set i | i in PresentIds(findings, serverId, end) && findings[i].facts.isKev;
    var ks := KevIndices(rows, end);
    InjectiveImageSize(ids, ks);
    var image := Image(ids, ks);
    forall i | i in kev
      ensures i in image
    {
      var k :| 0 <= k < |ids| && ids[k] == i;
      assert k in ks;
    }
    assert kev == image;
  }

  /** Some present finding of the server has a band, but none has a ranked one. */
  predicate OnlyUnrankedBands(findings: FindingsTable, serverId: int, end: Time) {
    && (exists i :: i in PresentIds(findings, serverId, end) && findings[i].riskBand.Some?)
    && (forall i :: i in PresentIds(findings, serverId, end) && findings[i].riskBand.Some? ==>
         !Ranked(findings[i].riskBand))
  }

  /** SQL and fold agree on the band exactly when the present bands are not all outside the rank table. */
  lemma BandParityIff(findings: FindingsTable, scans: seq<Scan>, serverId: int, ids: seq<int>, rows: seq<Finding>,
                      day: Day, band: Option<string>)
    requires Loaded(findings, serverId, ids, rows) && Covers(findings, serverId, ids, EndOfDay(day))
    requires IsDominantBand(rows, EndOfDay(day), band)
    ensures FrozenCell(findings, scans, serverId, day).dominantRiskBand == band
       <==> !OnlyUnrankedBands(findings, serverId, EndOfDay(day))
  {
    var end := EndOfDay(day);
    var present := PresentIds(findings, serverId, end);
    forall f {
      LoadedPresent(findings, serverId, ids, rows, end, f);
    }
    assert forall j :: j in present ==> findings[j] in rows;
    var ranks := BandRanks(findings, present, end);
    if band.None? {
      assert forall r :: r in ranks ==> r == 0;
    } else {
      var f :| f in rows && Present(f, end) && f.riskBand == band;
      var i :| i in present && findings[i] == f;
      MaxRankIs(ranks, BandRankExpr(findings[i].riskBand));
      ReverseMaps(band.value, Unknown);
      if band.value !in RISK_BAND_RANK {
        forall j | j in present && findings[j].riskBand.Some?
          ensures !Ranked(findings[j].riskBand)
        {
          ReverseMaps(findings[j].riskBand.value, Unknown);
        }
      }
    }
  }

  /**
   * Parity of the two implementations: the frozen cell of a day equals the cell of the fold over
   * any load that covers the day, unless the present bands are all outside the rank table.
   */
  lemma FrozenCellIsFoldCell(findings: FindingsTable, scans: seq<Scan>, serverId: int, ids: seq<int>,
                             rows: seq<Finding>, day: Day, cell: Cell)
    requires Loaded(findings, serverId, ids, rows) && Covers(findings, serverId, ids, EndOfDay(day))
    requires IsCell(rows, EndOfDay(day), HadScan(scans, serverId, day), cell)
    ensures cell == FrozenCell(findings, scans, serverId, day) <==>
              !OnlyUnrankedBands(findings, serverId, EndOfDay(day))
    ensures cell.(dominantRiskBand := None) == FrozenCell(findings, scans, serverId, day).(dominantRiskBand := None)
  {
    SeverityParity(findings, scans, serverId, ids, rows, day, cell.maxSeverity);
    KevParity(findings, scans, serverId, ids, rows, day);
    BandParityIff(findings, scans, serverId, ids, rows, day, cell.dominantRiskBand);
  }

  // ------------------------------------------------------------------ the live read path

  predicate SameButBand(a: Cell, b: Cell) {
    a.maxSeverity == b.maxSeverity && a.kevCount == b.kevCount && a.hadScan == b.hadScan
  }

  /** SELECT the findings of a server that were not resolved before `startDt`. */
  method SelectFindings(session: Session, serverId: int, startDt: Time) returns (ids: seq<int>, rows: seq<Finding>)
    ensures Loaded(session.findings, serverId, ids, rows)
    ensures forall end :: end >= startDt ==> Covers(session.findings, serverId, ids, end)
  {
    var todo := set i | i in session.findings && session.findings[i].key.serverId == serverId
      && (session.findings[i].resolvedAt.None? || session.findings[i].resolvedAt.value >= startDt);
    ghost var selected := todo;
    ids, rows := [], [];
    while todo != {}
      invariant Loaded(session.findings, serverId, ids, rows)
      invariant forall i :: i in selected <==> i in todo || i in ids
      invariant forall i :: i in ids ==> i !in todo
      decreases |todo|
    {
      NonEmpty(todo);
      var i :| i in todo;
      todo := todo - {i};
      ids, rows := ids + [i], rows + [session.findings[i]];
    }
  }

  /** SELECT the days on which a server was scanned since `startDt`. */
  method SelectScanDays(session: Session, serverId: int, startDt: Time) returns (scanDays: set<Day>)
    ensures forall d :: StartOfDay(d) >= startDt ==> (d in scanDays <==> HadScan(session.scans, serverId, d))
  {
    scanDays := {};
    for k := 0 to |session.scans|
      invariant forall d :: d in scanDays ==> HadScan(session.scans[..k], serverId, d)
      invariant forall d :: StartOfDay(d) >= startDt && HadScan(session.scans[..k], serverId, d) ==> d in scanDays
    {
      var scan := session.scans[k];
      assert session.scans[..k + 1] == session.scans[..k] + [scan];
      HadScanSnoc(session.scans[..k], scan, serverId);
      if scan.serverId == serverId && scan.receivedAt >= startDt {
        scanDays := scanDays + {DayOf(scan.receivedAt)};
      }
    }
    assert session.scans[..|session.scans|] == session.scans;
  }

  lemma HadScanSnoc(scans: seq<Scan>, scan: Scan, serverId: int)
    ensures forall d ::
      HadScan(scans + [scan], serverId, d) <==>
        HadScan(scans, serverId, d) || (scan.serverId == serverId && DayOf(scan.receivedAt) == d)
  {
    var more := scans + [scan];
    forall d
      ensures HadScan(more, serverId, d) <==>
                HadScan(scans, serverId, d) || (scan.serverId == serverId && DayOf(scan.receivedAt) == d)
    {
      if HadScan(scans, serverId, d) {
        var k :| 0 <= k < |scans| && scans[k].serverId == serverId && DayOf(scans[k].receivedAt) == d;
        assert more[k] == scans[k];
      }
      if scan.serverId == serverId && DayOf(scan.receivedAt) == d {
        assert more[|scans|] == scan;
      }
    }
  }

  /**
   * `live_heartbeats_for_servers`: every cell of the window is the frozen cell of its day. The
   * filter on `resolved_at` that narrows the load changes none of them.
   */
  method LiveHeartbeatsForServers(session: Session, serverIds: seq<int>, days: nat, now: Time)
    returns (out: map<int, seq<DailyStatus>>)
    ensures out.Keys == set sid | sid in serverIds
    ensures forall sid :: sid in serverIds ==> |out[sid]| == days
    ensures forall sid, k :: sid in serverIds && 0 <= k < days ==>
      var d := DayRange(DayOf(now), days)[k];
      && out[sid][k].day == d
      && (out[sid][k].cell == FrozenCell(session.findings, session.scans, sid, d)
          <==> !OnlyUnrankedBands(session.findings, sid, EndOfDay(d)))
      && SameButBand(out[sid][k].cell, FrozenCell(session.findings, session.scans, sid, d))
  {
    var endDay := DayOf(now);
    var startDay := endDay - (days - 1);
    var dayList := DayRange(endDay, days);
    out := map[];
    for k := 0 to |serverIds|
      invariant out.Keys == set sid | sid in serverIds[..k]
      invariant forall sid :: sid in serverIds[..k] ==> |out[sid]| == days
      invariant forall sid, j :: sid in serverIds[..k] && 0 <= j < days ==>
        && out[sid][j].day == dayList[j]
        && (out[sid][j].cell == FrozenCell(session.findings, session.scans, sid, dayList[j])
            <==> !OnlyUnrankedBands(session.findings, sid, EndOfDay(dayList[j])))
        && SameButBand(out[sid][j].cell, FrozenCell(session.findings, session.scans, sid, dayList[j]))
    {
      hide FrozenCell, OnlyUnrankedBands, IsCell, HadScan, EndOfDay, Loaded, Covers;
      var sid := serverIds[k];
      assert serverIds[..k + 1] == serverIds[..k] + [sid];
      var cells := LiveCells(session, sid, startDay, dayList);
      out := out[sid := cells];
    }
    assert serverIds[..|serverIds|] == serverIds;
  }

  /** The cells of one server of the live read path. */
  method LiveCells(session: Session, sid: int, startDay: Day, dayList: seq<Day>) returns (cells: seq<DailyStatus>)
    requires forall j :: 0 <= j < |dayList| ==> startDay <= dayList[j]
    ensures |cells| == |dayList|
    ensures forall j :: 0 <= j < |dayList| ==>
      && cells[j].day == dayList[j]
      && (cells[j].cell == FrozenCell(session.findings, session.scans, sid, dayList[j])
          <==> !OnlyUnrankedBands(session.findings, sid, EndOfDay(dayList[j])))
      && SameButBand(cells[j].cell, FrozenCell(session.findings, session.scans, sid, dayList[j]))
  {
    var ids, rows := SelectFindings(session, sid, StartOfDay(startDay));
    var scanDays := SelectScanDays(session, sid, StartOfDay(startDay));
    cells := AggregateOneServer(rows, scanDays, dayList);
    forall j | 0 <= j < |dayList|
      ensures cells[j].cell == FrozenCell(session.findings, session.scans, sid, dayList[j])
         <==> !OnlyUnrankedBands(session.findings, sid, EndOfDay(dayList[j]))
      ensures SameButBand(cells[j].cell, FrozenCell(session.findings, session.scans, sid, dayList[j]))
    {
      FrozenCellIsFoldCell(session.findings, session.scans, sid, ids, rows, dayList[j], cells[j].cell);
    }
  }

  // ------------------------------------------------------------------ frozen and live side by side

  /** Nothing in the tables lies after `now`. */
  ghost predicate NoFuture(db: Db, now: Time) {
    && (forall i :: i in db.findings ==> db.findings[i].firstSeenAt <= now)
    && (forall i :: i in db.findings && db.findings[i].resolvedAt.Some? ==> db.findings[i].resolvedAt.value <= now)
    && (forall k :: 0 <= k < |db.scans| ==> db.scans[k].receivedAt <= now)
  }

  /** Rows that are absent, and so have rank 0, do not change a maximum of non-negative ranks. */
  lemma MaxRankIgnoresZero(ranks: set<int>, more: set<int>)
    requires forall r :: r in ranks ==> r in more && r >= 0
    requires forall r :: r in more ==> r in ranks || r == 0
    ensures MaxRank(ranks) == MaxRank(more)
  {
    if more != {} {
      var m := MaxOf(more);
      if m in ranks {
        MaxRankIs(ranks, m);
      } else if ranks != {} {
        assert MaxOf(ranks) in more;
      }
    }
  }

  /** The query for today gives the cell that today would be frozen with if it ended now. */
  lemma TodayCellIsFrozenCell(db: Db, serverId: int, now: Time)
    requires NoFuture(db, now)
    ensures TodayCell(db.findings, db.scans, serverId, now) == FrozenCell(db.findings, db.scans, serverId, DayOf(now))
  {
    var findings := db.findings;
    var end := EndOfDay(DayOf(now));
    DayBounds(now, DayOf(now));
    var present := PresentIds(findings, serverId, end);
    var rows := ServerIds(findings, serverId);
    assert forall i :: i in findings ==> (Present(findings[i], end) <==> Present(findings[i], now));
    assert (set i | i in present && findings[i].facts.isKev)
        == (set i | i in rows && Present(findings[i], now) && findings[i].facts.isKev);
    MaxRankIgnoresZero(BandRanks(findings, present, end), BandRanks(findings, rows, now));
    MaxRankIgnoresZero(SeverityRanks(findings, present, end), SeverityRanks(findings, rows, now));
  }

  /** After a finalize step every past cell of the window exists, and a second step the same day inserts nothing. */
  lemma FinalizeCompletes(db: Db, now: Time, again: Time)
    requires DayOf(now) == DayOf(again)
    ensures forall s, d :: s in db.servers && DayOf(now) - FINALIZE_WINDOW_DAYS <= d < DayOf(now) ==>
      CellKey(s, d) in FinalizeDb(db, now).frozen
    ensures FinalizeDb(FinalizeDb(db, now), again) == FinalizeDb(db, now)
    ensures PendingCells(FinalizeDb(db, now), again) == {}
  {
    hide FrozenCell, DayOf;
    var after := FinalizeDb(db, now);
    forall s, d | s in db.servers && DayOf(now) - FINALIZE_WINDOW_DAYS <= d < DayOf(now)
      ensures CellKey(s, d) in after.frozen
    {
      PendingOrFrozen(db, now, s, d);
    }
    assert PendingCells(after, again) == {};
    assert FinalizeDb(after, again).frozen == after.frozen;
  }

  lemma PendingOrFrozen(db: Db, now: Time, s: int, d: Day)
    requires s in db.servers && DayOf(now) - FINALIZE_WINDOW_DAYS <= d < DayOf(now)
    ensures CellKey(s, d) in PendingCells(db, now) || CellKey(s, d) in db.frozen
  {}

  /**
   * The parity duty: when the finalize step at `now` freezes the whole window, the materialised
   * heartbeat of up to 31 days shows the frozen-cell formula of the current tables everywhere.
   */
  lemma ShownIsLive(db: Db, now: Time, serverId: int, day: Day)
    requires NoFuture(db, now)
    requires serverId in db.servers
    requires DayOf(now) - FINALIZE_WINDOW_DAYS <= day <= DayOf(now)
    requires day < DayOf(now) ==> CellKey(serverId, day) !in db.frozen
    ensures ShownCell(FinalizeDb(db, now), serverId, day, now) == FrozenCell(db.findings, db.scans, serverId, day)
  {
    if day == DayOf(now) {
      TodayCellIsFrozenCell(db, serverId, now);
    } else {
      assert CellKey(serverId, day) in PendingCells(db, now);
    }
  }
}
