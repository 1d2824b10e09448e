/** The frozen cell, the cell for today and the windows say what a reader of the heartbeat expects. */
module HeartbeatLaws {
  import opened Models
  import opened HeartbeatMeaning
  import opened HeartbeatAggregation
  import opened DailyRiskState

  lemma HighestRank(ranks: set<int>, m: int)
    requires m in ranks && forall r :: r in ranks ==> r <= m
    ensures MaxRank(ranks) == m
  {
    assert MaxOf(ranks) in ranks && m <= MaxOf(ranks) <= m;
  }

  lemma NoRank()
    ensures MaxRank({}) == 0
  {}

  /** The maximum over shifted ranks, mapped back, is the worst severity. */
  lemma SeverityOfRanks(ranks: set<int>, present: set<Severity>)
    requires forall r :: r in ranks && r != 0 ==> exists s :: s in present && r == SeverityRankExpr(s)
    requires forall s :: s in present ==> SeverityRankExpr(s) in ranks
    requires forall r :: r in ranks ==> r >= 0
    ensures IsWorst(RankToSeverityExpr(MaxRank(ranks)), present)
  {
    if Critical in present {
      HighestRank(ranks, 5);
    } else if High in present {
      HighestRank(ranks, 4);
    } else if Medium in present {
      HighestRank(ranks, 3);
    } else if Low in present {
      HighestRank(ranks, 2);
    } else if Unknown in present {
      HighestRank(ranks, 1);
    } else if ranks == {} {
      NoRank();
    } else {
      assert forall r :: r in ranks ==> r == 0;
      assert MaxOf(ranks) in ranks;
    }
  }

  lemma DocumentedRank(band: string)
    ensures BandRank(band)
         == if band == "escalate" then 7 else if band == "act" then 6 else if band == "mitigate" then 5
            else if band == "pending" then 4 else if band == "monitor" then 3
            else if band == "noise" then 2 else if band == "unknown" then 1 else 0
  {}

  lemma BandOfRanks(ranks: set<int>, present: set<string>)
    requires forall r :: r in ranks && r != 0 ==> exists b :: b in present && r == BandRank(b)
    requires forall b :: b in present ==> BandRank(b) in ranks
    requires forall r :: r in ranks ==> r >= 0
    ensures IsTopBand(RankToBandExpr(MaxRank(ranks)), present, RankToBandExpr(MaxRank(ranks)) == None)
  {
    hide BandRank, IsDocumented;
    forall r | r in ranks
      ensures r <= 7 && (r != 0 ==> exists b :: b in present && r == BandRank(b) && IsDocumented(b))
    {
      if r != 0 {
        var b :| b in present && r == BandRank(b);
        RankedIsDocumented(b);
      }
    }
    RankOfWord(ranks, present);
    if "escalate" in present {
      HighestRank(ranks, 7);
    } else if "act" in present {
      HighestRank(ranks, 6);
    } else if "mitigate" in present {
      HighestRank(ranks, 5);
    } else if "pending" in present {
      HighestRank(ranks, 4);
    } else if "monitor" in present {
      HighestRank(ranks, 3);
    } else if "noise" in present {
      HighestRank(ranks, 2);
    } else if "unknown" in present {
      HighestRank(ranks, 1);
    }
  }

  lemma RankedIsDocumented(band: string)
    ensures BandRank(band) <= 7 && (BandRank(band) != 0 ==> IsDocumented(band))
  {
    DocumentedRank(band);
  }

  /** A rank stands for its word. */
  lemma RankOfWord(ranks: set<int>, present: set<string>)
    requires forall r :: r in ranks ==>
      0 <= r <= 7 && (r != 0 ==> exists b :: b in present && r == BandRank(b) && IsDocumented(b))
    requires forall b :: b in present ==> BandRank(b) in ranks
    ensures 7 in ranks <==> "escalate" in present
    ensures 6 in ranks <==> "act" in present
    ensures 5 in ranks <==> "mitigate" in present
    ensures 4 in ranks <==> "pending" in present
    ensures 3 in ranks <==> "monitor" in present
    ensures 2 in ranks <==> "noise" in present
    ensures 1 in ranks <==> "unknown" in present
    ensures forall r :: r in ranks ==> 0 <= r <= 7
  {
    forall b: string
      ensures BandRank(b) == (if b == "escalate" then 7 else if b == "act" then 6 else if b == "mitigate" then 5
                              else if b == "pending" then 4 else if b == "monitor" then 3
                              else if b == "noise" then 2 else if b == "unknown" then 1 else 0)
    {
      DocumentedRank(b);
    }
    hide BandRank, IsDocumented;
    assert BandRank("escalate") == 7 && BandRank("act") == 6 && BandRank("mitigate") == 5 && BandRank("pending") == 4;
    assert BandRank("monitor") == 3 && BandRank("noise") == 2 && BandRank("unknown") == 1;
  }

  // ------------------------------------------------------------------ the cells

  lemma AliveIsPresent(f: Finding, end: Time)
    ensures Alive(f, end) <==> Present(f, end)
  {}

  /** A cell computed over rows that hold every live finding of the server, absent ones with rank 0. */
  lemma RanksSay(findings: FindingsTable, serverId: int, rows: set<int>, end: Time)
    requires forall i :: i in rows ==> i in findings && findings[i].key.serverId == serverId
    requires forall i :: i in AliveIds(findings, serverId, end) ==> i in rows
    ensures
      IsWorst(RankToSeverityExpr(MaxRank(SeverityRanks(findings, rows, end))), SeveritiesOf(findings, serverId, end))
    ensures
      var band := RankToBandExpr(MaxRank(BandRanks(findings, rows, end)));
      IsTopBand(band, BandsOf(findings, serverId, end), band == None)
  {
    SeverityRanksSay(findings, serverId, rows, end);
    BandRanksSay(findings, serverId, rows, end);
  }

  lemma SeverityRanksSay(findings: FindingsTable, serverId: int, rows: set<int>, end: Time)
    requires forall i :: i in rows ==> i in findings && findings[i].key.serverId == serverId
    requires forall i :: i in AliveIds(findings, serverId, end) ==> i in rows
    ensures
      IsWorst(RankToSeverityExpr(MaxRank(SeverityRanks(findings, rows, end))), SeveritiesOf(findings, serverId, end))
  {
    var ranks, present := SeverityRanks(findings, rows, end), SeveritiesOf(findings, serverId, end);
    hide IsWorst, RankToSeverityExpr, MaxRank, SeverityRankExpr;
    forall r | r in ranks
      ensures r >= 0 && (r != 0 ==> exists s :: s in present && r == SeverityRankExpr(s))
    {
      var i :| i in rows && r == if Present(findings[i], end) then SeverityRankExpr(findings[i].facts.severity) else 0;
      if Present(findings[i], end) {
        assert i in AliveIds(findings, serverId, end);
        assert findings[i].facts.severity in present;
      }
    }
    forall s | s in present
      ensures SeverityRankExpr(s) in ranks
    {
      var i :| i in AliveIds(findings, serverId, end) && findings[i].facts.severity == s;
      assert i in rows && Present(findings[i], end);
    }
    SeverityOfRanks(ranks, present);
  }

  lemma BandRanksSay(findings: FindingsTable, serverId: int, rows: set<int>, end: Time)
    requires forall i :: i in rows ==> i in findings && findings[i].key.serverId == serverId
    requires forall i :: i in AliveIds(findings, serverId, end) ==> i in rows
    ensures
      var band := RankToBandExpr(MaxRank(BandRanks(findings, rows, end)));
      IsTopBand(band, BandsOf(findings, serverId, end), band == None)
  {
    var ranks, present := BandRanks(findings, rows, end), BandsOf(findings, serverId, end);
    hide IsTopBand, RankToBandExpr, MaxRank, BandRank;
    forall r | r in ranks
      ensures r >= 0 && (r != 0 ==> exists b :: b in present && r == BandRank(b))
    {
      var i :| i in rows && r == if Present(findings[i], end) then BandRankExpr(findings[i].riskBand) else 0;
      if Present(findings[i], end) && findings[i].riskBand.Some? {
        assert i in AliveIds(findings, serverId, end);
        assert findings[i].riskBand.value in present;
      }
    }
    forall b | b in present
      ensures BandRank(b) in ranks
    {
      var i :| i in AliveIds(findings, serverId, end) && findings[i].riskBand == Some(b);
      assert i in rows && Present(findings[i], end);
    }
    BandOfRanks(ranks, present);
  }

  /** A frozen cell tells the worst severity, the top band and the KEV findings of the end of its day. */
  lemma FrozenCellSays(findings: FindingsTable, scans: seq<Scan>, serverId: int, day: Day)
    ensures CellSays(FrozenCell(findings, scans, serverId, day), findings, serverId, LastMoment(day))
    ensures FrozenCell(findings, scans, serverId, day).hadScan <==> ScannedOn(scans, serverId, day)
  {
    var end := LastMoment(day);
    var present := PresentIds(findings, serverId, end);
    assert EndOfDay(day) == end;
    assert forall i :: i in findings ==> (Present(findings[i], end) <==> Alive(findings[i], end));
    assert present == AliveIds(findings, serverId, end);
    RanksSay(findings, serverId, present, end);
    ScanSays(scans, serverId, day);
    hide HadScan, ScannedOn, IsWorst, IsTopBand, RankToBandExpr, RankToSeverityExpr, MaxRank, EndOfDay, LastMoment;
    assert (set i | i in present && findings[i].facts.isKev)
        == (set i | i in AliveIds(findings, serverId, end) && findings[i].facts.isKev);
  }

  lemma ScanSays(scans: seq<Scan>, serverId: int, day: Day)
    ensures HadScan(scans, serverId, day) <==> ScannedOn(scans, serverId, day)
  {
    forall t: Time
      ensures DayOf(t) == day <==> day * 86_400_000_000 <= t < (day + 1) * 86_400_000_000
    {}
    hide DayOf;
    if ScannedOn(scans, serverId, day) {
      var s :| s in scans && s.serverId == serverId
            && day * 86_400_000_000 <= s.receivedAt < (day + 1) * 86_400_000_000;
      var k :| 0 <= k < |scans| && scans[k] == s;
    }
  }

  /** Today's live cell says the same of this moment. */
  lemma TodayCellSays(findings: FindingsTable, scans: seq<Scan>, serverId: int, now: Time)
    ensures CellSays(TodayCell(findings, scans, serverId, now), findings, serverId, now)
    ensures TodayCell(findings, scans, serverId, now).hadScan <==> ScannedOn(scans, serverId, now / 86_400_000_000)
  {
    var rows := ServerIds(findings, serverId);
    RanksSay(findings, serverId, rows, now);
    ScanSays(scans, serverId, DayOf(now));
    hide HadScan, ScannedOn, RankToBandExpr, RankToSeverityExpr, MaxRank;
    if rows == {} {
      assert AliveIds(findings, serverId, now) == {};
      assert SeveritiesOf(findings, serverId, now) == {} && BandsOf(findings, serverId, now) == {};
    } else {
      hide IsWorst, IsTopBand;
      assert forall i :: i in findings ==> (Present(findings[i], now) <==> Alive(findings[i], now));
      assert (set i | i in rows && Present(findings[i], now) && findings[i].facts.isKev)
          == (set i | i in AliveIds(findings, serverId, now) && findings[i].facts.isKev);
    }
  }

  /**
   * A finalize step freezes, for every server, each of the thirty days before today that is not yet
   * frozen, with a cell that tells that day; it touches nothing else.
   */
  lemma FinalizeSays(db: Db, now: Time, k: CellKey)
    ensures
      var today, after := now / 86_400_000_000, FinalizeDb(db, now);
      && after == db.(frozen := after.frozen)
      && (k in db.frozen ==> k in after.frozen && after.frozen[k] == db.frozen[k])
      && (k !in db.frozen ==> (k in after.frozen <==> k.serverId in db.servers && today - 30 <= k.day < today))
      && (k !in db.frozen && k in after.frozen ==>
            && CellSays(after.frozen[k], db.findings, k.serverId, LastMoment(k.day))
            && (after.frozen[k].hadScan <==> ScannedOn(db.scans, k.serverId, k.day)))
  {
    FrozenCellSays(db.findings, db.scans, k.serverId, k.day);
    hide FrozenCell, CellSays, ScannedOn;
    assert k == CellKey(k.serverId, k.day);
  }

  /** What the materialised heartbeat shows: the stored cell of a past day, an empty one without it, and today's. */
  lemma ShownCellSays(db: Db, serverId: int, day: Day, now: Time)
    ensures
      var shown, today := ShownCell(db, serverId, day, now), now / 86_400_000_000;
      && (day == today ==>
            CellSays(shown, db.findings, serverId, now) && (shown.hadScan <==> ScannedOn(db.scans, serverId, today)))
      && (day != today && CellKey(serverId, day) in db.frozen ==> shown == db.frozen[CellKey(serverId, day)])
      && (day != today && CellKey(serverId, day) !in db.frozen ==> shown == Cell(None, None, 0, false))
  {
    TodayCellSays(db.findings, db.scans, serverId, now);
    hide TodayCell, CellSays, ScannedOn;
  }
}
