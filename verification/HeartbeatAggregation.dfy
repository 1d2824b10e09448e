/**
 * The live heartbeat: per server and day, the worst state of the findings present at the end
 * of that day, computed by a loop over days and findings.
 */
module HeartbeatAggregation {
  import opened Models
  import opened HeartbeatMeaning

  function StartOfDay(d: Day): Time {
    d * DAY_LENGTH
  }

  /** 23:59:59.999999, inclusive. */
  function EndOfDay(d: Day): Time {
    StartOfDay(d + 1) - 1
  }

  lemma DayBounds(t: Time, d: Day)
    ensures DayOf(t) == d <==> StartOfDay(d) <= t <= EndOfDay(d)
    ensures DayOf(t) < d <==> t < StartOfDay(d)
  {}

  function SeverityRank(severity: Severity): nat {
    match severity
    case Critical => 4
    case High => 3
    case Medium => 2
    case Low => 1
    case Unknown => 0
  }

  const RISK_BAND_RANK: map<string, nat> :=
    map["escalate" := 7, "act" := 6, "mitigate" := 5, "pending" := 4, "monitor" := 3, "noise" := 2, "unknown" := 1]

  function BandRank(band: string): nat {
    if band in RISK_BAND_RANK then RISK_BAND_RANK[band] else 0
  }

  predicate Present(f: Finding, end: Time) {
    f.firstSeenAt <= end && (f.resolvedAt.None? || f.resolvedAt.value > end)
  }

  datatype DailyStatus = DailyStatus(day: Day, cell: Cell)

  const EMPTY_CELL := Cell(None, None, 0, false)

  // ------------------------------------------------------------------ what a cell says

  /** `severity` is the worst severity among the present findings. */
  ghost predicate IsMaxSeverity(findings: seq<Finding>, end: Time, severity: Option<Severity>) {
    match severity
    case None => forall f :: f in findings ==> !Present(f, end)
    case Some(s) =>
      && (exists f :: f in findings && Present(f, end) && f.facts.severity == s)
      && (forall f :: f in findings && Present(f, end) ==> SeverityRank(f.facts.severity) <= SeverityRank(s))
  }

  /** `band` is a highest band among the present findings that have one. */
  ghost predicate IsDominantBand(findings: seq<Finding>, end: Time, band: Option<string>) {
    match band
    case None => forall f :: f in findings && Present(f, end) ==> f.riskBand.None?
    case Some(b) =>
      && (exists f :: f in findings && Present(f, end) && f.riskBand == Some(b))
      && (forall f :: f in findings && Present(f, end) && f.riskBand.Some? ==>
           BandRank(f.riskBand.value) <= BandRank(b))
  }

  function KevIndices(findings: seq<Finding>, end: Time): set<int> {
    set k | 0 <= k < |findings| && Present(findings[k], end) && findings[k].facts.isKev
  }

  ghost predicate IsCell(findings: seq<Finding>, end: Time, hadScan: bool, cell: Cell) {
    && IsMaxSeverity(findings, end, cell.maxSeverity)
    && IsDominantBand(findings, end, cell.dominantRiskBand)
    && cell.kevCount == |KevIndices(findings, end)|
    && cell.hadScan == hadScan
  }

  // ------------------------------------------------------------------ the loops

  /** The values of the inner loop after the findings `done`; rank -1 means nothing found yet. */
  ghost predicate Reduced(done: seq<Finding>, end: Time, maxRank: int, maxSev: Option<Severity>,
                          kevCount: nat, bandRank: int, band: Option<string>) {
    && IsMaxSeverity(done, end, maxSev)
    && maxRank == (if maxSev.None? then -1 else SeverityRank(maxSev.value))
    && IsDominantBand(done, end, band)
    && bandRank == (if band.None? then -1 else BandRank(band.value))
    && kevCount == |KevIndices(done, end)|
  }

  lemma KevIndicesSnoc(done: seq<Finding>, f: Finding, end: Time)
    ensures |KevIndices(done + [f], end)| == |KevIndices(done, end)| + if Present(f, end) && f.facts.isKev then 1 else 0
  {
    var more := KevIndices(done + [f], end);
    if Present(f, end) && f.facts.isKev {
      assert more == KevIndices(done, end) + {|done|};
    } else {
      assert more == KevIndices(done, end);
    }
  }

  /** The inner loop: one day over all findings of a server. */
  method ReduceDay(findings: seq<Finding>, end: Time)
    returns (maxSev: Option<Severity>, kevCount: nat, domRiskBand: Option<string>)
    ensures IsMaxSeverity(findings, end, maxSev) && IsWorst(maxSev, Severities(findings, end))
    ensures IsDominantBand(findings, end, domRiskBand)
    ensures IsTopBand(domRiskBand, Bands(findings, end), IsSomeOf(domRiskBand, Bands(findings, end)))
    ensures kevCount == |KevIndices(findings, end)|
    ensures kevCount == |set k | 0 <= k < |findings| && Alive(findings[k], end) && findings[k].facts.isKev|
  {
    var maxRank: int, domRiskRank: int := -1, -1;
    maxSev, kevCount, domRiskBand := None, 0, None;
    for k := 0 to |findings|
      invariant Reduced(findings[..k], end, maxRank, maxSev, kevCount, domRiskRank, domRiskBand)
    {
      var f := findings[k];
      assert findings[..k + 1] == findings[..k] + [f];
      KevIndicesSnoc(findings[..k], f, end);
      if f.firstSeenAt > end {
        continue;
      }
      if f.resolvedAt.Some? && f.resolvedAt.value <= end {
        continue;
      }
      var rank := SeverityRank(f.facts.severity);
      if rank > maxRank {
        maxRank, maxSev := rank, Some(f.facts.severity);
      }
      if f.facts.isKev {
        kevCount := kevCount + 1;
      }
      if f.riskBand.Some? {
        var bandRank := BandRank(f.riskBand.value);
        if bandRank > domRiskRank {
          domRiskRank, domRiskBand := bandRank, f.riskBand;
        }
      }
    }
    assert findings[..|findings|] == findings;
    FoldSays(findings, end, maxSev, domRiskBand);
  }

  /** The fold's results without ranks. */
  lemma FoldSays(findings: seq<Finding>, end: Time, severity: Option<Severity>, band: Option<string>)
    requires IsMaxSeverity(findings, end, severity) && IsDominantBand(findings, end, band)
    ensures IsWorst(severity, Severities(findings, end))
    ensures IsTopBand(band, Bands(findings, end), IsSomeOf(band, Bands(findings, end)))
    ensures KevIndices(findings, end)
         == set k | 0 <= k < |findings| && Alive(findings[k], end) && findings[k].facts.isKev
  {
    SeverityFoldSays(findings, end, severity);
    BandFoldSays(findings, end, band);
  }

  lemma SeverityFoldSays(findings: seq<Finding>, end: Time, severity: Option<Severity>)
    requires IsMaxSeverity(findings, end, severity)
    ensures IsWorst(severity, Severities(findings, end))
  {
    var present := Severities(findings, end);
    forall f | f in findings
      ensures Present(f, end) <==> Alive(f, end)
      ensures Alive(f, end) ==> f.facts.severity in present
    {}
    if severity.Some? {
      assert severity.value in present;
      forall s | s in present
        ensures SeverityRank(s) <= SeverityRank(severity.value)
      {
        var f :| f in findings && Alive(f, end) && f.facts.severity == s;
      }
    } else {
      assert present == {};
    }
  }

  lemma BandFoldSays(findings: seq<Finding>, end: Time, band: Option<string>)
    requires IsDominantBand(findings, end, band)
    ensures IsTopBand(band, Bands(findings, end), IsSomeOf(band, Bands(findings, end)))
  {
    var present := Bands(findings, end);
    forall f | f in findings
      ensures Present(f, end) <==> Alive(f, end)
      ensures Alive(f, end) && f.riskBand.Some? ==> f.riskBand.value in present
    {}
    if band.Some? {
      assert band.value in present;
      forall b | b in present
        ensures BandRank(b) <= BandRank(band.value)
      {
        var f :| f in findings && Alive(f, end) && f.riskBand == Some(b);
      }
      TopRankIsTop(band.value, present);
    } else {
      assert present == {};
    }
  }

  lemma TopRankIsTop(band: string, present: set<string>)
    requires band in present && forall b :: b in present ==> BandRank(b) <= BandRank(band)
    ensures IsTopBand(Some(band), present, true)
  {}

  /** `_aggregate_one_server`: one cell per day, oldest first. */
  method AggregateOneServer(findings: seq<Finding>, scanDays: set<Day>, dayList: seq<Day>)
    returns (result: seq<DailyStatus>)
    ensures |result| == |dayList|
    ensures forall k :: 0 <= k < |dayList| ==>
      result[k].day == dayList[k] && IsCell(findings, EndOfDay(dayList[k]), dayList[k] in scanDays, result[k].cell)
  {
    result := [];
    for k := 0 to |dayList|
      invariant |result| == k
      invariant forall j :: 0 <= j < k ==>
        result[j].day == dayList[j] && IsCell(findings, EndOfDay(dayList[j]), dayList[j] in scanDays, result[j].cell)
    {
      var d := dayList[k];
      var maxSev, kevCount, domRiskBand := ReduceDay(findings, EndOfDay(d));
      result := result + [DailyStatus(d, Cell(domRiskBand, maxSev, kevCount, d in scanDays))];
    }
  }

  /** `_day_range`: a window of days without gap that ends at `endDay`. */
  function DayRange(endDay: Day, days: nat): (r: seq<Day>)
    ensures |r| == days
    ensures forall k :: 0 < k < |r| ==> r[k] == r[k - 1] + 1
    ensures r != [] ==> r[|r| - 1] == endDay
  {
    seq(days, k => endDay - (days - 1 - k))
  }

  /** The days of the window, and no other list of that length is such a window. */
  lemma {:induction false} DayRangeIsOnlyWindow(endDay: Day, days: nat, other: seq<Day>)
    requires |other| == days
    requires forall k :: 0 < k < |other| ==> other[k] == other[k - 1] + 1
    requires other != [] ==> other[|other| - 1] == endDay
    ensures other == DayRange(endDay, days)
    ensures forall d :: d in other <==> endDay - days < d <= endDay
    decreases days
  {
    if days > 0 {
      hide DayRange;
      var before := other[..days - 1];
      DayRangeIsOnlyWindow(endDay - 1, days - 1, before);
      DayRangeSnoc(endDay, days);
      assert other == before + [endDay];
      forall d
        ensures d in other <==> d in before || d == endDay
      {}
    }
  }

  lemma DayRangeSnoc(endDay: Day, days: nat)
    requires days > 0
    ensures DayRange(endDay, days) == DayRange(endDay - 1, days - 1) + [endDay]
  {}
}
