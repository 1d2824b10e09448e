/** The daily token budget: a counter, its reset at midnight UTC, one audit event per exhausted day. */
module LlmBudget {
  import opened Models

  function UtcMidnight(now: Time): Time {
    DayOf(now) * DAY_LENGTH
  }

  /** `_next_utc_midnight`: the date of the same time tomorrow, at midnight. */
  function NextUtcMidnight(now: Time): (r: Time)
    ensures now < r <= now + DAY_LENGTH && r % DAY_LENGTH == 0
    ensures r == UtcMidnight(now) + DAY_LENGTH
  {
    UtcMidnight(now + DAY_LENGTH)
  }

  /** The times that share a next midnight are those of one UTC day. */
  lemma SameDayIff(a: Time, b: Time)
    requires a <= b
    ensures b < NextUtcMidnight(a) <==> DayOf(a) == DayOf(b)
    ensures NextUtcMidnight(a) == NextUtcMidnight(b) <==> DayOf(a) == DayOf(b)
    ensures DayOf(a) <= DayOf(b)
  {}

  // ------------------------------------------------------------------ the settings row

  /** The budget columns of the settings row, and the times of the exhausted-budget audit events. */
  datatype Budget = Budget(usedToday: int, resetAt: Time, audits: seq<Time>)

  /** The clock reading of a consumption is part of the run, though the code does not look at it. */
  datatype Step =
    | MaybeReset(now: Time)
    | Consume(tokens: int, now: Time)
    | MarkExhausted(now: Time)

  predicate AuditedSince(audits: seq<Time>, start: Time) {
    exists k :: 0 <= k < |audits| && audits[k] >= start
  }

  function Next(s: Budget, step: Step): Budget {
    match step
    case MaybeReset(now) =>
      if now < s.resetAt then s else s.(usedToday := 0, resetAt := NextUtcMidnight(now))
    case Consume(tokens, _) =>
      s.(usedToday := s.usedToday + if tokens < 0 then 0 else tokens)
    case MarkExhausted(now) =>
      if AuditedSince(s.audits, s.resetAt - DAY_LENGTH) then s else s.(audits := s.audits + [now])
  }

  class Settings {
    var usedToday: int
    var resetAt: Time
    var dailyTokenCap: int
    var audits: seq<Time>

    constructor (now: Time, cap: int)
      ensures State() == Budget(0, now, []) && dailyTokenCap == cap
    {
      usedToday, resetAt, dailyTokenCap, audits := 0, now, cap, [];
    }

    function State(): Budget
      reads this
    {
      Budget(usedToday, resetAt, audits)
    }

    method MaybeResetBudget(now: Time) returns (reset: bool)
      modifies this
      ensures State() == Next(old(State()), MaybeReset(now)) && dailyTokenCap == old(dailyTokenCap)
      ensures reset <==> old(resetAt) <= now
    {
      if now < resetAt {
        return false;
      }
      usedToday := 0;
      resetAt := NextUtcMidnight(now);
      reset := true;
    }

    method BudgetCheck() returns (ok: bool)
      ensures ok <==> usedToday < dailyTokenCap
    {
      ok := usedToday < dailyTokenCap;
    }

    method BudgetConsume(tokens: int, ghost now: Time) returns (used: int)
      modifies this
      ensures State() == Next(old(State()), Consume(tokens, now)) && dailyTokenCap == old(dailyTokenCap)
      ensures used == usedToday
    {
      var booked := tokens;
      if booked < 0 {
        booked := 0;
      }
      usedToday := usedToday + booked;
      used := usedToday;
    }

    method MarkExhaustedAuditOnce(now: Time) returns (written: bool)
      modifies this
      ensures State() == Next(old(State()), MarkExhausted(now)) && dailyTokenCap == old(dailyTokenCap)
      ensures written <==> audits != old(audits)
    {
      var cycleStart := resetAt - DAY_LENGTH;
      if AuditedSince(audits, cycleStart) {
        return false;
      }
      audits := audits + [now];
      written := true;
    }
  }

  const BUDGET_CHECK_INTERVAL: Time := 60 * SECOND

  /** Which call of a poll raises, if any. */
  datatype Outage = NoOutage | AtReset | AtCheck | AtAudit

  /** What a poll does to the budget: an audit only when the cap is reached. */
  function Polled(s: Budget, cap: int, now: Time, later: Time, outage: Outage): (Budget, bool) {
    var reset := Next(s, MaybeReset(now));
    match outage
    case AtReset => (s, true)
    case AtCheck => (reset, true)
    case AtAudit => (reset, true)
    case NoOutage => if reset.usedToday < cap then (reset, true) else (Next(reset, MarkExhausted(later)), false)
  }

  /** The worker's cached answer; `monotonic` is the clock of the cache. */
  class Throttle {
    var cachedOk: bool
    var cachedAt: Time

    constructor ()
      ensures cachedOk && cachedAt == 0
    {
      cachedOk, cachedAt := true, 0;
    }

    /**
     * `_budget_ok_throttled`. The clock readings of check and audit differ when the poll spans some
     * time. An exception answers true, even when the cap is reached and only the audit failed.
     */
    method BudgetOk(settings: Settings, monotonic: Time, now: Time, later: Time, outage: Outage) returns (ok: bool)
      modifies this, settings
      ensures settings.dailyTokenCap == old(settings.dailyTokenCap) && ok == cachedOk
      ensures monotonic - old(cachedAt) <= 60_000_000 ==>
        ok == old(cachedOk) && cachedAt == old(cachedAt) && settings.State() == old(settings.State())
      ensures monotonic - old(cachedAt) > 60_000_000 ==>
        && cachedAt == monotonic
        && (ok <==> outage != NoOutage
                    || (if now < old(settings.resetAt) then old(settings.usedToday) else 0) < settings.dailyTokenCap)
        && (settings.State(), ok) == Polled(old(settings.State()), settings.dailyTokenCap, now, later, outage)
    {
      if monotonic - cachedAt <= BUDGET_CHECK_INTERVAL {
        return cachedOk;
      }
      ok := true;
      if outage != AtReset {
        var _ := settings.MaybeResetBudget(now);
        if outage != AtCheck {
          ok := settings.BudgetCheck();
          if !ok {
            if outage == AtAudit {
              ok := true;
            } else {
              var _ := settings.MarkExhaustedAuditOnce(later);
            }
          }
        }
      }
      cachedOk, cachedAt := ok, monotonic;
    }
  }

  // ------------------------------------------------------------------ one cycle

  function Run(s: Budget, trace: seq<Step>): Budget {
    if trace == [] then s else Next(Run(s, trace[..|trace| - 1]), trace[|trace| - 1])
  }

  function Consumed(trace: seq<Step>): int {
    if trace == [] then 0
    else
      var step := trace[|trace| - 1];
      Consumed(trace[..|trace| - 1]) + if step.Consume? && step.tokens > 0 then step.tokens else 0
  }

  function FirstMark(trace: seq<Step>): Option<Time> {
    if trace == [] then None
    else
      var before := FirstMark(trace[..|trace| - 1]);
      if before.Some? then before
      else if trace[|trace| - 1].MarkExhausted? then Some(trace[|trace| - 1].now) else None
  }

  predicate NotBefore(trace: seq<Step>, start: Time) {
    forall k :: 0 <= k < |trace| ==> start <= trace[k].now
  }

  /**
   * The cycle that a reset at `now` opens lasts until a reset check at the next midnight or later.
   * Within it the counter is what was consumed in it, and it gets one audit, at its first mark,
   * unless some earlier audit is of the reset's day, at or after its midnight.
   */
  lemma {:induction false} Cycle(s: Budget, now: Time, cycle: seq<Step>)
    requires s.resetAt <= now && NotBefore(cycle, now)
    requires forall k :: 0 <= k < |cycle| && cycle[k].MaybeReset? ==> cycle[k].now < NextUtcMidnight(now)
    ensures Run(Next(s, MaybeReset(now)), cycle)
         == Budget(Consumed(cycle), NextUtcMidnight(now),
                   s.audits + if FirstMark(cycle).Some? && !AuditedSince(s.audits, UtcMidnight(now))
                                then [FirstMark(cycle).value] else [])
    ensures FirstMark(cycle).Some? ==> FirstMark(cycle).value >= now
  {
    if cycle != [] {
      Cycle(s, now, cycle[..|cycle| - 1]);
      var before := FirstMark(cycle[..|cycle| - 1]);
      if before.Some? && !AuditedSince(s.audits, UtcMidnight(now)) {
        var audits := s.audits + [before.value];
        assert audits[|audits| - 1] >= UtcMidnight(now);
      }
      assert s.audits + [] == s.audits;
    }
  }

  // ------------------------------------------------------------------ whole runs

  /** The clock never goes back, from the creation of the row on. */
  predicate Monotone(start: Time, trace: seq<Step>) {
    && NotBefore(trace, start)
    && forall j, k :: 0 <= j < k < |trace| ==> trace[j].now <= trace[k].now
  }

  /** Some reset check of the same UTC day comes before step `k`. */
  predicate Checked(trace: seq<Step>, k: int)
    requires 0 <= k < |trace|
  {
    exists j :: 0 <= j < k && trace[j].MaybeReset? && DayOf(trace[j].now) == DayOf(trace[k].now)
  }

  predicate ConsumptionsChecked(trace: seq<Step>) {
    forall k :: 0 <= k < |trace| && trace[k].Consume? ==> Checked(trace, k)
  }

  predicate MarksChecked(trace: seq<Step>) {
    forall k :: 0 <= k < |trace| && trace[k].MarkExhausted? ==> Checked(trace, k)
  }

  function LastReset(trace: seq<Step>): Option<Time> {
    if trace == [] then None
    else if trace[|trace| - 1].MaybeReset? then Some(trace[|trace| - 1].now)
    else LastReset(trace[..|trace| - 1])
  }

  lemma {:induction false} LastResetIsLatest(trace: seq<Step>, start: Time)
    requires Monotone(start, trace)
    ensures LastReset(trace).Some? ==> start <= LastReset(trace).value
    ensures LastReset(trace).Some? ==> exists j :: 0 <= j < |trace| && trace[j] == MaybeReset(LastReset(trace).value)
    ensures forall j :: 0 <= j < |trace| && trace[j].MaybeReset? ==>
              LastReset(trace).Some? && trace[j].now <= LastReset(trace).value
  {
    if trace != [] {
      LastResetIsLatest(trace[..|trace| - 1], start);
    }
  }

  /** In every run the next reset is due at the midnight after the last reset check. */
  lemma {:induction false} NextResetIsMidnight(start: Time, trace: seq<Step>)
    requires Monotone(start, trace)
    ensures Run(Budget(0, start, []), trace).resetAt
         == if LastReset(trace).Some? then NextUtcMidnight(LastReset(trace).value) else start
  {
    if trace != [] {
      var before, step := trace[..|trace| - 1], trace[|trace| - 1];
      NextResetIsMidnight(start, before);
      LastResetIsLatest(before, start);
      if step.MaybeReset? && LastReset(before).Some? {
        SameDayIff(LastReset(before).value, step.now);
      }
    }
  }

  /** The tokens that were consumed on a UTC day. */
  function TokensOn(trace: seq<Step>, day: Day): int {
    if trace == [] then 0
    else
      var step := trace[|trace| - 1];
      TokensOn(trace[..|trace| - 1], day) + if step.Consume? && step.tokens > 0 && DayOf(step.now) == day
        then step.tokens else 0
  }

  /** Steps of checked runs fall on the day of the last reset check. */
  lemma CheckedStepIsToday(start: Time, trace: seq<Step>)
    requires trace != [] && Monotone(start, trace) && Checked(trace, |trace| - 1) && !trace[|trace| - 1].MaybeReset?
    ensures LastReset(trace).Some? && DayOf(LastReset(trace).value) == DayOf(trace[|trace| - 1].now)
    ensures LastReset(trace).value <= trace[|trace| - 1].now
  {
    LastResetIsLatest(trace, start);
    var step := trace[|trace| - 1];
    var j :| 0 <= j < |trace| - 1 && trace[j].MaybeReset? && DayOf(trace[j].now) == DayOf(step.now);
    var i :| 0 <= i < |trace| && trace[i] == MaybeReset(LastReset(trace).value);
    SameDayIff(trace[j].now, trace[i].now);
    SameDayIff(trace[i].now, step.now);
  }

  lemma {:induction false} NothingAfterLastReset(start: Time, trace: seq<Step>, day: Day)
    requires Monotone(start, trace) && ConsumptionsChecked(trace)
    requires LastReset(trace).None? || DayOf(LastReset(trace).value) < day
    ensures TokensOn(trace, day) == 0
  {
    if trace != [] {
      var before, step := trace[..|trace| - 1], trace[|trace| - 1];
      PrefixChecked(trace);
      LastResetIsLatest(before, start);
      LastResetIsLatest(trace, start);
      if LastReset(before).Some? {
        SameDayIff(LastReset(before).value, LastReset(trace).value);
      }
      NothingAfterLastReset(start, before, day);
      if step.Consume? {
        CheckedStepIsToday(start, trace);
      }
    }
  }

  /** The discipline of a run holds before its last step. */
  lemma PrefixChecked(trace: seq<Step>)
    requires trace != []
    ensures ConsumptionsChecked(trace) ==> ConsumptionsChecked(trace[..|trace| - 1])
    ensures MarksChecked(trace) ==> MarksChecked(trace[..|trace| - 1])
  {
    var before := trace[..|trace| - 1];
    forall k | 0 <= k < |before|
      ensures Checked(before, k) <==> Checked(trace, k)
      ensures before[k] == trace[k]
    {
      assert forall j :: 0 <= j < k ==> before[j] == trace[j];
    }
  }

  /**
   * When every consumption follows a reset check of its own day, the counter is at every moment
   * what was consumed on the day of the last check; a check therefore sees exactly today's tokens.
   * Marks may come at any time.
   */
  lemma {:induction false} CounterIsToday(start: Time, trace: seq<Step>)
    requires Monotone(start, trace) && ConsumptionsChecked(trace)
    ensures Run(Budget(0, start, []), trace).usedToday
         == if LastReset(trace).Some? then TokensOn(trace, DayOf(LastReset(trace).value)) else 0
  {
    if trace != [] {
      var before, step := trace[..|trace| - 1], trace[|trace| - 1];
      PrefixChecked(trace);
      CounterIsToday(start, before);
      NextResetIsMidnight(start, before);
      LastResetIsLatest(before, start);
      match step
      case MaybeReset(now) =>
        if LastReset(before).Some? {
          SameDayIff(LastReset(before).value, now);
        }
        if LastReset(before).None? || DayOf(LastReset(before).value) < DayOf(now) {
          NothingAfterLastReset(start, before, DayOf(now));
        }
      case Consume(_, _) =>
        CheckedStepIsToday(start, trace);
      case MarkExhausted(_) =>
    }
  }

  /** The number of steps before the first reset check of the day of the last one. */
  function CycleStart(trace: seq<Step>): (n: nat)
    ensures n <= |trace|
  {
    if trace == [] then 0
    else
      var before, step := trace[..|trace| - 1], trace[|trace| - 1];
      if step.MaybeReset? && (LastReset(before).None? || DayOf(LastReset(before).value) != DayOf(step.now))
      then |before| else CycleStart(before)
  }

  /** In every run, with or without discipline, the counter is what was booked since that check. */
  lemma {:induction false} UsedSinceCycleStart(start: Time, trace: seq<Step>)
    requires Monotone(start, trace)
    ensures Run(Budget(0, start, []), trace).usedToday == Consumed(trace[CycleStart(trace)..])
  {
    if trace != [] {
      var before, step := trace[..|trace| - 1], trace[|trace| - 1];
      UsedSinceCycleStart(start, before);
      NextResetIsMidnight(start, before);
      LastResetIsLatest(before, start);
      if step.MaybeReset? && LastReset(before).Some? {
        SameDayIff(LastReset(before).value, step.now);
      }
      hide Run, LastReset, DayOf, NextUtcMidnight;
      var n := CycleStart(before);
      assert trace[n..][..|trace[n..]| - 1] == before[n..];
      assert trace[|before|..][..0] == [];
    }
  }

  /** What is booked on other days than `day`. */
  function TokensOff(trace: seq<Step>, day: Day): nat {
    if trace == [] then 0
    else
      var step := trace[|trace| - 1];
      TokensOff(trace[..|trace| - 1], day) + if step.Consume? && step.tokens > 0 && DayOf(step.now) != day
        then step.tokens else 0
  }

  lemma {:induction false} TokensSplit(trace: seq<Step>, n: nat, day: Day)
    requires n <= |trace|
    ensures TokensOn(trace, day) == TokensOn(trace[..n], day) + TokensOn(trace[n..], day)
    ensures Consumed(trace[n..]) == TokensOn(trace[n..], day) + TokensOff(trace[n..], day)
    decreases |trace|
  {
    if n == |trace| {
      assert trace[..n] == trace && trace[n..] == [];
    } else {
      var before := trace[..|trace| - 1];
      TokensSplit(before, n, day);
      assert before[..n] == trace[..n] && trace[n..][..|trace[n..]| - 1] == before[n..];
    }
  }

  /**
   * Without any discipline, the counter is what was consumed on a day, in particular on that of the
   * last check, if and only if as much was booked on it before the cycle as in the cycle on other
   * days: the former is lost, the latter counts on the wrong day.
   */
  lemma CounterIsTodayIff(start: Time, trace: seq<Step>, day: Day)
    requires Monotone(start, trace)
    ensures
      var n := CycleStart(trace);
      Run(Budget(0, start, []), trace).usedToday == TokensOn(trace, day)
      <==> TokensOn(trace[..n], day) == TokensOff(trace[n..], day)
  {
    UsedSinceCycleStart(start, trace);
    TokensSplit(trace, CycleStart(trace), day);
    hide Run, CycleStart, TokensOn, TokensOff, Consumed;
  }

  /** The audits of a run: never two on one UTC day, and none later than the last step. */
  ghost predicate OnePerDay(audits: seq<Time>, last: Time) {
    && (forall j, k :: 0 <= j < k < |audits| ==> DayOf(audits[j]) < DayOf(audits[k]))
    && forall k :: 0 <= k < |audits| ==> audits[k] <= last
  }

  predicate MarkedOn(trace: seq<Step>, day: Day) {
    exists k :: 0 <= k < |trace| && trace[k].MarkExhausted? && DayOf(trace[k].now) == day
  }

  predicate AuditedOn(audits: seq<Time>, day: Day) {
    exists k :: 0 <= k < |audits| && DayOf(audits[k]) == day
  }

  /**
   * When every mark follows a reset check of its own day, each day with a mark gets exactly one
   * audit: none is written twice, and no earlier cycle's audit suppresses a later one's. Tokens may
   * be booked at any time.
   */
  lemma {:induction false} OneAuditPerMarkedDay(start: Time, trace: seq<Step>)
    requires Monotone(start, trace) && MarksChecked(trace)
    ensures
      var audits := Run(Budget(0, start, []), trace).audits;
      && OnePerDay(audits, if trace == [] then start else trace[|trace| - 1].now)
      && forall day :: AuditedOn(audits, day) <==> MarkedOn(trace, day)
  {
    if trace != [] {
      var before, step := trace[..|trace| - 1], trace[|trace| - 1];
      PrefixChecked(trace);
      OneAuditPerMarkedDay(start, before);
      var s := Run(Budget(0, start, []), before);
      forall day
        ensures MarkedOn(trace, day) <==> MarkedOn(before, day) || (step.MarkExhausted? && DayOf(step.now) == day)
      {
        assert forall k :: 0 <= k < |before| ==> trace[k] == before[k];
      }
      if step.MarkExhausted? {
        NextResetIsMidnight(start, before);
        CheckedStepIsToday(start, trace);
        SameDayIff(LastReset(before).value, step.now);
        MarkAddsItsDay(s, step.now);
      }
    }
  }

  lemma MarkAddsItsDay(s: Budget, now: Time)
    requires OnePerDay(s.audits, now) && s.resetAt == NextUtcMidnight(now)
    ensures
      var audits := Next(s, MarkExhausted(now)).audits;
      OnePerDay(audits, now) && forall day :: AuditedOn(audits, day) <==> AuditedOn(s.audits, day) || day == DayOf(now)
  {
    AuditedSinceMidnight(s.audits, now);
    hide DayOf, UtcMidnight, OnePerDay, AuditedOn, AuditedSince;
    if !AuditedSince(s.audits, UtcMidnight(now)) {
      AppendDay(s.audits, now);
    }
  }

  lemma AuditedSinceMidnight(audits: seq<Time>, now: Time)
    requires OnePerDay(audits, now)
    ensures AuditedSince(audits, UtcMidnight(now)) <==> AuditedOn(audits, DayOf(now))
  {
    forall k | 0 <= k < |audits|
      ensures audits[k] >= UtcMidnight(now) <==> DayOf(audits[k]) == DayOf(now)
    {
      SameDayIff(audits[k], now);
    }
    hide DayOf, UtcMidnight;
  }

  lemma AppendDay(audits: seq<Time>, now: Time)
    requires OnePerDay(audits, now) && !AuditedOn(audits, DayOf(now))
    ensures OnePerDay(audits + [now], now)
    ensures forall day :: AuditedOn(audits + [now], day) <==> AuditedOn(audits, day) || day == DayOf(now)
  {
    forall k | 0 <= k < |audits|
      ensures DayOf(audits[k]) < DayOf(now)
    {
      SameDayIff(audits[k], now);
    }
    hide DayOf;
    var longer := audits + [now];
    assert longer[|audits|] == now;
    assert forall k :: 0 <= k < |audits| ==> longer[k] == audits[k];
  }

  /**
   * Without that discipline it fails: a poll that checks the reset before midnight and writes the
   * audit after it uses up the audit of the next day.
   */
  lemma PollAcrossMidnight(day: Day, used: int)
    ensures
      var midnight := day * DAY_LENGTH;
      var evening := Budget(used, midnight, []);
      var s := Run(evening, [MaybeReset(midnight - 1), MarkExhausted(midnight), MaybeReset(midnight + 1)]);
      s.audits == [midnight] && Next(s, MarkExhausted(midnight + 2)) == s
  {
    var midnight := day * DAY_LENGTH;
    var evening := Budget(used, midnight, []);
    var trace := [MaybeReset(midnight - 1), MarkExhausted(midnight), MaybeReset(midnight + 1)];
    assert trace[..2] == [MaybeReset(midnight - 1), MarkExhausted(midnight)] &&
             trace[..2][..1] == [MaybeReset(midnight - 1)];
    assert trace[..2][..1][..0] == [];
    assert Run(evening, trace[..2][..1]) == evening;
    assert !AuditedSince([], midnight - DAY_LENGTH);
    assert Run(evening, trace[..2]) == Budget(used, midnight, [midnight]);
    assert NextUtcMidnight(midnight + 1) == midnight + DAY_LENGTH;
    assert [midnight][0] >= midnight && AuditedSince([midnight], midnight);
  }

  /** Tokens that are booked after midnight and before the first check of the new day are lost. */
  lemma LateBookingIsLost(day: Day, tokens: nat)
    ensures
      var midnight := day * DAY_LENGTH;
      var trace := [MaybeReset(midnight - 1), Consume(tokens, midnight), MaybeReset(midnight + 1)];
      && Run(Budget(0, midnight - 1, []), trace).usedToday == 0
      && TokensOn(trace, day) == tokens
  {
    var midnight := day * DAY_LENGTH;
    var trace := [MaybeReset(midnight - 1), Consume(tokens, midnight), MaybeReset(midnight + 1)];
    assert trace[..2] == [MaybeReset(midnight - 1), Consume(tokens, midnight)];
    assert trace[..2][..1] == [MaybeReset(midnight - 1)] && trace[..2][..1][..0] == [];
    assert NextUtcMidnight(midnight - 1) == midnight;
    assert Run(Budget(0, midnight - 1, []), trace[..2][..1]) == Budget(0, midnight, []);
    assert DayOf(midnight) == day;
    assert TokensOn(trace[..2][..1], day) == 0;
    assert TokensOn(trace[..2], day) == tokens;
  }
}
