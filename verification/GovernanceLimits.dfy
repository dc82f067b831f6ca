/** How far spend can really go: exactly these settings keep it within the limits, and the bounds on
    a day's spend are the best possible ones. */
module GovernanceLimits {
  import opened GovernanceGates
  import opened GovernanceRuns
  import opened GovernanceSafety
  import opened GovernanceCalendar
  import opened GovernanceCaps
  import opened GovernanceBursts
  import opened GovernanceDays

  // ----- The grid of a month -----

  lemma {:induction false} AtIs(start: real, more: real, j: nat)
    ensures At(Grid(start, 1.0 + more), j) == start + j as real + Repeated(more, j)
  {
    if j != 0 { AtIs(start, more, j - 1); }
  }

  lemma {:induction false} RepeatedIs(amount: real, k: nat)
    ensures Repeated(amount, k) == k as real * amount
  {
    if k != 0 { RepeatedIs(amount, k - 1); }
  }

  /** The bursts of the i-th day from day `k` on. */
  ghost predicate DayOnGrid(l: Load, g: Grid, k: nat, i: nat) {
    DatesAre(l, g, Late(l) + DAY * i, Late(l) + DAY * (i + 1), Nth(l.cal.first, k + i))
  }

  ghost predicate TogetherOnGrid(l: Load, g: Grid, j: nat) { At(g, j + l.seconds - 1) <= At(g, j) + l.length }

  /** Bursts can be far enough apart for the window, and close enough to fill 31 days from day `k`
      on, those left over from before included. */
  lemma GridFor(l: Load, k: nat) returns (g: Grid)
    requires Proper(l)
    ensures At(g, 0) == Dawn(l.cal, k) - l.length && (l.w.clock <= At(g, 0) ==> OnGrid(l, g, k))
  {
    var n := DAY * 31 + l.seconds;
    var more := SmallStep(l.length - Late(l) as real + 1.0, n);
    g := Grid(Dawn(l.cal, k) - l.length, 1.0 + more);
    forall j: nat ensures TogetherOnGrid(l, g, j) { Together(l, more, g, j, n); }
    forall i: nat | i < 31 ensures DayOnGrid(l, g, k, i) { DayFits(l, more, g, k, i, n); }
    if 0 < Late(l) { DawnFits(l, more, g, n); }
  }

  lemma SmallStep(room: real, n: nat) returns (more: real)
    requires 0.0 < room && 0 < n
    ensures 0.0 < more && Repeated(more, n) == room / 2.0
  {
    more := room / (2 * n) as real;
    assert more * (2 * n) as real == room;
    RepeatedIs(more, n);
  }

  lemma DawnFits(l: Load, more: real, g: Grid, n: nat)
    requires Proper(l) && g.gap == 1.0 + more && 0.0 < more && l.seconds <= n && 0 < Late(l)
    requires Repeated(more, n) == (l.length - Late(l) as real + 1.0) / 2.0
    ensures At(g, Late(l) - 1) <= At(g, 0) + l.length <= At(g, Late(l))
  {
    AtIs(g.start, more, Late(l) - 1);
    AtIs(g.start, more, Late(l));
    RepeatedMonotone(more, Late(l) - 1, n);
    RepeatedMonotone(more, 0, Late(l));
  }

  lemma Together(l: Load, more: real, g: Grid, j: nat, n: nat)
    requires Proper(l) && g.gap == 1.0 + more && 0.0 < more && l.seconds <= n
    requires Repeated(more, n) == (l.length - Late(l) as real + 1.0) / 2.0
    ensures TogetherOnGrid(l, g, j)
  {
    AtIs(g.start, more, j);
    AtIs(g.start, more, j + l.seconds - 1);
    RepeatedAdds(more, j, l.seconds - 1);
    RepeatedMonotone(more, l.seconds - 1, n);
  }

  lemma DayFits(l: Load, more: real, g: Grid, k: nat, i: nat, n: nat)
    requires Proper(l) && g == Grid(Dawn(l.cal, k) - l.length, 1.0 + more) && 0.0 < more && i < 31
    requires n == DAY * 31 + l.seconds && Repeated(more, n) == (l.length - Late(l) as real + 1.0) / 2.0
    ensures DayOnGrid(l, g, k, i)
  {
    var lo, hi, d := Late(l) + DAY * i, Late(l) + DAY * (i + 1), Nth(l.cal.first, k + i);
    forall j | lo <= j < hi ensures Dated(l, g, j, d) {
      AtIs(g.start, more, j);
      RepeatedMonotone(more, j, n);
      assert Dawn(l.cal, k + i) == Dawn(l.cal, k) + (DAY * i) as real;
      assert Dawn(l.cal, k + i + 1) == Dawn(l.cal, k) + (DAY * (i + 1)) as real;
      DawnsMonotone(l.cal, 0, k + i);
      IndexIs(l.cal, At(g, j), k + i);
    }
  }

  /** Some day begins after any instant. */
  lemma FarDay(cal: Calendar, t: real) returns (k: nat)
    ensures t <= Dawn(cal, k)
  {
    var days := (t - cal.dawn) / DAY as real;
    assert days * DAY as real == t - cal.dawn;
    k := if days < 0.0 then 0 else days.Floor + 1;
    assert days <= k as real;
    assert (DAY * k) as real == DAY as real * k as real;
  }

  // ----- The first day -----

  /** How many bursts are paid at once before those that run together. */
  function AtOnce(l: Load): nat { if Late(l) == 0 then DAY - 1 else DAY }

  /** Nothing has happened yet to the caller. */
  ghost predicate Untouched(l: Load, s: Sys) {
    Running(HistoryOf(s, l.c), 0, []) && HistoryOf(s, l.c).tokens == [] && s.clock == l.w.clock
  }

  lemma StartIsUntouched(l: Load)
    requires Proper(l)
    ensures ClosedUnder(l, Reached(l)) && Reached(l)(State(l.w, [])) && Untouched(l, State(l.w, []))
  {
    ReachedIsClosed(l);
    assert Possible(l, []);
  }

  /** The grid fits the month that begins on day `k`, and its first bursts come after the start. */
  ghost predicate OnGrid(l: Load, g: Grid, k: nat) {
    && 1.0 < g.gap && l.w.clock <= At(g, 0) == Dawn(l.cal, k) - l.length
    && (forall i: nat :: i < 31 ==> DayOnGrid(l, g, k, i))
    && (forall j: nat :: TogetherOnGrid(l, g, j))
    && (0 < Late(l) ==> At(g, Late(l) - 1) <= Dawn(l.cal, k) <= At(g, Late(l)))
  }

  lemma StartsLate(l: Load, s: Sys, g: Grid, k: nat)
    requires Proper(l) && CanSpend(l) && OnGrid(l, g, k) && 0 < Late(l) && Untouched(l, s)
    ensures LateStart(l, s, g, Dawn(l.cal, k), DAY, l.seconds, Nth(l.cal.first, k))
  {
    assert DateAt(l.cal, Dawn(l.cal, k)) == Nth(l.cal.first, k) by { DawnDate(l.cal, k); }
    assert TogetherOnGrid(l, g, DAY) && DayOnGrid(l, g, k, 0);
  }

  lemma DawnDate(cal: Calendar, k: nat)
    ensures DateAt(cal, Dawn(cal, k)) == Nth(cal.first, k)
  {
    DawnsMonotone(cal, 0, k);
    IndexIs(cal, Dawn(cal, k), k);
  }

  /** What the first day comes to: `x` for each call paid at once, `y` for each of the last. */
  function Total(l: Load, n1: nat, n2: nat, x: real, y: real): real {
    Repeated(x, Calls(Rate(l), n1)) + Repeated(y, Calls(Rate(l), n2))
  }

  lemma StartsPlain(l: Load, s: Sys, g: Grid, k: nat)
    requires Proper(l) && CanSpend(l) && OnGrid(l, g, k) && Late(l) == 0 && Untouched(l, s)
    ensures l.seconds == 1 && DatesAre(l, g, 0, DAY, Nth(l.cal.first, k)) && Ready(l, s, g, 0)
    ensures Idle(l, s, [])
  {
    assert DayOnGrid(l, g, k, 0);
  }

  lemma SpendFirstDay(l: Load, states: Sys -> bool, start: Sys, g: Grid, k: nat, x: real, y: real)
      returns (s: Sys, paid: seq<Cost>)
    requires ClosedUnder(l, states) && states(start) && Untouched(l, start)
    requires Proper(l) && CanSpend(l) && OnGrid(l, g, k) && 0.0 <= x <= l.each && 0.0 <= y <= l.each
    requires Fits(l.w.cfg, [], Nth(l.cal.first, k), Repeated(x, Calls(Rate(l), AtOnce(l))))
    ensures states(s) && Idle(l, s, paid) && Ready(l, s, g, DAY + Late(l)) && s.clock == At(g, DAY + Late(l) - 1)
    ensures Spends([], paid, Nth(l.cal.first, k), Total(l, AtOnce(l), l.seconds, x, y))
  {
    if Late(l) == 0 {
      StartsPlain(l, start, g, k);
      s, paid := PlainDay(l, states, start, [], g, 0, DAY - 1, 1, Nth(l.cal.first, k), x, y);
    } else {
      StartsLate(l, start, g, k);
      s, paid := DayAfterLateStart(l, states, start, g, Dawn(l.cal, k), DAY, l.seconds, Nth(l.cal.first, k), x, y);
    }
  }

  /** An amount within what `n` calls can cost, shared equally among them. */
  lemma Share(amount: real, each: real, n: nat) returns (cost: real)
    requires 0.0 <= amount <= Exposure(each, n) && 0.0 <= each
    ensures 0.0 <= cost <= each && Repeated(cost, n) == amount
  {
    if n == 0 {
      cost := 0.0;
    } else {
      cost := amount / n as real;
      assert cost * n as real == amount;
      assert cost <= each;
    }
    RepeatedIs(cost, n);
  }

  // ----- The daily limit -----

  lemma FullDayParts(l: Load)
    requires Proper(l)
    ensures FullDay(l) == Exposure(l.each, Calls(Rate(l), AtOnce(l))) + Overrun(l)
  {
    CallsAre(Rate(l), AtOnce(l));
    assert AtOnce(l) + l.seconds == DAY + Late(l);
    assert Rate(l) * (DAY + Late(l)) == Rate(l) * AtOnce(l) + Rate(l) * l.seconds;
    ExposureAdds(l.each, Rate(l) * AtOnce(l), Rate(l) * l.seconds);
  }

  lemma ExposureAdds(each: real, j: nat, k: nat)
    ensures Exposure(each, j + k) == Exposure(each, j) + Exposure(each, k)
  {
  }

  lemma OverrunIs(l: Load)
    ensures Repeated(l.each, Calls(Rate(l), l.seconds)) == Overrun(l)
  {
    CallsAre(Rate(l), l.seconds);
    RepeatedIs(l.each, Rate(l) * l.seconds);
  }

  lemma UsageIs(w: World, run: seq<Event>, c: Caller, d: Day)
    requires Valid(w, run)
    ensures var s := State(w, run);
            var charges := HistoryOf(s, c).charges;
            && DayUsed(s.tables, c, d) == SpentOn(charges, d)
            && MonthUsed(s.tables, c, d.year, d.month) == SpentIn(charges, d.year, d.month)
  {
    RunKeepsInv(w, run, c);
  }

  /** Some run charges exactly these amounts on one day: `first` call by call, then the overrun. */
  lemma SpendOneDay(l: Load, first: real) returns (run: seq<Event>, d: Day)
    requires Proper(l) && CanSpend(l) && 0.0 <= first <= FullDay(l) - Overrun(l)
    requires first < l.w.cfg.dailyLimit && first < l.w.cfg.monthlyLimit
    ensures Possible(l, run) && DayUsed(State(l.w, run).tables, l.c, d) == first + Overrun(l)
  {
    var k := FarDay(l.cal, l.w.clock + l.length);
    var g := GridFor(l, k);
    d := Nth(l.cal.first, k);
    FullDayParts(l);
    OverrunIs(l);
    var x := Share(first, l.each, Calls(Rate(l), AtOnce(l)));
    StartIsUntouched(l);
    var s, paid := SpendFirstDay(l, Reached(l), State(l.w, []), g, k, x, l.each);
    run := RunTo(l, s);
    UsageIs(l.w, run, l.c, d);
  }

  /** The bounds on a day's spend are the best possible: they cannot be lowered by any `slack`. */
  lemma DailyBoundIsSharp(l: Load, slack: real) returns (run: seq<Event>, d: Day)
    requires Proper(l) && CanSpend(l) && 0.0 < slack
    ensures Possible(l, run)
    ensures Least2(FullDay(l), Least2(l.w.cfg.dailyLimit, l.w.cfg.monthlyLimit) + Overrun(l)) - slack
          < DayUsed(State(l.w, run).tables, l.c, d)
  {
    var least := Least2(l.w.cfg.dailyLimit, l.w.cfg.monthlyLimit);
    FullDayParts(l);
    ExposureMonotone(l.each, 0, Calls(Rate(l), AtOnce(l)));
    var first := if least <= slack / 2.0 then 0.0 else Least2(FullDay(l) - Overrun(l), least - slack / 2.0);
    run, d := SpendOneDay(l, first);
  }

  /** A day's spend is part of its month's. */
  lemma {:induction false} DayWithinMonth(w: World, run: seq<Event>, c: Caller, d: Day)
    requires Valid(w, run)
    ensures var charges := HistoryOf(State(w, run), c).charges;
            0.0 <= SpentOn(charges, d) <= SpentIn(charges, d.year, d.month)
    decreases |run|
  {
    if run != [] {
      var s, e := State(w, Earlier(run)), Last(run);
      DayWithinMonth(w, Earlier(run), c, d);
      StepCharges(w.cfg, s, e, c);
      if e.Succeed? && e.caller == c { SpentMore(HistoryOf(s, c).charges, Cost(e.today, e.cost), d); }
    }
  }

  /** On every run a day's spend is zero, or below the smaller limit plus the overrun; and it is
      never more than a full day of charges. */
  lemma DayWithinBounds(l: Load, run: seq<Event>, d: Day)
    requires Possible(l, run) && Proper(l) && CanSpend(l)
    ensures var used := DayUsed(State(l.w, run).tables, l.c, d);
            && (used == 0.0 || used < Least2(l.w.cfg.dailyLimit, l.w.cfg.monthlyLimit) + Overrun(l))
            && used <= FullDay(l)
  {
    SpendBound(l.w, run, l.c, l.each, l.length, l.seconds, d);
    DayWithinMonth(l.w, run, l.c, d);
    UsageIs(l.w, run, l.c, d);
    SpentWithinCaps(l, run, d);
  }

  predicate Passed(used: real, limit: real) { used > 0.0 && used > limit }

  /** Over all runs with such calls, no day's spend ever passes the daily limit. */
  ghost predicate DailyLimitHolds(l: Load) {
    forall run, d :: Possible(l, run) ==> !Passed(DayUsed(State(l.w, run).tables, l.c, d), l.w.cfg.dailyLimit)
  }

  /** The settings under which that is so: the caller cannot spend at all, the monthly limit leaves
      room for the overrun below the daily one, or a full day of charges does. */
  lemma DailyLimitHoldsExactlyWhen(l: Load)
    requires Proper(l)
    ensures DailyLimitHolds(l)
        <==> !CanSpend(l) || l.w.cfg.monthlyLimit + Overrun(l) <= l.w.cfg.dailyLimit
             || FullDay(l) <= l.w.cfg.dailyLimit
  {
    var daily, monthly := l.w.cfg.dailyLimit, l.w.cfg.monthlyLimit;
    if CanSpend(l) && daily < monthly + Overrun(l) && daily < FullDay(l) {
      OverrunPositive(l);
      var run, d := DailyBoundIsSharp(l, Least2(FullDay(l), Least2(daily, monthly) + Overrun(l)) - daily);
      assert Passed(DayUsed(State(l.w, run).tables, l.c, d), daily);
    } else {
      forall run, d | Possible(l, run) ensures !Passed(DayUsed(State(l.w, run).tables, l.c, d), daily) {
        if CanSpend(l) { DayWithinBounds(l, run, d); } else { NoSpend(l, run, d); }
      }
    }
  }

  lemma OverrunPositive(l: Load)
    requires CanSpend(l)
    ensures 0.0 < Overrun(l)
  {
    assert 0 < Rate(l) * l.seconds;
  }

  /** A caller that cannot spend never does. */
  lemma NoSpend(l: Load, run: seq<Event>, d: Day)
    requires Possible(l, run) && Proper(l) && !CanSpend(l)
    ensures DayUsed(State(l.w, run).tables, l.c, d) <= 0.0
    ensures MonthUsed(State(l.w, run).tables, l.c, d.year, d.month) <= 0.0
  {
    NothingCharged(l, run, d);
    DayWithinMonth(l.w, run, l.c, d);
    UsageIs(l.w, run, l.c, d);
  }

  lemma {:induction false} NothingCharged(l: Load, run: seq<Event>, d: Day)
    requires Possible(l, run) && Proper(l) && !CanSpend(l)
    ensures SpentIn(HistoryAfter(l, run).charges, d.year, d.month) == 0.0
    decreases |run|
  {
    if run != [] {
      var s, e := State(l.w, Earlier(run)), Last(run);
      PossibleBefore(l, run);
      NothingCharged(l, Earlier(run), d);
      NothingRuns(l, Earlier(run));
      StepCharges(l.w.cfg, s, e, l.c);
      if e.Succeed? && e.caller == l.c { SpentMore(HistoryOf(s, l.c).charges, Cost(e.today, e.cost), d); }
    }
  }

  lemma NothingRuns(l: Load, run: seq<Event>)
    requires Possible(l, run) && Proper(l) && !CanSpend(l)
    ensures l.each == 0.0 || HistoryAfter(l, run).inflight == {}
  {
    InflightBound(l.w, run, l.c, l.length, l.seconds);
    SpendRun(l.w, run, l.c, Daily, l.each, l.length, l.seconds);
    SpendRun(l.w, run, l.c, Monthly, l.each, l.length, l.seconds);
  }

  // ----- The monthly limit -----

  /** How many of a further day's bursts run together at its end. */
  function AtEnd(l: Load): nat { if l.seconds <= DAY then l.seconds else DAY }

  lemma FurtherDayParts(l: Load)
    requires Proper(l)
    ensures var last := Exposure(l.each, Calls(Rate(l), AtEnd(l)));
            && OwnDay(l) == Exposure(l.each, Calls(Rate(l), DAY - AtEnd(l))) + last
            && last <= Overrun(l) && (last == Overrun(l) || DAY == AtEnd(l))
  {
    var q := Rate(l);
    CallsAre(q, DAY);
    CallsAre(q, l.seconds);
    CallsAdd(q, DAY - AtEnd(l), AtEnd(l));
    ExposureAdds(l.each, Calls(q, DAY - AtEnd(l)), Calls(q, AtEnd(l)));
    CallsAdd(q, AtEnd(l), l.seconds - AtEnd(l));
    ExposureMonotone(l.each, Calls(q, AtEnd(l)), Calls(q, l.seconds));
  }

  /** A month's amounts: on the first day `a` and then `b`, on each further day `c` and then `d`. */
  datatype Plan = Plan(a: real, b: real, c: real, d: real)

  function PlanTotal(p: Plan): real { p.a + p.b + 30.0 * (p.c + p.d) }

  /** The amounts are within their caps, and before the second part of each day within the limit. */
  predicate Sound(p: Plan, caps: Plan, daily: real) {
    && 0.0 <= p.a <= caps.a && 0.0 <= p.b <= caps.b && 0.0 <= p.c <= caps.c && 0.0 <= p.d <= caps.d
    && p.a < daily && p.c < daily
  }

  /** Amounts that together pass the monthly limit. */
  lemma LargePlan(caps: Plan, daily: real, monthly: real) returns (p: Plan)
    requires 0.0 < daily && 0.0 <= caps.a && 0.0 < caps.d <= caps.b && 0.0 <= caps.c
    requires caps.d == caps.b || caps.c == 0.0
    requires monthly < Least2(caps.a + caps.b, daily + caps.b) + 30.0 * Least2(caps.c + caps.d, daily + caps.b)
    ensures Sound(p, caps, daily) && monthly < PlanTotal(p) && p.d == caps.d
  {
    var most := Least2(caps.a + caps.b, daily + caps.b) + 30.0 * Least2(caps.c + caps.d, daily + caps.b);
    var less := Least2(daily, (most - monthly) / 62.0);
    p := Plan(Least2(caps.a, daily - less), caps.b, Least2(caps.c, daily - less), caps.d);
  }

  /** Cut down so that the limit is passed by the last part only. */
  lemma PassingPlan(caps: Plan, daily: real, monthly: real) returns (p: Plan)
    requires 0.0 < daily && 0.0 < monthly && 0.0 <= caps.a && 0.0 < caps.d <= caps.b && 0.0 <= caps.c
    requires caps.d == caps.b || caps.c == 0.0
    requires monthly < Least2(caps.a + caps.b, daily + caps.b) + 30.0 * Least2(caps.c + caps.d, daily + caps.b)
    ensures Sound(p, caps, daily) && PlanTotal(p) - p.d < monthly < PlanTotal(p)
  {
    p := LargePlan(caps, daily, monthly);
    if monthly <= PlanTotal(p) - p.d {
      var sum := p.a + p.b + 30.0 * p.c;
      var last := if sum < monthly then (monthly - sum) / 29.5 else Least2(p.d, monthly / 29.5);
      var base := monthly - 29.5 * last;
      var a := Least2(p.a, base);
      var b := Least2(p.b, base - a);
      p := Plan(a, b, (base - a - b) / 30.0, last);
    }
  }

  predicate InJanuary(l: Load, k: nat, i: nat, year: int) { Nth(l.cal.first, k + i) == Date(year, 1, i + 1) }

  /** Day `k` is the first of January of this year. */
  ghost predicate JanuaryFrom(l: Load, k: nat, year: int) { forall i: nat :: i < 31 ==> InJanuary(l, k, i, year) }

  /** The state after day `i` of the month, and the next day's first burst. */
  ghost predicate AfterDay(l: Load, s: Sys, g: Grid, i: nat, paid: seq<Cost>) {
    Idle(l, s, paid) && Ready(l, s, g, Late(l) + DAY * (i + 1)) && s.clock == At(g, Late(l) + DAY * (i + 1) - 1)
  }

  /** Nothing is charged yet on the next day. */
  lemma NextDayIsFree(l: Load, s: Sys, g: Grid, k: nat, i: nat, paid: seq<Cost>)
    requires Sane(l, s) && OnGrid(l, g, k) && AfterDay(l, s, g, i, paid) && i < 30
    ensures SpentOn(paid, Nth(l.cal.first, k + i + 1)) == 0.0
  {
    assert DayOnGrid(l, g, k, i);
    assert Dated(l, g, Late(l) + DAY * (i + 1) - 1, Nth(l.cal.first, k + i));
    LaterIsLater(l.cal.first, k + i, k + i + 1);
  }

  lemma SpendNextDay(l: Load, states: Sys -> bool, s: Sys, g: Grid, k: nat, i: nat, charges: seq<Cost>, x: real,
                     y: real)
      returns (s': Sys, paid: seq<Cost>)
    requires ClosedUnder(l, states) && states(s) && OnGrid(l, g, k) && AfterDay(l, s, g, i, charges) && i < 30
    requires Proper(l) && CanSpend(l) && 0.0 <= x <= l.each && 0.0 <= y <= l.each
    requires var d, amount := Nth(l.cal.first, k + i + 1), Repeated(x, Calls(Rate(l), DAY - AtEnd(l)));
             amount < l.w.cfg.dailyLimit && SpentIn(charges, d.year, d.month) + amount < l.w.cfg.monthlyLimit
    ensures states(s') && AfterDay(l, s', g, i + 1, paid)
    ensures Spends(charges, paid, Nth(l.cal.first, k + i + 1), Total(l, DAY - AtEnd(l), AtEnd(l), x, y))
  {
    var j, n := Late(l) + DAY * (i + 1), DAY - AtEnd(l);
    NextDayStarts(l, states, s, g, k, i, charges, j, n, Repeated(x, Calls(Rate(l), n)));
    s', paid := RunDay(l, states, s, g, i, charges, j, n, Nth(l.cal.first, k + i + 1), x, y);
  }

  lemma RunDay(l: Load, states: Sys -> bool, s: Sys, g: Grid, i: nat, charges: seq<Cost>, j: nat, n: nat, d: Day,
               x: real, y: real)
      returns (s': Sys, paid: seq<Cost>)
    requires ClosedUnder(l, states) && states(s) && Idle(l, s, charges) && Ready(l, s, g, j)
    requires Proper(l) && CanSpend(l) && 0.0 <= x <= l.each && 0.0 <= y <= l.each
    requires j == Late(l) + DAY * (i + 1) && n == DAY - AtEnd(l) && DatesAre(l, g, j, j + n + AtEnd(l), d)
    requires Fits(l.w.cfg, charges, d, Repeated(x, Calls(Rate(l), n)))
    requires At(g, j + n + AtEnd(l) - 1) <= At(g, j + n) + l.length
    ensures states(s') && AfterDay(l, s', g, i + 1, paid) && Spends(charges, paid, d, Total(l, n, AtEnd(l), x, y))
  {
    s', paid := PlainDay(l, states, s, charges, g, j, n, AtEnd(l), d, x, y);
    DayEnds(l, s', g, i + 1, paid, j + n + AtEnd(l));
  }

  lemma NextDayStarts(l: Load, states: Sys -> bool, s: Sys, g: Grid, k: nat, i: nat, charges: seq<Cost>, j: nat, n: nat,
                      amount: real)
    requires ClosedUnder(l, states) && states(s) && OnGrid(l, g, k) && AfterDay(l, s, g, i, charges) && i < 30
    requires j == Late(l) + DAY * (i + 1) && n == DAY - AtEnd(l)
    requires var d := Nth(l.cal.first, k + i + 1);
             amount < l.w.cfg.dailyLimit && SpentIn(charges, d.year, d.month) + amount < l.w.cfg.monthlyLimit
    ensures Ready(l, s, g, j) && DatesAre(l, g, j, j + n + AtEnd(l), Nth(l.cal.first, k + i + 1))
    ensures Fits(l.w.cfg, charges, Nth(l.cal.first, k + i + 1), amount)
    ensures At(g, j + n + AtEnd(l) - 1) <= At(g, j + n) + l.length
  {
    assert SpentOn(charges, Nth(l.cal.first, k + i + 1)) == 0.0 by {
      assert Sane(l, s);
      NextDayIsFree(l, s, g, k, i, charges);
    }
    assert DayOnGrid(l, g, k, i + 1) && TogetherOnGrid(l, g, j + n);
    AtMonotone(g, j + n + AtEnd(l) - 1, j + n + l.seconds - 1);
  }

  lemma DayEnds(l: Load, s: Sys, g: Grid, i: nat, paid: seq<Cost>, j: nat)
    requires Idle(l, s, paid) && Ready(l, s, g, j) && 0 < j && s.clock == At(g, j - 1) && j == Late(l) + DAY * (i + 1)
    ensures AfterDay(l, s, g, i, paid)
  {
  }

  /** Further days of the month, all spent alike. */
  lemma {:induction false} SpendFurtherDays(l: Load, states: Sys -> bool, s: Sys, g: Grid, k: nat, year: int, i: nat,
                                            charges: seq<Cost>, x: real, y: real)
      returns (s': Sys, paid: seq<Cost>)
    requires ClosedUnder(l, states) && states(s) && OnGrid(l, g, k) && AfterDay(l, s, g, 0, charges) && i <= 30
    requires Proper(l) && CanSpend(l) && 0.0 <= x <= l.each && 0.0 <= y <= l.each && JanuaryFrom(l, k, year)
    requires var amount := Repeated(x, Calls(Rate(l), DAY - AtEnd(l)));
             && amount < l.w.cfg.dailyLimit
             && SpentIn(charges, year, 1) + Repeated(Total(l, DAY - AtEnd(l), AtEnd(l), x, y), 29) + amount
              < l.w.cfg.monthlyLimit
    ensures states(s') && AfterDay(l, s', g, i, paid)
    ensures SpentIn(paid, year, 1) == SpentIn(charges, year, 1) + Repeated(Total(l, DAY - AtEnd(l), AtEnd(l), x, y), i)
  {
    s', paid := s, charges;
    if i != 0 {
      var total := Total(l, DAY - AtEnd(l), AtEnd(l), x, y);
      s', paid := SpendFurtherDays(l, states, s, g, k, year, i - 1, charges, x, y);
      assert 0.0 <= total by {
        RepeatedMonotone(x, 0, Calls(Rate(l), DAY - AtEnd(l)));
        RepeatedMonotone(y, 0, Calls(Rate(l), AtEnd(l)));
      }
      RepeatedMonotone(total, i - 1, 29);
      assert InJanuary(l, k, i, year);
      s', paid := SpendNextDay(l, states, s', g, k, i - 1, paid, x, y);
    }
  }

  /** A first of January that begins late enough, and the grid of its month. */
  lemma JanuaryGrid(l: Load) returns (g: Grid, k: nat, year: int)
    requires Proper(l)
    ensures OnGrid(l, g, k) && JanuaryFrom(l, k, year)
  {
    var far := FarDay(l.cal, l.w.clock + l.length);
    k := ToJanuary(l.cal.first, far);
    year := Nth(l.cal.first, k).year;
    DawnsMonotone(l.cal, far, k);
    g := GridFor(l, k);
    forall i: nat | i < 31 ensures InJanuary(l, k, i, year) { January(l.cal.first, k, i); }
  }

  /** A first day and thirty further ones. */
  lemma SpendAllDays(l: Load, states: Sys -> bool, start: Sys, g: Grid, k: nat, year: int, x1: real, y1: real, x: real,
                     y: real)
      returns (s: Sys, paid: seq<Cost>)
    requires ClosedUnder(l, states) && states(start) && Untouched(l, start) && Proper(l) && CanSpend(l)
    requires OnGrid(l, g, k) && JanuaryFrom(l, k, year)
    requires 0.0 <= x1 <= l.each && 0.0 <= y1 <= l.each && 0.0 <= x <= l.each && 0.0 <= y <= l.each
    requires var amount, total := Repeated(x, Calls(Rate(l), DAY - AtEnd(l))), Total(l, DAY - AtEnd(l), AtEnd(l), x, y);
             var first := Repeated(x1, Calls(Rate(l), AtOnce(l)));
             && first < l.w.cfg.dailyLimit && first < l.w.cfg.monthlyLimit && amount < l.w.cfg.dailyLimit
             && Total(l, AtOnce(l), l.seconds, x1, y1) + Repeated(total, 29) + amount < l.w.cfg.monthlyLimit
    ensures states(s) && SpentIn(HistoryOf(s, l.c).charges, year, 1)
         == Total(l, AtOnce(l), l.seconds, x1, y1) + Repeated(Total(l, DAY - AtEnd(l), AtEnd(l), x, y), 30)
  {
    assert InJanuary(l, k, 0, year);
    s, paid := SpendFirstDay(l, states, start, g, k, x1, y1);
    DayEnds(l, s, g, 0, paid, DAY + Late(l));
    s, paid := SpendFurtherDays(l, states, s, g, k, year, 30, paid, x, y);
  }

  lemma SpendPlan(l: Load, states: Sys -> bool, start: Sys, p: Plan) returns (s: Sys, d: Day)
    requires ClosedUnder(l, states) && states(start) && Untouched(l, start)
    requires Proper(l) && CanSpend(l) && Sound(p, MonthCaps(l), l.w.cfg.dailyLimit)
    requires PlanTotal(p) - p.d < l.w.cfg.monthlyLimit
    ensures states(s) && SpentIn(HistoryOf(s, l.c).charges, d.year, d.month) == PlanTotal(p)
  {
    var g, k, year := JanuaryGrid(l);
    d := Date(year, 1, 1);
    var x1, y1, x, y := MonthCosts(l, p);
    var amount := p.c + p.d;
    assert Repeated(amount, 29) == 29.0 * amount by { RepeatedIs(amount, 29); }
    assert Repeated(amount, 30) == 30.0 * amount by { RepeatedIs(amount, 30); }
    var paid;
    s, paid := SpendAllDays(l, states, start, g, k, year, x1, y1, x, y);
  }

  /** Some run spends a whole month's amounts. */
  lemma SpendMonth(l: Load, p: Plan) returns (run: seq<Event>, d: Day)
    requires Proper(l) && CanSpend(l) && Sound(p, MonthCaps(l), l.w.cfg.dailyLimit)
    requires PlanTotal(p) - p.d < l.w.cfg.monthlyLimit
    ensures Possible(l, run) && MonthUsed(State(l.w, run).tables, l.c, d.year, d.month) == PlanTotal(p)
  {
    var s;
    StartIsUntouched(l);
    s, d := SpendPlan(l, Reached(l), State(l.w, []), p);
    run := RunTo(l, s);
    UsageIs(l.w, run, l.c, d);
  }

  lemma RunTo(l: Load, s: Sys) returns (run: seq<Event>)
    requires Reached(l)(s)
    ensures Possible(l, run) && State(l.w, run) == s
  {
    run :| Possible(l, run) && State(l.w, run) == s;
  }

  lemma MonthCosts(l: Load, p: Plan) returns (x1: real, y1: real, x: real, y: real)
    requires Proper(l) && Sound(p, MonthCaps(l), l.w.cfg.dailyLimit) && 0.0 <= l.each
    ensures 0.0 <= x1 <= l.each && 0.0 <= y1 <= l.each && 0.0 <= x <= l.each && 0.0 <= y <= l.each
    ensures Repeated(x1, Calls(Rate(l), AtOnce(l))) == p.a && Repeated(y1, Calls(Rate(l), l.seconds)) == p.b
    ensures Repeated(x, Calls(Rate(l), DAY - AtEnd(l))) == p.c && Repeated(y, Calls(Rate(l), AtEnd(l))) == p.d
  {
    FullDayParts(l);
    FurtherDayParts(l);
    CallsAre(Rate(l), l.seconds);
    x1 := Share(p.a, l.each, Calls(Rate(l), AtOnce(l)));
    y1 := Share(p.b, l.each, Calls(Rate(l), l.seconds));
    x := Share(p.c, l.each, Calls(Rate(l), DAY - AtEnd(l)));
    y := Share(p.d, l.each, Calls(Rate(l), AtEnd(l)));
  }

  /** The most that each part of a month's days can cost. */
  function MonthCaps(l: Load): Plan {
    var last := Exposure(l.each, Calls(Rate(l), AtEnd(l)));
    Plan(FullDay(l) - Overrun(l), Overrun(l), OwnDay(l) - last, last)
  }

  /** Over all runs with such calls, no month's spend ever passes the monthly limit. */
  ghost predicate MonthlyLimitHolds(l: Load) {
    forall run, d: Day :: Possible(l, run) ==>
      !Passed(MonthUsed(State(l.w, run).tables, l.c, d.year, d.month), l.w.cfg.monthlyLimit)
  }

  /** The settings under which that is so: the caller cannot spend at all, or what it can spend in 31
      days fits into the monthly limit. */
  lemma MonthlyLimitHoldsExactlyWhen(l: Load)
    requires Proper(l)
    ensures MonthlyLimitHolds(l) <==> !CanSpend(l) || DaysCap(l, 31) <= l.w.cfg.monthlyLimit
  {
    if CanSpend(l) && l.w.cfg.monthlyLimit < DaysCap(l, 31) {
      MonthPasses(l);
    } else {
      forall run, d: Day | Possible(l, run)
        ensures !Passed(MonthUsed(State(l.w, run).tables, l.c, d.year, d.month), l.w.cfg.monthlyLimit)
      {
        if CanSpend(l) {
          SpentWithinCaps(l, run, d);
          UsageIs(l.w, run, l.c, d);
        } else {
          NoSpend(l, run, d);
        }
      }
    }
  }

  lemma MonthPasses(l: Load)
    requires Proper(l) && CanSpend(l) && l.w.cfg.monthlyLimit < DaysCap(l, 31)
    ensures !MonthlyLimitHolds(l)
  {
    FullDayParts(l);
    FurtherDayParts(l);
    ExposureMonotone(l.each, 0, Calls(Rate(l), AtOnce(l)));
    ExposureMonotone(l.each, 0, Calls(Rate(l), DAY - AtEnd(l)));
    LastPositive(l);
    RepeatedIs(FurtherDay(l), 30);
    var p := PassingPlan(MonthCaps(l), l.w.cfg.dailyLimit, l.w.cfg.monthlyLimit);
    var run, d := SpendMonth(l, p);
    assert Passed(MonthUsed(State(l.w, run).tables, l.c, d.year, d.month), l.w.cfg.monthlyLimit);
  }

  lemma LastPositive(l: Load)
    requires CanSpend(l)
    ensures 0.0 < Exposure(l.each, Calls(Rate(l), AtEnd(l)))
  {
    CallsAre(Rate(l), AtEnd(l));
    assert 0 < Rate(l) * AtEnd(l);
  }
}
