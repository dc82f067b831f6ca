/** What a caller can spend at most in a day and in a month: bounded by the limits and the calls in
    flight, and by how many calls the rate window lets into that time. */
module GovernanceCaps {
  import opened GovernanceGates
  import opened GovernanceRuns
  import opened GovernanceSafety
  import opened GovernanceCalendar

  /** A caller in a world whose dates follow a calendar; its calls cost at most `each` and last at
      most `length` seconds, which is `seconds` rounded up and at least one. */
  datatype Load = Load(w: World, cal: Calendar, c: Caller, each: real, length: real, seconds: Seconds)

  type Seconds = n: int | 1 <= n witness 1

  ghost predicate Proper(l: Load) {
    && 0.0 <= l.each && OnCalendar(l.cal, l.w, [])
    && 0.0 <= l.length <= l.seconds as real
    && (l.seconds == 1 || (l.seconds - 1) as real < l.length)
  }

  /** Every call of `c` that completes does so within `limit` seconds of its token. */
  ghost predicate InTime(w: World, run: seq<Event>, c: Caller, limit: real)
    requires Valid(w, run)
    decreases |run|
  {
    run == [] || (InTime(w, Earlier(run), c, limit) && Timely(State(w, Earlier(run)), Last(run), c, limit))
  }

  ghost predicate Timely(s: Sys, e: Event, c: Caller, limit: real) {
    Completes(e, c) && e.id < |HistoryOf(s, c).tokens| ==> e.now <= HistoryOf(s, c).tokens[e.id] + limit
  }

  /** A run on the calendar with such calls only. */
  ghost predicate Possible(l: Load, run: seq<Event>) {
    && Valid(l.w, run) && OnCalendar(l.cal, l.w, run)
    && Punctual(l.w, run, l.c, l.length) && InTime(l.w, run, l.c, l.length) && CostsAtMost(run, l.c, l.each)
  }

  ghost function HistoryAfter(l: Load, run: seq<Event>): History
    requires Valid(l.w, run)
  {
    HistoryOf(State(l.w, run), l.c)
  }

  lemma PossibleBefore(l: Load, run: seq<Event>)
    requires run != [] && Possible(l, run)
    ensures Possible(l, Earlier(run))
  {
    assert forall k :: 0 <= k < |Earlier(run)| ==> Earlier(run)[k] == run[k];
  }

  // ----- The caps -----

  function Rate(l: Load): nat { Max0(Qps(l.w.cfg, l.c)) }

  /** The caller can call, and the calls can cost something. */
  predicate CanSpend(l: Load) { 0.0 < l.each && CanCall(l.w.cfg, l.c) }

  predicate CanCall(cfg: Config, c: Caller) { 0 < Qps(cfg, c) && 0.0 < cfg.dailyLimit && 0.0 < cfg.monthlyLimit }

  /** What all calls that can be in flight at once can cost. */
  function Overrun(l: Load): real { Exposure(l.each, Rate(l) * l.seconds) }

  /** Seconds by which the tokens of one day's charges can precede the day. */
  function Late(l: Load): nat { if l.length == 0.0 then 0 else l.seconds }

  /** What all calls that can be charged on one day can cost: those admitted on it, and those still
      running when it began. */
  function FullDay(l: Load): real { Exposure(l.each, Rate(l) * (DAY + Late(l))) }

  /** What all calls that can be admitted on one day can cost. */
  function OwnDay(l: Load): real { Exposure(l.each, Rate(l) * DAY) }

  function Least2(a: real, b: real): real { if a <= b then a else b }

  /** The sum of `k` equal amounts. */
  function Repeated(amount: real, k: nat): real { if k == 0 then 0.0 else Repeated(amount, k - 1) + amount }

  lemma {:induction false} RepeatedMonotone(amount: real, k: nat, n: nat)
    requires 0.0 <= amount && k <= n
    ensures 0.0 <= Repeated(amount, k) <= Repeated(amount, n)
    decreases n
  {
    if k < n { RepeatedMonotone(amount, k, n - 1); } else if 0 < n { RepeatedMonotone(amount, n - 1, n - 1); }
  }

  /** The most that can be spent on one day within the daily limit and its overrun. */
  function FirstDay(l: Load): real { Least2(FullDay(l), l.w.cfg.dailyLimit + Overrun(l)) }

  /** Likewise when calls left over from the day before are counted there. */
  function FurtherDay(l: Load): real { Least2(OwnDay(l), l.w.cfg.dailyLimit + Overrun(l)) }

  /** The most that can be spent on the first `k` days of a month. */
  function DaysCap(l: Load, k: nat): real
    requires 1 <= k
  {
    FirstDay(l) + Repeated(FurtherDay(l), k - 1)
  }

  lemma CapsMonotone(l: Load, j: nat, k: nat)
    requires 0.0 <= l.each && 0.0 < l.w.cfg.dailyLimit && 1 <= j <= k
    ensures 0.0 <= Overrun(l) && 0.0 <= OwnDay(l) <= FullDay(l) && 0.0 <= FurtherDay(l)
    ensures 0.0 <= FirstDay(l) <= DaysCap(l, j) <= DaysCap(l, k)
  {
    ExposureMonotone(l.each, 0, Rate(l) * l.seconds);
    assert Rate(l) * (DAY + Late(l)) == Rate(l) * DAY + Rate(l) * Late(l);
    ExposureMonotone(l.each, Rate(l) * DAY, Rate(l) * (DAY + Late(l)));
    RepeatedMonotone(FurtherDay(l), j - 1, k - 1);
  }

  // ----- Charges against tokens -----

  /** The tokens from an instant on. */
  function TokensFrom(tokens: seq<real>, from: real): set<nat> {
    set i: nat | i < |tokens| && from <= tokens[i]
  }

  /** What was spent beyond `base`, and what the running calls can add, is paid by tokens from
      `from` on. */
  ghost predicate Covered(h: History, spent: real, each: real, from: real, base: real) {
    spent + Exposure(each, |h.inflight|) <= base + Exposure(each, |TokensFrom(h.tokens, from)|)
  }

  lemma TokenAdds(tokens: seq<real>, now: real, from: real)
    requires from <= now
    ensures |TokensFrom(tokens + [now], from)| == |TokensFrom(tokens, from)| + 1
  {
    var more := tokens + [now];
    assert more[|tokens|] == now;
    forall i: nat ensures i in TokensFrom(more, from) <==> i in TokensFrom(tokens, from) + {|tokens|} {
      if i < |tokens| { assert more[i] == tokens[i]; }
    }
    assert TokensFrom(more, from) == TokensFrom(tokens, from) + {|tokens|};
  }

  lemma CoveredAdmit(h: History, v: Verdict, rateNow: real, spent: real, each: real, from: real, base: real)
    requires Covered(h, spent, each, from, base) && 0.0 <= each && from <= rateNow
    requires forall i :: i in h.inflight ==> i < |h.tokens|
    ensures Covered(Attempted(h, v, rateNow), spent, each, from, base)
  {
    TokenAdds(h.tokens, rateNow, from);
    ExposureMonotone(each, |TokensFrom(h.tokens, from)|, |TokensFrom(h.tokens, from)|);
    ExposureMonotone(each, |h.inflight|, |h.inflight|);
  }

  lemma CoveredComplete(h: History, h': History, id: nat, paid: real, spent: real, each: real, from: real, base: real)
    requires Covered(h, spent, each, from, base) && 0.0 <= paid <= each && id in h.inflight
    requires h'.tokens == h.tokens && h'.inflight == h.inflight - {id}
    ensures Covered(h', spent + paid, each, from, base)
  {
    assert |h.inflight| == |h'.inflight| + 1;
    ExposureMonotone(each, |h'.inflight|, |h.inflight|);
  }

  lemma CoveredFresh(h: History, each: real, from: real)
    requires 0.0 <= each && forall i :: i in h.inflight ==> i < |h.tokens| && from <= h.tokens[i]
    ensures Covered(h, 0.0, each, from, 0.0)
  {
    Subset(h.inflight, TokensFrom(h.tokens, from));
    ExposureMonotone(each, |h.inflight|, |TokensFrom(h.tokens, from)|);
  }

  // ----- The invariant of one day and its month -----

  /** What was charged in the month before day `d`, once nothing is charged after it. */
  ghost function EarlierInMonth(h: History, d: Day): real {
    SpentIn(h.charges, d.year, d.month) - SpentOn(h.charges, d)
  }

  /** Nothing was charged in the month before day `d`, or the days before were within their cap. */
  ghost predicate MonthSoFar(l: Load, h: History, d: Day, dawn: real) {
    || EarlierInMonth(h, d) == 0.0
    || (2 <= d.day && EarlierInMonth(h, d) <= DaysCap(l, d.day - 1)
        && Covered(h, SpentIn(h.charges, d.year, d.month), l.each, dawn, DaysCap(l, d.day - 1)))
  }

  /** `k` is the number of the day on which the date was last read. */
  ghost predicate DayInv(l: Load, h: History, k: nat) {
    var d, dawn := Nth(l.cal.first, k), Dawn(l.cal, k);
    && (forall i :: i in h.inflight ==> i < |h.tokens|)
    && (forall i :: 0 <= i < |h.tokens| ==> h.tokens[i] < Dawn(l.cal, k + 1))
    && Covered(h, SpentOn(h.charges, d), l.each, dawn - l.length, 0.0)
    && MonthSoFar(l, h, d, dawn)
  }

  /** What the day and the month hold, with what the running calls can add. */
  ghost predicate WithinCaps(l: Load, h: History, d: Day) {
    && SpentOn(h.charges, d) + Exposure(l.each, |h.inflight|) <= FullDay(l)
    && SpentIn(h.charges, d.year, d.month) + Exposure(l.each, |h.inflight|) <= DaysCap(l, d.day)
  }

  lemma TokensOfDay(l: Load, h: History, k: nat, before: real, n: nat)
    requires Spaced(h.tokens, Qps(l.w.cfg, l.c)) && (Qps(l.w.cfg, l.c) <= 0 ==> h.tokens == [])
    requires forall i :: 0 <= i < |h.tokens| ==> h.tokens[i] < Dawn(l.cal, k + 1)
    requires 0.0 <= l.each && 0.0 <= before <= n as real
    ensures Exposure(l.each, |TokensFrom(h.tokens, Dawn(l.cal, k) - before)|) <= Exposure(l.each, Rate(l) * (DAY + n))
  {
    var from := Dawn(l.cal, k) - before;
    assert Dawn(l.cal, k + 1) == Dawn(l.cal, k) + DAY as real;
    WindowCount(h.tokens, Qps(l.w.cfg, l.c), from, DAY as real + before, DAY + n, TokensFrom(h.tokens, from));
    ExposureMonotone(l.each, |TokensFrom(h.tokens, from)|, Rate(l) * (DAY + n));
  }

  lemma InvIsWithinCaps(l: Load, h: History, k: nat)
    requires DayInv(l, h, k) && Proper(l) && CanSpend(l)
    requires Spaced(h.tokens, Qps(l.w.cfg, l.c)) && (Qps(l.w.cfg, l.c) <= 0 ==> h.tokens == [])
    requires SpentOn(h.charges, Nth(l.cal.first, k)) + Exposure(l.each, |h.inflight|)
          < l.w.cfg.dailyLimit + Overrun(l)
    ensures WithinCaps(l, h, Nth(l.cal.first, k))
  {
    var d := Nth(l.cal.first, k);
    TokensOfDay(l, h, k, l.length, Late(l));
    TokensOfDay(l, h, k, 0.0, 0);
    CapsMonotone(l, 1, d.day);
    assert FirstDay(l) == DaysCap(l, 1);
    if EarlierInMonth(h, d) != 0.0 {
      assert DaysCap(l, d.day) == DaysCap(l, d.day - 1) + FurtherDay(l);
    }
  }

  /** A later day begins: nothing is charged on it, and the running calls are young enough. */
  lemma DayOpens(l: Load, h: History, k: nat, k': nat)
    requires DayInv(l, h, k) && WithinCaps(l, h, Nth(l.cal.first, k)) && Proper(l) && CanSpend(l) && k < k'
    requires SpendInv(l.w.cfg.dailyLimit, h, Daily, Ordinal(Nth(l.cal.first, k)), l.each, Rate(l) * l.seconds)
    requires SpendInv(l.w.cfg.monthlyLimit, h, Monthly, Key(Monthly, Nth(l.cal.first, k)), l.each,
                      Rate(l) * l.seconds)
    requires forall i :: i in h.inflight && i < |h.tokens| ==> Dawn(l.cal, k') - l.length <= h.tokens[i]
    ensures DayInv(l, h, k')
  {
    var d, d' := Nth(l.cal.first, k), Nth(l.cal.first, k');
    LaterIsLater(l.cal.first, k, k');
    assert SpentOn(h.charges, d') == 0.0;
    DawnsMonotone(l.cal, k + 1, k' + 1);
    CoveredFresh(h, l.each, Dawn(l.cal, k') - l.length);
    MonthGoesOn(l, h, d, d', Dawn(l.cal, k'));
  }

  lemma DawnsMonotone(cal: Calendar, j: nat, k: nat)
    requires j <= k
    ensures Dawn(cal, j) <= Dawn(cal, k)
  {
  }

  lemma MonthGoesOn(l: Load, h: History, d: Day, d': Day, dawn: real)
    requires WithinCaps(l, h, d) && Proper(l) && CanSpend(l)
    requires Ordinal(d) < Ordinal(d') && SpentOn(h.charges, d') == 0.0
    requires SpendInv(l.w.cfg.monthlyLimit, h, Monthly, Key(Monthly, d), l.each, Rate(l) * l.seconds)
    ensures MonthSoFar(l, h, d', dawn)
  {
    if Key(Monthly, d) < Key(Monthly, d') {
      assert SpentIn(h.charges, d'.year, d'.month) == 0.0;
    } else {
      KeysDiffer(d, d');
      assert d.day < d'.day;
      CapsMonotone(l, d.day, d'.day - 1);
      ExposureMonotone(l.each, 0, |h.inflight|);
      ExposureMonotone(l.each, 0, |TokensFrom(h.tokens, dawn)|);
    }
  }

  /** A running call ends on the day on which the date was last read, at the price `paid`. */
  lemma DayCompletes(l: Load, h: History, h': History, id: nat, paid: real, k: nat)
    requires DayInv(l, h, k) && id in h.inflight && 0.0 <= paid <= l.each
    requires h'.tokens == h.tokens && h'.inflight == h.inflight - {id}
    requires var d := Nth(l.cal.first, k);
             && SpentOn(h'.charges, d) == SpentOn(h.charges, d) + paid
             && SpentIn(h'.charges, d.year, d.month) == SpentIn(h.charges, d.year, d.month) + paid
    ensures DayInv(l, h', k)
  {
    var d, dawn := Nth(l.cal.first, k), Dawn(l.cal, k);
    CoveredComplete(h, h', id, paid, SpentOn(h.charges, d), l.each, dawn - l.length, 0.0);
    if EarlierInMonth(h, d) != 0.0 {
      CoveredComplete(h, h', id, paid, SpentIn(h.charges, d.year, d.month), l.each, dawn, DaysCap(l, d.day - 1));
    }
  }

  lemma DayAttempts(l: Load, h: History, v: Verdict, rateNow: real, k: nat)
    requires DayInv(l, h, k) && 0.0 <= l.each && 0.0 <= l.length
    requires Dawn(l.cal, k) <= rateNow < Dawn(l.cal, k + 1)
    ensures DayInv(l, Attempted(h, v, rateNow), k)
  {
    var d, dawn := Nth(l.cal.first, k), Dawn(l.cal, k);
    CoveredAdmit(h, v, rateNow, SpentOn(h.charges, d), l.each, dawn - l.length, 0.0);
    if EarlierInMonth(h, d) != 0.0 {
      CoveredAdmit(h, v, rateNow, SpentIn(h.charges, d.year, d.month), l.each, dawn, DaysCap(l, d.day - 1));
    }
  }

  // ----- Every run -----

  /** When a step reads the date, no call running before it is older than `length`. */
  lemma StillYoung(l: Load, run: seq<Event>)
    requires run != [] && Possible(l, run) && (Last(run).Attempt? || Last(run).Succeed?)
    ensures var h := HistoryAfter(l, Earlier(run));
            forall i :: i in h.inflight && i < |h.tokens| ==> DateRead(Last(run)) - l.length <= h.tokens[i]
  {
    var s, e := State(l.w, Earlier(run)), Last(run);
    var h, h' := HistoryAfter(l, Earlier(run)), HistoryAfter(l, run);
    StepEnds(l.w.cfg, s, e);
    forall i | i in h.inflight && i < |h.tokens| ensures DateRead(e) - l.length <= h.tokens[i] {
      if Completes(e, l.c) && e.id == i {
        assert Timely(s, e, l.c, l.length);
      } else {
        StillRuns(l.w.cfg, s, e, l.c, i);
      }
    }
  }

  lemma StillRuns(cfg: Config, s: Sys, e: Event, c: Caller, i: nat)
    requires Enabled(s, e) && (e.Attempt? || e.Succeed?)
    requires i in HistoryOf(s, c).inflight && i < |HistoryOf(s, c).tokens| && !(Completes(e, c) && e.id == i)
    ensures var h, h' := HistoryOf(s, c), HistoryOf(Step(cfg, s, e), c);
            i in h'.inflight && i < |h'.tokens| && h'.tokens[i] == h.tokens[i]
  {
    if e.caller != c { OtherHistory(cfg, s, e, c); } else if e.Attempt? { StepAttempt(cfg, s, e); }
  }

  /** The invariant before a step, on the day on which the step happens. */
  lemma DayOfStep(l: Load, run: seq<Event>)
    requires run != [] && Possible(l, run) && Proper(l) && CanSpend(l)
    requires DayInv(l, HistoryAfter(l, Earlier(run)), DayNumber(l.cal, l.w, Earlier(run)))
    ensures DayInv(l, HistoryAfter(l, Earlier(run)), DayNumber(l.cal, l.w, run))
  {
    var k, k' := DayNumber(l.cal, l.w, Earlier(run)), DayNumber(l.cal, l.w, run);
    if Last(run).Attempt? || Last(run).Succeed? {
      assert k <= k' by { NumbersGrow(l, run); }
      if k < k' { NewDay(l, run); }
    } else {
      assert k == k';
    }
  }

  lemma NumbersGrow(l: Load, run: seq<Event>)
    requires run != [] && Possible(l, run) && (Last(run).Attempt? || Last(run).Succeed?)
    ensures DayNumber(l.cal, l.w, Earlier(run)) <= DayNumber(l.cal, l.w, run)
    ensures Dawn(l.cal, DayNumber(l.cal, l.w, run)) <= DateRead(Last(run)) < Dawn(l.cal, DayNumber(l.cal, l.w, run) + 1)
  {
    var clock, read := State(l.w, Earlier(run)).clock, DateRead(Last(run));
    assert l.cal.dawn <= clock && DayNumber(l.cal, l.w, Earlier(run)) <= IndexAt(l.cal, clock) by {
      PossibleBefore(l, run);
      DayNumberIs(l.cal, l.w, Earlier(run));
    }
    assert clock <= read by { StepEnds(l.w.cfg, State(l.w, Earlier(run)), Last(run)); }
    ReadOnDay(l.cal, l.w, run);
    IndexGrows(l.cal, clock, read);
  }

  lemma ReadOnDay(cal: Calendar, w: World, run: seq<Event>)
    requires run != [] && (Last(run).Attempt? || Last(run).Succeed?)
    ensures DayNumber(cal, w, run) == IndexAt(cal, DateRead(Last(run)))
  {
  }

  lemma IndexGrows(cal: Calendar, t: real, u: real)
    requires cal.dawn <= t <= u
    ensures IndexAt(cal, t) <= IndexAt(cal, u) && Dawn(cal, IndexAt(cal, u)) <= u < Dawn(cal, IndexAt(cal, u) + 1)
  {
    IndexMonotone(cal, t, u);
    IndexIs(cal, u, IndexAt(cal, u));
  }

  lemma NewDay(l: Load, run: seq<Event>)
    requires run != [] && Possible(l, run) && Proper(l) && CanSpend(l) && (Last(run).Attempt? || Last(run).Succeed?)
    requires DayNumber(l.cal, l.w, Earlier(run)) < DayNumber(l.cal, l.w, run)
    requires DayInv(l, HistoryAfter(l, Earlier(run)), DayNumber(l.cal, l.w, Earlier(run)))
    ensures DayInv(l, HistoryAfter(l, Earlier(run)), DayNumber(l.cal, l.w, run))
  {
    var before, h := Earlier(run), HistoryAfter(l, Earlier(run));
    var k, k' := DayNumber(l.cal, l.w, before), DayNumber(l.cal, l.w, run);
    PossibleBefore(l, run);
    assert State(l.w, before).today == Nth(l.cal.first, k) by { DayNumberIs(l.cal, l.w, before); }
    assert forall i :: i in h.inflight && i < |h.tokens| ==> Dawn(l.cal, k') - l.length <= h.tokens[i] by {
      NumbersGrow(l, run);
      StillYoung(l, run);
    }
    DayIsWithinCaps(l, before);
    SpendRun(l.w, before, l.c, Daily, l.each, l.length, l.seconds);
    SpendRun(l.w, before, l.c, Monthly, l.each, l.length, l.seconds);
    DayOpens(l, h, k, k');
  }

  lemma DayIsWithinCaps(l: Load, run: seq<Event>)
    requires Possible(l, run) && Proper(l) && CanSpend(l)
    requires DayInv(l, HistoryAfter(l, run), DayNumber(l.cal, l.w, run))
    ensures WithinCaps(l, HistoryAfter(l, run), Nth(l.cal.first, DayNumber(l.cal, l.w, run)))
  {
    DayNumberIs(l.cal, l.w, run);
    SpendRun(l.w, run, l.c, Daily, l.each, l.length, l.seconds);
    assert RateInv(Qps(l.w.cfg, l.c), HistoryAfter(l, run).tokens, Window(State(l.w, run).tables, l.c),
                   State(l.w, run).clock) by {
      RunKeepsInv(l.w, run, l.c);
    }
    InvIsWithinCaps(l, HistoryAfter(l, run), DayNumber(l.cal, l.w, run));
  }

  lemma {:induction false} DayRun(l: Load, run: seq<Event>)
    requires Possible(l, run) && Proper(l) && CanSpend(l)
    ensures DayInv(l, HistoryAfter(l, run), DayNumber(l.cal, l.w, run))
    decreases |run|
  {
    if run == [] {
      CoveredFresh(NO_HISTORY, l.each, Dawn(l.cal, DayNumber(l.cal, l.w, [])) - l.length);
    } else {
      PossibleBefore(l, run);
      DayRun(l, Earlier(run));
      DayOfStep(l, run);
      DayStep(l, run);
    }
  }

  lemma DayStep(l: Load, run: seq<Event>)
    requires run != [] && Possible(l, run) && Proper(l)
    requires DayInv(l, HistoryAfter(l, Earlier(run)), DayNumber(l.cal, l.w, run))
    ensures DayInv(l, HistoryAfter(l, run), DayNumber(l.cal, l.w, run))
  {
    var e := Last(run);
    if e.caller != l.c {
      OtherHistory(l.w.cfg, State(l.w, Earlier(run)), e, l.c);
    } else if e.Attempt? {
      DayAttempt(l, run);
    } else if e.WriteAudit? {
      WriteLeavesDay(l, run);
    } else {
      DayCompletion(l, run);
    }
  }

  lemma DayAttempt(l: Load, run: seq<Event>)
    requires run != [] && Possible(l, run) && Proper(l) && Last(run).Attempt? && Last(run).caller == l.c
    requires DayInv(l, HistoryAfter(l, Earlier(run)), DayNumber(l.cal, l.w, run))
    ensures DayInv(l, HistoryAfter(l, run), DayNumber(l.cal, l.w, run))
  {
    var s, e := State(l.w, Earlier(run)), Last(run);
    var v := Gate(l.w.cfg, s.tables, e.caller, e.today, e.rateNow, e.circuitNow).1;
    assert HistoryAfter(l, run) == Attempted(HistoryAfter(l, Earlier(run)), v, e.rateNow) by {
      StepAttempt(l.w.cfg, s, e);
    }
    NumbersGrow(l, run);
    DayAttempts(l, HistoryAfter(l, Earlier(run)), v, e.rateNow, DayNumber(l.cal, l.w, run));
  }

  lemma WriteLeavesDay(l: Load, run: seq<Event>)
    requires run != [] && Possible(l, run) && Last(run).WriteAudit? && Last(run).caller == l.c
    requires DayInv(l, HistoryAfter(l, Earlier(run)), DayNumber(l.cal, l.w, run))
    ensures DayInv(l, HistoryAfter(l, run), DayNumber(l.cal, l.w, run))
  {
    var h, h' := HistoryAfter(l, Earlier(run)), HistoryAfter(l, run);
    assert h'.tokens == h.tokens && h'.inflight == h.inflight && h'.charges == h.charges;
    SameDay(l, h, h', DayNumber(l.cal, l.w, run));
  }

  lemma SameDay(l: Load, h: History, h': History, k: nat)
    requires DayInv(l, h, k) && h'.tokens == h.tokens && h'.inflight == h.inflight && h'.charges == h.charges
    ensures DayInv(l, h', k)
  {
  }

  lemma DayCompletion(l: Load, run: seq<Event>)
    requires run != [] && Possible(l, run) && Proper(l) && Last(run).caller == l.c
    requires Last(run).Succeed? || Last(run).Fail? || Last(run).Cancel?
    requires DayInv(l, HistoryAfter(l, Earlier(run)), DayNumber(l.cal, l.w, run))
    ensures DayInv(l, HistoryAfter(l, run), DayNumber(l.cal, l.w, run))
  {
    var e, k := Last(run), DayNumber(l.cal, l.w, run);
    var h, h' := HistoryAfter(l, Earlier(run)), HistoryAfter(l, run);
    assert h'.tokens == h.tokens && h'.inflight == h.inflight - {e.id} && e.id in h.inflight;
    var paid := 0.0;
    if e.Succeed? {
      paid := e.cost;
      assert h'.charges == h.charges + [Cost(e.today, e.cost)] && paid <= l.each;
      assert DatedRight(l.cal, e);
      SpentMore(h.charges, Cost(e.today, e.cost), Nth(l.cal.first, k));
    }
    DayCompletes(l, h, h', e.id, paid, k);
  }

  // ----- What a run can have spent -----

  /** On every run, no day holds more than a full day of charges, and no month more than 31 days'
      caps. */
  lemma {:induction false} SpentWithinCaps(l: Load, run: seq<Event>, d: Day)
    requires Possible(l, run) && Proper(l) && CanSpend(l)
    ensures var charges := HistoryAfter(l, run).charges;
            SpentOn(charges, d) <= FullDay(l) && SpentIn(charges, d.year, d.month) <= DaysCap(l, 31)
    decreases |run|
  {
    CapsMonotone(l, 1, 31);
    if run != [] {
      var s, e := State(l.w, Earlier(run)), Last(run);
      PossibleBefore(l, run);
      SpentWithinCaps(l, Earlier(run), d);
      StepCharges(l.w.cfg, s, e, l.c);
      if e.Succeed? && e.caller == l.c {
        SpentMore(HistoryOf(s, l.c).charges, Cost(e.today, e.cost), d);
        SpentToday(l, run);
        KeysDiffer(e.today, d);
      }
    }
  }

  lemma SpentToday(l: Load, run: seq<Event>)
    requires run != [] && Possible(l, run) && Proper(l) && CanSpend(l) && Last(run).Succeed?
    ensures var charges, d := HistoryAfter(l, run).charges, Last(run).today;
            SpentOn(charges, d) <= FullDay(l) && SpentIn(charges, d.year, d.month) <= DaysCap(l, 31)
  {
    DayRun(l, run);
    DayIsWithinCaps(l, run);
    DayNumberIs(l.cal, l.w, run);
    ExposureMonotone(l.each, 0, |HistoryAfter(l, run).inflight|);
    StepCharges(l.w.cfg, State(l.w, Earlier(run)), Last(run), l.c);
    CapsMonotone(l, Last(run).today.day, 31);
  }
}
