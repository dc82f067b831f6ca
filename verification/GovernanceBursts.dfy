/** Calls made one after the other and many at once, as far as the gates let them through.

    The steps are taken from any state of a set that is closed under the steps allowed to a load,
    such as the set of states it can reach. */
module GovernanceBursts {
  import opened GovernanceGates
  import opened GovernanceRuns
  import opened GovernanceSafety
  import opened GovernanceCalendar
  import opened GovernanceCaps

  // ----- Allowed steps -----

  /** A step that a possible run may take next. */
  ghost predicate Allowed(l: Load, s: Sys, e: Event) {
    && Enabled(s, e) && DatedRight(l.cal, e) && Timely(s, e, l.c, l.length)
    && (e.Succeed? && e.caller == l.c ==> e.cost <= l.each)
    && var s' := Step(l.w.cfg, s, e);
       var h := HistoryOf(s', l.c);
       forall i :: i in h.inflight && i < |h.tokens| ==> s'.clock <= h.tokens[i] + l.length
  }

  /** A set of states as runs reach them, with every allowed step from them. */
  ghost predicate ClosedUnder(l: Load, states: Sys -> bool) {
    && (forall s, e :: states(s) && Allowed(l, s, e) ==> states(Step(l.w.cfg, s, e)))
    && (forall s {:trigger Sane(l, s)} :: states(s) ==> Sane(l, s))
  }

  ghost predicate Sane(l: Load, s: Sys) {
    && Inv(l.w.cfg, s, l.c) && 0.0 <= l.length
    && l.cal.dawn <= s.clock && Ordinal(s.today) <= Ordinal(DateAt(l.cal, s.clock))
    && NothingAhead(s, l.c)
  }

  /** Nothing is charged on a day that has not come. */
  ghost predicate NothingAhead(s: Sys, c: Caller) {
    forall d: Day :: Ordinal(s.today) < Ordinal(d) ==> SpentOn(HistoryOf(s, c).charges, d) == 0.0
  }

  lemma {:induction false} NothingAheadInRuns(w: World, run: seq<Event>, c: Caller)
    requires Valid(w, run)
    ensures NothingAhead(State(w, run), c)
    decreases |run|
  {
    if run != [] {
      var s, e := State(w, Earlier(run)), Last(run);
      NothingAheadInRuns(w, Earlier(run), c);
      StepCharges(w.cfg, s, e, c);
      forall d: Day | Ordinal(State(w, run).today) < Ordinal(d)
        ensures SpentOn(HistoryOf(State(w, run), c).charges, d) == 0.0
      {
        if e.Succeed? && e.caller == c { SpentMore(HistoryOf(s, c).charges, Cost(e.today, e.cost), d); }
      }
    }
  }

  /** The states that possible runs reach. */
  ghost function Reached(l: Load): Sys -> bool {
    (s: Sys) => exists run :: Possible(l, run) && State(l.w, run) == s
  }

  lemma ReachedIsClosed(l: Load)
    requires Proper(l)
    ensures ClosedUnder(l, Reached(l))
  {
    forall s | Reached(l)(s) ensures Sane(l, s) {
      var run :| Possible(l, run) && State(l.w, run) == s;
      RunsAreSane(l, run);
    }
    forall s, e | Reached(l)(s) && Allowed(l, s, e) ensures Reached(l)(Step(l.w.cfg, s, e)) {
      var run :| Possible(l, run) && State(l.w, run) == s;
      PossibleGrows(l, run, e);
    }
  }

  lemma RunsAreSane(l: Load, run: seq<Event>)
    requires Proper(l) && Possible(l, run)
    ensures Sane(l, State(l.w, run))
  {
    RunKeepsInv(l.w, run, l.c);
    NothingAheadInRuns(l.w, run, l.c);
    DayNumberIs(l.cal, l.w, run);
    LaterIsLater(l.cal.first, DayNumber(l.cal, l.w, run), IndexAt(l.cal, State(l.w, run).clock));
  }

  lemma PossibleGrows(l: Load, run: seq<Event>, e: Event)
    requires Possible(l, run) && Allowed(l, State(l.w, run), e)
    ensures Possible(l, run + [e]) && State(l.w, run + [e]) == Step(l.w.cfg, State(l.w, run), e)
  {
    RunGrows(l.w, run, e);
    assert Earlier(run + [e]) == run && Last(run + [e]) == e;
  }

  /** The calls from number `first` on are running, the breaker is closed, and these are the charges. */
  ghost predicate Running(h: History, first: nat, charges: seq<Cost>) {
    && first <= |h.tokens| && h.inflight == Range(first, |h.tokens|)
    && (h.outcomes == [] || h.outcomes[|h.outcomes| - 1].ok) && h.charges == charges
  }

  /** No running call is older than `length` at this instant. */
  ghost predicate Young(l: Load, h: History, first: nat, now: real) {
    first < |h.tokens| ==> now <= h.tokens[first] + l.length
  }

  predicate HasRoom(cfg: Config, charges: seq<Cost>, d: Day) {
    SpentOn(charges, d) < cfg.dailyLimit && SpentIn(charges, d.year, d.month) < cfg.monthlyLimit
  }

  lemma DatesGoOn(l: Load, s: Sys, now: real)
    requires Sane(l, s) && s.clock <= now
    ensures Ordinal(s.today) <= Ordinal(DateAt(l.cal, now))
  {
    IndexMonotone(l.cal, s.clock, now);
    LaterIsLater(l.cal.first, IndexAt(l.cal, s.clock), IndexAt(l.cal, now));
  }

  // ----- One call -----

  /** An attempt that every gate lets through. */
  lemma Admit(l: Load, s: Sys, now: real) returns (s': Sys, e: Event)
    requires Sane(l, s) && s.clock <= now
    requires Owed(l.w.cfg, HistoryOf(s, l.c), l.c, DateAt(l.cal, now), now, now) == Admitted
    requires forall i :: i in HistoryOf(s, l.c).inflight ==> now <= HistoryOf(s, l.c).tokens[i] + l.length
    ensures Allowed(l, s, e) && s' == Step(l.w.cfg, s, e) && s'.clock == now
    ensures HistoryOf(s', l.c) == Attempted(HistoryOf(s, l.c), Admitted, now)
  {
    e := Attempt(l.c, DateAt(l.cal, now), now, now);
    DatesGoOn(l, s, now);
    s' := Step(l.w.cfg, s, e);
    AttemptAdmits(l.w.cfg, s, e);
  }

  lemma AttemptAdmits(cfg: Config, s: Sys, e: Event)
    requires e.Attempt? && Enabled(s, e) && Inv(cfg, s, e.caller)
    requires Owed(cfg, HistoryOf(s, e.caller), e.caller, e.today, e.rateNow, e.circuitNow) == Admitted
    ensures var s' := Step(cfg, s, e);
            s'.clock == e.circuitNow
            && HistoryOf(s', e.caller) == Attempted(HistoryOf(s, e.caller), Admitted, e.rateNow)
  {
    VerdictAt(cfg, s.tables, HistoryOf(s, e.caller), e.caller, s.clock, e.today, e.rateNow, e.circuitNow);
    StepAttempt(cfg, s, e);
  }

  lemma OwesAdmission(cfg: Config, h: History, c: Caller, first: nat, d: Day, now: real)
    requires Running(h, first, h.charges) && HasRoom(cfg, h.charges, d) && |Recent(h.tokens, now)| < Qps(cfg, c)
    ensures Owed(cfg, h, c, d, now, now) == Admitted
  {
    assert Trailing(h.outcomes) == 0;
  }

  lemma AdmitRunning(l: Load, s: Sys, first: nat, charges: seq<Cost>, now: real) returns (s': Sys, e: Event)
    requires Sane(l, s) && s.clock <= now && HasRoom(l.w.cfg, charges, DateAt(l.cal, now))
    requires Running(HistoryOf(s, l.c), first, charges) && Young(l, HistoryOf(s, l.c), first, now)
    requires |Recent(HistoryOf(s, l.c).tokens, now)| < Qps(l.w.cfg, l.c)
    ensures Allowed(l, s, e) && s' == Step(l.w.cfg, s, e) && s'.clock == now
    ensures HistoryOf(s', l.c) == Attempted(HistoryOf(s, l.c), Admitted, now)
  {
    AllYoung(l, s, first, charges, now);
    OwesAdmission(l.w.cfg, HistoryOf(s, l.c), l.c, first, DateAt(l.cal, now), now);
    s', e := Admit(l, s, now);
  }

  lemma AdmitOne(l: Load, states: Sys -> bool, s: Sys, first: nat, charges: seq<Cost>, now: real) returns (s': Sys)
    requires ClosedUnder(l, states) && states(s) && s.clock <= now
    requires Running(HistoryOf(s, l.c), first, charges) && Young(l, HistoryOf(s, l.c), first, now)
    requires HasRoom(l.w.cfg, charges, DateAt(l.cal, now))
    requires |Recent(HistoryOf(s, l.c).tokens, now)| < Qps(l.w.cfg, l.c)
    ensures states(s') && s'.clock == now && Running(HistoryOf(s', l.c), first, charges)
    ensures HistoryOf(s', l.c).tokens == HistoryOf(s, l.c).tokens + [now]
    ensures Young(l, HistoryOf(s', l.c), first, now)
  {
    var e;
    assert Sane(l, s);
    s', e := AdmitRunning(l, s, first, charges, now);
    AdmittedRuns(l, HistoryOf(s, l.c), first, charges, now);
  }

  lemma RangeGrows(i: nat, j: nat)
    requires i <= j
    ensures Range(i, j + 1) == Range(i, j) + {j}
  {
    RangeSize(i, j);
    RangeSize(i, j + 1);
    forall k: nat ensures k in Range(i, j + 1) <==> k in Range(i, j) + {j} {}
  }

  lemma RangeShrinks(i: nat, j: nat)
    requires i < j
    ensures i in Range(i, j) && Range(i + 1, j) == Range(i, j) - {i}
  {
    RangeSize(i + 1, j);
  }

  lemma AdmittedRuns(l: Load, h: History, first: nat, charges: seq<Cost>, now: real)
    requires Running(h, first, charges) && Young(l, h, first, now) && 0.0 <= l.length
    ensures Running(Attempted(h, Admitted, now), first, charges)
    ensures Young(l, Attempted(h, Admitted, now), first, now)
  {
    RangeGrows(first, |h.tokens|);
  }

  lemma SucceededRuns(h: History, first: nat, charges: seq<Cost>, cost: real, d: Day, now: real)
    requires Running(h, first, charges) && first < |h.tokens|
    ensures first in h.inflight
    ensures Running(OkHistory(h, first, cost, d, now), first + 1, charges + [Cost(d, cost)])
  {
    RangeShrinks(first, |h.tokens|);
  }

  lemma AllYoung(l: Load, s: Sys, first: nat, charges: seq<Cost>, now: real)
    requires Sane(l, s) && Running(HistoryOf(s, l.c), first, charges) && Young(l, HistoryOf(s, l.c), first, now)
    ensures forall i :: i in HistoryOf(s, l.c).inflight ==> now <= HistoryOf(s, l.c).tokens[i] + l.length
    ensures Young(l, HistoryOf(s, l.c), first + 1, now)
  {
    var tokens := HistoryOf(s, l.c).tokens;
    RangeSize(first, |tokens|);
    assert forall i :: first <= i < |tokens| ==> tokens[first] <= tokens[i];
  }

  /** The call running longest succeeds. */
  lemma SucceedOne(l: Load, states: Sys -> bool, s: Sys, first: nat, charges: seq<Cost>, cost: real, now: real)
      returns (s': Sys)
    requires ClosedUnder(l, states) && states(s) && s.clock <= now && 0.0 <= cost <= l.each
    requires Running(HistoryOf(s, l.c), first, charges) && Young(l, HistoryOf(s, l.c), first, now)
    requires first < |HistoryOf(s, l.c).tokens|
    ensures states(s') && s'.clock == now
    ensures Running(HistoryOf(s', l.c), first + 1, charges + [Cost(DateAt(l.cal, now), cost)])
    ensures Young(l, HistoryOf(s', l.c), first + 1, now) && HistoryOf(s', l.c).tokens == HistoryOf(s, l.c).tokens
  {
    var d := DateAt(l.cal, now);
    var e := Succeed(l.c, first, cost, d, now);
    assert Sane(l, s);
    DatesGoOn(l, s, now);
    AllYoung(l, s, first, charges, now);
    SucceededRuns(HistoryOf(s, l.c), first, charges, cost, d, now);
    s' := Step(l.w.cfg, s, e);
    assert HistoryOf(s', l.c) == OkHistory(HistoryOf(s, l.c), first, cost, d, now);
    assert Allowed(l, s, e);
  }

  // ----- Many calls at one instant -----

  function Copies(k: nat, x: Cost): seq<Cost> { if k == 0 then [] else Copies(k - 1, x) + [x] }

  lemma {:induction false} CopiesFront(charges: seq<Cost>, x: Cost, k: nat)
    ensures charges + [x] + Copies(k, x) == charges + Copies(k + 1, x)
  {
    if k != 0 {
      CopiesFront(charges, x, k - 1);
      assert charges + [x] + Copies(k, x) == charges + [x] + Copies(k - 1, x) + [x];
    }
  }

  /** The calls running longest succeed at one instant. */
  lemma {:induction false} SucceedMany(l: Load, states: Sys -> bool, s: Sys, first: nat, charges: seq<Cost>,
                                       cost: real, now: real, k: nat)
      returns (s': Sys)
    requires ClosedUnder(l, states) && states(s) && s.clock <= now && 0.0 <= cost <= l.each
    requires Running(HistoryOf(s, l.c), first, charges) && Young(l, HistoryOf(s, l.c), first, now)
    requires first + k <= |HistoryOf(s, l.c).tokens|
    ensures states(s') && (if k == 0 then s' == s else s'.clock == now)
    ensures Running(HistoryOf(s', l.c), first + k, charges + Copies(k, Cost(DateAt(l.cal, now), cost)))
    ensures HistoryOf(s', l.c).tokens == HistoryOf(s, l.c).tokens
    decreases k
  {
    if k == 0 {
      s' := s;
      assert charges + [] == charges;
    } else {
      var x := Cost(DateAt(l.cal, now), cost);
      s' := SucceedOne(l, states, s, first, charges, cost, now);
      s' := SucceedMany(l, states, s', first + 1, charges + [x], cost, now, k - 1);
      CopiesFront(charges, x, k - 1);
    }
  }

  lemma RecentFew(before: seq<real>, tokens: seq<real>, now: real, k: nat)
    requires before <= tokens && |tokens| == |before| + k
    requires forall i :: 0 <= i < |before| ==> before[i] + 1.0 < now
    ensures |Recent(tokens, now)| <= k
  {
    RangeSize(|before|, |tokens|);
    assert forall i :: 0 <= i < |before| ==> tokens[i] == before[i];
    Subset(Recent(tokens, now), Range(|before|, |tokens|));
  }

  /** All tokens so far are more than a second old. */
  ghost predicate Rested(tokens: seq<real>, now: real) {
    forall i :: 0 <= i < |tokens| ==> tokens[i] + 1.0 < now
  }

  lemma {:induction false} AdmitMany(l: Load, states: Sys -> bool, s: Sys, first: nat, charges: seq<Cost>, now: real,
                                     k: nat)
      returns (s': Sys)
    requires ClosedUnder(l, states) && states(s) && s.clock <= now
    requires Running(HistoryOf(s, l.c), first, charges) && Young(l, HistoryOf(s, l.c), first, now)
    requires HasRoom(l.w.cfg, charges, DateAt(l.cal, now)) && Rested(HistoryOf(s, l.c).tokens, now)
    requires k <= Qps(l.w.cfg, l.c)
    ensures states(s') && (if k == 0 then s' == s else s'.clock == now)
    ensures Running(HistoryOf(s', l.c), first, charges) && Young(l, HistoryOf(s', l.c), first, now)
    ensures HistoryOf(s', l.c).tokens == HistoryOf(s, l.c).tokens + seq(k, _ => now)
  {
    s' := s;
    if k != 0 {
      var tokens := HistoryOf(s, l.c).tokens;
      s' := AdmitMany(l, states, s, first, charges, now, k - 1);
      RecentFew(tokens, HistoryOf(s', l.c).tokens, now, k - 1);
      s' := AdmitOne(l, states, s', first, charges, now);
      assert seq(k, _ => now) == seq(k - 1, _ => now) + [now];
    }
  }
}
