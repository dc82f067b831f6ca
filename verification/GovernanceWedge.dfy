/** The breaker can lock out every caller that can call at all, and no other. */
module GovernanceWedge {
  import opened GovernanceGates
  import opened GovernanceRuns
  import opened GovernanceSafety
  import opened GovernanceCalendar
  import opened GovernanceCaps
  import opened GovernanceBursts
  import opened GovernanceLimits

  /** Nothing is running or charged, and the last completions are `n` failures. */
  ghost predicate Quiet(h: History, n: nat, admits: nat) {
    && h.inflight == {} && h.charges == [] && Trailing(h.outcomes) == n && h.admitsSince == admits
  }

  /** An instant at which the window is empty and the recovery period over. */
  function Later(cfg: Config, h: History, clock: real): real {
    var over := if h.outcomes == [] then clock else h.outcomes[|h.outcomes| - 1].at + cfg.recovery as real;
    (if clock < over then over else clock) + 2.0
  }

  lemma OwesProbe(cfg: Config, h: History, c: Caller, clock: real, d: Day)
    requires CanCall(cfg, c) && h.charges == []
    requires Trailing(h.outcomes) < cfg.threshold || h.admitsSince < cfg.halfOpenMax
    requires forall i :: 0 <= i < |h.tokens| ==> h.tokens[i] <= clock
    ensures Owed(cfg, h, c, d, Later(cfg, h, clock), Later(cfg, h, clock)) == Admitted
  {
    assert Recent(h.tokens, Later(cfg, h, clock)) == {};
  }

  /** A call is admitted when nothing else runs. */
  lemma AdmitQuiet(l: Load, s: Sys, n: nat, admits: nat) returns (s': Sys, e: Event, now: real)
    requires Sane(l, s) && CanCall(l.w.cfg, l.c) && Quiet(HistoryOf(s, l.c), n, admits)
    requires n < l.w.cfg.threshold || admits < l.w.cfg.halfOpenMax
    ensures Allowed(l, s, e) && s' == Step(l.w.cfg, s, e) && s'.clock == now
    ensures HistoryOf(s', l.c) == Attempted(HistoryOf(s, l.c), Admitted, now)
  {
    var h := HistoryOf(s, l.c);
    now := Later(l.w.cfg, h, s.clock);
    OwesProbe(l.w.cfg, h, l.c, s.clock, DateAt(l.cal, now));
    s', e := Admit(l, s, now);
  }

  /** It fails at once. */
  lemma FailOnce(l: Load, states: Sys -> bool, s: Sys, n: nat) returns (s': Sys)
    requires ClosedUnder(l, states) && states(s) && CanCall(l.w.cfg, l.c)
    requires Quiet(HistoryOf(s, l.c), n, 0) && n < l.w.cfg.threshold
    ensures states(s') && Quiet(HistoryOf(s', l.c), n + 1, 0)
  {
    assert Sane(l, s);
    var e, now;
    s', e, now := AdmitQuiet(l, s, n, 0);
    var h := HistoryOf(s', l.c);
    var fail := Fail(l.c, |HistoryOf(s, l.c).tokens|, now);
    assert states(s') && h.inflight == {fail.id} && h.tokens[fail.id] == now;
    var done := Step(l.w.cfg, s', fail);
    assert HistoryOf(done, l.c) == FailHistory(h, fail.id, now);
    assert Allowed(l, s', fail);
    OneMoreFailure(h.outcomes, now);
    s' := done;
  }

  lemma OneMoreFailure(outcomes: seq<Outcome>, now: real)
    ensures Trailing(outcomes + [Outcome(false, now)]) == Trailing(outcomes) + 1
  {
    assert (outcomes + [Outcome(false, now)])[..|outcomes|] == outcomes;
  }

  /** It is cancelled at once. */
  lemma CancelOnce(l: Load, states: Sys -> bool, s: Sys, n: nat, admits: nat) returns (s': Sys)
    requires ClosedUnder(l, states) && states(s) && CanCall(l.w.cfg, l.c)
    requires Quiet(HistoryOf(s, l.c), n, admits) && admits < l.w.cfg.halfOpenMax
    ensures states(s') && Quiet(HistoryOf(s', l.c), n, admits + 1)
  {
    assert Sane(l, s);
    var e, now;
    s', e, now := AdmitQuiet(l, s, n, admits);
    var h := HistoryOf(s', l.c);
    var cancel := Cancel(l.c, |HistoryOf(s, l.c).tokens|);
    assert states(s') && h.inflight == {cancel.id};
    var done := Step(l.w.cfg, s', cancel);
    assert HistoryOf(done, l.c) == CancelHistory(h, cancel.id);
    assert Allowed(l, s', cancel);
    s' := done;
  }

  lemma {:induction false} FailMany(l: Load, states: Sys -> bool, s: Sys, n: nat) returns (s': Sys)
    requires ClosedUnder(l, states) && states(s) && CanCall(l.w.cfg, l.c)
    requires Quiet(HistoryOf(s, l.c), 0, 0) && n <= l.w.cfg.threshold
    ensures states(s') && Quiet(HistoryOf(s', l.c), n, 0)
  {
    s' := s;
    if n != 0 {
      s' := FailMany(l, states, s, n - 1);
      s' := FailOnce(l, states, s', n - 1);
    }
  }

  lemma {:induction false} CancelMany(l: Load, states: Sys -> bool, s: Sys, n: nat, k: nat) returns (s': Sys)
    requires ClosedUnder(l, states) && states(s) && CanCall(l.w.cfg, l.c)
    requires Quiet(HistoryOf(s, l.c), n, 0) && k <= l.w.cfg.halfOpenMax
    ensures states(s') && Quiet(HistoryOf(s', l.c), n, k)
  {
    s' := s;
    if k != 0 {
      s' := CancelMany(l, states, s, n, k - 1);
      s' := CancelOnce(l, states, s', n, k - 1);
    }
  }

  /** `threshold` failures trip the breaker, and `halfOpenMax` cancelled probes wedge it. */
  lemma SomeRunWedges(l: Load) returns (run: seq<Event>)
    requires Proper(l) && CanCall(l.w.cfg, l.c)
    ensures Possible(l, run) && Wedged(l.w.cfg, HistoryAfter(l, run))
  {
    StartIsUntouched(l);
    StartIsQuiet(l);
    var s := FailMany(l, Reached(l), State(l.w, []), l.w.cfg.threshold);
    s := CancelMany(l, Reached(l), s, l.w.cfg.threshold, l.w.cfg.halfOpenMax);
    run := RunTo(l, s);
  }

  lemma StartIsQuiet(l: Load)
    ensures Quiet(HistoryOf(State(l.w, []), l.c), 0, 0)
  {
  }

  /** A caller that cannot call has no completions. */
  lemma {:induction false} NothingHappens(w: World, run: seq<Event>, c: Caller)
    requires Valid(w, run) && !CanCall(w.cfg, c)
    ensures var h := HistoryOf(State(w, run), c); h.inflight == {} && h.outcomes == [] && h.charges == []
    decreases |run|
  {
    if run != [] {
      NothingHappens(w, Earlier(run), c);
      assert Inv(w.cfg, State(w, Earlier(run)), c) by { RunKeepsInv(w, Earlier(run), c); }
      NothingNext(w.cfg, State(w, Earlier(run)), Last(run), c);
    }
  }

  lemma NothingNext(cfg: Config, s: Sys, e: Event, c: Caller)
    requires Enabled(s, e) && Inv(cfg, s, c) && !CanCall(cfg, c)
    requires var h := HistoryOf(s, c); h.inflight == {} && h.outcomes == [] && h.charges == []
    ensures var h := HistoryOf(Step(cfg, s, e), c); h.inflight == {} && h.outcomes == [] && h.charges == []
  {
    if e.caller != c {
      OtherHistory(cfg, s, e, c);
    } else if e.Attempt? {
      NothingAdmitted(cfg, s, e, c);
    }
  }

  lemma NothingAdmitted(cfg: Config, s: Sys, e: Event, c: Caller)
    requires e.Attempt? && e.caller == c && Enabled(s, e) && Inv(cfg, s, c) && !CanCall(cfg, c)
    requires HistoryOf(s, c).charges == []
    ensures var h, h' := HistoryOf(s, c), HistoryOf(Step(cfg, s, e), c);
            h'.inflight == h.inflight && h'.outcomes == h.outcomes && h'.charges == h.charges
  {
    OwesNothing(cfg, HistoryOf(s, c), c, e.today, e.rateNow, e.circuitNow);
    VerdictAt(cfg, s.tables, HistoryOf(s, c), c, s.clock, e.today, e.rateNow, e.circuitNow);
    StepAttempt(cfg, s, e);
  }

  lemma OwesNothing(cfg: Config, h: History, c: Caller, d: Day, rateNow: real, circuitNow: real)
    requires !CanCall(cfg, c) && h.charges == []
    ensures Owed(cfg, h, c, d, rateNow, circuitNow).Rejected?
  {
  }

  /** The breaker can lock a caller out for good exactly if the caller can call at all: its rate and
      both limits are positive.  The run that does so may keep to any calendar, costs and lengths. */
  lemma LockoutIsPossibleExactlyWhen(l: Load)
    requires Proper(l)
    ensures CanCall(l.w.cfg, l.c) <==> exists run :: Possible(l, run) && NeverAdmits(l.w, run, l.c)
    ensures CanCall(l.w.cfg, l.c) <==> exists run :: Valid(l.w, run) && NeverAdmits(l.w, run, l.c)
  {
    if CanCall(l.w.cfg, l.c) {
      var run := SomeRunWedges(l);
      WedgesExactlyWhen(l.w, run, l.c);
      assert Possible(l, run) && NeverAdmits(l.w, run, l.c);
    }
    forall run | Valid(l.w, run) && NeverAdmits(l.w, run, l.c) ensures CanCall(l.w.cfg, l.c) {
      WedgesExactlyWhen(l.w, run, l.c);
      if !CanCall(l.w.cfg, l.c) { NothingHappens(l.w, run, l.c); }
    }
  }
}
