/** What holds in every reachable state of the governance proxy. */
module GovernanceSafety {
  import opened GovernanceGates
  import opened GovernanceRuns

  // ----- The gates refine the history -----

  /** Whatever the interleaving so far, the gates answer exactly as the history demands. */
  lemma GateFollowsHistory(w: World, run: seq<Event>, e: Event)
    requires Valid(w, run) && e.Attempt? && Enabled(State(w, run), e)
    ensures var s := State(w, run);
            Gate(w.cfg, s.tables, e.caller, e.today, e.rateNow, e.circuitNow).1
            == Owed(w.cfg, HistoryOf(s, e.caller), e.caller, e.today, e.rateNow, e.circuitNow)
  {
    var s, c := State(w, run), e.caller;
    RunKeepsInv(w, run, c);
    VerdictAt(w.cfg, s.tables, HistoryOf(s, c), c, s.clock, e.today, e.rateNow, e.circuitNow);
  }

  lemma VerdictAt(cfg: Config, t: Tables, h: History, c: Caller, clock: real, today: Day, rateNow: real,
                  circuitNow: real)
    requires InvAt(cfg, t, h, c, clock) && clock <= rateNow <= circuitNow
    ensures Gate(cfg, t, c, today, rateNow, circuitNow).1 == Owed(cfg, h, c, today, rateNow, circuitNow)
  {
    PrunedKeepsInv(Qps(cfg, c), h.tokens, Window(t, c), clock, rateNow);
    assert DayUsed(t, c, today) == SpentOn(h.charges, today);
    assert MonthUsed(t, c, today.year, today.month) == SpentIn(h.charges, today.year, today.month);
    ProbeVerdict(cfg, h, CircuitOf(t, c), clock, circuitNow);
  }

  lemma ProbeVerdict(cfg: Config, h: History, k: Circuit, clock: real, now: real)
    requires BreakerInv(cfg, h, k, clock) && clock <= now
    ensures Probe(cfg, k, now).1
         == if Trailing(h.outcomes) < cfg.threshold then Admitted
            else if now < h.outcomes[|h.outcomes| - 1].at + cfg.recovery as real then Rejected(CircuitOpen)
            else if h.admitsSince >= cfg.halfOpenMax then Rejected(HalfOpenLimit)
            else Admitted
  {
  }

  // ----- Sliding window -----

  lemma {:induction false} SpacedMany(tokens: seq<real>, q: int, i: nat, n: nat)
    requires Spaced(tokens, q) && 0 < q && 0 < n && i + q * n < |tokens|
    ensures tokens[i + q * n] - tokens[i] > n as real
  {
    var j := i + q * (n - 1);
    assert i + q * n == j + q;
    if 1 < n {
      SpacedMany(tokens, q, i, n - 1);
    } else {
      assert j == i;
    }
    assert tokens[j + q] - tokens[j] > 1.0;
  }

  lemma {:induction false} Least(s: set<nat>) returns (lo: nat)
    requires s != {}
    ensures lo in s && forall i :: i in s ==> lo <= i
  {
    var x :| x in s;
    lo := x;
    if s != {x} {
      var rest := Least(s - {x});
      assert forall i :: i in s ==> i == x || i in s - {x};
      if rest < x { lo := rest; }
    }
  }

  /** At most q*m tokens fall in any closed interval no longer than m seconds. */
  lemma WindowCount(tokens: seq<real>, q: int, from: real, length: real, m: nat, picked: set<nat>)
    requires Spaced(tokens, q) && (q <= 0 ==> tokens == [])
    requires 0 < m && length <= m as real
    requires forall i :: i in picked ==> i < |tokens| && from <= tokens[i] <= from + length
    ensures |picked| <= Max0(q) * m
  {
    if picked != {} {
      var lo := Least(picked);
      assert lo < |tokens|;
      forall i | i in picked ensures i < lo + q * m {
        if lo + q * m <= i {
          SpacedMany(tokens, q, lo, m);
        }
      }
      RangeSize(lo, lo + q * m);
      Subset(picked, Range(lo, lo + q * m));
    }
  }

  lemma {:induction false} Subset(a: set<nat>, b: set<nat>)
    requires a <= b
    ensures |a| <= |b|
  {
    if a != {} {
      var x :| x in a;
      Subset(a - {x}, b - {x});
    }
  }

  /** Over a whole run, no closed second ever holds more than qps of a caller's tokens; every
      running call holds a token of its own. */
  lemma RateSafety(w: World, run: seq<Event>, c: Caller, from: real)
    requires Valid(w, run)
    ensures var h := HistoryOf(State(w, run), c);
            && |set i: nat | i < |h.tokens| && from <= h.tokens[i] <= from + 1.0| <= Max0(Qps(w.cfg, c))
            && (forall i :: i in h.inflight ==> i < |h.tokens|)
  {
    RunKeepsInv(w, run, c);
    var h := HistoryOf(State(w, run), c);
    var picked := set i: nat | i < |h.tokens| && from <= h.tokens[i] <= from + 1.0;
    WindowCount(h.tokens, Qps(w.cfg, c), from, 1.0, 1, picked);
  }

  /** The rate is the caller's own where the settings have one, and the default otherwise: no closed
      second ever holds more tokens than that. */
  lemma OwnRateSafety(w: World, run: seq<Event>, c: Caller, from: real)
    requires Valid(w, run)
    ensures var tokens := HistoryOf(State(w, run), c).tokens;
            var granted := set i: nat | i < |tokens| && from <= tokens[i] <= from + 1.0;
            && (c in w.cfg.perService && 0 < w.cfg.perService[c] ==> |granted| <= w.cfg.perService[c])
            && (c in w.cfg.perService && w.cfg.perService[c] <= 0 ==> granted == {})
            && (c !in w.cfg.perService ==> |granted| <= w.cfg.defaultQps)
  {
    RateSafety(w, run, c, from);
  }

  /** With both budgets unspent, an attempt is turned down for its rate exactly when that many tokens
      were granted within the last second. */
  lemma RateLimitedExactlyWhen(w: World, run: seq<Event>, e: Event)
    requires Valid(w, run) && e.Attempt? && Enabled(State(w, run), e)
    requires DayUsed(State(w, run).tables, e.caller, e.today) < w.cfg.dailyLimit
    requires MonthUsed(State(w, run).tables, e.caller, e.today.year, e.today.month) < w.cfg.monthlyLimit
    ensures var s := State(w, run);
            var tokens := HistoryOf(s, e.caller).tokens;
            var recent := |set i: nat | i < |tokens| && e.rateNow - 1.0 <= tokens[i]|;
            Gate(w.cfg, s.tables, e.caller, e.today, e.rateNow, e.circuitNow).1 == Rejected(RateLimited)
            <==> if e.caller in w.cfg.perService then w.cfg.perService[e.caller] <= recent
                 else w.cfg.defaultQps <= recent
  {
    var s, c := State(w, run), e.caller;
    var tokens := HistoryOf(s, c).tokens;
    GateFollowsHistory(w, run, e);
    assert LedgerInv(s.tables, HistoryOf(s, c), c) by { RunKeepsInv(w, run, c); }
    assert Recent(tokens, e.rateNow) == set i: nat | i < |tokens| && e.rateNow - 1.0 <= tokens[i];
  }

  // ----- Spend bound -----

  /** In every state of the run, no call of `c` still running is older than `limit` seconds.  (A call
      may complete later than that, so this asks less than that calls last at most `limit`.) */
  ghost predicate Punctual(w: World, run: seq<Event>, c: Caller, limit: real)
    requires Valid(w, run)
  {
    var s := State(w, run);
    && (forall i :: i in HistoryOf(s, c).inflight && i < |HistoryOf(s, c).tokens| ==>
          s.clock <= HistoryOf(s, c).tokens[i] + limit)
    && (run == [] || Punctual(w, Earlier(run), c, limit))
  }

  /** No successful call of `c` costs more than `most`. */
  ghost predicate CostsAtMost(run: seq<Event>, c: Caller, most: real) {
    forall k :: 0 <= k < |run| ==> run[k].Succeed? && run[k].caller == c ==> run[k].cost <= most
  }

  function Limit(cfg: Config, p: Period): real {
    match p case Daily => cfg.dailyLimit case Monthly => cfg.monthlyLimit
  }

  lemma KeyMonotone(p: Period, a: Day, b: Day)
    requires Ordinal(a) <= Ordinal(b)
    ensures Key(p, a) <= Key(p, b)
  {
  }

  /** What that many calls can cost at most. */
  function Exposure(each: real, calls: nat): real { each * calls as real }

  lemma ExposureMonotone(each: real, a: nat, b: nat)
    requires 0.0 <= each && a <= b
    ensures 0.0 <= Exposure(each, a) <= Exposure(each, b)
    ensures Exposure(each, a + 1) == Exposure(each, a) + each
  {
  }

  /** The inductive form of the bound: what is charged plus what the running calls may still
      charge, for the current period and every later one. */
  ghost predicate SpendInv(limit: real, h: History, p: Period, now: int, each: real, most: nat) {
    && (forall k :: now < k ==> SpentAt(h.charges, p, k) == 0.0)
    && (limit <= 0.0 ==> h.inflight == {} && forall k :: SpentAt(h.charges, p, k) == 0.0)
    && (0.0 < limit ==> SpentAt(h.charges, p, now) + Exposure(each, |h.inflight|) < limit + Exposure(each, most))
    && (0.0 < limit ==> forall k :: SpentAt(h.charges, p, k) < limit + Exposure(each, most))
  }

  lemma SpendLater(limit: real, h: History, p: Period, now: int, later: int, each: real, most: nat)
    requires SpendInv(limit, h, p, now, each, most) && now <= later && 0.0 <= each && |h.inflight| <= most
    ensures SpendInv(limit, h, p, later, each, most)
  {
    ExposureMonotone(each, |h.inflight|, most);
  }

  lemma SpendAdmit(limit: real, h: History, h': History, p: Period, now: int, each: real, most: nat)
    requires SpendInv(limit, h, p, now, each, most) && 0.0 <= each
    requires SpentAt(h.charges, p, now) < limit && h'.charges == h.charges && |h'.inflight| <= most
    ensures SpendInv(limit, h', p, now, each, most)
  {
    ExposureMonotone(each, |h'.inflight|, most);
  }

  lemma SpendCharge(limit: real, h: History, p: Period, id: nat, cost: real, today: Day, at: real, each: real,
                    most: nat)
    requires SpendInv(limit, h, p, Key(p, today), each, most) && 0.0 <= cost <= each && id in h.inflight
    ensures SpendInv(limit, OkHistory(h, id, cost, today, at), p, Key(p, today), each, most)
  {
    SpentAppend(h.charges, Cost(today, cost));
    ExposureMonotone(each, |h.inflight - {id}|, |h.inflight|);
    assert |h.inflight| == |h.inflight - {id}| + 1;
  }

  lemma InflightBound(w: World, run: seq<Event>, c: Caller, length: real, m: nat)
    requires Valid(w, run) && Punctual(w, run, c, length) && 0 < m && length <= m as real
    ensures |HistoryOf(State(w, run), c).inflight| <= Max0(Qps(w.cfg, c)) * m
  {
    var s := State(w, run);
    var h := HistoryOf(s, c);
    RunKeepsInv(w, run, c);
    WindowCount(h.tokens, Qps(w.cfg, c), s.clock - length, length, m, h.inflight);
  }

  lemma {:induction false} SpendRun(w: World, run: seq<Event>, c: Caller, p: Period, each: real, length: real, m: nat)
    requires Valid(w, run) && Punctual(w, run, c, length) && CostsAtMost(run, c, each)
    requires 0 < m && length <= m as real && 0.0 <= each
    ensures SpendInv(Limit(w.cfg, p), HistoryOf(State(w, run), c), p, Key(p, State(w, run).today), each,
                     Max0(Qps(w.cfg, c)) * m)
    decreases |run|
  {
    var most := Max0(Qps(w.cfg, c)) * m;
    if run == [] {
      ExposureMonotone(each, 0, most);
    } else {
      var s, e := State(w, Earlier(run)), Last(run);
      SpendRun(w, Earlier(run), c, p, each, length, m);
      InflightBound(w, Earlier(run), c, length, m);
      InflightBound(w, run, c, length, m);
      SpendStep(w.cfg, s, e, c, p, each, most) by { RunKeepsInv(w, Earlier(run), c); }
    }
  }

  /** An admitted attempt found both budgets unspent. */
  lemma AdmittedUnspent(cfg: Config, s: Sys, e: Event, p: Period)
    requires e.Attempt? && Enabled(s, e) && Inv(cfg, s, e.caller)
    ensures var h, h' := HistoryOf(s, e.caller), HistoryOf(Step(cfg, s, e), e.caller);
            && h'.charges == h.charges
            && (h'.inflight == h.inflight || SpentAt(h.charges, p, Key(p, e.today)) < Limit(cfg, p))
  {
    var c, h := e.caller, HistoryOf(s, e.caller);
    VerdictAt(cfg, s.tables, h, c, s.clock, e.today, e.rateNow, e.circuitNow);
    StepAttempt(cfg, s, e);
  }

  lemma SpendStep(cfg: Config, s: Sys, e: Event, c: Caller, p: Period, each: real, most: nat)
    requires Enabled(s, e) && Inv(cfg, s, c) && 0.0 <= each
    requires e.Succeed? && e.caller == c ==> e.cost <= each
    requires |HistoryOf(s, c).inflight| <= most && |HistoryOf(Step(cfg, s, e), c).inflight| <= most
    requires SpendInv(Limit(cfg, p), HistoryOf(s, c), p, Key(p, s.today), each, most)
    ensures SpendInv(Limit(cfg, p), HistoryOf(Step(cfg, s, e), c), p, Key(p, Step(cfg, s, e).today), each, most)
  {
    var s' := Step(cfg, s, e);
    var h, h', limit := HistoryOf(s, c), HistoryOf(s', c), Limit(cfg, p);
    KeyMonotone(p, s.today, s'.today);
    SpendLater(limit, h, p, Key(p, s.today), Key(p, s'.today), each, most);
    if e.caller != c {
      assert h' == h;
    } else if e.Attempt? {
      AdmittedUnspent(cfg, s, e, p);
      assert s'.today == e.today by { StepAttempt(cfg, s, e); }
      if h'.inflight != h.inflight { SpendAdmit(limit, h, h', p, Key(p, e.today), each, most); }
    } else if e.Succeed? {
      SpendCharge(limit, h, p, e.id, e.cost, e.today, e.now, each, most);
    } else if e.Fail? || e.Cancel? {
      ExposureMonotone(each, |h.inflight - {e.id}|, |h.inflight|);
      assert |h.inflight| == |h.inflight - {e.id}| + 1;
    }
  }

  /** Flagship bound.  The budget is checked before a call and charged after it, so the overrun is
      what the calls in flight can add; the rate window limits how many those are. */
  lemma SpendBound(w: World, run: seq<Event>, c: Caller, each: real, length: real, m: nat, d: Day)
    requires Valid(w, run) && Punctual(w, run, c, length) && CostsAtMost(run, c, each)
    requires 0 < m && length <= m as real && 0.0 <= each
    ensures var t := State(w, run).tables;
            var overrun := Exposure(each, Max0(Qps(w.cfg, c)) * m);
            && (DayUsed(t, c, d) == 0.0 || DayUsed(t, c, d) < w.cfg.dailyLimit + overrun)
            && (MonthUsed(t, c, d.year, d.month) == 0.0
                || MonthUsed(t, c, d.year, d.month) < w.cfg.monthlyLimit + overrun)
  {
    SpendRun(w, run, c, Daily, each, length, m);
    SpendRun(w, run, c, Monthly, each, length, m);
    RunKeepsInv(w, run, c);
  }

  // ----- Circuit breaker -----

  ghost predicate Tripped(cfg: Config, h: History) {
    Trailing(h.outcomes) >= cfg.threshold
  }

  /** A full recovery period has passed since the last completion. */
  predicate RecoveryOver(cfg: Config, h: History, now: real)
    requires h.outcomes != []
  {
    h.outcomes[|h.outcomes| - 1].at + cfg.recovery as real <= now
  }

  /** The breaker's counter and mode are functions of the completions so far. */
  lemma BreakerFollowsHistory(w: World, run: seq<Event>, c: Caller)
    requires Valid(w, run)
    ensures var s := State(w, run);
            var k := CircuitOf(s.tables, c);
            && k.failures == Trailing(HistoryOf(s, c).outcomes)
            && (k.mode == Closed <==> !Tripped(w.cfg, HistoryOf(s, c)))
  {
    RunKeepsInv(w, run, c);
  }

  /** An attempt that passes while the breaker is tripped comes a full recovery period after the
      last failure, however late the calls admitted earlier complete. */
  lemma TrippedAdmission(w: World, run: seq<Event>, e: Event)
    requires Valid(w, run) && e.Attempt? && Enabled(State(w, run), e)
    requires Tripped(w.cfg, HistoryOf(State(w, run), e.caller))
    requires Gate(w.cfg, State(w, run).tables, e.caller, e.today, e.rateNow, e.circuitNow).1 == Admitted
    ensures var outcomes := HistoryOf(State(w, run), e.caller).outcomes;
            && !outcomes[|outcomes| - 1].ok
            && RecoveryOver(w.cfg, HistoryOf(State(w, run), e.caller), e.circuitNow)
  {
    GateFollowsHistory(w, run, e);
  }

  predicate Completes(e: Event, c: Caller) {
    (e.Succeed? || e.Fail?) && e.caller == c
  }

  lemma {:induction false} ValidPrefix(w: World, run: seq<Event>, more: seq<Event>)
    requires Valid(w, run + more)
    ensures Valid(w, run)
    decreases |more|
  {
    if more == [] {
      assert run + more == run;
    } else {
      assert Earlier(run + more) == run + Earlier(more);
      ValidPrefix(w, run, Earlier(more));
    }
  }

  /** While no call of `c` completes, each admitted call is counted, and runs until it is cancelled. */
  lemma {:induction false} ProbesCounted(w: World, run: seq<Event>, more: seq<Event>, c: Caller)
    requires Valid(w, run) && Valid(w, run + more)
    requires forall k :: 0 <= k < |more| ==> !Completes(more[k], c)
    ensures var h, h' := HistoryOf(State(w, run), c), HistoryOf(State(w, run + more), c);
            && h'.outcomes == h.outcomes && h.lost <= h'.lost && h.admitsSince <= h'.admitsSince
            && Unadmitted(h') == Unadmitted(h)
    decreases |more|
  {
    if more == [] {
      assert run + more == run;
    } else {
      var before := run + Earlier(more);
      assert Earlier(run + more) == before && Last(run + more) == Last(more);
      ProbesCounted(w, run, Earlier(more), c);
      RunKeepsInv(w, before, c);
      ProbeStep(w.cfg, State(w, before), Last(more), c);
    }
  }

  /** Calls running or cancelled, less those admitted, since the last completion. */
  function Unadmitted(h: History): int { |h.inflight| + h.lost - h.admitsSince }

  lemma ProbeStep(cfg: Config, s: Sys, e: Event, c: Caller)
    requires Enabled(s, e) && (forall i :: i in HistoryOf(s, c).inflight ==> i < |HistoryOf(s, c).tokens|)
    requires !Completes(e, c)
    ensures var h, h' := HistoryOf(s, c), HistoryOf(Step(cfg, s, e), c);
            && h'.outcomes == h.outcomes && h.lost <= h'.lost && h.admitsSince <= h'.admitsSince
            && Unadmitted(h') == Unadmitted(h)
  {
    var h, h' := HistoryOf(s, c), HistoryOf(Step(cfg, s, e), c);
    if e.caller != c {
      OtherHistory(cfg, s, e, c);
    } else if e.Attempt? {
      StepAttempt(cfg, s, e);
    } else if e.Cancel? {
      assert h' == CancelHistory(h, e.id);
      assert |h.inflight| == |h'.inflight| + 1;
    } else {
      assert h'.inflight == h.inflight && h'.lost == h.lost && h'.admitsSince == h.admitsSince;
    }
  }

  /** Once tripped, and until a call of `c` completes, at most `halfOpenMax` more calls get in. */
  lemma ProbesBounded(w: World, run: seq<Event>, more: seq<Event>, c: Caller)
    requires Valid(w, run + more) && Valid(w, run) && Tripped(w.cfg, HistoryOf(State(w, run), c))
    requires forall k :: 0 <= k < |more| ==> !Completes(more[k], c)
    ensures |HistoryOf(State(w, run + more), c).inflight| <= |HistoryOf(State(w, run), c).inflight| + w.cfg.halfOpenMax
  {
    ProbesCounted(w, run, more, c);
    RunKeepsInv(w, run + more, c);
  }

  /** A half-open rejection has a live probe behind it unless `halfOpenMax` calls were cancelled
      since the last completion, and a caller with nothing running is let through again exactly when
      the recovery period is over and fewer than `halfOpenMax` probes were taken. */
  lemma HalfOpenProbes(w: World, run: seq<Event>, c: Caller, now: real)
    requires Valid(w, run) && State(w, run).clock <= now
    ensures var h, k := HistoryOf(State(w, run), c), CircuitOf(State(w, run).tables, c);
            && k.halfOpenCalls <= |h.inflight| + h.lost
            && (Probe(w.cfg, k, now).1 == Rejected(HalfOpenLimit) ==> h.inflight != {} || w.cfg.halfOpenMax <= h.lost)
            && (Tripped(w.cfg, h) ==>
                  (Probe(w.cfg, k, now).1 == Admitted
                   <==> RecoveryOver(w.cfg, h, now) && h.admitsSince < w.cfg.halfOpenMax))
  {
    RunKeepsInv(w, run, c);
    var s := State(w, run);
    ProbeVerdict(w.cfg, HistoryOf(s, c), CircuitOf(s.tables, c), s.clock, now);
    IdleProbe(w.cfg, HistoryOf(s, c), CircuitOf(s.tables, c), s.clock, now);
  }

  /** The breaker is tripped, nothing of the caller's runs, and its probes are used up. */
  ghost predicate Wedged(cfg: Config, h: History) {
    Tripped(cfg, h) && h.inflight == {} && cfg.halfOpenMax <= h.admitsSince
  }

  /** From here on, whatever happens, the breaker admits no call of `c`. */
  ghost predicate NeverAdmits(w: World, run: seq<Event>, c: Caller) {
    forall more: seq<Event>, now: real :: Valid(w, run + more) && State(w, run + more).clock <= now ==>
      Probe(w.cfg, CircuitOf(State(w, run + more).tables, c), now).1.Rejected?
  }

  /** The breaker locks a caller out for good exactly when it is wedged, and that takes at least
      `halfOpenMax` calls cancelled since the last completion. */
  lemma WedgesExactlyWhen(w: World, run: seq<Event>, c: Caller)
    requires Valid(w, run)
    ensures NeverAdmits(w, run, c) <==> Wedged(w.cfg, HistoryOf(State(w, run), c))
    ensures Wedged(w.cfg, HistoryOf(State(w, run), c)) ==> w.cfg.halfOpenMax <= HistoryOf(State(w, run), c).lost
  {
    var h := HistoryOf(State(w, run), c);
    RunKeepsInv(w, run, c);
    if Wedged(w.cfg, h) {
      forall more: seq<Event>, now: real | Valid(w, run + more) && State(w, run + more).clock <= now
        ensures Probe(w.cfg, CircuitOf(State(w, run + more).tables, c), now).1.Rejected?
      {
        StaysWedged(w, run, more, c);
        HalfOpenProbes(w, run + more, c, now);
      }
    } else {
      Unwedge(w, run, c);
    }
  }

  lemma {:induction false} StaysWedged(w: World, run: seq<Event>, more: seq<Event>, c: Caller)
    requires Valid(w, run) && Valid(w, run + more) && Wedged(w.cfg, HistoryOf(State(w, run), c))
    ensures Wedged(w.cfg, HistoryOf(State(w, run + more), c))
    decreases |more|
  {
    if more == [] {
      assert run + more == run;
    } else {
      var before := run + Earlier(more);
      assert Earlier(run + more) == before && Last(run + more) == Last(more);
      StaysWedged(w, run, Earlier(more), c);
      RunKeepsInv(w, before, c);
      WedgedStep(w.cfg, State(w, before), Last(more), c);
    }
  }

  lemma WedgedStep(cfg: Config, s: Sys, e: Event, c: Caller)
    requires Enabled(s, e) && Inv(cfg, s, c) && Wedged(cfg, HistoryOf(s, c))
    ensures Wedged(cfg, HistoryOf(Step(cfg, s, e), c))
  {
    if e.caller == c && e.Attempt? {
      VerdictAt(cfg, s.tables, HistoryOf(s, c), c, s.clock, e.today, e.rateNow, e.circuitNow);
      StepAttempt(cfg, s, e);
    }
  }

  /** One more event. */
  lemma RunGrows(w: World, run: seq<Event>, e: Event)
    requires Valid(w, run) && Enabled(State(w, run), e)
    ensures Valid(w, run + [e]) && State(w, run + [e]) == Step(w.cfg, State(w, run), e)
  {
    assert Earlier(run + [e]) == run && Last(run + [e]) == e;
  }

  /** Waiting out the recovery period, or letting a running call succeed first, reopens the way. */
  lemma Unwedge(w: World, run: seq<Event>, c: Caller)
    requires Valid(w, run) && !Wedged(w.cfg, HistoryOf(State(w, run), c))
    ensures !NeverAdmits(w, run, c)
  {
    var s := State(w, run);
    var h := HistoryOf(s, c);
    if !Tripped(w.cfg, h) || h.admitsSince < w.cfg.halfOpenMax {
      assert BreakerInv(w.cfg, h, CircuitOf(s.tables, c), s.clock) by { RunKeepsInv(w, run, c); }
      var now := WaitedOut(w.cfg, h, CircuitOf(s.tables, c), s.clock);
      AdmitsNow(w, run, c, now);
    } else {
      var id :| id in h.inflight;
      SuccessReopens(w, run, Succeed(c, id, 0.0, s.today, s.clock));
    }
  }

  lemma AdmitsNow(w: World, run: seq<Event>, c: Caller, now: real)
    requires Valid(w, run) && State(w, run).clock <= now
    requires Probe(w.cfg, CircuitOf(State(w, run).tables, c), now).1 == Admitted
    ensures !NeverAdmits(w, run, c)
  {
    assert run + [] == run;
  }

  lemma WaitedOut(cfg: Config, h: History, k: Circuit, clock: real) returns (now: real)
    requires BreakerInv(cfg, h, k, clock) && (!Tripped(cfg, h) || h.admitsSince < cfg.halfOpenMax)
    ensures clock <= now && Probe(cfg, k, now).1 == Admitted
  {
    var over := if h.outcomes == [] then clock else h.outcomes[|h.outcomes| - 1].at + cfg.recovery as real;
    now := if clock < over then over else clock;
    ProbeVerdict(cfg, h, k, clock, now);
  }

  lemma SuccessReopens(w: World, run: seq<Event>, e: Event)
    requires Valid(w, run) && e.Succeed? && Enabled(State(w, run), e)
    ensures !NeverAdmits(w, run, e.caller)
  {
    RunGrows(w, run, e);
    var s := State(w, run + [e]);
    assert CircuitOf(s.tables, e.caller) == FRESH_CIRCUIT;
    assert Probe(w.cfg, FRESH_CIRCUIT, s.clock).1 == Admitted;
  }

  lemma IdleProbe(cfg: Config, h: History, k: Circuit, clock: real, now: real)
    requires BreakerInv(cfg, h, k, clock)
    ensures Probe(cfg, k, now).1 == Rejected(HalfOpenLimit) ==> h.inflight != {} || cfg.halfOpenMax <= h.lost
  {
  }

  /** Any completion of the caller's, of a probe or of an older call, leaves half-open: it closes
      the breaker or opens it for a new recovery period. */
  lemma CompletionLeavesHalfOpen(w: World, run: seq<Event>, e: Event)
    requires Valid(w, run) && Enabled(State(w, run), e) && Completes(e, e.caller)
    ensures var k := CircuitOf(Step(w.cfg, State(w, run), e).tables, e.caller);
            && k.mode != HalfOpen
            && (e.Succeed? ==> k == FRESH_CIRCUIT)
            && (e.Fail? && CircuitOf(State(w, run).tables, e.caller).mode != Closed ==>
                  k.mode == Open && k.openedAt == e.now)
  {
    RunKeepsInv(w, run, e.caller);
    var s := State(w, run);
    if e.Fail? { TripLeaves(w.cfg, HistoryOf(s, e.caller), CircuitOf(s.tables, e.caller), s.clock, e.now); }
  }

  lemma TripLeaves(cfg: Config, h: History, k: Circuit, clock: real, now: real)
    requires BreakerInv(cfg, h, k, clock)
    ensures Trip(cfg, k, now).mode != HalfOpen
    ensures k.mode != Closed ==> Trip(cfg, k, now).mode == Open && Trip(cfg, k, now).openedAt == now
  {
  }

  // ----- Audit -----

  lemma WriteOne(cfg: Config, s: Sys, c: Caller)
    requires HistoryOf(s, c).pending != []
    ensures Enabled(s, WriteAudit(c, 0))
    ensures var h, h' := HistoryOf(s, c), HistoryOf(Step(cfg, s, WriteAudit(c, 0)), c);
            h'.pending == h.pending[1..] && h'.written == h.written + [h.pending[0]]
  {
    assert HistoryOf(s, c).pending[..0] == [];
  }

  /** The second run goes on with audit writes of this caller only, each of the oldest record. */
  predicate OnlyWrites(run: seq<Event>, all: seq<Event>, c: Caller) {
    run <= all && forall k :: |run| <= k < |all| ==> all[k] == WriteAudit(c, 0)
  }

  lemma WritesGoOn(run: seq<Event>, all: seq<Event>, c: Caller)
    requires OnlyWrites(run + [WriteAudit(c, 0)], all, c)
    ensures OnlyWrites(run, all, c)
  {
    assert all[|run|] == (run + [WriteAudit(c, 0)])[|run|];
  }

  lemma WriteGrows(w: World, run: seq<Event>, s: Sys, c: Caller) returns (longer: seq<Event>, next: Sys)
    requires Valid(w, run) && State(w, run) == s && HistoryOf(s, c).pending != []
    ensures longer == run + [WriteAudit(c, 0)] && Valid(w, longer) && State(w, longer) == next
    ensures HistoryOf(next, c).pending == HistoryOf(s, c).pending[1..]
    ensures HistoryOf(next, c).written == HistoryOf(s, c).written + [HistoryOf(s, c).pending[0]]
  {
    WriteOne(w.cfg, s, c);
    RunGrows(w, run, WriteAudit(c, 0));
    longer, next := run + [WriteAudit(c, 0)], Step(w.cfg, s, WriteAudit(c, 0));
  }

  /** All records of the first history are written in the second. */
  predicate CaughtUp(h: History, h': History) { h'.pending == [] && h'.written == h.written + h.pending }

  lemma {:induction false} CatchUp(w: World, run: seq<Event>, s: Sys, c: Caller) returns (all: seq<Event>, end: Sys)
    requires Valid(w, run) && State(w, run) == s
    ensures Valid(w, all) && OnlyWrites(run, all, c) && State(w, all) == end
    ensures CaughtUp(HistoryOf(s, c), HistoryOf(end, c))
    decreases |HistoryOf(s, c).pending|
  {
    if HistoryOf(s, c).pending == [] {
      all, end := run, s;
    } else {
      var longer, next := WriteGrows(w, run, s, c);
      all, end := CatchUp(w, longer, next, c);
      WritesGoOn(run, all, c);
      OneMoreWritten(HistoryOf(s, c), HistoryOf(next, c), HistoryOf(end, c));
    }
  }

  lemma OneMoreWritten(h: History, next: History, end: History)
    requires h.pending != [] && next.pending == h.pending[1..] && next.written == h.written + [h.pending[0]]
    requires CaughtUp(next, end)
    ensures CaughtUp(h, end)
  {
    assert h.pending == [h.pending[0]] + h.pending[1..];
  }

  /** The audit writes of a caller can always catch up, in the order of the events. */
  lemma AuditCatchesUp(w: World, run: seq<Event>, c: Caller) returns (all: seq<Event>)
    requires Valid(w, run)
    ensures Valid(w, all) && OnlyWrites(run, all, c)
    ensures CaughtUp(HistoryOf(State(w, run), c), HistoryOf(State(w, all), c))
  {
    var end;
    all, end := CatchUp(w, run, State(w, run), c);
  }

  // ----- Cost conservation -----

  function DaysTotal(t: Tables, c: Caller, year: int, month: int, days: nat): real
    requires 1 <= month <= 12 && days <= 31
  {
    if days == 0 then 0.0 else DaysTotal(t, c, year, month, days - 1) + DayUsed(t, c, Date(year, month, days))
  }

  function SpentFirst(charges: seq<Cost>, year: int, month: int, days: nat): real
    requires 1 <= month <= 12 && days <= 31
  {
    if days == 0 then 0.0 else SpentFirst(charges, year, month, days - 1) + SpentOn(charges, Date(year, month, days))
  }

  lemma {:induction false} SpentFirstAppend(charges: seq<Cost>, x: Cost, year: int, month: int, days: nat)
    requires 1 <= month <= 12 && days <= 31
    ensures SpentFirst(charges + [x], year, month, days)
         == SpentFirst(charges, year, month, days)
            + (if x.day.year == year && x.day.month == month && x.day.day <= days then x.amount else 0.0)
  {
    if 0 < days {
      SpentFirstAppend(charges, x, year, month, days - 1);
      SpentMore(charges, x, Date(year, month, days));
    }
  }

  lemma {:induction false} SpentFirstNothing(year: int, month: int, days: nat)
    requires 1 <= month <= 12 && days <= 31
    ensures SpentFirst([], year, month, days) == 0.0
  {
    if 0 < days { SpentFirstNothing(year, month, days - 1); }
  }

  lemma {:induction false} MonthIsItsDays(charges: seq<Cost>, year: int, month: int)
    requires 1 <= month <= 12
    ensures SpentIn(charges, year, month) == SpentFirst(charges, year, month, 31)
  {
    if charges == [] {
      SpentFirstNothing(year, month, 31);
    } else {
      var n := |charges| - 1;
      MonthIsItsDays(charges[..n], year, month);
      SpentFirstAppend(charges[..n], charges[n], year, month, 31);
      SpentMore(charges[..n], charges[n], Date(year, month, 1));
      assert charges[..n] + [charges[n]] == charges;
    }
  }

  lemma {:induction false} DaysTotalIs(t: Tables, h: History, c: Caller, year: int, month: int, days: nat)
    requires LedgerInv(t, h, c) && 1 <= month <= 12 && days <= 31
    ensures DaysTotal(t, c, year, month, days) == SpentFirst(h.charges, year, month, days)
  {
    if 0 < days { DaysTotalIs(t, h, c, year, month, days - 1); }
  }

  /** The sum of all daily counters of a caller. */
  ghost function DailyTotal(daily: map<(Caller, Day), real>, c: Caller): real {
    if daily == map[] then 0.0
    else
      var key :| key in daily;
      DailyTotal(daily - {key}, c) + OwnPart(c, key, daily[key])
  }

  function OwnPart(c: Caller, key: (Caller, Day), amount: real): real { if key.0 == c then amount else 0.0 }

  /** The sum does not depend on the order in which the counters are taken. */
  lemma {:induction false} DailyTotalRemove(daily: map<(Caller, Day), real>, c: Caller, key: (Caller, Day))
    requires key in daily
    ensures DailyTotal(daily, c) == DailyTotal(daily - {key}, c) + OwnPart(c, key, daily[key])
    decreases daily.Keys
  {
    var first :| first in daily
      && DailyTotal(daily, c) == DailyTotal(daily - {first}, c) + OwnPart(c, first, daily[first]);
    if first != key {
      DailyTotalRemove(daily - {first}, c, key);
      DailyTotalRemove(daily - {key}, c, first);
      assert daily - {first} - {key} == daily - {key} - {first};
    }
  }

  lemma DailyTotalCharge(t: Tables, c: Caller, today: Day, cost: real, other: Caller)
    ensures DailyTotal(Charge(t, c, today, cost).daily, other)
         == DailyTotal(t.daily, other) + (if other == c then cost else 0.0)
  {
    var key, after := (c, today), Charge(t, c, today, cost).daily;
    DailyTotalRemove(after, other, key);
    assert after - {key} == t.daily - {key};
    if key in t.daily { DailyTotalRemove(t.daily, other, key); } else { assert t.daily - {key} == t.daily; }
  }

  lemma {:induction false} DailyTotalIs(w: World, run: seq<Event>, c: Caller)
    requires Valid(w, run)
    ensures DailyTotal(State(w, run).tables.daily, c) == Spent(HistoryOf(State(w, run), c).charges)
    decreases |run|
  {
    if run != [] {
      var s, e := State(w, Earlier(run)), Last(run);
      DailyTotalIs(w, Earlier(run), c);
      DailyTotalStep(w.cfg, s, e, c);
    }
  }

  lemma DailyTotalStep(cfg: Config, s: Sys, e: Event, c: Caller)
    requires Enabled(s, e) && DailyTotal(s.tables.daily, c) == Spent(HistoryOf(s, c).charges)
    ensures DailyTotal(Step(cfg, s, e).tables.daily, c) == Spent(HistoryOf(Step(cfg, s, e), c).charges)
  {
    var s' := Step(cfg, s, e);
    if e.Succeed? {
      assert s'.tables.daily == Charge(s.tables, e.caller, e.today, e.cost).daily;
      DailyTotalCharge(s.tables, e.caller, e.today, e.cost, c);
      if e.caller == c {
        SpentAppend(HistoryOf(s, c).charges, Cost(e.today, e.cost));
      } else {
        assert HistoryOf(s', c) == HistoryOf(s, c);
      }
    } else {
      assert s'.tables.daily == s.tables.daily;
      assert HistoryOf(s', c).charges == HistoryOf(s, c).charges;
    }
  }

  lemma MonthIs(t: Tables, h: History, c: Caller, d: Day)
    requires LedgerInv(t, h, c)
    ensures MonthUsed(t, c, d.year, d.month) == SpentFirst(h.charges, d.year, d.month, 31)
  {
    MonthIsItsDays(h.charges, d.year, d.month);
  }

  /** The monthly counter is the sum of that month's daily counters, and the sum of all of a
      caller's daily counters is the sum of its success records, written or still to be written. */
  lemma CostConservation(w: World, run: seq<Event>, c: Caller, year: int, month: int)
    requires Valid(w, run) && 1 <= month <= 12
    ensures var s := State(w, run);
            var h := HistoryOf(s, c);
            && MonthUsed(s.tables, c, year, month) == DaysTotal(s.tables, c, year, month, 31)
            && DailyTotal(s.tables.daily, c) == SuccessTotal(h.written) + SuccessTotal(h.pending)
  {
    var s := State(w, run);
    var h := HistoryOf(s, c);
    assert LedgerInv(s.tables, h, c) by { RunKeepsInv(w, run, c); }
    assert DailyTotal(s.tables.daily, c) == Spent(h.charges) by { DailyTotalIs(w, run, c); }
    MonthIs(s.tables, h, c, Date(year, month, 1));
    DaysTotalIs(s.tables, h, c, year, month, 31);
  }
}
