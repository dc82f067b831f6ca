/** The three admission gates of the governance proxy and the bookkeeping done when a call
    completes.  The pure functions say what each lock-held section does to the proxy's four
    tables; the class at the end performs the same updates in place. */
module GovernanceGates {

  type Caller = string

  /** A UTC calendar date. */
  datatype Date = Date(year: int, month: int, day: int)

  type Day = d: Date | 1 <= d.month <= 12 && 1 <= d.day <= 31 witness Date(1970, 1, 1)

  /** Calendar order as an order on integers. */
  function Ordinal(d: Day): int {
    (d.year * 12 + (d.month - 1)) * 31 + (d.day - 1)
  }

  function MonthOrdinal(year: int, month: int): int {
    year * 12 + (month - 1)
  }

  datatype Mode = Closed | Open | HalfOpen

  datatype Circuit = Circuit(mode: Mode, failures: nat, openedAt: real, halfOpenCalls: nat)

  const FRESH_CIRCUIT := Circuit(Closed, 0, 0.0, 0)

  /** Settings after the constructor has clamped them; entries of `perService` are not clamped. */
  datatype Settings = Settings(
    dailyLimit: real, monthlyLimit: real, defaultQps: int, perService: map<Caller, int>,
    threshold: int, recovery: int, halfOpenMax: int)

  type Config = s: Settings | 1 <= s.defaultQps && 1 <= s.threshold && 1 <= s.recovery && 1 <= s.halfOpenMax
    witness Settings(10.0, 200.0, 10, map[], 5, 60, 3)

  function Qps(cfg: Config, c: Caller): int {
    if c in cfg.perService then cfg.perService[c] else cfg.defaultQps
  }

  /** The proxy's mutable tables. */
  datatype Tables = Tables(
    daily: map<(Caller, Day), real>, monthly: map<(Caller, int, int), real>,
    windows: map<Caller, seq<real>>, circuits: map<Caller, Circuit>)

  function DayUsed(t: Tables, c: Caller, d: Day): real {
    if (c, d) in t.daily then t.daily[(c, d)] else 0.0
  }

  function MonthUsed(t: Tables, c: Caller, year: int, month: int): real {
    if (c, year, month) in t.monthly then t.monthly[(c, year, month)] else 0.0
  }

  function Window(t: Tables, c: Caller): seq<real> {
    if c in t.windows then t.windows[c] else []
  }

  function CircuitOf(t: Tables, c: Caller): Circuit {
    if c in t.circuits then t.circuits[c] else FRESH_CIRCUIT
  }

  datatype Reason = BudgetDaily | BudgetMonthly | RateLimited | CircuitOpen | HalfOpenLimit

  datatype Verdict = Admitted | Rejected(reason: Reason)

  function BudgetGate(cfg: Config, t: Tables, c: Caller, today: Day): Verdict {
    if DayUsed(t, c, today) >= cfg.dailyLimit then Rejected(BudgetDaily)
    else if MonthUsed(t, c, today.year, today.month) >= cfg.monthlyLimit then Rejected(BudgetMonthly)
    else Admitted
  }

  function Prune(window: seq<real>, now: real): seq<real> {
    if window != [] && now - window[0] > 1.0 then Prune(window[1..], now) else window
  }

  function RateGate(cfg: Config, t: Tables, c: Caller, now: real): (Tables, Verdict) {
    var window := Prune(Window(t, c), now);
    if |window| >= Qps(cfg, c)
    then (t.(windows := t.windows[c := window]), Rejected(RateLimited))
    else (t.(windows := t.windows[c := window + [now]]), Admitted)
  }

  /** The circuit breaker as seen by an attempt at `now`. */
  function Probe(cfg: Config, k: Circuit, now: real): (Circuit, Verdict) {
    if k.mode == Open && now - k.openedAt < cfg.recovery as real then (k, Rejected(CircuitOpen))
    else
      var k := if k.mode == Open then k.(mode := HalfOpen, halfOpenCalls := 0) else k;
      if k.mode == HalfOpen && k.halfOpenCalls >= cfg.halfOpenMax then (k, Rejected(HalfOpenLimit))
      else if k.mode == HalfOpen then (k.(halfOpenCalls := k.halfOpenCalls + 1), Admitted)
      else (k, Admitted)
  }

  function CircuitGate(cfg: Config, t: Tables, c: Caller, now: real): (Tables, Verdict) {
    var (k, v) := Probe(cfg, CircuitOf(t, c), now);
    (t.(circuits := t.circuits[c := k]), v)
  }

  /** All three gates, in order, stopping at the first that rejects. */
  function Gate(cfg: Config, t: Tables, c: Caller, today: Day, rateNow: real, circuitNow: real): (Tables, Verdict) {
    var budget := BudgetGate(cfg, t, c, today);
    if budget.Rejected? then (t, budget)
    else
      var (t', rate) := RateGate(cfg, t, c, rateNow);
      if rate.Rejected? then (t', rate) else CircuitGate(cfg, t', c, circuitNow)
  }

  function Charge(t: Tables, c: Caller, today: Day, cost: real): Tables {
    t.(daily := t.daily[(c, today) := DayUsed(t, c, today) + cost],
       monthly := t.monthly[(c, today.year, today.month) := MonthUsed(t, c, today.year, today.month) + cost])
  }

  function Succeeded(t: Tables, c: Caller): Tables {
    t.(circuits := t.circuits[c := FRESH_CIRCUIT])
  }

  function Trip(cfg: Config, k: Circuit, now: real): Circuit {
    var k := k.(failures := k.failures + 1);
    if k.failures >= cfg.threshold then k.(mode := Open, openedAt := now, halfOpenCalls := 0) else k
  }

  function Failed(cfg: Config, t: Tables, c: Caller, now: real): Tables {
    t.(circuits := t.circuits[c := Trip(cfg, CircuitOf(t, c), now)])
  }

  function AtLeastOne(n: int): int { if n < 1 then 1 else n }

  /** The setting `kept` is the one asked for if that is at least one, and the least such one otherwise. */
  predicate Clamped(asked: int, kept: int) { 1 <= kept && asked <= kept && (kept == asked || kept == 1) }

  /** The proxy object.  Clock readings are parameters; the lock-held sections are the methods
      `Admit`, `CompleteOk` and `CompleteFail`. */
  class GovernanceProxy {
    const cfg: Config
    var dailyUsage: map<(Caller, Day), real>
    var monthlyUsage: map<(Caller, int, int), real>
    var rateWindows: map<Caller, seq<real>>
    var circuits: map<Caller, Circuit>

    function Snapshot(): Tables
      reads this
    {
      Tables(dailyUsage, monthlyUsage, rateWindows, circuits)
    }

    constructor (dailyLimit: real, monthlyLimit: real, defaultQps: int, perService: map<Caller, int>,
                 threshold: int, recovery: int, halfOpenMax: int)
      ensures cfg.dailyLimit == dailyLimit && cfg.monthlyLimit == monthlyLimit && cfg.perService == perService
      ensures Clamped(defaultQps, cfg.defaultQps) && Clamped(threshold, cfg.threshold)
      ensures Clamped(recovery, cfg.recovery) && Clamped(halfOpenMax, cfg.halfOpenMax)
      ensures Snapshot() == Tables(map[], map[], map[], map[])
    {
      cfg := Settings(dailyLimit, monthlyLimit, AtLeastOne(defaultQps), perService,
                      AtLeastOne(threshold), AtLeastOne(recovery), AtLeastOne(halfOpenMax));
      dailyUsage, monthlyUsage, rateWindows, circuits := map[], map[], map[], map[];
    }

    method CheckRateLimit(c: Caller, now: real) returns (v: Verdict)
      modifies this`rateWindows
      ensures (Snapshot(), v) == RateGate(cfg, old(Snapshot()), c, now)
    {
      var qps := Qps(cfg, c);
      var window := if c in rateWindows then rateWindows[c] else [];
      ghost var before := window;
      while window != [] && now - window[0] > 1.0
        invariant Prune(window, now) == Prune(before, now)
        decreases |window|
      {
        window := window[1..];
      }
      if |window| >= qps {
        rateWindows := rateWindows[c := window];
        return Rejected(RateLimited);
      }
      window := window + [now];
      rateWindows := rateWindows[c := window];
      v := Admitted;
    }

    method CheckCircuit(c: Caller, now: real) returns (v: Verdict)
      modifies this`circuits
      ensures (Snapshot(), v) == CircuitGate(cfg, old(Snapshot()), c, now)
    {
      var state := if c in circuits then circuits[c] else FRESH_CIRCUIT;
      circuits := circuits[c := state];
      if state.mode == Open {
        if now - state.openedAt >= cfg.recovery as real {
          state := state.(mode := HalfOpen, halfOpenCalls := 0);
          circuits := circuits[c := state];
        } else {
          return Rejected(CircuitOpen);
        }
      }
      if state.mode == HalfOpen && state.halfOpenCalls >= cfg.halfOpenMax {
        return Rejected(HalfOpenLimit);
      }
      if state.mode == HalfOpen {
        state := state.(halfOpenCalls := state.halfOpenCalls + 1);
        circuits := circuits[c := state];
      }
      assert circuits == old(circuits)[c := state];
      v := Admitted;
    }

    /** The gates, run under the lock before the call. */
    method Admit(c: Caller, today: Day, rateNow: real, circuitNow: real) returns (v: Verdict)
      modifies this
      ensures (Snapshot(), v) == Gate(cfg, old(Snapshot()), c, today, rateNow, circuitNow)
    {
      v := BudgetGate(cfg, Snapshot(), c, today);
      if v.Rejected? { return; }
      v := CheckRateLimit(c, rateNow);
      if v.Rejected? { return; }
      v := CheckCircuit(c, circuitNow);
    }

    /** Charge the budget and close the breaker, under the lock after a successful call. */
    method CompleteOk(c: Caller, today: Day, cost: real)
      modifies this
      ensures Snapshot() == Succeeded(Charge(old(Snapshot()), c, today, cost), c)
    {
      var month := (c, today.year, today.month);
      dailyUsage := dailyUsage[(c, today) := (if (c, today) in dailyUsage then dailyUsage[(c, today)] else 0.0) + cost];
      monthlyUsage := monthlyUsage[month := (if month in monthlyUsage then monthlyUsage[month] else 0.0) + cost];
      circuits := circuits[c := FRESH_CIRCUIT];
    }

    /** Count the failure and trip the breaker at the threshold, under the lock after a failed call. */
    method CompleteFail(c: Caller, now: real)
      modifies this`circuits
      ensures Snapshot() == Failed(cfg, old(Snapshot()), c, now)
    {
      var state := if c in circuits then circuits[c] else FRESH_CIRCUIT;
      state := state.(failures := state.failures + 1);
      if state.failures >= cfg.threshold {
        state := state.(mode := Open, openedAt := now, halfOpenCalls := 0);
      }
      circuits := circuits[c := state];
    }
  }
}
