/** Runs of the governance proxy with many calls in flight.

    A run is a sequence of lock-held sections and audit writes, interleaved in any order the
    lock and the clock allow.  Each caller's ghost history records every rate token ever granted,
    which of them belong to calls still running, every completion, every charge, and the audit
    records waiting to be written or already written. */
module GovernanceRuns {
  import opened GovernanceGates

  datatype Outcome = Outcome(ok: bool, at: real)
  datatype Cost = Cost(day: Day, amount: real)
  datatype Status = Success | Failure | Blocked
  datatype Audit = Audit(status: Status, amount: real)

  /** `inflight` holds the index, in `tokens`, of the token of each running call.  `admitsSince` and
      `lost` count the calls admitted and cancelled since the last completion. */
  datatype History = History(
    tokens: seq<real>, inflight: set<nat>, outcomes: seq<Outcome>, admitsSince: nat, lost: nat,
    charges: seq<Cost>, pending: seq<Audit>, written: seq<Audit>)

  const NO_HISTORY := History([], {}, [], 0, 0, [], [], [])

  datatype Event =
    | Attempt(caller: Caller, today: Day, rateNow: real, circuitNow: real)
    | Succeed(caller: Caller, id: nat, cost: real, today: Day, now: real)
    | Fail(caller: Caller, id: nat, now: real)
    | Cancel(caller: Caller, id: nat)
    | WriteAudit(caller: Caller, k: nat)

  datatype Sys = Sys(tables: Tables, hist: map<Caller, History>, clock: real, today: Day)

  function HistoryOf(s: Sys, c: Caller): History {
    if c in s.hist then s.hist[c] else NO_HISTORY
  }

  predicate Enabled(s: Sys, e: Event) {
    match e
    case Attempt(c, today, rateNow, circuitNow) =>
      s.clock <= rateNow <= circuitNow && Ordinal(s.today) <= Ordinal(today)
    case Succeed(c, id, cost, today, now) =>
      s.clock <= now && Ordinal(s.today) <= Ordinal(today) && id in HistoryOf(s, c).inflight && 0.0 <= cost
    case Fail(c, id, now) => s.clock <= now && id in HistoryOf(s, c).inflight
    case Cancel(c, id) => id in HistoryOf(s, c).inflight
    case WriteAudit(c, k) => k < |HistoryOf(s, c).pending|
  }

  /** What an attempt that got verdict `v` at the instant `rateNow` adds to the caller's history. */
  function Attempted(h: History, v: Verdict, rateNow: real): History {
    match v
    case Admitted =>
      h.(tokens := h.tokens + [rateNow], inflight := h.inflight + {|h.tokens|}, admitsSince := h.admitsSince + 1)
    case Rejected(reason) =>
      h.(tokens := if reason in {CircuitOpen, HalfOpenLimit} then h.tokens + [rateNow] else h.tokens,
         pending := h.pending + [Audit(Blocked, 0.0)])
  }

  function OkHistory(h: History, id: nat, cost: real, today: Day, now: real): History {
    h.(inflight := h.inflight - {id}, outcomes := h.outcomes + [Outcome(true, now)], admitsSince := 0, lost := 0,
       charges := h.charges + [Cost(today, cost)], pending := h.pending + [Audit(Success, cost)])
  }

  function FailHistory(h: History, id: nat, now: real): History {
    h.(inflight := h.inflight - {id}, outcomes := h.outcomes + [Outcome(false, now)], admitsSince := 0, lost := 0,
       pending := h.pending + [Audit(Failure, 0.0)])
  }

  /** A cancelled call never reaches either completion handler. */
  function CancelHistory(h: History, id: nat): History {
    h.(inflight := h.inflight - {id}, lost := h.lost + 1)
  }

  function Step(cfg: Config, s: Sys, e: Event): Sys
    requires Enabled(s, e)
  {
    var h := HistoryOf(s, e.caller);
    match e
    case Attempt(c, today, rateNow, circuitNow) =>
      var (t, v) := Gate(cfg, s.tables, c, today, rateNow, circuitNow);
      Sys(t, s.hist[c := Attempted(h, v, rateNow)], circuitNow, today)
    case Succeed(c, id, cost, today, now) =>
      Sys(Succeeded(Charge(s.tables, c, today, cost), c), s.hist[c := OkHistory(h, id, cost, today, now)], now, today)
    case Fail(c, id, now) =>
      Sys(Failed(cfg, s.tables, c, now), s.hist[c := FailHistory(h, id, now)], now, s.today)
    case Cancel(c, id) => s.(hist := s.hist[c := CancelHistory(h, id)])
    case WriteAudit(c, k) =>
      s.(hist := s.hist[c := h.(pending := h.pending[..k] + h.pending[k + 1..], written := h.written + [h.pending[k]])])
  }

  /** Where a run starts: the settings, and the clock and date at construction. */
  datatype World = World(cfg: Config, clock: real, today: Day)

  ghost predicate Valid(w: World, run: seq<Event>)
    decreases |run|, 0
  {
    run == [] || (Valid(w, Earlier(run)) && Enabled(State(w, Earlier(run)), Last(run)))
  }

  ghost function State(w: World, run: seq<Event>): Sys
    requires Valid(w, run)
    decreases |run|, 1
  {
    if run == [] then Sys(Tables(map[], map[], map[], map[]), map[], w.clock, w.today)
    else Step(w.cfg, State(w, Earlier(run)), Last(run))
  }

  function Earlier(run: seq<Event>): seq<Event>
    requires run != []
  {
    run[..|run| - 1]
  }

  function Last(run: seq<Event>): Event
    requires run != []
  {
    run[|run| - 1]
  }

  // ----- What the tables mean: functions of the history alone -----

  function Max0(n: int): nat { if n < 0 then 0 else n }

  /** The tokens that a window of one second ending at `now` still contains. */
  function Recent(tokens: seq<real>, now: real): set<nat> {
    set i: nat | i < |tokens| && now - tokens[i] <= 1.0
  }

  /** Failed completions since the last success. */
  function Trailing(outcomes: seq<Outcome>): nat {
    if outcomes == [] || outcomes[|outcomes| - 1].ok then 0 else Trailing(outcomes[..|outcomes| - 1]) + 1
  }

  datatype Period = Daily | Monthly

  function Key(p: Period, d: Day): int {
    match p case Daily => Ordinal(d) case Monthly => MonthOrdinal(d.year, d.month)
  }

  /** What was charged in one day or month. */
  function SpentAt(charges: seq<Cost>, p: Period, key: int): real {
    if charges == [] then 0.0
    else
      var last := charges[|charges| - 1];
      SpentAt(charges[..|charges| - 1], p, key) + (if Key(p, last.day) == key then last.amount else 0.0)
  }

  function SpentOn(charges: seq<Cost>, d: Day): real { SpentAt(charges, Daily, Ordinal(d)) }

  function SpentIn(charges: seq<Cost>, year: int, month: int): real {
    SpentAt(charges, Monthly, MonthOrdinal(year, month))
  }

  function Spent(charges: seq<Cost>): real {
    if charges == [] then 0.0 else Spent(charges[..|charges| - 1]) + charges[|charges| - 1].amount
  }

  function Counted(r: Audit): real { if r.status == Success then r.amount else 0.0 }

  function SuccessTotal(records: seq<Audit>): real {
    if records == [] then 0.0
    else SuccessTotal(records[..|records| - 1]) + Counted(records[|records| - 1])
  }

  /** The verdict a caller is owed, read off the history without looking at any table. */
  function Owed(cfg: Config, h: History, c: Caller, today: Day, rateNow: real, circuitNow: real): Verdict {
    if SpentOn(h.charges, today) >= cfg.dailyLimit then Rejected(BudgetDaily)
    else if SpentIn(h.charges, today.year, today.month) >= cfg.monthlyLimit then Rejected(BudgetMonthly)
    else if |Recent(h.tokens, rateNow)| >= Qps(cfg, c) then Rejected(RateLimited)
    else if Trailing(h.outcomes) < cfg.threshold then Admitted
    else if circuitNow < h.outcomes[|h.outcomes| - 1].at + cfg.recovery as real then Rejected(CircuitOpen)
    else if h.admitsSince >= cfg.halfOpenMax then Rejected(HalfOpenLimit)
    else Admitted
  }

  // ----- The invariant of one caller -----

  ghost predicate RateInv(q: int, tokens: seq<real>, window: seq<real>, clock: real) {
    && (q <= 0 ==> tokens == [])
    && |window| <= |tokens| && window == tokens[|tokens| - |window|..]
    && (forall i :: 0 <= i < |tokens| ==> tokens[i] <= clock)
    && (forall i :: 0 <= i < |tokens| - |window| ==> clock - tokens[i] > 1.0)
    && Spaced(tokens, q)
  }

  /** Tokens come in clock order, and token i+q more than one second after token i. */
  ghost predicate Spaced(tokens: seq<real>, q: int) {
    && (forall i, j :: 0 <= i <= j < |tokens| ==> tokens[i] <= tokens[j])
    && (0 < q ==> forall i, j :: 0 <= i && j == i + q && j < |tokens| ==> tokens[j] - tokens[i] > 1.0)
  }

  ghost predicate BreakerInv(cfg: Config, h: History, k: Circuit, clock: real) {
    && k.failures == Trailing(h.outcomes)
    && (k.mode == Closed <==> k.failures < cfg.threshold)
    && (k.mode != Closed ==> k.openedAt == h.outcomes[|h.outcomes| - 1].at)
    && (k.mode == Open ==> h.admitsSince == 0)
    && (k.mode == HalfOpen ==> h.admitsSince == k.halfOpenCalls <= cfg.halfOpenMax
                               && k.openedAt + cfg.recovery as real <= clock)
    && (k.mode != HalfOpen ==> k.halfOpenCalls == 0)
    && k.halfOpenCalls <= |h.inflight| + h.lost
  }

  ghost predicate LedgerInv(t: Tables, h: History, c: Caller) {
    && (forall d: Day :: DayUsed(t, c, d) == SpentOn(h.charges, d))
    && (forall d: Day :: MonthUsed(t, c, d.year, d.month) == SpentIn(h.charges, d.year, d.month))
    && Spent(h.charges) == SuccessTotal(h.written) + SuccessTotal(h.pending)
  }

  ghost predicate InvAt(cfg: Config, t: Tables, h: History, c: Caller, clock: real) {
    && (forall i :: i in h.inflight ==> i < |h.tokens|)
    && RateInv(Qps(cfg, c), h.tokens, Window(t, c), clock)
    && BreakerInv(cfg, h, CircuitOf(t, c), clock)
    && LedgerInv(t, h, c)
  }

  ghost predicate Inv(cfg: Config, s: Sys, c: Caller) {
    InvAt(cfg, s.tables, HistoryOf(s, c), c, s.clock)
  }

  // ----- Rate window -----

  lemma {:induction false} PruneDrops(window: seq<real>, now: real)
    ensures var w := Prune(window, now);
            && |w| <= |window| && w == window[|window| - |w|..]
            && (forall i :: 0 <= i < |window| - |w| ==> now - window[i] > 1.0)
            && (w != [] ==> now - w[0] <= 1.0)
  {
    if window != [] && now - window[0] > 1.0 {
      PruneDrops(window[1..], now);
      var w := Prune(window, now);
      assert forall i :: 1 <= i < |window| - |w| ==> window[i] == window[1..][i - 1];
    }
  }

  lemma PrunedKeepsInv(q: int, tokens: seq<real>, window: seq<real>, clock: real, now: real)
    requires RateInv(q, tokens, window, clock) && clock <= now
    ensures RateInv(q, tokens, Prune(window, now), now)
    ensures |Prune(window, now)| == |Recent(tokens, now)|
  {
    PruneDrops(window, now);
    var w := Prune(window, now);
    var k := |tokens| - |w|;
    var k0 := |tokens| - |window|;
    forall i | 0 <= i < k ensures now - tokens[i] > 1.0 {
      if k0 <= i { assert tokens[i] == window[i - k0]; }
    }
    assert w == tokens[k..];
    if w != [] { assert w[0] == tokens[k]; }
    RangeSize(k, |tokens|);
    assert Recent(tokens, now) == Range(k, |tokens|);
  }

  function Range(lo: nat, hi: nat): set<nat>
    decreases hi - lo
  {
    if lo < hi then {lo} + Range(lo + 1, hi) else {}
  }

  lemma {:induction false} RangeSize(lo: nat, hi: nat)
    requires lo <= hi
    ensures |Range(lo, hi)| == hi - lo
    ensures forall i: nat :: i in Range(lo, hi) <==> lo <= i < hi
    decreases hi - lo
  {
    if lo < hi { RangeSize(lo + 1, hi); }
  }

  lemma GrantKeepsInv(q: int, tokens: seq<real>, window: seq<real>, now: real)
    requires RateInv(q, tokens, window, now) && |window| < q
    ensures RateInv(q, tokens + [now], window + [now], now)
  {
  }

  // ----- Sums -----

  lemma {:induction false} SuccessTotalRemove(records: seq<Audit>, k: nat)
    requires k < |records|
    ensures SuccessTotal(records)
         == SuccessTotal(records[..k] + records[k + 1..]) + Counted(records[k])
  {
    var n := |records| - 1;
    if k == n {
      assert records[..k] + records[k + 1..] == records[..n];
    } else {
      SuccessTotalRemove(records[..n], k);
      var rest := records[..k] + records[k + 1..];
      assert rest[..|rest| - 1] == records[..n][..k] + records[..n][k + 1..];
      assert rest[|rest| - 1] == records[n];
    }
  }

  lemma SuccessTotalAppend(records: seq<Audit>, r: Audit)
    ensures SuccessTotal(records + [r]) == SuccessTotal(records) + Counted(r)
  {
    assert (records + [r])[..|records|] == records;
  }

  // ----- Every step keeps the invariant, for the caller it touches and for all others -----

  lemma KeysDiffer(a: Day, b: Day)
    ensures Ordinal(a) == Ordinal(b) <==> a == b
    ensures MonthOrdinal(a.year, a.month) == MonthOrdinal(b.year, b.month) <==> a.year == b.year && a.month == b.month
  {
  }

  lemma SpentAppend(charges: seq<Cost>, x: Cost)
    ensures Spent(charges + [x]) == Spent(charges) + x.amount
    ensures forall p, k :: SpentAt(charges + [x], p, k)
                        == SpentAt(charges, p, k) + (if Key(p, x.day) == k then x.amount else 0.0)
  {
    assert (charges + [x])[..|charges|] == charges;
  }

  /** One more charge counts for its own day and month only. */
  lemma SpentMore(charges: seq<Cost>, x: Cost, d: Day)
    ensures SpentOn(charges + [x], d) == SpentOn(charges, d) + (if x.day == d then x.amount else 0.0)
    ensures SpentIn(charges + [x], d.year, d.month)
         == SpentIn(charges, d.year, d.month)
            + (if x.day.year == d.year && x.day.month == d.month then x.amount else 0.0)
  {
    SpentAppend(charges, x);
    KeysDiffer(x.day, d);
  }

  /** One caller's rows of the tables. */
  ghost predicate SameRows(t: Tables, t': Tables, c: Caller) {
    Window(t, c) == Window(t', c) && CircuitOf(t, c) == CircuitOf(t', c) && SameUsage(t, t', c)
  }

  ghost predicate SameUsage(t: Tables, t': Tables, c: Caller) {
    && (forall d: Day :: DayUsed(t', c, d) == DayUsed(t, c, d))
    && (forall y, m :: MonthUsed(t', c, y, m) == MonthUsed(t, c, y, m))
  }

  /** What the gates do to the caller's window, breaker and usage rows. */
  ghost predicate GateEffect(cfg: Config, t: Tables, t': Tables, v: Verdict, c: Caller, rateNow: real,
                        circuitNow: real) {
    var w := Prune(Window(t, c), rateNow);
    && SameUsage(t, t', c)
    && (if v in {Rejected(BudgetDaily), Rejected(BudgetMonthly)} then SameRows(t, t', c)
        else if v == Rejected(RateLimited) then
          Window(t', c) == w && |w| >= Qps(cfg, c) && CircuitOf(t', c) == CircuitOf(t, c)
        else
          Window(t', c) == w + [rateNow] && |w| < Qps(cfg, c)
          && (CircuitOf(t', c), v) == Probe(cfg, CircuitOf(t, c), circuitNow))
  }

  lemma GateHasEffect(cfg: Config, t: Tables, c: Caller, today: Day, rateNow: real, circuitNow: real)
    ensures var (t', v) := Gate(cfg, t, c, today, rateNow, circuitNow);
            GateEffect(cfg, t, t', v, c, rateNow, circuitNow)
  {
  }

  lemma AttemptRate(cfg: Config, t: Tables, t': Tables, v: Verdict, c: Caller, h: History,
                    clock: real, rateNow: real, circuitNow: real)
    requires GateEffect(cfg, t, t', v, c, rateNow, circuitNow) && clock <= rateNow <= circuitNow
    requires RateInv(Qps(cfg, c), h.tokens, Window(t, c), clock)
    ensures RateInv(Qps(cfg, c), Attempted(h, v, rateNow).tokens, Window(t', c), circuitNow)
  {
    var q, w := Qps(cfg, c), Prune(Window(t, c), rateNow);
    if v in {Rejected(BudgetDaily), Rejected(BudgetMonthly)} {
      LaterKeepsRate(q, h.tokens, Window(t, c), clock, circuitNow);
    } else {
      PrunedKeepsInv(q, h.tokens, Window(t, c), clock, rateNow);
      if v == Rejected(RateLimited) {
        LaterKeepsRate(q, h.tokens, w, rateNow, circuitNow);
      } else {
        assert Attempted(h, v, rateNow).tokens == h.tokens + [rateNow] by {
          ProbeReasons(cfg, CircuitOf(t, c), circuitNow);
        }
        GrantKeepsInv(q, h.tokens, w, rateNow);
        LaterKeepsRate(q, h.tokens + [rateNow], w + [rateNow], rateNow, circuitNow);
      }
    }
  }

  lemma ProbeReasons(cfg: Config, k: Circuit, now: real)
    ensures Probe(cfg, k, now).1 in {Admitted, Rejected(CircuitOpen), Rejected(HalfOpenLimit)}
  {
  }

  lemma LaterKeepsRate(q: int, tokens: seq<real>, window: seq<real>, clock: real, later: real)
    requires RateInv(q, tokens, window, clock) && clock <= later
    ensures RateInv(q, tokens, window, later)
  {
  }

  lemma AttemptBreaker(cfg: Config, t: Tables, t': Tables, v: Verdict, c: Caller, h: History,
                       clock: real, rateNow: real, circuitNow: real)
    requires GateEffect(cfg, t, t', v, c, rateNow, circuitNow) && clock <= rateNow <= circuitNow
    requires BreakerInv(cfg, h, CircuitOf(t, c), clock)
    requires forall i :: i in h.inflight ==> i < |h.tokens|
    ensures BreakerInv(cfg, Attempted(h, v, rateNow), CircuitOf(t', c), circuitNow)
  {
  }

  /** An audit record without a charge changes no total. */
  lemma FreeLedger(t: Tables, t': Tables, c: Caller, h: History, h': History, r: Audit)
    requires SameUsage(t, t', c) && LedgerInv(t, h, c)
    requires h'.charges == h.charges && h'.written == h.written
    requires h'.pending == h.pending || (h'.pending == h.pending + [r] && Counted(r) == 0.0)
    ensures LedgerInv(t', h', c)
  {
    SuccessTotalAppend(h.pending, r);
  }

  lemma AttemptAt(cfg: Config, t: Tables, t': Tables, v: Verdict, c: Caller, h: History,
                  clock: real, rateNow: real, circuitNow: real)
    requires GateEffect(cfg, t, t', v, c, rateNow, circuitNow) && clock <= rateNow <= circuitNow
    requires InvAt(cfg, t, h, c, clock)
    ensures InvAt(cfg, t', Attempted(h, v, rateNow), c, circuitNow)
  {
    AttemptRate(cfg, t, t', v, c, h, clock, rateNow, circuitNow);
    AttemptBreaker(cfg, t, t', v, c, h, clock, rateNow, circuitNow);
    FreeLedger(t, t', c, h, Attempted(h, v, rateNow), Audit(Blocked, 0.0));
  }

  lemma AttemptKeepsInv(cfg: Config, s: Sys, e: Event)
    requires e.Attempt? && Enabled(s, e) && Inv(cfg, s, e.caller)
    ensures Inv(cfg, Step(cfg, s, e), e.caller)
  {
    var c := e.caller;
    var g := Gate(cfg, s.tables, c, e.today, e.rateNow, e.circuitNow);
    GateHasEffect(cfg, s.tables, c, e.today, e.rateNow, e.circuitNow);
    AttemptAt(cfg, s.tables, g.0, g.1, c, HistoryOf(s, c), s.clock, e.rateNow, e.circuitNow);
    StepAttempt(cfg, s, e);
  }

  lemma StepAttempt(cfg: Config, s: Sys, e: Event)
    requires e.Attempt? && Enabled(s, e)
    ensures var (t', v) := Gate(cfg, s.tables, e.caller, e.today, e.rateNow, e.circuitNow);
            var s' := Step(cfg, s, e);
            s'.tables == t' && s'.clock == e.circuitNow && s'.today == e.today
            && HistoryOf(s', e.caller) == Attempted(HistoryOf(s, e.caller), v, e.rateNow)
  {
  }

  /** What a step adds to a caller's charges, and how it moves the clock. */
  lemma StepCharges(cfg: Config, s: Sys, e: Event, c: Caller)
    requires Enabled(s, e)
    ensures var s' := Step(cfg, s, e);
            && HistoryOf(s', c).charges
               == HistoryOf(s, c).charges + (if e.Succeed? && e.caller == c then [Cost(e.today, e.cost)] else [])
            && s'.today == (if e.Attempt? || e.Succeed? then e.today else s.today)
            && s.clock <= s'.clock && Ordinal(s.today) <= Ordinal(s'.today)
  {
    if e.caller != c { OtherHistory(cfg, s, e, c); }
  }

  lemma OtherHistory(cfg: Config, s: Sys, e: Event, c: Caller)
    requires Enabled(s, e) && e.caller != c
    ensures HistoryOf(Step(cfg, s, e), c) == HistoryOf(s, c)
  {
  }

  lemma SucceedAt(cfg: Config, t: Tables, h: History, c: Caller, clock: real, id: nat, cost: real, today: Day,
                  now: real)
    requires InvAt(cfg, t, h, c, clock) && clock <= now
    ensures InvAt(cfg, Succeeded(Charge(t, c, today, cost), c), OkHistory(h, id, cost, today, now), c, now)
  {
    LaterKeepsRate(Qps(cfg, c), h.tokens, Window(t, c), clock, now);
    ChargeLedger(t, h, c, id, cost, today, now);
  }

  lemma ChargeLedger(t: Tables, h: History, c: Caller, id: nat, cost: real, today: Day, now: real)
    requires LedgerInv(t, h, c)
    ensures LedgerInv(Succeeded(Charge(t, c, today, cost), c), OkHistory(h, id, cost, today, now), c)
  {
    var t' := Succeeded(Charge(t, c, today, cost), c);
    var x := Cost(today, cost);
    SuccessTotalAppend(h.pending, Audit(Success, cost));
    SpentAppend(h.charges, x);
    forall d: Day
      ensures DayUsed(t', c, d) == SpentOn(h.charges + [x], d)
      ensures MonthUsed(t', c, d.year, d.month) == SpentIn(h.charges + [x], d.year, d.month)
    {
      assert DayUsed(t, c, d) == SpentOn(h.charges, d);
      assert MonthUsed(t, c, d.year, d.month) == SpentIn(h.charges, d.year, d.month);
      SpentMore(h.charges, x, d);
    }
  }

  lemma FailAt(cfg: Config, t: Tables, h: History, c: Caller, clock: real, id: nat, now: real)
    requires InvAt(cfg, t, h, c, clock) && clock <= now && id in h.inflight
    ensures InvAt(cfg, Failed(cfg, t, c, now), FailHistory(h, id, now), c, now)
  {
    LaterKeepsRate(Qps(cfg, c), h.tokens, Window(t, c), clock, now);
    TripBreaker(cfg, h, CircuitOf(t, c), clock, id, now);
    FreeLedger(t, Failed(cfg, t, c, now), c, h, FailHistory(h, id, now), Audit(Failure, 0.0));
  }

  lemma TripBreaker(cfg: Config, h: History, k: Circuit, clock: real, id: nat, now: real)
    requires BreakerInv(cfg, h, k, clock) && clock <= now && id in h.inflight
    ensures BreakerInv(cfg, FailHistory(h, id, now), Trip(cfg, k, now), now)
  {
    var h' := FailHistory(h, id, now);
    assert h'.outcomes[..|h'.outcomes| - 1] == h.outcomes;
  }

  lemma CompletionKeepsInv(cfg: Config, s: Sys, e: Event)
    requires (e.Succeed? || e.Fail?) && Enabled(s, e) && Inv(cfg, s, e.caller)
    ensures Inv(cfg, Step(cfg, s, e), e.caller)
  {
    match e
    case Succeed(c, id, cost, today, now) =>
      SucceedAt(cfg, s.tables, HistoryOf(s, c), c, s.clock, id, cost, today, now);
    case Fail(c, id, now) => FailAt(cfg, s.tables, HistoryOf(s, c), c, s.clock, id, now);
    case _ =>
  }

  lemma WriteKeepsInv(cfg: Config, s: Sys, e: Event)
    requires e.WriteAudit? && Enabled(s, e) && Inv(cfg, s, e.caller)
    ensures Inv(cfg, Step(cfg, s, e), e.caller)
  {
    var h := HistoryOf(s, e.caller);
    SuccessTotalRemove(h.pending, e.k);
    SuccessTotalAppend(h.written, h.pending[e.k]);
  }

  lemma CancelKeepsInv(cfg: Config, s: Sys, e: Event)
    requires e.Cancel? && Enabled(s, e) && Inv(cfg, s, e.caller)
    ensures Inv(cfg, Step(cfg, s, e), e.caller)
  {
    var h := HistoryOf(s, e.caller);
    assert |h.inflight| == |h.inflight - {e.id}| + 1;
  }

  lemma OthersKeepInv(cfg: Config, s: Sys, e: Event, c: Caller)
    requires Enabled(s, e) && Inv(cfg, s, c) && c != e.caller
    ensures Inv(cfg, Step(cfg, s, e), c)
  {
    var s' := Step(cfg, s, e);
    assert SameRows(s.tables, s'.tables, c) by { OtherRows(cfg, s, e, c); }
    assert HistoryOf(s', c) == HistoryOf(s, c);
  }

  lemma OtherRows(cfg: Config, s: Sys, e: Event, c: Caller)
    requires Enabled(s, e) && c != e.caller
    ensures SameRows(s.tables, Step(cfg, s, e).tables, c)
  {
  }

  lemma StepKeepsInv(cfg: Config, s: Sys, e: Event, c: Caller)
    requires Enabled(s, e) && Inv(cfg, s, c)
    ensures Inv(cfg, Step(cfg, s, e), c)
  {
    if e.caller != c { OthersKeepInv(cfg, s, e, c); }
    else if e.Attempt? { AttemptKeepsInv(cfg, s, e); }
    else if e.WriteAudit? { WriteKeepsInv(cfg, s, e); }
    else if e.Cancel? { CancelKeepsInv(cfg, s, e); }
    else { CompletionKeepsInv(cfg, s, e); }
  }

  lemma StartInv(w: World, c: Caller)
    ensures Inv(w.cfg, State(w, []), c)
  {
    KeepsNothing(w.cfg, c, w.clock);
  }

  lemma KeepsNothing(cfg: Config, c: Caller, clock: real)
    ensures InvAt(cfg, Tables(map[], map[], map[], map[]), NO_HISTORY, c, clock)
  {
  }

  lemma LastStepKeepsInv(w: World, run: seq<Event>, c: Caller)
    requires run != [] && Valid(w, run) && Inv(w.cfg, State(w, Earlier(run)), c)
    ensures Inv(w.cfg, State(w, run), c)
  {
    StepKeepsInv(w.cfg, State(w, Earlier(run)), Last(run), c);
  }

  lemma {:induction false} RunKeepsInv(w: World, run: seq<Event>, c: Caller)
    requires Valid(w, run)
    ensures Inv(w.cfg, State(w, run), c)
    decreases |run|
  {
    if run == [] {
      StartInv(w, c);
    } else {
      RunKeepsInv(w, Earlier(run), c);
      LastStepKeepsInv(w, run, c);
    }
  }
}
