/** Whole days of calls: bursts on a grid of instants a little over a second apart, most of them
    paid at once, the last ones only when the day's limit no longer matters. */
module GovernanceDays {
  import opened GovernanceGates
  import opened GovernanceRuns
  import opened GovernanceCalendar
  import opened GovernanceCaps
  import opened GovernanceBursts

  // ----- Amounts -----

  /** What was charged in between, all on day `d`. */
  ghost predicate Spends(before: seq<Cost>, after: seq<Cost>, d: Day, amount: real) {
    && SpentOn(after, d) == SpentOn(before, d) + amount
    && SpentIn(after, d.year, d.month) == SpentIn(before, d.year, d.month) + amount
  }

  lemma {:induction false} CopiesSpend(charges: seq<Cost>, d: Day, cost: real, k: nat)
    ensures Spends(charges, charges + Copies(k, Cost(d, cost)), d, Repeated(cost, k))
  {
    if k == 0 {
      assert charges + [] == charges;
    } else {
      CopiesSpend(charges, d, cost, k - 1);
      SpentMore(charges + Copies(k - 1, Cost(d, cost)), Cost(d, cost), d);
      assert charges + Copies(k, Cost(d, cost)) == charges + Copies(k - 1, Cost(d, cost)) + [Cost(d, cost)];
    }
  }

  lemma {:induction false} RepeatedAdds(amount: real, j: nat, k: nat)
    ensures Repeated(amount, j + k) == Repeated(amount, j) + Repeated(amount, k)
  {
    if k != 0 { RepeatedAdds(amount, j, k - 1); }
  }

  // ----- The grid -----

  datatype Grid = Grid(start: real, gap: real)

  /** The instant of the j-th burst. */
  function At(g: Grid, j: nat): real { if j == 0 then g.start else At(g, j - 1) + g.gap }

  lemma {:induction false} AtMonotone(g: Grid, i: nat, j: nat)
    requires i <= j && 0.0 < g.gap
    ensures At(g, i) <= At(g, j)
    decreases j
  {
    if i < j { AtMonotone(g, i, j - 1); }
  }

  /** The calls of `n` bursts of `q`. */
  function Calls(q: nat, n: nat): nat { if n == 0 then 0 else Calls(q, n - 1) + q }

  lemma {:induction false} CallsAre(q: nat, n: nat)
    ensures Calls(q, n) == q * n
  {
    if n != 0 { CallsAre(q, n - 1); }
  }

  predicate Dated(l: Load, g: Grid, j: nat, d: Day) { DateAt(l.cal, At(g, j)) == d }

  ghost predicate DatesAre(l: Load, g: Grid, i: nat, j: nat, d: Day) {
    forall k :: i <= k < j ==> Dated(l, g, k, d)
  }

  predicate Room(l: Load, charges: seq<Cost>, g: Grid, j: nat) {
    HasRoom(l.w.cfg, charges, DateAt(l.cal, At(g, j)))
  }

  /** There is room on the dates of these bursts. */
  ghost predicate RoomOn(l: Load, charges: seq<Cost>, g: Grid, i: nat, j: nat) {
    forall k :: i <= k < j ==> Room(l, charges, g, k)
  }

  /** The caller's next burst can be the j-th. */
  ghost predicate Ready(l: Load, s: Sys, g: Grid, j: nat) {
    s.clock <= At(g, j) && Rested(HistoryOf(s, l.c).tokens, At(g, j)) && 1.0 < g.gap
  }

  /** One burst, all of whose calls stay running; at `due` they can still be running. */
  lemma AdmitBurst(l: Load, states: Sys -> bool, s: Sys, first: nat, charges: seq<Cost>, g: Grid, j: nat, due: real)
      returns (s': Sys)
    requires ClosedUnder(l, states) && states(s) && Running(HistoryOf(s, l.c), first, charges) && Ready(l, s, g, j)
    requires HasRoom(l.w.cfg, charges, DateAt(l.cal, At(g, j))) && 0 < Qps(l.w.cfg, l.c)
    requires Young(l, HistoryOf(s, l.c), first, due) && At(g, j) <= due <= At(g, j) + l.length
    ensures states(s') && Running(HistoryOf(s', l.c), first, charges) && Ready(l, s', g, j + 1)
    ensures s'.clock == At(g, j) && Young(l, HistoryOf(s', l.c), first, due)
    ensures More(HistoryOf(s, l.c).tokens, HistoryOf(s', l.c).tokens, Rate(l), At(g, j))
  {
    s' := AdmitMany(l, states, s, first, charges, At(g, j), Qps(l.w.cfg, l.c));
    RestedAgain(HistoryOf(s, l.c).tokens, At(g, j), Qps(l.w.cfg, l.c), At(g, j + 1));
  }

  lemma RestedAgain(tokens: seq<real>, now: real, k: nat, later: real)
    requires Rested(tokens, now) && now + 1.0 < later
    ensures Rested(tokens + seq(k, _ => now), later)
  {
  }

  /** Bursts, all of whose calls stay running. */
  lemma {:induction false} AdmitBursts(l: Load, states: Sys -> bool, s: Sys, first: nat, charges: seq<Cost>, g: Grid,
                                       j: nat, n: nat, due: real)
      returns (s': Sys)
    requires ClosedUnder(l, states) && states(s) && Running(HistoryOf(s, l.c), first, charges) && Ready(l, s, g, j)
    requires RoomOn(l, charges, g, j, j + n) && 0 < Qps(l.w.cfg, l.c)
    requires Young(l, HistoryOf(s, l.c), first, due)
    requires due <= At(g, j) + l.length && (0 < n ==> At(g, j + n - 1) <= due)
    ensures states(s') && Running(HistoryOf(s', l.c), first, charges) && Ready(l, s', g, j + n)
    ensures Young(l, HistoryOf(s', l.c), first, due)
    ensures More(HistoryOf(s, l.c).tokens, HistoryOf(s', l.c).tokens, Calls(Rate(l), n), At(g, j))
    ensures if n == 0 then s' == s else s'.clock == At(g, j + n - 1)
    decreases n
  {
    s' := s;
    if n != 0 {
      AtMonotone(g, j, j + n - 1);
      if 1 < n { AtMonotone(g, j + n - 2, j + n - 1); }
      s' := AdmitBursts(l, states, s, first, charges, g, j, n - 1, due);
      var before := HistoryOf(s', l.c).tokens;
      assert Room(l, charges, g, j + n - 1);
      s' := AdmitBurst(l, states, s', first, charges, g, j + n - 1, due);
      MoreAndMore(HistoryOf(s, l.c).tokens, before, HistoryOf(s', l.c).tokens, Calls(Rate(l), n - 1), Rate(l),
                  At(g, j), At(g, j + n - 1));
    }
  }

  /** `b` adds `k` tokens to `a`, the first of them at this instant. */
  ghost predicate More(a: seq<real>, b: seq<real>, k: nat, at: real) {
    a <= b && |b| == |a| + k && (0 < k ==> b[|a|] == at)
  }

  lemma MoreAndMore(a: seq<real>, b: seq<real>, c: seq<real>, j: nat, k: nat, at: real, later: real)
    requires More(a, b, j, at) && More(b, c, k, later) && (j == 0 ==> later == at)
    ensures More(a, c, j + k, at)
  {
  }

  // ----- Bursts paid at once -----

  /** All running calls succeed at this instant. */
  lemma PayAll(l: Load, states: Sys -> bool, s: Sys, first: nat, charges: seq<Cost>, cost: real, now: real, d: Day,
               k: nat)
      returns (s': Sys, paid: seq<Cost>)
    requires ClosedUnder(l, states) && states(s) && s.clock <= now && 0.0 <= cost <= l.each
    requires Running(HistoryOf(s, l.c), first, charges) && Young(l, HistoryOf(s, l.c), first, now)
    requires first + k <= |HistoryOf(s, l.c).tokens| && DateAt(l.cal, now) == d
    ensures states(s') && Running(HistoryOf(s', l.c), first + k, paid) && (if k == 0 then s' == s else s'.clock == now)
    ensures HistoryOf(s', l.c).tokens == HistoryOf(s, l.c).tokens && Spends(charges, paid, d, Repeated(cost, k))
  {
    s' := SucceedMany(l, states, s, first, charges, cost, now, k);
    paid := charges + Copies(k, Cost(d, cost));
    CopiesSpend(charges, d, cost, k);
  }

  /** Nothing of the caller's is running. */
  ghost predicate Idle(l: Load, s: Sys, charges: seq<Cost>) {
    Running(HistoryOf(s, l.c), |HistoryOf(s, l.c).tokens|, charges)
  }

  lemma SpendsAdd(a: seq<Cost>, b: seq<Cost>, c: seq<Cost>, d: Day, x: real, y: real)
    requires Spends(a, b, d, x) && Spends(b, c, d, y)
    ensures Spends(a, c, d, x + y)
  {
  }

  /** The day and its month have room for this amount, and more. */
  predicate Fits(cfg: Config, charges: seq<Cost>, d: Day, amount: real) {
    && SpentOn(charges, d) + amount < cfg.dailyLimit
    && SpentIn(charges, d.year, d.month) + amount < cfg.monthlyLimit
  }

  lemma PaidBurst(l: Load, states: Sys -> bool, s: Sys, charges: seq<Cost>, g: Grid, j: nat, cost: real, d: Day)
      returns (s': Sys, paid: seq<Cost>)
    requires ClosedUnder(l, states) && states(s) && Idle(l, s, charges) && Ready(l, s, g, j)
    requires HasRoom(l.w.cfg, charges, d) && DateAt(l.cal, At(g, j)) == d
    requires 0 < Qps(l.w.cfg, l.c) && 0.0 <= cost <= l.each && 0.0 <= l.length
    ensures states(s') && Idle(l, s', paid) && Ready(l, s', g, j + 1) && s'.clock == At(g, j)
    ensures Spends(charges, paid, d, Repeated(cost, Qps(l.w.cfg, l.c)))
  {
    var first := |HistoryOf(s, l.c).tokens|;
    s' := AdmitBurst(l, states, s, first, charges, g, j, At(g, j));
    s', paid := PayAll(l, states, s', first, charges, cost, At(g, j), d, Qps(l.w.cfg, l.c));
  }

  /** Bursts paid at once, as long as there is room for all of them. */
  lemma {:induction false} PaidBursts(l: Load, states: Sys -> bool, s: Sys, charges: seq<Cost>, g: Grid, j: nat, n: nat,
                                      cost: real, d: Day)
      returns (s': Sys, paid: seq<Cost>)
    requires ClosedUnder(l, states) && states(s) && Idle(l, s, charges) && Ready(l, s, g, j)
    requires DatesAre(l, g, j, j + n, d) && Fits(l.w.cfg, charges, d, Repeated(cost, Calls(Rate(l), n)))
    requires 0 < Qps(l.w.cfg, l.c) && 0.0 <= cost <= l.each && 0.0 <= l.length
    ensures states(s') && Idle(l, s', paid) && Ready(l, s', g, j + n)
    ensures if n == 0 then s' == s else s'.clock == At(g, j + n - 1)
    ensures Spends(charges, paid, d, Repeated(cost, Calls(Rate(l), n)))
    decreases n
  {
    s', paid := s, charges;
    if n != 0 {
      var q := Rate(l);
      RepeatedMonotone(cost, Calls(q, n - 1), Calls(q, n));
      var before;
      assert Dated(l, g, j + n - 1, d);
      s', before := PaidBursts(l, states, s, charges, g, j, n - 1, cost, d);
      s', paid := PaidBurst(l, states, s', before, g, j + n - 1, cost, d);
      RepeatedAdds(cost, Calls(q, n - 1), q);
      SpendsAdd(charges, before, paid, d, Repeated(cost, Calls(q, n - 1)), Repeated(cost, q));
    }
  }

  // ----- Days -----

  lemma RoomThroughout(l: Load, charges: seq<Cost>, g: Grid, i: nat, j: nat, d: Day)
    requires DatesAre(l, g, i, j, d) && HasRoom(l.w.cfg, charges, d)
    ensures RoomOn(l, charges, g, i, j)
  {
    forall k | i <= k < j ensures Room(l, charges, g, k) { assert Dated(l, g, k, d); }
  }

  /** Bursts that run together and are paid when the last of them is admitted. */
  lemma LastBursts(l: Load, states: Sys -> bool, s: Sys, first: nat, charges: seq<Cost>, g: Grid, j: nat, n: nat,
                   k: nat, cost: real, d: Day)
      returns (s': Sys, paid: seq<Cost>)
    requires ClosedUnder(l, states) && states(s) && Running(HistoryOf(s, l.c), first, charges) && Ready(l, s, g, j)
    requires 0 < n && DatesAre(l, g, j, j + n, d) && HasRoom(l.w.cfg, charges, d)
    requires 0 < Qps(l.w.cfg, l.c) && 0.0 <= cost <= l.each
    requires Young(l, HistoryOf(s, l.c), first, At(g, j + n - 1)) && At(g, j + n - 1) <= At(g, j) + l.length
    requires first + k == |HistoryOf(s, l.c).tokens| + Calls(Rate(l), n)
    ensures states(s') && Idle(l, s', paid) && Ready(l, s', g, j + n) && s'.clock == At(g, j + n - 1)
    ensures Spends(charges, paid, d, Repeated(cost, k))
  {
    var due := At(g, j + n - 1);
    RoomThroughout(l, charges, g, j, j + n, d);
    s' := AdmitBursts(l, states, s, first, charges, g, j, n, due);
    assert Dated(l, g, j + n - 1, d);
    s', paid := PayAll(l, states, s', first, charges, cost, due, d, k);
  }

  /** A day that begins with nothing running: bursts paid at once, then bursts that run together. */
  lemma PlainDay(l: Load, states: Sys -> bool, s: Sys, charges: seq<Cost>, g: Grid, j: nat, n1: nat, n2: nat, d: Day,
                 x: real, y: real)
      returns (s': Sys, paid: seq<Cost>)
    requires ClosedUnder(l, states) && states(s) && Idle(l, s, charges) && Ready(l, s, g, j)
    requires 0 < n2 && DatesAre(l, g, j, j + n1 + n2, d) && 0.0 <= l.length
    requires Fits(l.w.cfg, charges, d, Repeated(x, Calls(Rate(l), n1)))
    requires 0 < Qps(l.w.cfg, l.c) && 0.0 <= x <= l.each && 0.0 <= y <= l.each
    requires At(g, j + n1 + n2 - 1) <= At(g, j + n1) + l.length
    ensures states(s') && Idle(l, s', paid) && Ready(l, s', g, j + n1 + n2) && s'.clock == At(g, j + n1 + n2 - 1)
    ensures Spends(charges, paid, d, Repeated(x, Calls(Rate(l), n1)) + Repeated(y, Calls(Rate(l), n2)))
  {
    var mid;
    DatesWithin(l, g, j, j + n1 + n2, d, j, j + n1);
    DatesWithin(l, g, j, j + n1 + n2, d, j + n1, j + n1 + n2);
    s', mid := PaidBursts(l, states, s, charges, g, j, n1, x, d);
    s', paid := LastBursts(l, states, s', |HistoryOf(s', l.c).tokens|, mid, g, j + n1, n2, Calls(Rate(l), n2), y, d);
    SpendsAdd(charges, mid, paid, d, Repeated(x, Calls(Rate(l), n1)), Repeated(y, Calls(Rate(l), n2)));
  }

  lemma DatesWithin(l: Load, g: Grid, i: nat, j: nat, d: Day, a: nat, b: nat)
    requires DatesAre(l, g, i, j, d) && i <= a && b <= j
    ensures DatesAre(l, g, a, b, d)
  {
    forall k | a <= k < b ensures Dated(l, g, k, d) {}
  }

  /** A first day to which the calls of `n2` bursts are left over: they begin before `dawn`. */
  ghost predicate LateStart(l: Load, s: Sys, g: Grid, dawn: real, n1: nat, n2: nat, d: Day) {
    && Running(HistoryOf(s, l.c), 0, []) && HistoryOf(s, l.c).tokens == [] && Ready(l, s, g, 0)
    && 0 < n1 && 0 < n2 && At(g, n2 - 1) <= dawn <= At(g, n2) && dawn <= At(g, 0) + l.length
    && DateAt(l.cal, dawn) == d && DatesAre(l, g, n2, n1 + n2, d) && At(g, n1 + n2 - 1) <= At(g, n1) + l.length
    && CanSpend(l) && 0.0 <= l.length
  }

  lemma RoomAtFirst(l: Load, g: Grid, i: nat, j: nat)
    requires CanSpend(l)
    ensures RoomOn(l, [], g, i, j)
  {
    forall k | i <= k < j ensures Room(l, [], g, k) {}
  }

  /** The bursts left over are all paid for at dawn. */
  lemma FirstDayShort(l: Load, states: Sys -> bool, s: Sys, g: Grid, dawn: real, n1: nat, n2: nat, d: Day, x: real,
                      y: real)
      returns (s': Sys, paid: seq<Cost>)
    requires ClosedUnder(l, states) && states(s) && LateStart(l, s, g, dawn, n1, n2, d) && n2 <= n1
    requires 0.0 <= x <= l.each && 0.0 <= y <= l.each && Fits(l.w.cfg, [], d, Repeated(x, Calls(Rate(l), n1)))
    ensures states(s') && Idle(l, s', paid) && Ready(l, s', g, n1 + n2) && s'.clock == At(g, n1 + n2 - 1)
    ensures Spends([], paid, d, Repeated(x, Calls(Rate(l), n1)) + Repeated(y, Calls(Rate(l), n2)))
  {
    var q := Rate(l);
    var mid;
    RoomAtFirst(l, g, 0, n2);
    s' := AdmitBursts(l, states, s, 0, [], g, 0, n2, dawn);
    s', mid := PayAll(l, states, s', 0, [], x, dawn, d, Calls(q, n2));
    CallsAdd(q, n2, n1 - n2);
    RepeatedAdds(x, Calls(q, n2), Calls(q, n1 - n2));
    s', paid := PlainDay(l, states, s', mid, g, n2, n1 - n2, n2, d, x, y);
    SpendsAdd([], mid, paid, d, Repeated(x, Calls(q, n2)),
              Repeated(x, Calls(q, n1 - n2)) + Repeated(y, Calls(q, n2)));
  }

  lemma {:induction false} CallsAdd(q: nat, j: nat, k: nat)
    ensures Calls(q, j + k) == Calls(q, j) + Calls(q, k)
  {
    if k != 0 { CallsAdd(q, j, k - 1); }
  }

  /** Calls last longer than a day: only the oldest are paid for at dawn. */
  lemma FirstDayLong(l: Load, states: Sys -> bool, s: Sys, g: Grid, dawn: real, n1: nat, n2: nat, d: Day, x: real,
                     y: real)
      returns (s': Sys, paid: seq<Cost>)
    requires ClosedUnder(l, states) && states(s) && LateStart(l, s, g, dawn, n1, n2, d) && n1 < n2
    requires 0.0 <= x <= l.each && 0.0 <= y <= l.each && Fits(l.w.cfg, [], d, Repeated(x, Calls(Rate(l), n1)))
    ensures states(s') && Idle(l, s', paid) && Ready(l, s', g, n1 + n2) && s'.clock == At(g, n1 + n2 - 1)
    ensures Spends([], paid, d, Repeated(x, Calls(Rate(l), n1)) + Repeated(y, Calls(Rate(l), n2)))
  {
    var q := Rate(l);
    var mid;
    AtMonotone(g, 0, n1);
    AtMonotone(g, n1 - 1, n2 - 1);
    AtMonotone(g, n1, n2);
    RoomAtFirst(l, g, 0, n1);
    RoomAtFirst(l, g, n1, n2);
    s' := AdmitBursts(l, states, s, 0, [], g, 0, n1, dawn);
    s' := AdmitBursts(l, states, s', 0, [], g, n1, n2 - n1, dawn);
    CallsAdd(q, n1, n2 - n1);
    CallsAdd(q, n1, n2);
    s', mid := PayAll(l, states, s', 0, [], x, dawn, d, Calls(q, n1));
    s', paid := LastBursts(l, states, s', Calls(q, n1), mid, g, n2, n1, Calls(q, n2), y, d);
    SpendsAdd([], mid, paid, d, Repeated(x, Calls(q, n1)), Repeated(y, Calls(q, n2)));
  }

  lemma DayAfterLateStart(l: Load, states: Sys -> bool, s: Sys, g: Grid, dawn: real, n1: nat, n2: nat, d: Day, x: real,
                  y: real)
      returns (s': Sys, paid: seq<Cost>)
    requires ClosedUnder(l, states) && states(s) && LateStart(l, s, g, dawn, n1, n2, d)
    requires 0.0 <= x <= l.each && 0.0 <= y <= l.each && Fits(l.w.cfg, [], d, Repeated(x, Calls(Rate(l), n1)))
    ensures states(s') && Idle(l, s', paid) && Ready(l, s', g, n1 + n2) && s'.clock == At(g, n1 + n2 - 1)
    ensures Spends([], paid, d, Repeated(x, Calls(Rate(l), n1)) + Repeated(y, Calls(Rate(l), n2)))
  {
    if n2 <= n1 { s', paid := FirstDayShort(l, states, s, g, dawn, n1, n2, d, x, y); }
    else { s', paid := FirstDayLong(l, states, s, g, dawn, n1, n2, d, x, y); }
  }
}
