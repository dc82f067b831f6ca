/** The UTC calendar, and runs whose dates follow the clock. */
module GovernanceCalendar {
  import opened GovernanceGates
  import opened GovernanceRuns

  predicate Leap(year: int) { year % 4 == 0 && (year % 100 != 0 || year % 400 == 0) }

  function DaysIn(year: int, month: int): int {
    if month == 2 then if Leap(year) then 29 else 28
    else if month in {4, 6, 9, 11} then 30
    else 31
  }

  function Next(d: Day): Day {
    if d.day < DaysIn(d.year, d.month) then Date(d.year, d.month, d.day + 1)
    else if d.month < 12 then Date(d.year, d.month + 1, 1)
    else Date(d.year + 1, 1, 1)
  }

  /** The k-th day after `d`. */
  function Nth(d: Day, k: nat): Day { if k == 0 then d else Next(Nth(d, k - 1)) }

  /** Seconds in a day. */
  const DAY := 86400

  /** A first date and the reading of the monotonic clock at which it began. */
  datatype Calendar = Calendar(first: Day, dawn: real)

  /** The clock reading at which the k-th day begins. */
  function Dawn(cal: Calendar, k: nat): real { cal.dawn + (DAY * k) as real }

  function IndexAt(cal: Calendar, t: real): nat {
    if t < cal.dawn then 0 else ((t - cal.dawn) / DAY as real).Floor
  }

  function DateAt(cal: Calendar, t: real): Day { Nth(cal.first, IndexAt(cal, t)) }

  lemma IndexIs(cal: Calendar, t: real, k: nat)
    ensures cal.dawn <= t ==> (IndexAt(cal, t) == k <==> Dawn(cal, k) <= t < Dawn(cal, k + 1))
  {
    if cal.dawn <= t {
      var q := (t - cal.dawn) / DAY as real;
      assert q * DAY as real == t - cal.dawn;
      assert (DAY * k) as real == DAY as real * k as real;
      assert (DAY * (k + 1)) as real == DAY as real * k as real + DAY as real;
    }
  }

  lemma IndexMonotone(cal: Calendar, t: real, u: real)
    requires t <= u
    ensures IndexAt(cal, t) <= IndexAt(cal, u)
  {
    if cal.dawn <= t { assert (t - cal.dawn) / DAY as real <= (u - cal.dawn) / DAY as real; }
  }

  lemma {:induction false} LaterIsLater(d: Day, i: nat, j: nat)
    requires i <= j
    ensures Ordinal(Nth(d, i)) + (j - i) <= Ordinal(Nth(d, j))
    decreases j
  {
    if i < j { LaterIsLater(d, i, j - 1); }
  }

  // ----- The turn of the year -----

  /** Some later day is a first of January. */
  lemma {:induction false} ToJanuary(d: Day, k: nat) returns (n: nat)
    ensures k < n && Nth(d, n).month == 1 && Nth(d, n).day == 1
    decreases 12 - Nth(d, k).month, 31 - Nth(d, k).day
  {
    var next := Nth(d, k + 1);
    assert next == Next(Nth(d, k));
    if next.month == 1 && next.day == 1 { n := k + 1; } else { n := ToJanuary(d, k + 1); }
  }

  lemma {:induction false} January(d: Day, n: nat, i: nat)
    requires Nth(d, n).month == 1 && Nth(d, n).day == 1 && i < 31
    ensures Nth(d, n + i) == Date(Nth(d, n).year, 1, i + 1)
  {
    if 0 < i { January(d, n, i - 1); }
  }

  // ----- Runs on the calendar -----

  /** The date read in a step, if any, is the date of the clock at that step. */
  ghost predicate DatedRight(cal: Calendar, e: Event) {
    match e
    case Attempt(_, today, rateNow, _) => today == DateAt(cal, rateNow)
    case Succeed(_, _, _, today, now) => today == DateAt(cal, now)
    case _ => true
  }

  /** The run starts on the calendar and its dates follow the clock. */
  ghost predicate OnCalendar(cal: Calendar, w: World, run: seq<Event>) {
    && cal.dawn <= w.clock && w.today == DateAt(cal, w.clock)
    && forall k :: 0 <= k < |run| ==> DatedRight(cal, run[k])
  }

  /** The instant at which a step reads the date. */
  function DateRead(e: Event): real
    requires e.Attempt? || e.Succeed?
  {
    if e.Attempt? then e.rateNow else e.now
  }

  /** The number of the day on which the date was last read. */
  ghost function DayNumber(cal: Calendar, w: World, run: seq<Event>): nat {
    if run == [] then IndexAt(cal, w.clock)
    else
      var e := run[|run| - 1];
      if e.Attempt? || e.Succeed? then IndexAt(cal, DateRead(e)) else DayNumber(cal, w, run[..|run| - 1])
  }

  lemma {:induction false} DayNumberIs(cal: Calendar, w: World, run: seq<Event>)
    requires Valid(w, run) && OnCalendar(cal, w, run)
    ensures cal.dawn <= State(w, run).clock && State(w, run).today == Nth(cal.first, DayNumber(cal, w, run))
    ensures DayNumber(cal, w, run) <= IndexAt(cal, State(w, run).clock)
    decreases |run|
  {
    if run != [] {
      var s, e := State(w, Earlier(run)), Last(run);
      DayNumberIs(cal, w, Earlier(run));
      StepCharges(w.cfg, s, e, e.caller);
      assert DatedRight(cal, e);
      if e.Attempt? || e.Succeed? {
        StepEnds(w.cfg, s, e);
        IndexMonotone(cal, DateRead(e), State(w, run).clock);
      } else {
        IndexMonotone(cal, s.clock, State(w, run).clock);
      }
    }
  }

  lemma StepEnds(cfg: Config, s: Sys, e: Event)
    requires Enabled(s, e) && (e.Attempt? || e.Succeed?)
    ensures s.clock <= DateRead(e) <= Step(cfg, s, e).clock
  {
  }
}
