/** Runs of the ledger: producers, the writer, failures, stops and restarts in any interleaving. */
module LedgerRuns {
  import opened Ledger

  /** The end of one flush. */
  datatype BatchEnd = BatchEnd(size: nat, attempts: nat, committed: bool)

  /** `core` with its history: every record submitted; for each record that has left the queue, in
      order, whether the writer took it (or it was dropped); everything flushed, in order; the
      flushes that ended, and the commit attempts made on the batch being flushed. */
  datatype Sys<R> = Sys(
    core: Core<R>, submitted: seq<R>, taken: seq<bool>, out: seq<Flushed<R>>, ends: seq<BatchEnd>, tries: nat)

  function Dropped<R>(cfg: Config, c: Core<R>, e: Event<R>): bool {
    e.Submit? && |c.queue| >= cfg.queueMax && c.queue != []
  }

  function Step<R>(cfg: Config, s: Sys<R>, e: Event<R>): Sys<R>
    requires Enabled(s.core, e)
  {
    var c := s.core;
    var ended := e.Commit? && Turn(cfg, c, e).phase.Flushing? == false;
    Sys(Turn(cfg, c, e),
        s.submitted + (if e.Submit? then [e.record] else []),
        s.taken + (if Dropped(cfg, c, e) then [false] else [])
                + (if e.Receive? then seq(Taken(cfg, c), _ => true) else []),
        s.out + Emitted(c, e),
        s.ends + (if ended then [BatchEnd(|c.batch|, s.tries + 1, e.ok)] else []),
        if ended then 0 else if e.Commit? then s.tries + 1 else s.tries)
  }

  ghost predicate Valid<R>(cfg: Config, run: seq<Event<R>>)
    decreases |run|, 0
  {
    run == [] || (Valid(cfg, run[..|run| - 1]) && Enabled(State(cfg, run[..|run| - 1]).core, run[|run| - 1]))
  }

  ghost function State<R>(cfg: Config, run: seq<Event<R>>): Sys<R>
    requires Valid(cfg, run)
    decreases |run|, 1
  {
    if run == [] then Sys(Core([], [], Stopped), [], [], [], [], 0)
    else Step(cfg, State(cfg, run[..|run| - 1]), run[|run| - 1])
  }

  // ----- Histories -----

  function Records<R>(out: seq<Flushed<R>>): seq<R> {
    seq(|out|, i requires 0 <= i < |out| => out[i].record)
  }

  /** The elements whose mark is `want`, in order. */
  function Pick<R>(s: seq<R>, marks: seq<bool>, want: bool): seq<R>
    requires |s| == |marks|
    decreases |s|
  {
    if s == [] then []
    else Pick(s[..|s| - 1], marks[..|s| - 1], want) + (if marks[|s| - 1] == want then [s[|s| - 1]] else [])
  }

  lemma {:induction false} PickAppend<R>(s: seq<R>, marks: seq<bool>, more: seq<R>, mark: bool, want: bool)
    requires |s| == |marks|
    ensures Pick(s + more, marks + seq(|more|, _ => mark), want)
         == Pick(s, marks, want) + (if mark == want then more else [])
    decreases |more|
  {
    if more == [] {
      assert s + more == s && marks + seq(|more|, _ => mark) == marks;
    } else {
      var n := |more| - 1;
      PickAppend(s, marks, more[..n], mark, want);
      assert (s + more)[..|s| + n] == s + more[..n];
      assert (marks + seq(|more|, _ => mark))[..|s| + n] == marks + seq(n, _ => mark);
      assert more == more[..n] + [more[n]];
    }
  }

  lemma {:induction false} PickPartition<R>(s: seq<R>, marks: seq<bool>)
    requires |s| == |marks|
    ensures multiset(s) == multiset(Pick(s, marks, true)) + multiset(Pick(s, marks, false))
    decreases |s|
  {
    if s != [] {
      var n := |s| - 1;
      PickPartition(s[..n], marks[..n]);
      PickLast(s, marks, true);
      PickLast(s, marks, false);
      LastJoins(s);
    }
  }

  lemma PickLast<R>(s: seq<R>, marks: seq<bool>, want: bool)
    requires |s| == |marks| && s != []
    ensures multiset(Pick(s, marks, want))
         == multiset(Pick(s[..|s| - 1], marks[..|s| - 1], want))
            + (if marks[|s| - 1] == want then multiset{s[|s| - 1]} else multiset{})
  {
  }

  lemma LastJoins<R>(s: seq<R>)
    requires s != []
    ensures multiset(s) == multiset(s[..|s| - 1]) + multiset{s[|s| - 1]}
  {
    assert s == s[..|s| - 1] + [s[|s| - 1]];
  }

  /** `a` is obtained from `b` by leaving elements out: `at` says where each one is found. */
  ghost predicate Subsequence<R>(a: seq<R>, b: seq<R>, at: seq<nat>) {
    && |at| == |a|
    && (forall i :: 0 <= i < |at| ==> at[i] < |b| && b[at[i]] == a[i])
    && (forall i, j :: 0 <= i < j < |at| ==> at[i] < at[j])
  }

  lemma {:induction false} PickIsSubsequence<R>(s: seq<R>, marks: seq<bool>, want: bool) returns (at: seq<nat>)
    requires |s| == |marks|
    ensures Subsequence(Pick(s, marks, want), s, at)
    decreases |s|
  {
    at := [];
    if s != [] {
      var n := |s| - 1;
      at := PickIsSubsequence(s[..n], marks[..n], want);
      SubsequenceGrows(Pick(s[..n], marks[..n], want), s[..n], at, s[n]);
      assert s[..n] + [s[n]] == s;
      if marks[n] == want { at := at + [n]; } else { assert Pick(s, marks, want) == Pick(s[..n], marks[..n], want); }
    }
  }

  lemma SubsequenceGrows<R>(a: seq<R>, b: seq<R>, at: seq<nat>, x: R)
    requires Subsequence(a, b, at)
    ensures Subsequence(a, b + [x], at) && Subsequence(a + [x], b + [x], at + [|b|])
  {
  }

  lemma {:induction false} PickEverything<R>(s: seq<R>, marks: seq<bool>)
    requires |s| == |marks| && false !in marks
    ensures Pick(s, marks, true) == s
    decreases |s|
  {
    if s != [] {
      var n := |s| - 1;
      assert marks[n] in marks && false !in marks[..n];
      PickEverything(s[..n], marks[..n]);
      assert s == s[..n] + [s[n]];
    }
  }

  // ----- The invariant -----

  /** The queue is the last part of the submissions; what left it before was dropped, or is in the
      output followed by the batch. */
  ghost predicate FlowInv<R>(s: Sys<R>) {
    && |s.taken| + |s.core.queue| == |s.submitted|
    && s.core.queue == s.submitted[|s.taken|..]
    && Pick(s.submitted[..|s.taken|], s.taken, true) == Records(s.out) + s.core.batch
  }

  /** The records dropped so far. */
  function DroppedRecords<R>(s: Sys<R>): seq<R>
    requires |s.taken| <= |s.submitted|
  {
    Pick(s.submitted[..|s.taken|], s.taken, false)
  }

  ghost predicate WriterInv<R>(cfg: Config, c: Core<R>, tries: nat) {
    && |c.queue| <= cfg.queueMax
    && (c.phase == Stopped ==> c.batch == [])
    && (c.phase == Waiting ==> |c.batch| < cfg.batchSize)
    && (c.phase.Flushing? ==> 0 < |c.batch| <= cfg.batchSize)
    && (c.phase.Flushing? ==> 1 <= c.phase.attempt <= MAX_RETRIES && tries + 1 == c.phase.attempt)
    && (!c.phase.Flushing? ==> tries == 0)
  }

  ghost predicate EndsInv<R>(cfg: Config, s: Sys<R>) {
    forall k :: 0 <= k < |s.ends| ==>
      && 1 <= s.ends[k].attempts <= MAX_RETRIES && 0 < s.ends[k].size <= cfg.batchSize
      && (!s.ends[k].committed ==> s.ends[k].attempts == MAX_RETRIES)
  }

  ghost predicate Inv<R>(cfg: Config, s: Sys<R>) {
    FlowInv(s) && WriterInv(cfg, s.core, s.tries) && EndsInv(cfg, s)
  }

  /** The flow of records when the queue's first `k` entries leave with the same mark and `more`
      arrive: taken ones join the batch, dropped ones are gone. */
  lemma QueueMoves<R>(s: Sys<R>, s': Sys<R>, k: nat, mark: bool, more: seq<R>)
    requires FlowInv(s) && k <= |s.core.queue| && s'.out == s.out
    requires s'.submitted == s.submitted + more && s'.taken == s.taken + seq(k, _ => mark)
    requires s'.core.queue == s.core.queue[k..] + more
    requires s'.core.batch == s.core.batch + (if mark then s.core.queue[..k] else [])
    ensures FlowInv(s') && DroppedRecords(s') == DroppedRecords(s) + (if mark then [] else s.core.queue[..k])
  {
    var n := |s.taken|;
    var left := s.core.queue[..k];
    PickAppend(s.submitted[..n], s.taken, left, mark, true);
    PickAppend(s.submitted[..n], s.taken, left, mark, false);
    assert s'.submitted[..n + k] == s.submitted[..n] + left;
    assert seq(|left|, _ => mark) == seq(k, _ => mark);
    assert s'.core.queue == s'.submitted[n + k..];
  }

  lemma SubmitFlow<R>(cfg: Config, s: Sys<R>, r: R)
    requires FlowInv(s) && |s.core.queue| <= cfg.queueMax
    ensures FlowInv(Step(cfg, s, Submit(r)))
    ensures DroppedRecords(Step(cfg, s, Submit(r)))
         == DroppedRecords(s) + (if |s.core.queue| == cfg.queueMax then [s.core.queue[0]] else [])
  {
    var s' := Step(cfg, s, Submit(r));
    var k := if |s.core.queue| == cfg.queueMax then 1 else 0;
    assert s'.taken == s.taken + seq(k, _ => false);
    assert s'.core.queue == s.core.queue[k..] + [r];
    QueueMoves(s, s', k, false, [r]);
    assert k == 1 ==> s.core.queue[..k] == [s.core.queue[0]];
  }

  lemma ReceiveFlow<R>(cfg: Config, s: Sys<R>)
    requires FlowInv(s) && Enabled(s.core, Receive)
    ensures FlowInv(Step(cfg, s, Receive)) && DroppedRecords(Step(cfg, s, Receive)) == DroppedRecords(s)
  {
    var s', k := Step(cfg, s, Receive), Taken(cfg, s.core);
    assert s'.core.queue == s.core.queue[k..] + [];
    QueueMoves(s, s', k, true, []);
  }

  lemma OtherFlow<R>(cfg: Config, s: Sys<R>, e: Event<R>)
    requires FlowInv(s) && WriterInv(cfg, s.core, s.tries) && Enabled(s.core, e) && !e.Submit? && !e.Receive?
    ensures FlowInv(Step(cfg, s, e))
  {
    var s' := Step(cfg, s, e);
    assert s'.taken == s.taken && s'.submitted == s.submitted;
    assert Records(s'.out) + s'.core.batch == Records(s.out) + s.core.batch;
  }

  lemma StepKeepsInv<R>(cfg: Config, s: Sys<R>, e: Event<R>)
    requires Inv(cfg, s) && Enabled(s.core, e)
    ensures Inv(cfg, Step(cfg, s, e))
  {
    match e
    case Submit(r) => SubmitFlow(cfg, s, r);
    case Receive => ReceiveFlow(cfg, s);
    case _ => OtherFlow(cfg, s, e);
  }

  lemma {:induction false} RunKeepsInv<R>(cfg: Config, run: seq<Event<R>>)
    requires Valid(cfg, run)
    ensures Inv(cfg, State(cfg, run))
    decreases |run|
  {
    if run != [] {
      RunKeepsInv(cfg, run[..|run| - 1]);
      StepKeepsInv(cfg, State(cfg, run[..|run| - 1]), run[|run| - 1]);
    }
  }

  // ----- Theorems -----

  ghost predicate InOrder<R>(a: seq<R>, b: seq<R>) {
    exists at: seq<nat> :: Subsequence(a, b, at)
  }

  lemma SubsequenceInit<R>(a: seq<R>, b: seq<R>, at: seq<nat>)
    requires Subsequence(a, b, at) && a != [] && at[|a| - 1] == |b| - 1
    ensures Subsequence(a[..|a| - 1], b[..|b| - 1], at[..|a| - 1]) && a[|a| - 1] == b[|b| - 1]
  {
    assert forall i :: 0 <= i < |a| - 1 ==> at[i] < at[|a| - 1];
  }

  lemma SubsequenceOfInit<R>(a: seq<R>, b: seq<R>, at: seq<nat>)
    requires Subsequence(a, b, at) && b != [] && (a != [] ==> at[|a| - 1] != |b| - 1)
    ensures Subsequence(a, b[..|b| - 1], at)
  {
    assert forall i :: 0 <= i < |a| ==> at[i] <= at[|a| - 1];
  }

  /** What is in order uses every position once: it is no longer, and has nothing more of anything. */
  lemma {:induction false} InOrderFits<R>(a: seq<R>, b: seq<R>, at: seq<nat>)
    requires Subsequence(a, b, at)
    ensures |a| <= |b| && multiset(a) <= multiset(b)
    decreases |b|
  {
    if b != [] {
      var n, m := |b| - 1, |a| - 1;
      LastJoins(b);
      if a != [] && at[m] == n {
        SubsequenceInit(a, b, at);
        InOrderFits(a[..m], b[..n], at[..m]);
        LastJoins(a);
      } else {
        SubsequenceOfInit(a, b, at);
        InOrderFits(a, b[..n], at);
      }
    }
  }

  lemma KeptInOrder<R>(s: Sys<R>)
    requires FlowInv(s)
    ensures InOrder(Records(s.out) + s.core.batch + s.core.queue, s.submitted)
  {
    var n := |s.taken|;
    var picked := PickIsSubsequence(s.submitted[..n], s.taken, true);
    var at: seq<nat> := picked + seq(|s.core.queue|, i requires 0 <= i < |s.core.queue| => n + i);
    assert Subsequence(Records(s.out) + s.core.batch + s.core.queue, s.submitted, at);
  }

  lemma KeptIsAll<R>(s: Sys<R>)
    requires FlowInv(s)
    ensures false !in s.taken ==> Records(s.out) + s.core.batch + s.core.queue == s.submitted
    ensures multiset(s.submitted)
         == multiset(Pick(s.submitted[..|s.taken|], s.taken, false)) + multiset(Records(s.out))
            + multiset(s.core.batch) + multiset(s.core.queue)
  {
    var gone := s.submitted[..|s.taken|];
    assert s.submitted == gone + s.core.queue;
    PickPartition(gone, s.taken);
    if false !in s.taken { PickEverything(gone, s.taken); }
  }

  /** Conservation and order, over every interleaving of submissions, wake-ups, timeouts, commit
      failures, stops and restarts: each submission is dropped, flushed (to the database, to a
      fallback line, or to a line that could not be written), in the batch, or queued; and what was
      not dropped keeps its order. */
  lemma ConservationAndOrder<R>(cfg: Config, run: seq<Event<R>>)
    requires Valid(cfg, run)
    ensures var s := State(cfg, run);
            var kept := Records(s.out) + s.core.batch + s.core.queue;
            && InOrder(kept, s.submitted)
            && (false !in s.taken ==> kept == s.submitted)
            && |s.taken| + |s.core.queue| == |s.submitted|
            && multiset(s.submitted)
               == multiset(Pick(s.submitted[..|s.taken|], s.taken, false)) + multiset(Records(s.out))
                  + multiset(s.core.batch) + multiset(s.core.queue)
  {
    RunKeepsInv(cfg, run);
    KeptInOrder(State(cfg, run));
    KeptIsAll(State(cfg, run));
  }

  /** The queue is always the latest submissions, within its bound; the batch is short of full at
      every loop head and never over; every flush made at most three commit attempts, and only one
      that used all three sent its batch to the fallback log. */
  lemma QueueAndWriterBounds<R>(cfg: Config, run: seq<Event<R>>)
    requires Valid(cfg, run)
    ensures var s := State(cfg, run);
            && |s.core.queue| <= cfg.queueMax && |s.core.queue| <= |s.submitted|
            && s.core.queue == s.submitted[|s.submitted| - |s.core.queue|..]
            && (s.core.phase == Waiting ==> |s.core.batch| < cfg.batchSize)
            && |s.core.batch| <= cfg.batchSize && s.tries < MAX_RETRIES
            && forall k :: 0 <= k < |s.ends| ==>
                 1 <= s.ends[k].attempts <= MAX_RETRIES && (!s.ends[k].committed ==> s.ends[k].attempts == MAX_RETRIES)
  {
    RunKeepsInv(cfg, run);
  }

  /** A record is dropped exactly when a submission finds the queue full, and it is then the oldest
      one queued. */
  lemma DropsExactlyWhenFull<R>(cfg: Config, s: Sys<R>, e: Event<R>)
    requires Inv(cfg, s) && Enabled(s.core, e)
    ensures FlowInv(Step(cfg, s, e))
    ensures DroppedRecords(Step(cfg, s, e))
         == DroppedRecords(s) + (if e.Submit? && |s.core.queue| == cfg.queueMax then [s.core.queue[0]] else [])
  {
    match e
    case Submit(r) =>
      SubmitFlow(cfg, s, r);
    case Receive =>
      ReceiveFlow(cfg, s);
    case _ =>
      OtherFlow(cfg, s, e);
      var s' := Step(cfg, s, e);
      assert s'.taken == s.taken && s'.submitted == s.submitted;
  }

  // ----- Nothing queued is ever stuck -----

  /** A run of the writer alone. */
  predicate WriterOnly<R>(run: seq<Event<R>>) {
    forall k :: 0 <= k < |run| ==> run[k].Receive? || run[k].TimedOut? || run[k].Commit?
  }

  ghost predicate Runs<R>(cfg: Config, c: Core<R>, run: seq<Event<R>>)
    decreases |run|
  {
    run == [] || (Enabled(c, run[0]) && Runs(cfg, Turn(cfg, c, run[0]), run[1..]))
  }

  ghost function After<R>(cfg: Config, c: Core<R>, run: seq<Event<R>>): Core<R>
    requires Runs(cfg, c, run)
    decreases |run|
  {
    if run == [] then c else After(cfg, Turn(cfg, c, run[0]), run[1..])
  }

  ghost function Output<R>(cfg: Config, c: Core<R>, run: seq<Event<R>>): seq<Flushed<R>>
    requires Runs(cfg, c, run)
    decreases |run|
  {
    if run == [] then [] else Emitted(c, run[0]) + Output(cfg, Turn(cfg, c, run[0]), run[1..])
  }

  /** The writer is up and has not been cancelled. */
  predicate Up<R>(cfg: Config, c: Core<R>) {
    match c.phase
    case Stopped => false
    case Waiting => |c.batch| < cfg.batchSize
    case Flushing(cause, attempt) => cause != Cancelled && c.batch != [] && 1 <= attempt <= MAX_RETRIES
  }

  /** How many turns of the writer, other than timeouts with an empty batch, can be left. */
  function Work<R>(c: Core<R>): nat {
    (MAX_RETRIES + 2) * |c.queue|
    + (if c.batch == [] then 0
       else if c.phase.Flushing? && c.phase.attempt <= MAX_RETRIES then MAX_RETRIES + 1 - c.phase.attempt
       else MAX_RETRIES + 1)
  }

  predicate Idles<R>(c: Core<R>, e: Event<R>) { e.TimedOut? && c.batch == [] }

  /** The timeouts of a run that find the batch empty. */
  ghost function IdleTurns<R>(cfg: Config, c: Core<R>, run: seq<Event<R>>): nat
    requires Runs(cfg, c, run)
    decreases |run|
  {
    if run == [] then 0 else (if Idles(c, run[0]) then 1 else 0) + IdleTurns(cfg, Turn(cfg, c, run[0]), run[1..])
  }

  function Timeouts<R>(run: seq<Event<R>>): nat {
    if run == [] then 0 else Timeouts(run[..|run| - 1]) + (if run[|run| - 1].TimedOut? then 1 else 0)
  }

  lemma {:induction false} TimeoutsFirst<R>(e: Event<R>, rest: seq<Event<R>>)
    ensures Timeouts([e] + rest) == (if e.TimedOut? then 1 else 0) + Timeouts(rest)
  {
    var all := [e] + rest;
    if rest == [] {
      assert all[..0] == [];
    } else {
      TimeoutsFirst(e, rest[..|rest| - 1]);
      assert all[..|all| - 1] == [e] + rest[..|rest| - 1];
    }
  }

  /** A run has at most as many idle turns as timeouts. */
  lemma {:induction false} IdleTurnsAreTimeouts<R>(cfg: Config, c: Core<R>, run: seq<Event<R>>)
    requires Runs(cfg, c, run)
    ensures IdleTurns(cfg, c, run) <= Timeouts(run)
    decreases |run|
  {
    if run != [] {
      IdleTurnsAreTimeouts(cfg, Turn(cfg, c, run[0]), run[1..]);
      TimeoutsFirst(run[0], run[1..]);
      assert [run[0]] + run[1..] == run;
    }
  }

  predicate CommitsSucceed<R>(run: seq<Event<R>>) {
    forall k :: 0 <= k < |run| && run[k].Commit? ==> run[k].ok
  }

  lemma WriterTurn<R>(cfg: Config, c: Core<R>, e: Event<R>)
    requires Up(cfg, c) && Enabled(c, e) && (e.Receive? || e.TimedOut? || e.Commit?)
    ensures var c' := Turn(cfg, c, e);
            && Up(cfg, c')
            && Records(Emitted(c, e)) + (c'.batch + c'.queue) == c.batch + c.queue
            && (e.Commit? && e.ok ==> Emitted(c, e) == Committed(c.batch) && c'.batch == [])
            && (if Idles(c, e) then c' == c else Work(c') < Work(c))
  {
    var c' := Turn(cfg, c, e);
    if e.Receive? {
      assert c'.batch + c'.queue == c.batch + c.queue;
    } else if e.Commit? {
      assert c'.batch == [] ==> c'.queue == c.queue && Records(Emitted(c, e)) == c.batch;
    }
  }

  lemma {:induction false} WriterWorks<R>(cfg: Config, c: Core<R>, run: seq<Event<R>>)
    requires Up(cfg, c) && WriterOnly(run) && Runs(cfg, c, run)
    ensures Up(cfg, After(cfg, c, run))
    ensures |run| + Work(After(cfg, c, run)) <= Work(c) + IdleTurns(cfg, c, run)
    decreases |run|
  {
    if run != [] {
      WriterTurn(cfg, c, run[0]);
      WriterWorks(cfg, Turn(cfg, c, run[0]), run[1..]);
    }
  }

  lemma {:induction false} WriterKeeps<R>(cfg: Config, c: Core<R>, run: seq<Event<R>>)
    requires Up(cfg, c) && WriterOnly(run) && Runs(cfg, c, run)
    ensures var end := After(cfg, c, run);
            Records(Output(cfg, c, run)) + (end.batch + end.queue) == c.batch + c.queue
    decreases |run|
  {
    if run != [] {
      var c', end := Turn(cfg, c, run[0]), After(cfg, c, run);
      WriterTurn(cfg, c, run[0]);
      WriterKeeps(cfg, c', run[1..]);
      FlushesJoin(Emitted(c, run[0]), Output(cfg, c', run[1..]), end.batch + end.queue, c'.batch + c'.queue,
                  c.batch + c.queue);
    }
  }

  lemma {:induction false} WriterCommits<R>(cfg: Config, c: Core<R>, run: seq<Event<R>>)
    requires WriterOnly(run) && Runs(cfg, c, run) && CommitsSucceed(run)
    ensures Output(cfg, c, run) == Committed(Records(Output(cfg, c, run)))
    decreases |run|
  {
    if run != [] {
      var c', rest := Turn(cfg, c, run[0]), run[1..];
      assert CommitsSucceed(rest);
      WriterCommits(cfg, c', rest);
      var first, more := Emitted(c, run[0]), Output(cfg, c', rest);
      assert first == Committed(Records(first));
      RecordsAppend(first, more);
      CommittedConcat(Records(first), Records(more));
    }
  }

  /** Every run of the writer alone, from any state in which it is up, waiting or flushing: nothing
      is lost or reordered, and once it has had enough turns that were not idle, everything in the
      batch and the queue has been flushed; to the database if the commits succeed. */
  lemma WriterDrains<R>(cfg: Config, c: Core<R>, run: seq<Event<R>>)
    requires Up(cfg, c) && WriterOnly(run) && Runs(cfg, c, run)
    ensures var end, out := After(cfg, c, run), Output(cfg, c, run);
            && Records(out) + (end.batch + end.queue) == c.batch + c.queue
            && (Work(c) + IdleTurns(cfg, c, run) <= |run| ==>
                  end == Core([], [], Waiting) && Records(out) == c.batch + c.queue)
            && (CommitsSucceed(run) ==> out == Committed(Records(out)))
  {
    WriterWorks(cfg, c, run);
    WriterKeeps(cfg, c, run);
    NoWorkIsDrained(cfg, After(cfg, c, run));
    if CommitsSucceed(run) { WriterCommits(cfg, c, run); }
  }

  lemma NoWorkIsDrained<R>(cfg: Config, c: Core<R>)
    requires Up(cfg, c)
    ensures Work(c) == 0 <==> c == Core([], [], Waiting)
  {
  }

  /** Short of that, the writer is never stuck: some turn that is not idle is open to it. */
  lemma WriterNeverStuck<R>(cfg: Config, c: Core<R>)
    requires Up(cfg, c) && Work(c) != 0
    ensures exists e: Event<R> :: Enabled(c, e) && WriterOnly([e]) && CommitsSucceed([e]) && !Idles(c, e)
  {
    NoWorkIsDrained(cfg, c);
    var e: Event<R> := if c.phase.Flushing? then Commit(true, seq(|c.batch|, _ => true))
                       else if c.queue != [] then Receive else TimedOut;
    assert Enabled(c, e) && WriterOnly([e]) && CommitsSucceed([e]) && !Idles(c, e);
  }

  lemma CommittedConcat<R>(a: seq<R>, b: seq<R>)
    ensures Committed(a) + Committed(b) == Committed(a + b)
  {
  }

  // ----- Every record can reach the database -----

  lemma RunGrows<R>(cfg: Config, run: seq<Event<R>>, e: Event<R>)
    requires Valid(cfg, run) && Enabled(State(cfg, run).core, e)
    ensures Valid(cfg, run + [e]) && State(cfg, run + [e]) == Step(cfg, State(cfg, run), e)
  {
    assert (run + [e])[..|run|] == run;
  }

  /** Starting, in any reachable state, brings up a writer that is not being stopped, and leaves a
      running writer as it is; the queue, the output and what was submitted stay as they were. */
  lemma StartBringsUp<R>(cfg: Config, run: seq<Event<R>>)
    requires Valid(cfg, run)
    ensures var s, s' := State(cfg, run), State(cfg, run + [Start]);
            && Valid(cfg, run + [Start])
            && ((s.core.phase.Flushing? && s.core.phase.cause == Cancelled) || Up(cfg, s'.core))
            && (s.core.phase != Stopped ==> s'.core == s.core)
            && s'.core.queue == s.core.queue && s'.out == s.out && s'.submitted == s.submitted
  {
    RunGrows(cfg, run, Start);
    RunKeepsInv(cfg, run);
  }

  /** No submission, and every commit succeeds. */
  predicate Quiet<R>(more: seq<Event<R>>) {
    forall k :: 0 <= k < |more| ==> !more[k].Submit? && (more[k].Commit? ==> more[k].ok)
  }

  /** One turn brings records on and loses none. */
  ghost predicate BringsOn<R>(s: Sys<R>, s': Sys<R>) {
    && s'.submitted == s.submitted
    && s'.out + Committed(s'.core.batch + s'.core.queue) == s.out + Committed(s.core.batch + s.core.queue)
  }

  lemma WriterStep<R>(cfg: Config, s: Sys<R>, e: Event<R>)
    requires Up(cfg, s.core) && Enabled(s.core, e) && WriterOnly([e]) && CommitsSucceed([e]) && !Idles(s.core, e)
    ensures BringsOn(s, Step(cfg, s, e)) && Up(cfg, Step(cfg, s, e).core) && Work(Step(cfg, s, e).core) < Work(s.core)
    ensures Quiet([e])
  {
    assert [e][0] == e;
    WriterTurn(cfg, s.core, e);
    var c' := Turn(cfg, s.core, e);
    if e.Commit? {
      CommittedConcat(s.core.batch, s.core.queue);
      assert c'.batch + c'.queue == s.core.queue;
    } else {
      assert Emitted(s.core, e) == [];
      assert s.out + [] == s.out;
    }
  }

  /** These events lead from one state to the other. */
  ghost predicate Leads<R>(cfg: Config, s: Sys<R>, more: seq<Event<R>>, end: Sys<R>)
    decreases |more|
  {
    if more == [] then s == end else Enabled(s.core, more[0]) && Leads(cfg, Step(cfg, s, more[0]), more[1..], end)
  }

  lemma LeadsFirst<R>(cfg: Config, s: Sys<R>, e: Event<R>, rest: seq<Event<R>>, end: Sys<R>)
    requires Enabled(s.core, e) && Leads(cfg, Step(cfg, s, e), rest, end) && Quiet([e]) && Quiet(rest)
    ensures Leads(cfg, s, [e] + rest, end) && Quiet([e] + rest)
  {
    assert ([e] + rest)[1..] == rest && [e][0] == e;
  }

  lemma {:induction false} RunLeads<R>(cfg: Config, run: seq<Event<R>>, more: seq<Event<R>>, end: Sys<R>,
                                       all: seq<Event<R>>)
    requires Valid(cfg, run) && Leads(cfg, State(cfg, run), more, end) && all == run + more
    ensures Valid(cfg, all) && State(cfg, all) == end
    decreases |more|
  {
    if more == [] {
      assert all == run;
    } else {
      RunGrows(cfg, run, more[0]);
      RunLeads(cfg, run + [more[0]], more[1..], end, all);
    }
  }

  lemma {:induction false} DrainUp<R>(cfg: Config, s: Sys<R>) returns (more: seq<Event<R>>, end: Sys<R>)
    requires Up(cfg, s.core)
    ensures Leads(cfg, s, more, end) && Quiet(more) && BringsOn(s, end) && end.core == Core([], [], Waiting)
    decreases Work(s.core)
  {
    if Work(s.core) == 0 {
      more, end := [], s;
      NoWorkIsDrained(cfg, s.core);
    } else {
      WriterNeverStuck(cfg, s.core);
      var e: Event<R> :| Enabled(s.core, e) && WriterOnly([e]) && CommitsSucceed([e]) && !Idles(s.core, e);
      WriterStep(cfg, s, e);
      var rest;
      rest, end := DrainUp(cfg, Step(cfg, s, e));
      LeadsFirst(cfg, s, e, rest, end);
      more := [e] + rest;
    }
  }

  /** A writer that is not up is started again, when it has ended its last flush. */
  lemma DrainAny<R>(cfg: Config, s: Sys<R>) returns (more: seq<Event<R>>, end: Sys<R>)
    requires Inv(cfg, s)
    ensures Leads(cfg, s, more, end) && Quiet(more) && BringsOn(s, end) && end.core == Core([], [], Waiting)
    decreases if s.core.phase == Stopped then 0 else 1
  {
    if Up(cfg, s.core) {
      more, end := DrainUp(cfg, s);
    } else {
      var e: Event<R> := if s.core.phase == Stopped then Start else Commit(true, seq(|s.core.batch|, _ => true));
      BackUp(cfg, s, e);
      StepKeepsInv(cfg, s, e);
      var rest;
      if s.core.phase == Stopped { rest, end := DrainUp(cfg, Step(cfg, s, e)); }
      else { rest, end := DrainAny(cfg, Step(cfg, s, e)); }
      LeadsFirst(cfg, s, e, rest, end);
      more := [e] + rest;
    }
  }

  lemma BackUp<R>(cfg: Config, s: Sys<R>, e: Event<R>)
    requires Inv(cfg, s) && !Up(cfg, s.core) && Enabled(s.core, e)
    requires if s.core.phase == Stopped then e == Start else e.Commit? && e.ok
    ensures BringsOn(s, Step(cfg, s, e)) && Quiet([e])
    ensures if s.core.phase == Stopped then Up(cfg, Step(cfg, s, e).core) else Step(cfg, s, e).core.phase == Stopped
  {
    assert [e][0] == e;
    if e.Commit? {
      EndedStop(cfg, s, e);
    } else {
      assert s.out + Emitted(s.core, e) == s.out;
    }
  }

  /** From every reachable state, whatever the writer is doing, everything the ledger still holds can
      reach the database in order: a stopped writer is started again, and then drains. */
  lemma EverythingCanReachTheDatabase<R>(cfg: Config, run: seq<Event<R>>) returns (more: seq<Event<R>>)
    requires Valid(cfg, run)
    ensures Valid(cfg, run + more) && Quiet(more) && State(cfg, run + more).core == Core([], [], Waiting)
    ensures var s, s' := State(cfg, run), State(cfg, run + more);
            s'.submitted == s.submitted && s'.out == s.out + Committed(s.core.batch + s.core.queue)
  {
    RunKeepsInv(cfg, run);
    var end;
    more, end := DrainAny(cfg, State(cfg, run));
    RunLeads(cfg, run, more, end, run + more);
    NothingHeld(end);
  }

  lemma NothingHeld<R>(s: Sys<R>)
    requires s.core == Core([], [], Waiting)
    ensures s.out + Committed(s.core.batch + s.core.queue) == s.out
  {
  }

  lemma EndedStop<R>(cfg: Config, s: Sys<R>, e: Event<R>)
    requires Inv(cfg, s) && Enabled(s.core, e) && e.Commit? && e.ok
    ensures BringsOn(s, Step(cfg, s, e))
  {
    CommittedConcat(s.core.batch, s.core.queue);
    assert [] + s.core.queue == s.core.queue;
  }

  // ----- What a turn takes, when a flush begins, and where records end up -----

  /** One wake-up drains the queue or fills the batch, and takes nothing out of order. */
  lemma WakeUpDrains<R>(cfg: Config, c: Core<R>)
    requires Enabled(c, Receive) && |c.batch| < cfg.batchSize
    ensures var c' := Turn(cfg, c, Receive);
            && c'.batch + c'.queue == c.batch + c.queue && |c.batch| < |c'.batch| <= cfg.batchSize
            && (c'.queue == [] || |c'.batch| == cfg.batchSize)
  {
  }

  /** A flush begins only when the batch is full, on a timeout, or on a stop, and then with its first
      attempt; on a timeout and on a stop it begins exactly when the batch is not empty. */
  lemma FlushBeginsExactlyWhen<R>(cfg: Config, c: Core<R>, e: Event<R>)
    requires Enabled(c, e) && c.phase == Waiting && |c.batch| < cfg.batchSize
    ensures var c' := Turn(cfg, c, e);
            && (c'.phase.Flushing? <==>
                  (e.Receive? && |c'.batch| == cfg.batchSize) || ((e.TimedOut? || e.Stop?) && c.batch != []))
            && (c'.phase.Flushing? ==> c'.phase.attempt == 1 && (c'.phase.cause == Cancelled <==> e.Stop?))
            && (!e.Receive? ==> c'.batch == c.batch)
  {
  }

  /** How many records of the output went to the database. */
  function InDatabase<R>(out: seq<Flushed<R>>): nat {
    if out == [] then 0 else InDatabase(out[..|out| - 1]) + (if out[|out| - 1].sink == Database then 1 else 0)
  }

  /** The records of the flushes that committed. */
  function CommittedSize(ends: seq<BatchEnd>): nat {
    if ends == [] then 0
    else CommittedSize(ends[..|ends| - 1]) + (if ends[|ends| - 1].committed then ends[|ends| - 1].size else 0)
  }

  function FlushedSize(ends: seq<BatchEnd>): nat {
    if ends == [] then 0 else FlushedSize(ends[..|ends| - 1]) + ends[|ends| - 1].size
  }

  lemma {:induction false} InDatabaseAdds<R>(a: seq<Flushed<R>>, b: seq<Flushed<R>>)
    ensures InDatabase(a + b) == InDatabase(a) + InDatabase(b)
  {
    if b == [] {
      assert a + b == a;
    } else {
      InDatabaseAdds(a, b[..|b| - 1]);
      assert (a + b)[..|a + b| - 1] == a + b[..|b| - 1];
    }
  }

  lemma {:induction false} AllOrNone<R>(out: seq<Flushed<R>>, all: bool)
    requires forall i :: 0 <= i < |out| ==> (out[i].sink == Database <==> all)
    ensures InDatabase(out) == if all then |out| else 0
  {
    if out != [] { AllOrNone(out[..|out| - 1], all); }
  }

  /** What leaves in one turn: nothing, or the whole batch; to the database exactly if the commit
      succeeded, else each record to its fallback line exactly if that line could be written. */
  lemma BatchLeavesTogether<R>(c: Core<R>, e: Event<R>)
    requires Enabled(c, e)
    ensures Emitted(c, e) == [] || Records(Emitted(c, e)) == c.batch
    ensures forall i :: 0 <= i < |Emitted(c, e)| ==> e.Commit? && SinkIs(Emitted(c, e)[i].sink, e.ok, e.lines[i])
  {
  }

  predicate SinkIs(sink: Sink, ok: bool, line: bool) {
    match sink
    case Database => ok
    case FallbackLine => !ok && line
    case FallbackLost => !ok && !line
  }

  /** Over every run the output holds exactly the records of the flushes that ended, and the database
      exactly those of the flushes that committed. */
  lemma {:induction false} DatabaseHoldsCommitted<R>(cfg: Config, run: seq<Event<R>>)
    requires Valid(cfg, run)
    ensures var s := State(cfg, run);
            |s.out| == FlushedSize(s.ends) && InDatabase(s.out) == CommittedSize(s.ends)
    decreases |run|
  {
    if run != [] {
      var s, e := State(cfg, run[..|run| - 1]), run[|run| - 1];
      DatabaseHoldsCommitted(cfg, run[..|run| - 1]);
      RunKeepsInv(cfg, run[..|run| - 1]);
      EndsCount(cfg, s, e);
    }
  }

  lemma EndsCount<R>(cfg: Config, s: Sys<R>, e: Event<R>)
    requires Inv(cfg, s) && Enabled(s.core, e)
    requires |s.out| == FlushedSize(s.ends) && InDatabase(s.out) == CommittedSize(s.ends)
    ensures var s' := Step(cfg, s, e);
            |s'.out| == FlushedSize(s'.ends) && InDatabase(s'.out) == CommittedSize(s'.ends)
  {
    var s' := Step(cfg, s, e);
    InDatabaseAdds(s.out, Emitted(s.core, e));
    if |s'.ends| == |s.ends| + 1 {
      assert s'.ends[..|s'.ends| - 1] == s.ends;
      AllOrNone(Emitted(s.core, e), e.ok);
    } else {
      assert s'.ends == s.ends && Emitted(s.core, e) == [];
    }
  }

  // ----- Stopping -----

  /** The writer has been cancelled: it is flushing its last batch, or has ended without one. */
  predicate Ending<R>(c: Core<R>) {
    (c.phase == Stopped && c.batch == []) || (c.phase.Flushing? && c.phase.cause == Cancelled)
  }

  lemma EndingTurn<R>(cfg: Config, c: Core<R>, e: Event<R>)
    requires Ending(c) && Enabled(c, e) && e != Start
    ensures Ending(Turn(cfg, c, e)) && Records(Emitted(c, e)) + Turn(cfg, c, e).batch == c.batch
  {
  }

  predicate NoStart<R>(run: seq<Event<R>>) { forall k :: 0 <= k < |run| ==> run[k] != Start }

  lemma {:induction false} EndingLasts<R>(cfg: Config, c: Core<R>, run: seq<Event<R>>)
    requires Ending(c) && Runs(cfg, c, run) && NoStart(run)
    ensures Ending(After(cfg, c, run))
    decreases |run|
  {
    if run != [] {
      EndingTurn(cfg, c, run[0]);
      EndingLasts(cfg, Turn(cfg, c, run[0]), run[1..]);
    }
  }

  lemma FlushesJoin<R>(first: seq<Flushed<R>>, more: seq<Flushed<R>>, left: seq<R>, between: seq<R>, all: seq<R>)
    requires Records(first) + between == all && Records(more) + left == between
    ensures Records(first + more) + left == all
  {
    RecordsAppend(first, more);
    assert Records(first) + (Records(more) + left) == all;
  }

  lemma {:induction false} EndingFlushes<R>(cfg: Config, c: Core<R>, run: seq<Event<R>>)
    requires Ending(c) && Runs(cfg, c, run) && NoStart(run)
    ensures Records(Output(cfg, c, run)) + After(cfg, c, run).batch == c.batch
    decreases |run|
  {
    if run != [] {
      var c', left := Turn(cfg, c, run[0]), After(cfg, c, run).batch;
      EndingTurn(cfg, c, run[0]);
      EndingFlushes(cfg, c', run[1..]);
      FlushesJoin(Emitted(c, run[0]), Output(cfg, c', run[1..]), left, c'.batch, c.batch);
    }
  }

  lemma RecordsAppend<R>(a: seq<Flushed<R>>, b: seq<Flushed<R>>)
    ensures Records(a + b) == Records(a) + Records(b)
  {
  }

  /** Stopping a waiting writer flushes exactly its batch, in order, whatever is submitted and
      however the commits end; until a restart it takes nothing more from the queue. */
  lemma StopFlushesBatch<R>(cfg: Config, c: Core<R>, run: seq<Event<R>>)
    requires c.phase == Waiting && Runs(cfg, Turn(cfg, c, Stop), run)
    requires NoStart(run)
    ensures var end := After(cfg, Turn(cfg, c, Stop), run);
            && Ending(end)
            && Records(Output(cfg, Turn(cfg, c, Stop), run)) + end.batch == c.batch
            && (end.phase == Stopped ==> Records(Output(cfg, Turn(cfg, c, Stop), run)) == c.batch)
  {
    EndingLasts(cfg, Turn(cfg, c, Stop), run);
    EndingFlushes(cfg, Turn(cfg, c, Stop), run);
  }
}
