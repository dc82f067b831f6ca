/** The execution ledger: a bounded drop-oldest queue feeding a batching writer with retries and a
    fallback log.

    The writer is a coroutine; its state between two awaits is the queue, its batch and the await
    it is suspended at.  `Turn` is what runs between two awaits, and the class performs it in
    place. */
module Ledger {

  const MAX_RETRIES := 3

  /** Why a batch is being flushed. */
  datatype Cause = Full | Timeout | Cancelled

  /** Where the writer task is suspended: not running, waiting for a record, or in the given commit
      attempt of a flush. */
  datatype Phase = Stopped | Waiting | Flushing(cause: Cause, attempt: nat)

  datatype Sink = Database | FallbackLine | FallbackLost

  datatype Flushed<+R> = Flushed(record: R, sink: Sink)

  datatype Limits = Limits(batchSize: nat, queueMax: nat)

  type Config = c: Limits | 1 <= c.batchSize && 1 <= c.queueMax witness Limits(10, 10000)

  datatype Core<+R> = Core(queue: seq<R>, batch: seq<R>, phase: Phase)

  /** `Commit` is the end of a commit attempt; `lines` says which fallback lines get written should
      this have been the last attempt. */
  datatype Event<+R> =
    | Submit(record: R)
    | Start
    | Receive
    | TimedOut
    | Stop
    | Commit(ok: bool, lines: seq<bool>)

  predicate Enabled<R>(c: Core<R>, e: Event<R>) {
    match e
    case Submit(_) => true
    case Start => true
    case Receive => c.phase == Waiting && c.queue != []
    case TimedOut => c.phase == Waiting
    case Stop => !c.phase.Flushing?
    case Commit(_, lines) => c.phase.Flushing? && |lines| == |c.batch|
  }

  function Enqueue<R>(cfg: Config, queue: seq<R>, r: R): seq<R> {
    if |queue| < cfg.queueMax then queue + [r]
    else (if queue == [] then queue else queue[1..]) + [r]
  }

  /** How many records one wake-up takes: the one waited for, then what fits in the batch. */
  function Taken<R>(cfg: Config, c: Core<R>): nat {
    if |c.queue| == 0 then 0
    else if cfg.batchSize <= |c.batch| then 1
    else if |c.queue| <= cfg.batchSize - |c.batch| then |c.queue| else cfg.batchSize - |c.batch|
  }

  function Resume(cause: Cause): Phase { if cause == Cancelled then Stopped else Waiting }

  function Turn<R>(cfg: Config, c: Core<R>, e: Event<R>): Core<R>
    requires Enabled(c, e)
  {
    match e
    case Submit(r) => c.(queue := Enqueue(cfg, c.queue, r))
    case Start => if c.phase == Stopped then c.(batch := [], phase := Waiting) else c
    case Receive =>
      var n := Taken(cfg, c);
      var batch := c.batch + c.queue[..n];
      Core(c.queue[n..], batch, if |batch| >= cfg.batchSize then Flushing(Full, 1) else Waiting)
    case TimedOut => if c.batch == [] then c else c.(phase := Flushing(Timeout, 1))
    case Stop =>
      if c.phase == Stopped then c
      else if c.batch == [] then c.(phase := Stopped)
      else c.(phase := Flushing(Cancelled, 1))
    case Commit(ok, _) =>
      if ok || c.phase.attempt >= MAX_RETRIES then c.(batch := [], phase := Resume(c.phase.cause))
      else c.(phase := Flushing(c.phase.cause, c.phase.attempt + 1))
  }

  function Committed<R>(batch: seq<R>): seq<Flushed<R>> {
    seq(|batch|, i requires 0 <= i < |batch| => Flushed(batch[i], Database))
  }

  /** One fallback line per record; a line that cannot be written is lost, the rest still go. */
  function Fallback<R>(batch: seq<R>, lines: seq<bool>): seq<Flushed<R>>
    requires |lines| == |batch|
  {
    seq(|batch|, i requires 0 <= i < |batch| => Flushed(batch[i], if lines[i] then FallbackLine else FallbackLost))
  }

  /** What leaves the ledger in this turn. */
  function Emitted<R>(c: Core<R>, e: Event<R>): seq<Flushed<R>>
    requires Enabled(c, e)
  {
    if !e.Commit? then []
    else if e.ok then Committed(c.batch)
    else if c.phase.attempt >= MAX_RETRIES then Fallback(c.batch, e.lines)
    else []
  }

  /** The ledger object. */
  class LedgerQueue<R> {
    const cfg: Config
    var writeQueue: seq<R>
    var batch: seq<R>
    var phase: Phase

    function Snapshot(): Core<R>
      reads this
    {
      Core(writeQueue, batch, phase)
    }

    constructor (cfg: Config)
      ensures this.cfg == cfg && Snapshot() == Core([], [], Stopped)
    {
      this.cfg := cfg;
      writeQueue, batch, phase := [], [], Stopped;
    }

    /** Enqueue without waiting, dropping the oldest entry when the queue is full. */
    method RecordExecution(r: R)
      modifies this`writeQueue
      ensures Snapshot() == Turn(cfg, old(Snapshot()), Submit(r))
    {
      if |writeQueue| >= cfg.queueMax && writeQueue != [] {
        writeQueue := writeQueue[1..];
      }
      writeQueue := writeQueue + [r];
    }

    method StartWriter()
      modifies this
      ensures Snapshot() == Turn(cfg, old(Snapshot()), Start)
    {
      if phase != Stopped { return; }
      batch, phase := [], Waiting;
    }

    /** The writer got a record: drain what is available, and begin a flush when the batch is full. */
    method OnRecord()
      requires Enabled(Snapshot(), Receive)
      modifies this
      ensures Snapshot() == Turn(cfg, old(Snapshot()), Receive)
    {
      ghost var before := Snapshot();
      ghost var n := 1;
      batch, writeQueue := batch + [writeQueue[0]], writeQueue[1..];
      while |batch| < cfg.batchSize && writeQueue != []
        invariant 1 <= n <= Taken(cfg, before) && phase == before.phase
        invariant batch == before.batch + before.queue[..n] && writeQueue == before.queue[n..]
        decreases |writeQueue|
      {
        batch, writeQueue := batch + [writeQueue[0]], writeQueue[1..];
        n := n + 1;
      }
      assert n == Taken(cfg, before);
      if |batch| >= cfg.batchSize { phase := Flushing(Full, 1); }
    }

    method OnTimeout()
      requires Enabled(Snapshot(), TimedOut)
      modifies this`phase
      ensures Snapshot() == Turn(cfg, old(Snapshot()), TimedOut)
    {
      if batch != [] { phase := Flushing(Timeout, 1); }
    }

    /** Cancel the writer while it waits: it flushes its batch, then ends. */
    method StopWriter()
      requires Enabled(Snapshot(), Stop)
      modifies this`phase
      ensures Snapshot() == Turn(cfg, old(Snapshot()), Stop)
    {
      if phase == Stopped { return; }
      phase := if batch == [] then Stopped else Flushing(Cancelled, 1);
    }

    method WriteToFallbackLog(lines: seq<bool>) returns (flushed: seq<Flushed<R>>)
      requires |lines| == |batch|
      ensures flushed == Fallback(batch, lines)
    {
      flushed := [];
      for i := 0 to |batch|
        invariant flushed == Fallback(batch, lines)[..i]
      {
        flushed := flushed + [Flushed(batch[i], if lines[i] then FallbackLine else FallbackLost)];
      }
    }

    /** A commit attempt ended. */
    method OnCommit(ok: bool, lines: seq<bool>) returns (flushed: seq<Flushed<R>>)
      requires Enabled(Snapshot(), Commit(ok, lines))
      modifies this
      ensures Snapshot() == Turn(cfg, old(Snapshot()), Commit(ok, lines))
      ensures flushed == Emitted(old(Snapshot()), Commit(ok, lines))
    {
      if !ok && phase.attempt < MAX_RETRIES {
        phase := Flushing(phase.cause, phase.attempt + 1);
        return [];
      }
      if ok { flushed := Committed(batch); } else { flushed := WriteToFallbackLog(lines); }
      batch, phase := [], Resume(phase.cause);
    }

    /** The retry loop of one flush, when nothing is submitted meanwhile: attempts stop at the first
        commit that succeeds, and after the last failure the batch goes to the fallback log. */
    method FlushBatch(commits: seq<bool>, lines: seq<bool>) returns (flushed: seq<Flushed<R>>, attempts: nat)
      requires phase.Flushing? && phase.attempt == 1 && |lines| == |batch| && |commits| == MAX_RETRIES
      modifies this
      ensures 1 <= attempts <= MAX_RETRIES && forall k :: 0 <= k < attempts - 1 ==> !commits[k]
      ensures commits[attempts - 1] || attempts == MAX_RETRIES
      ensures flushed == if commits[attempts - 1] then Committed(old(batch)) else Fallback(old(batch), lines)
      ensures Snapshot() == Core(old(writeQueue), [], Resume(old(phase.cause)))
    {
      flushed, attempts := [], 0;
      while attempts < MAX_RETRIES && phase.Flushing?
        invariant attempts <= MAX_RETRIES && writeQueue == old(writeQueue)
        invariant forall k :: 0 <= k < attempts - 1 ==> !commits[k]
        invariant phase.Flushing? ==>
                    (phase.cause == old(phase.cause) && phase.attempt == attempts + 1 && batch == old(batch)
                     && flushed == [] && attempts < MAX_RETRIES && (0 < attempts ==> !commits[attempts - 1]))
        invariant !phase.Flushing? ==>
                    (0 < attempts && batch == [] && phase == Resume(old(phase.cause))
                     && (commits[attempts - 1] || attempts == MAX_RETRIES)
                     && flushed == if commits[attempts - 1] then Committed(old(batch)) else Fallback(old(batch), lines))
      {
        flushed := OnCommit(commits[attempts], lines);
        attempts := attempts + 1;
      }
    }
  }
}
