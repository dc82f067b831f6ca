/** The retry and fallback loop around an LLM call, against any sequence of outcomes. */
module LlmFallback {

  /** How one provider call ends; a failure may look like an authentication error, a rate limit,
      both or neither. */
  datatype Outcome = Success | Failure(auth: bool, rateLimit: bool)

  /** One provider call: which model of the list, and the how-manieth attempt on it. */
  datatype Call = Call(model: nat, retry: nat)

  datatype Answer = Response(model: string) | AuthenticationError(model: string) | LastError(model: string)

  function RetriesPerModel(maxRetries: int): nat
    ensures RetriesPerModel(maxRetries) >= 1
  {
    if maxRetries < 1 then 1 else maxRetries
  }

  /** The run goes on after this outcome. */
  predicate Continues(o: Outcome) { o.Failure? && !o.auth }

  /** The call that follows a failed one: the same model again only after a rate limit and with
      attempts left, else the next model. */
  function NextCall(c: Call, o: Outcome, retries: nat): Call {
    if o.Failure? && o.rateLimit && c.retry + 1 < retries then Call(c.model, c.retry + 1) else Call(c.model + 1, 0)
  }

  ghost predicate Follows(calls: seq<Call>, k: nat, outcome: nat -> Outcome, retries: nat)
    requires k + 1 < |calls|
  {
    Continues(outcome(k)) && calls[k + 1] == NextCall(calls[k], outcome(k), retries)
  }

  /** The calls of a run, `outcome(k)` being how call `k` ended. */
  ghost predicate IsRun(models: seq<string>, retries: nat, outcome: nat -> Outcome, calls: seq<Call>, answer: Answer) {
    && calls != [] && calls[0] == Call(0, 0)
    && (forall k :: 0 <= k < |calls| ==> calls[k].model < |models| && calls[k].retry < retries)
    && (forall k :: 0 <= k < |calls| - 1 ==> Follows(calls, k, outcome, retries))
    && var last, o := calls[|calls| - 1], outcome(|calls| - 1);
       match answer
       case Response(m) => o == Success && m == models[last.model]
       case AuthenticationError(m) => o.Failure? && o.auth && m == models[last.model]
       case LastError(m) =>
         Continues(o) && NextCall(last, o, retries).model == |models| && m == models[|models| - 1]
  }

  method CallWithFallback(model: string, fallback: seq<string>, maxRetries: int, outcome: nat -> Outcome)
      returns (answer: Answer, calls: seq<Call>)
    ensures IsRun([model] + fallback, RetriesPerModel(maxRetries), outcome, calls, answer)
    ensures |calls| <= (1 + |fallback|) * (if 1 < maxRetries then maxRetries else 1)
    ensures (forall k :: outcome(k) == Failure(false, true)) ==>
              |calls| == (1 + |fallback|) * (if 1 < maxRetries then maxRetries else 1)
  {
    answer, calls := TryModels([model] + fallback, RetriesPerModel(maxRetries), outcome);
    CallBound([model] + fallback, RetriesPerModel(maxRetries), outcome, calls, answer);
  }

  /** The two nested loops. */
  method TryModels(models: seq<string>, retries: nat, outcome: nat -> Outcome)
      returns (answer: Answer, calls: seq<Call>)
    requires models != [] && 1 <= retries
    ensures IsRun(models, retries, outcome, calls, answer)
  {
    calls := [];
    for i := 0 to |models|
      invariant Sofar(models, retries, outcome, calls, Call(i, 0))
      invariant 0 < i ==> calls != []
    {
      var r := 0;
      while r < retries
        invariant 0 <= r < retries && Sofar(models, retries, outcome, calls, Call(i, r))
        decreases retries - r
      {
        var o := outcome(|calls|);
        FollowsAppend(calls, Call(i, r), outcome, retries);
        calls := calls + [Call(i, r)];
        if o == Success { return Response(models[i]), calls; }
        if o.auth { return AuthenticationError(models[i]), calls; }
        if o.rateLimit && r < retries - 1 {
          r := r + 1;
          continue;
        }
        break;
      }
    }
    answer := LastError(models[|models| - 1]);
  }

  lemma FollowsAppend(calls: seq<Call>, c: Call, outcome: nat -> Outcome, retries: nat)
    requires forall k :: 0 <= k < |calls| - 1 ==> Follows(calls, k, outcome, retries)
    requires calls != [] ==> Continues(outcome(|calls| - 1))
    requires calls != [] ==> c == NextCall(calls[|calls| - 1], outcome(|calls| - 1), retries)
    ensures forall k :: 0 <= k < |calls + [c]| - 1 ==> Follows(calls + [c], k, outcome, retries)
  {
    forall k | 0 <= k < |calls| ensures Follows(calls + [c], k, outcome, retries) {
      if k < |calls| - 1 { assert Follows(calls, k, outcome, retries); }
    }
  }

  /** The calls made so far, all failed, lead to `next`. */
  ghost predicate Sofar(models: seq<string>, retries: nat, outcome: nat -> Outcome, calls: seq<Call>, next: Call) {
    && (forall k :: 0 <= k < |calls| ==> calls[k].model < |models| && calls[k].retry < retries)
    && (calls != [] ==> calls[0] == Call(0, 0) && Continues(outcome(|calls| - 1)))
    && (forall k :: 0 <= k < |calls| - 1 ==> Follows(calls, k, outcome, retries))
    && next == if calls == [] then Call(0, 0) else NextCall(calls[|calls| - 1], outcome(|calls| - 1), retries)
  }

  // ----- What a run tells -----

  /** A run is determined by the outcomes: the contract above leaves nothing open. */
  lemma RunIsUnique(models: seq<string>, retries: nat, outcome: nat -> Outcome,
                    a: seq<Call>, x: Answer, b: seq<Call>, y: Answer)
    requires IsRun(models, retries, outcome, a, x) && IsRun(models, retries, outcome, b, y)
    ensures a == b && x == y
  {
    SameCalls(models, retries, outcome, a, x, b, y, if |a| <= |b| then |a| else |b|);
    Ends(models, retries, outcome, a, x, b, y);
    Ends(models, retries, outcome, b, y, a, x);
  }

  /** A run does not go on past the end of another. */
  lemma Ends(models: seq<string>, retries: nat, outcome: nat -> Outcome, a: seq<Call>, x: Answer, b: seq<Call>,
             y: Answer)
    requires IsRun(models, retries, outcome, a, x) && IsRun(models, retries, outcome, b, y)
    requires forall k :: 0 <= k < |a| && k < |b| ==> a[k] == b[k]
    ensures |b| <= |a|
  {
    forall n | 0 <= n < |b| - 1
      ensures Continues(outcome(n)) && NextCall(b[n], outcome(n), retries).model < |models|
    {
      assert Follows(b, n, outcome, retries);
    }
  }

  lemma {:induction false} SameCalls(models: seq<string>, retries: nat, outcome: nat -> Outcome,
                                     a: seq<Call>, x: Answer, b: seq<Call>, y: Answer, n: nat)
    requires IsRun(models, retries, outcome, a, x) && IsRun(models, retries, outcome, b, y)
    requires n <= |a| && n <= |b|
    ensures forall k :: 0 <= k < n ==> a[k] == b[k]
  {
    if 1 < n {
      SameCalls(models, retries, outcome, a, x, b, y, n - 1);
      assert Follows(a, n - 2, outcome, retries) && Follows(b, n - 2, outcome, retries);
    }
  }

  /** The answer comes from the first call that succeeded or failed authentication; the models
      before it were all tried, in list order, and a model is repeated only after rate limits. */
  lemma {:induction false} RunInOrder(models: seq<string>, retries: nat, outcome: nat -> Outcome,
                                      calls: seq<Call>, answer: Answer, k: nat)
    requires IsRun(models, retries, outcome, calls, answer) && k < |calls|
    ensures forall j :: 0 <= j < |calls| - 1 ==> outcome(j).Failure? && !outcome(j).auth
    ensures forall m: nat :: m <= calls[k].model ==> exists j :: 0 <= j <= k && calls[j] == Call(m, 0)
    ensures calls[k].retry <= k
    ensures forall j :: k - calls[k].retry <= j < k ==>
              calls[j].model == calls[k].model && outcome(j).Failure? && outcome(j).rateLimit
    decreases k
  {
    forall j | 0 <= j < |calls| - 1 ensures Continues(outcome(j)) {
      assert Follows(calls, j, outcome, retries);
    }
    if 0 < k {
      RunInOrder(models, retries, outcome, calls, answer, k - 1);
      assert Follows(calls, k - 1, outcome, retries);
      forall m: nat | m <= calls[k].model ensures exists j :: 0 <= j <= k && calls[j] == Call(m, 0) {
        if m <= calls[k - 1].model {
          var j :| 0 <= j <= k - 1 && calls[j] == Call(m, 0);
          assert 0 <= j <= k;
        } else {
          assert calls[k] == Call(m, 0);
        }
      }
    } else {
      assert calls[0] == Call(0, 0);
    }
  }

  /** A call's place in the run is at most its place in the model-by-attempt grid. */
  lemma {:induction false} Position(models: seq<string>, retries: nat, outcome: nat -> Outcome,
                                    calls: seq<Call>, answer: Answer, k: nat)
    requires IsRun(models, retries, outcome, calls, answer) && k < |calls|
    ensures k <= calls[k].model * retries + calls[k].retry
    ensures (forall j :: outcome(j) == Failure(false, true)) ==> k == calls[k].model * retries + calls[k].retry
  {
    if 0 < k {
      Position(models, retries, outcome, calls, answer, k - 1);
      var c := calls[k - 1];
      assert Follows(calls, k - 1, outcome, retries);
      assert (c.model + 1) * retries == c.model * retries + retries;
    }
  }

  /** At most (number of models) x (attempts per model) calls are made, and with rate limits all the
      way exactly that many. */
  lemma CallBound(models: seq<string>, retries: nat, outcome: nat -> Outcome, calls: seq<Call>, answer: Answer)
    requires IsRun(models, retries, outcome, calls, answer)
    ensures |calls| <= |models| * retries
    ensures (forall k :: outcome(k) == Failure(false, true)) ==> |calls| == |models| * retries && answer.LastError?
  {
    var n := |calls| - 1;
    Position(models, retries, outcome, calls, answer, n);
    var last := calls[n];
    Grid(last.model, |models|, last.retry, retries);
    if forall k :: outcome(k) == Failure(false, true) {
      assert outcome(n) == Failure(false, true);
      assert last.model == |models| - 1 && last.retry == retries - 1;
    }
  }

  lemma Grid(i: nat, n: nat, r: nat, retries: nat)
    requires i < n && r < retries
    ensures i * retries + r < n * retries
    ensures i == n - 1 && r == retries - 1 ==> i * retries + r + 1 == n * retries
  {
    Rows(i + 1, n, retries);
    assert (i + 1) * retries == i * retries + retries;
  }

  lemma {:induction false} Rows(i: nat, n: nat, retries: nat)
    requires i <= n
    ensures i * retries <= n * retries
  {
    if i < n {
      Rows(i, n - 1, retries);
      assert n * retries == (n - 1) * retries + retries;
    }
  }
}
