/** How many true answers a key object can still come to, and the guard that keeps them within a bound
    (access/memory.go:60-84, router.go:249-323). */
module AccessPromise {
  import opened AccessKeys
  import opened AccessProtocol
  import opened AccessCounting
  import opened AccessDrain
  import opened Sums

  /** A true answer of this request may still be added: it was received, or the handler is on its way to give it while
      the goroutine waits. */
  predicate MayAddTrue(key: AKey, request: Request) {
    match request.goroutine
    case Answered(message) => message
    case Waiting =>
      (match request.handler
       case Deciding => Admits(key, request.query, request.header)
       case Downloading => true
       case Returning(message) => message
       case _ => request.sender.Sending? && request.sender.message)
    case _ => false
  }

  function OutstandingWeight(k: nat, key: AKey): Request -> nat {
    (q: Request) => if q.key == k && MayAddTrue(key, q) then 1 else 0
  }

  function Outstanding(s: State, k: nat): nat
    requires k < |s.cells|
  {
    SumBy(s.requests, OutstandingWeight(k, s.cells[k].key))
  }

  /** The true answers that were added, and those that may be without another request. */
  function Promised(s: State, k: nat): nat
    requires k < |s.cells|
  {
    TrueAnswers(s, k) + Outstanding(s, k)
  }

  lemma UpdateOutstanding(s: State, s': State, r: nat, k: nat)
    requires k < |s.cells| && k < |s'.cells| && s'.cells[k].key == s.cells[k].key
    requires r < |s.requests| == |s'.requests| && s'.requests == s.requests[r := s'.requests[r]]
    ensures Outstanding(s', k) + OutstandingWeight(k, s.cells[k].key)(s.requests[r]) ==
            Outstanding(s, k) + OutstandingWeight(k, s.cells[k].key)(s'.requests[r])
  {
    SumUpdate(s.requests, r, s'.requests[r], OutstandingWeight(k, s.cells[k].key));
  }

  lemma HandlerKeepsPromise(s: State, r: nat, completed: bool, k: nat)
    requires WellFormed(s) && CanHandle(s, r) && k < |s.cells|
    ensures Outstanding(NextHandler(s, r, completed), k) <= Outstanding(s, k)
    ensures completed ==> Outstanding(NextHandler(s, r, completed), k) == Outstanding(s, k)
  {
    assert RequestOkAt(s, r);
    UpdateOutstanding(s, NextHandler(s, r, completed), r, k);
  }

  lemma SelectKeepsPromise(s: State, r: nat, k: nat)
    requires WellFormed(s) && k < |s.cells|
    ensures CanReceive(s, r) ==> Outstanding(NextReceive(s, r), k) == Outstanding(s, k)
    ensures CanGiveUp(s, r) ==> Outstanding(NextGiveUp(s, r), k) <= Outstanding(s, k)
  {
    assert RequestOkAt(s, r);
    if CanReceive(s, r) {
      UpdateOutstanding(s, NextReceive(s, r), r, k);
    }
    if CanGiveUp(s, r) {
      UpdateOutstanding(s, NextGiveUp(s, r), r, k);
    }
  }

  lemma SettleKeepsPromise(s: State, r: nat, k: nat)
    requires WellFormed(s) && CanSettle(s, r) && k < |s.cells|
    ensures Promised(NextSettle(s, r), k) == Promised(s, k)
  {
    SettleMovesCount(s, r, k);
    UpdateOutstanding(s, NextSettle(s, r), r, k);
  }

  /** Only a new request can raise the promise. */
  lemma StepKeepsPromise(s: State, a: Action, k: nat)
    requires WellFormed(s) && Enabled(s, a) && !a.Serve? && k < |s.cells|
    ensures Promised(Next(s, a), k) <= Promised(s, k)
  {
    StepMovesCount(s, a, k);
    match a
    case HandlerStep(r, completed) => HandlerKeepsPromise(s, r, completed, k);
    case Receive(r) => SelectKeepsPromise(s, r, k);
    case GiveUp(r) => SelectKeepsPromise(s, r, k);
    case SettleStep(r) => SettleKeepsPromise(s, r, k);
    case _ =>
  }

  /** This action is a request for the key object that the key object admits. */
  predicate Grants(s: State, a: Action, k: nat) {
    && a.Serve? && k < |s.cells|
    && a.urlKey in s.store && s.store[a.urlKey] == k
    && Admits(s.cells[k].key, a.query, a.header)
  }

  lemma ServeRaisesPromise(s: State, a: Action, k: nat)
    requires a.Serve? && Enabled(s, a) && k < |s.cells|
    ensures Promised(Next(s, a), k) == Promised(s, k) + if Grants(s, a, k) then 1 else 0
  {
    StepMovesCount(s, a, k);
    if a.urlKey in s.store {
      SumAppend(s.requests, Next(s, a).requests[|s.requests|], OutstandingWeight(k, s.cells[k].key));
    }
  }

  ghost predicate NoServe(run: seq<Action>) {
    forall i :: 0 <= i < |run| ==> !run[i].Serve?
  }

  lemma {:induction false} RunKeepsPromise(s: State, run: seq<Action>, k: nat)
    requires WellFormed(s) && Allowed(s, run) && NoServe(run) && k < |s.cells|
    ensures k < |Exec(s, run).cells| && TrueAnswers(Exec(s, run), k) <= Promised(s, k)
    decreases |run|
  {
    if run != [] {
      StepKeepsPromise(s, run[0], k);
      StepKeepsWellFormed(s, run[0]);
      RunKeepsPromise(Next(s, run[0]), run[1..], k);
    }
  }

  /** The next step towards adding the outstanding answer of a request. */
  lemma Advance(s: State, r: nat) returns (a: Action)
    requires WellFormed(s) && r < |s.requests| && s.requests[r].key < |s.cells|
    requires MayAddTrue(s.cells[s.requests[r].key].key, s.requests[r])
    ensures Enabled(s, a) && (a == SettleStep(r) || a == Receive(r) || a == HandlerStep(r, true))
    ensures Promised(Next(s, a), s.requests[r].key) == Promised(s, s.requests[r].key)
  {
    var q := s.requests[r];
    assert RequestOkAt(s, r);
    if q.goroutine.Answered? {
      a := SettleStep(r);
      SettleKeepsPromise(s, r, q.key);
    } else if q.sender.Sending? {
      a := Receive(r);
      StepMovesCount(s, a, q.key);
      SelectKeepsPromise(s, r, q.key);
    } else {
      a := HandlerStep(r, true);
      StepMovesCount(s, a, q.key);
      HandlerKeepsPromise(s, r, true, q.key);
    }
  }

  /** The whole promise can come true. */
  lemma {:induction false} Fulfil(s: State, k: nat) returns (run: seq<Action>)
    requires WellFormed(s) && k < |s.cells|
    ensures Allowed(s, run) && AllInternal(run)
    ensures TrueAnswers(Exec(s, run), k) == Promised(s, k)
    decreases Work(s)
  {
    if r: nat :| r < |s.requests| && s.requests[r].key == k && MayAddTrue(s.cells[k].key, s.requests[r]) {
      var a := Advance(s, r);
      InternalStepFalls(s, a);
      StepKeepsWellFormed(s, a);
      var rest := Fulfil(Next(s, a), k);
      run := [a] + rest;
      assert run[1..] == rest;
    } else {
      run := [];
      SumZero(s.requests, OutstandingWeight(k, s.cells[k].key));
    }
  }

  /** Whatever happens without another request, no more than n true answers are added. */
  ghost predicate StaysWithin(s: State, k: nat, n: nat) {
    forall run: seq<Action> :: Allowed(s, run) && NoServe(run) ==> TrueAnswers(Exec(s, run), k) <= n
  }

  /** The promise says exactly what can still happen, however many requests overlap. */
  lemma PromiseIsExact(s: State, k: nat, n: nat)
    requires WellFormed(s) && k < |s.cells|
    ensures StaysWithin(s, k, n) <==> Promised(s, k) <= n
  {
    if Promised(s, k) <= n {
      forall run: seq<Action> | Allowed(s, run) && NoServe(run) ensures TrueAnswers(Exec(s, run), k) <= n {
        RunKeepsPromise(s, run, k);
      }
    } else {
      var run := Fulfil(s, k);
      assert Allowed(s, run) && NoServe(run);
    }
  }

  /** The guard a caller can check before each request: when the key object is going to admit it, fewer than n true
      answers are promised. */
  ghost predicate Guarded(s: State, run: seq<Action>, k: nat, n: nat)
    requires Allowed(s, run)
    decreases |run|
  {
    run == [] || ((Grants(s, run[0], k) ==> Promised(s, k) < n) && Guarded(Next(s, run[0]), run[1..], k, n))
  }

  /** At no point of the run can the true answers get above n without another request. */
  ghost predicate AlwaysWithin(s: State, run: seq<Action>, k: nat, n: nat)
    requires Allowed(s, run)
    decreases |run|
  {
    StaysWithin(s, k, n) && (run == [] || AlwaysWithin(Next(s, run[0]), run[1..], k, n))
  }

  lemma StepKeepsBoundIffGuarded(s: State, a: Action, k: nat, n: nat)
    requires WellFormed(s) && Enabled(s, a) && k < |s.cells| && Promised(s, k) <= n
    ensures k < |Next(s, a).cells|
    ensures Promised(Next(s, a), k) <= n <==> (Grants(s, a, k) ==> Promised(s, k) < n)
  {
    if a.Serve? {
      ServeRaisesPromise(s, a, k);
    } else {
      StepKeepsPromise(s, a, k);
    }
  }

  /** For every run, overlapping requests or not: the bound is never in danger if and only if every request that is
      admitted meets the guard. */
  lemma {:induction false} BoundIffGuarded(s: State, run: seq<Action>, k: nat, n: nat)
    requires WellFormed(s) && Allowed(s, run) && k < |s.cells| && Promised(s, k) <= n
    ensures Guarded(s, run, k, n) <==> AlwaysWithin(s, run, k, n)
    decreases |run|
  {
    PromiseIsExact(s, k, n);
    if run != [] {
      var s' := Next(s, run[0]);
      StepKeepsBoundIffGuarded(s, run[0], k, n);
      StepKeepsWellFormed(s, run[0]);
      if Promised(s', k) <= n {
        BoundIffGuarded(s', run[1..], k, n);
      } else {
        PromiseIsExact(s', k, n);
        assert !AlwaysWithin(s', run[1..], k, n);
      }
    }
  }

  /** Nothing is promised for a key object that is not there yet. */
  lemma NothingPromisedYet(s: State, key: AKey)
    requires WellFormed(s) && WellFormedKey(key)
    ensures Promised(Next(s, CallAdd(key)), |s.cells|) == 0
  {
    NoAnswersYet(s, |s.cells|);
    forall q | q in s.requests ensures OutstandingWeight(|s.cells|, key)(q) == 0 {
      var r: nat :| r < |s.requests| && s.requests[r] == q;
      assert RequestOkAt(s, r);
    }
    SumZero(s.requests, OutstandingWeight(|s.cells|, key));
  }

  /** The promise of a key object keeps within n, from before the key object is there. */
  ghost predicate PromiseWithin(s: State, k: nat, n: nat) {
    k < |s.cells| ==> Promised(s, k) <= n
  }

  lemma GuardedStepKeepsBound(s: State, a: Action, k: nat, n: nat)
    requires WellFormed(s) && Enabled(s, a) && PromiseWithin(s, k, n) && (Grants(s, a, k) ==> Promised(s, k) < n)
    ensures PromiseWithin(Next(s, a), k, n)
  {
    if k < |s.cells| {
      StepKeepsBoundIffGuarded(s, a, k, n);
    } else if a.CallAdd? && k == |s.cells| {
      NothingPromisedYet(s, a.newKey);
    }
  }

  lemma {:induction false} GuardedRunsKeepBound(s: State, run: seq<Action>, k: nat, n: nat)
    requires WellFormed(s) && Allowed(s, run) && PromiseWithin(s, k, n) && Guarded(s, run, k, n)
    ensures PromiseWithin(Exec(s, run), k, n)
    decreases |run|
  {
    if run != [] {
      GuardedStepKeepsBound(s, run[0], k, n);
      StepKeepsWellFormed(s, run[0]);
      GuardedRunsKeepBound(Next(s, run[0]), run[1..], k, n);
    }
  }
}
