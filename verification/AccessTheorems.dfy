/** What holds in every state that some interleaving of callers, handlers, timers and loops can produce. */
module AccessTheorems {
  import opened Common
  import opened AccessKeys
  import opened AccessProtocol
  import opened AccessCounting
  import opened AccessLimit
  import opened AccessExpiry
  import opened AccessRemoval
  import opened AccessDrain
  import opened Sums

  ghost predicate Safe(s: State) {
    && WellFormed(s)
    && (forall k: nat :: CountAt(s, k))
    && (forall r: nat :: CounterAt(s, r))
    && (forall k: nat :: ObligationAt(s, k))
    && (forall k: nat :: ExpiryAt(s, k))
    && (forall k: nat :: PresentAt(s, k))
    && (forall k: nat :: DeliveredAt(s, k))
  }

  lemma StepKeepsSafe(s: State, a: Action)
    requires Safe(s) && Enabled(s, a)
    ensures Safe(Next(s, a))
  {
    StepKeepsWellFormed(s, a);
    forall k: nat ensures CountAt(Next(s, a), k) { StepKeepsCount(s, a, k); }
    forall r: nat ensures CounterAt(Next(s, a), r) { StepKeepsCounter(s, a, r); }
    forall k: nat ensures ObligationAt(Next(s, a), k) { StepKeepsObligation(s, a, k); }
    forall k: nat ensures ExpiryAt(Next(s, a), k) { StepKeepsExpiry(s, a, k); }
    forall k: nat ensures PresentAt(Next(s, a), k) { StepKeepsPresent(s, a, k); }
    forall k: nat ensures DeliveredAt(Next(s, a), k) { StepKeepsDelivered(s, a, k); }
  }

  lemma {:induction false} RunKeepsSafe(s: State, run: seq<Action>)
    requires Safe(s) && Allowed(s, run)
    ensures Safe(Exec(s, run))
    decreases |run|
  {
    if run != [] {
      StepKeepsSafe(s, run[0]);
      RunKeepsSafe(Next(s, run[0]), run[1..]);
    }
  }

  lemma ReachableIsSafe(s: State)
    requires Reachable(s)
    ensures Safe(s)
  {
    var clock: int :| Reaches(Start(clock), s);
    var run: seq<Action> :| Allowed(Start(clock), run) && Exec(Start(clock), run) == s;
    RunKeepsSafe(Start(clock), run);
  }

  /** In every interleaving, a limited key that was used max(1, limit) times is out of the map or its kill is owed. */
  lemma LimitObligation(s: State, k: nat)
    requires Reachable(s) && k < |s.cells|
    requires s.cells[k].key.limited && s.cells[k].used >= Max(1, s.cells[k].key.limit)
    ensures !InMap(s, k) || KillOwed(s, k)
  {
    ReachableIsSafe(s);
    assert ObligationAt(s, k);
  }

  /** In every interleaving, an expiring key in the map has exactly one live source of timed removal, no key has more
      than one, and no timer goroutine stands before its send on killer while the clock is short of the ttl. */
  lemma ExpiryObligation(s: State, k: nat)
    requires Reachable(s) && k < |s.cells| && s.cells[k].key.expires
    ensures Sources(s, k) <= 1
    ensures InMap(s, k) ==> Sources(s, k) == 1
    ensures forall t: nat :: t < |s.timers| && s.timers[t].key == k && s.timers[t].phase.Firing? ==>
              s.clock >= Ttl(s.cells[k].key)
  {
    ReachableIsSafe(s);
    assert ExpiryAt(s, k) && CellOkAt(s, k);
    forall t: nat | t < |s.timers| && s.timers[t].key == k && s.timers[t].phase.Firing?
      ensures s.clock >= Ttl(s.cells[k].key)
    {
      NoEarlyKill(s, t);
    }
  }

  /** In every interleaving, the use counter of a key is the number of true answers its goroutines added, and each of
      them belongs to a request that was admitted and for which Download was called. */
  lemma UsesAreDownloads(s: State, k: nat)
    requires Reachable(s) && k < |s.cells|
    ensures s.cells[k].used == TrueAnswers(s, k) % UINT64_BOUND
    ensures TrueAnswers(s, k) <= Downloads(s, k)
    ensures SumBy(s.requests, AccessWeight(k)) ==
            SumBy(s.requests, WaitingWeight(k)) + SumBy(s.requests, CancelledWeight(k))
              + SumBy(s.requests, AnsweredWeight(k))
    ensures forall r: nat :: r < |s.requests| && s.requests[r].key == k && s.requests[r].downloaded ==>
              Admits(s.cells[k].key, s.requests[r].query, s.requests[r].header)
  {
    ReachableIsSafe(s);
    assert CountAt(s, k);
    AnswersNeedDownloads(s, k);
    forall r: nat | r < |s.requests| && s.requests[r].key == k && s.requests[r].downloaded
      ensures Admits(s.cells[k].key, s.requests[r].query, s.requests[r].header)
    {
      assert RequestOkAt(s, r);
    }
  }

  /** In every interleaving, a url key leaves the map only by DeleteKey from outside or by a justified kill. */
  lemma RemovalIsJustified(s: State, a: Action, u: string)
    requires Reachable(s) && Enabled(s, a) && u in s.store && u !in Next(s, a).store
    ensures
      || (a.DeleteStep? && s.deletes[a.d].urlKey == u)
      || (&& a.KillerStep?
          && s.killer.key < |s.cells|
          && s.cells[s.killer.key].key.urlKey == u
          && Justified(s, s.killer.key)
          && (Unique(s, s.killer.key) ==> s.store[u] == s.killer.key))
  {
    ReachableIsSafe(s);
    JustifiedRemoval(s, a, u);
  }

  /** A timer of this key is running and its time has not come. */
  ghost predicate TimerAhead(s: State, k: nat) {
    exists t: nat ::
      t < |s.timers| && s.timers[t].key == k && s.timers[t].phase.Running? && s.timers[t].phase.due > s.clock
  }

  /** The map holds no limited key with its limit used up, and for each expiring key a timer still to come. */
  ghost predicate NothingOverdue(s: State) {
    forall k: nat :: k < |s.cells| && InMap(s, k) ==>
      !Exhausted(s.cells[k]) && (s.cells[k].key.expires ==> TimerAhead(s, k))
  }

  lemma AtRest(s: State)
    requires WellFormed(s) && Quiet(s)
    ensures s.killer.Idle? && s.loop.Free?
    ensures forall k: nat :: k < |s.cells| ==> s.cells[k].adder.Added? || s.cells[k].adder.Refused?
    ensures forall t: nat :: t < |s.timers| ==>
              s.timers[t].phase.Fired? || (s.timers[t].phase.Running? && s.timers[t].phase.due > s.clock)
    ensures forall r: nat :: r < |s.requests| ==>
              var g := s.requests[r].goroutine; g.Cancelled? || g.Killed? || g.Spared?
    ensures forall d: nat :: d < |s.deletes| ==> s.deletes[d].progress.Returned?
  {
    assert !Enabled(s, KillerStep) && !Enabled(s, LoopStep);
    forall k: nat | k < |s.cells| ensures s.cells[k].adder.Added? || s.cells[k].adder.Refused? {
      assert !Enabled(s, AddStep(k));
    }
    forall t: nat | t < |s.timers|
      ensures s.timers[t].phase.Fired? || (s.timers[t].phase.Running? && s.timers[t].phase.due > s.clock)
    {
      assert !Enabled(s, TimerStep(t));
    }
    forall r: nat | r < |s.requests|
      ensures var g := s.requests[r].goroutine; g.Cancelled? || g.Killed? || g.Spared?
    {
      assert RequestOkAt(s, r);
      assert !Enabled(s, SettleStep(r)) && !Enabled(s, HandlerStep(r, true)) && !Enabled(s, GiveUp(r));
    }
    forall d: nat | d < |s.deletes| ensures s.deletes[d].progress.Returned? {
      assert !Enabled(s, DeleteStep(d));
    }
  }

  lemma RestIsUnexhausted(s: State, k: nat)
    requires Safe(s) && Quiet(s) && k < |s.cells| && InMap(s, k)
    ensures !Exhausted(s.cells[k])
  {
    AtRest(s);
    assert ObligationAt(s, k);
    forall r: nat | r < |s.requests| ensures !Owes(s.requests[r], k, s.cells[k].key.limit) {}
    assert !KillOwed(s, k);
  }

  lemma RestIsUnexpired(s: State, k: nat)
    requires Safe(s) && Quiet(s) && k < |s.cells| && InMap(s, k) && s.cells[k].key.expires
    ensures TimerAhead(s, k)
  {
    AtRest(s);
    assert ExpiryAt(s, k);
    if forall q :: q in s.timers ==> LiveWeight(k)(q) == 0 {
      SumZero(s.timers, LiveWeight(k));
    } else {
      var q :| q in s.timers && LiveWeight(k)(q) != 0;
      var t: nat :| t < |s.timers| && s.timers[t] == q;
    }
  }

  lemma RestIsEnforced(s: State)
    requires Safe(s) && Quiet(s)
    ensures NothingOverdue(s)
  {
    forall k: nat | k < |s.cells| && InMap(s, k)
      ensures !Exhausted(s.cells[k]) && (s.cells[k].key.expires ==> TimerAhead(s, k))
    {
      RestIsUnexhausted(s, k);
      if s.cells[k].key.expires {
        RestIsUnexpired(s, k);
      }
    }
  }

  /** Left alone, the goroutines stop after at most Work(s) steps of their own, in whatever order they are scheduled
      (GoroutinesStop). Where they stop, no send is blocked, no kill is in hand, and the map holds no spent or due
      key. */
  lemma RestIsInOrder(s: State)
    requires Reachable(s) && Quiet(s)
    ensures !Pending(s) && NothingOverdue(s)
  {
    ReachableIsSafe(s);
    QuietIsNotPending(s);
    RestIsEnforced(s);
  }

  ghost predicate NoExpiringLeft(s: State) {
    forall k: nat :: k < |s.cells| && InMap(s, k) ==> !s.cells[k].key.expires
  }

  /** Once its timer is due, a timer goroutine goes on. */
  lemma WaitForTimer(s: State, t: nat)
    requires Safe(s) && t < |s.timers| && s.timers[t].phase.Running? && s.timers[t].phase.due > s.clock
    ensures var due := Next(s, Tick(s.timers[t].phase.due));
      && Enabled(due, TimerStep(t)) && Safe(Next(due, TimerStep(t))) && Work(Next(due, TimerStep(t))) < Work(s)
  {
    var tick := Tick(s.timers[t].phase.due);
    StepKeepsSafe(s, tick);
    InternalStepFalls(Next(s, tick), TimerStep(t));
    StepKeepsSafe(Next(s, tick), TimerStep(t));
  }

  lemma TimerOfExpiring(s: State, k: nat) returns (t: nat)
    requires Safe(s) && Quiet(s) && k < |s.cells| && InMap(s, k) && s.cells[k].key.expires
    ensures t < |s.timers| && s.timers[t].phase.Running? && s.timers[t].phase.due > s.clock
  {
    RestIsUnexpired(s, k);
    t :| t < |s.timers| && s.timers[t].key == k && s.timers[t].phase.Running? && s.timers[t].phase.due > s.clock;
  }

  lemma OneFirst(s: State, a: Action, rest: seq<Action>)
    requires Enabled(s, a) && Allowed(Next(s, a), rest)
    ensures Allowed(s, [a] + rest) && Exec(s, [a] + rest) == Exec(Next(s, a), rest)
  {
    assert ([a] + rest)[1..] == rest;
  }

  lemma TwoFirst(s: State, a: Action, b: Action, rest: seq<Action>)
    requires Enabled(s, a) && Enabled(Next(s, a), b) && Allowed(Next(Next(s, a), b), rest)
    ensures Allowed(s, [a, b] + rest) && Exec(s, [a, b] + rest) == Exec(Next(Next(s, a), b), rest)
  {
    OneFirst(Next(s, a), b, rest);
    OneFirst(s, a, [b] + rest);
    assert [a, b] + rest == [a] + ([b] + rest);
  }

  /** Left alone while the clock moves, the store can come to rest without any expiring key in the map. */
  lemma {:induction false} TimeRunsOut(s: State) returns (run: seq<Action>)
    requires Safe(s)
    ensures Allowed(s, run) && LeftAlone(run) && Quiet(Exec(s, run)) && NoExpiringLeft(Exec(s, run))
    decreases Work(s)
  {
    if a: Action :| Internal(a) && Enabled(s, a) {
      InternalStepFalls(s, a);
      StepKeepsSafe(s, a);
      var rest := TimeRunsOut(Next(s, a));
      OneFirst(s, a, rest);
      run := [a] + rest;
    } else if k: nat :| k < |s.cells| && InMap(s, k) && s.cells[k].key.expires {
      var t := TimerOfExpiring(s, k);
      var tick := Tick(s.timers[t].phase.due);
      WaitForTimer(s, t);
      var rest := TimeRunsOut(Next(Next(s, tick), TimerStep(t)));
      TwoFirst(s, tick, TimerStep(t), rest);
      run := [tick, TimerStep(t)] + rest;
    } else {
      run := [];
    }
  }
}
