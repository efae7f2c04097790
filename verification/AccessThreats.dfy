/** What can take a url key out of the map without another call from outside, in every state
    (access/memory.go:20-44, 60-94). */
module AccessThreats {
  import opened Common
  import opened AccessProtocol
  import opened AccessCounting
  import opened AccessDrain
  import opened AccessPromise
  import opened AccessTheorems
  import opened Sums

  /** This key object has the url key. */
  predicate Under(s: State, k: nat, u: string) {
    k < |s.cells| && s.cells[k].key.urlKey == u
  }

  /** The timer loop holds such a key object. */
  predicate LoopThreat(s: State, u: string) {
    s.loop.Holding? && Under(s, s.loop.key, u)
  }

  /** The killer loop is at work for one. */
  predicate KillerThreat(s: State, u: string) {
    !s.killer.Idle? && Under(s, s.killer.key, u)
  }

  /** An AddKey call is going to hand one over to the timer loop. */
  predicate AdderThreat(s: State, k: nat, u: string) {
    Under(s, k, u) && (s.cells[k].adder.Handing? || (s.cells[k].adder.Storing? && s.cells[k].key.expires))
  }

  /** A timer of one has not sent its kill. */
  predicate TimerThreat(s: State, t: nat, u: string) {
    t < |s.timers| && Under(s, s.timers[t].key, u) && !s.timers[t].phase.Fired?
  }

  /** A DeleteKey call for the url key has not returned. */
  predicate DeleteThreat(s: State, d: nat, u: string) {
    d < |s.deletes| && s.deletes[d].urlKey == u && !s.deletes[d].progress.Returned?
  }

  /** A goroutine of a limited one is going to send a kill, or has yet to load the counter and the answers promised to
      the key object reach the limit. It may be a request that is not granted. */
  predicate RequestThreat(s: State, r: nat, u: string) {
    && RequestAt(s, r) && Under(s, s.requests[r].key, u) && s.cells[s.requests[r].key].key.limited
    && var limit := s.cells[s.requests[r].key].key.limit;
       match s.requests[r].goroutine
       case Waiting => Promised(s, s.requests[r].key) >= limit
       case Answered(_) => Promised(s, s.requests[r].key) >= limit
       case Counted(_) => Promised(s, s.requests[r].key) >= limit
       case ReadBack(_, counter) => counter >= limit
       case Killing(_, _) => true
       case _ => false
  }

  ghost predicate Threatened(s: State, u: string) {
    || LoopThreat(s, u)
    || KillerThreat(s, u)
    || (exists k: nat :: AdderThreat(s, k, u))
    || (exists t: nat :: TimerThreat(s, t, u))
    || (exists d: nat :: DeleteThreat(s, d, u))
    || (exists r: nat :: RequestThreat(s, r, u))
  }

  /** The counters have not wrapped and are not going to. */
  ghost predicate Countable(s: State) {
    && WellFormed(s)
    && (forall k: nat :: CountAt(s, k))
    && (forall k: nat :: k < |s.cells| ==> Promised(s, k) < UINT64_BOUND)
  }

  lemma CounterIsCount(s: State, k: nat)
    requires Countable(s) && k < |s.cells|
    ensures s.cells[k].used == TrueAnswers(s, k) <= Promised(s, k)
  {
    assert CountAt(s, k) && Promised(s, k) < UINT64_BOUND;
  }

  lemma StepKeepsCountable(s: State, a: Action)
    requires Countable(s) && Enabled(s, a) && (Internal(a) || a.Tick?)
    ensures Countable(Next(s, a))
  {
    StepKeepsWellFormed(s, a);
    forall k: nat ensures CountAt(Next(s, a), k) { StepKeepsCount(s, a, k); }
    forall k: nat | k < |Next(s, a).cells| ensures Promised(Next(s, a), k) < UINT64_BOUND {
      StepKeepsPromise(s, a, k);
    }
  }

  // ---- No threat comes out of nothing ----

  lemma LoopThreatBefore(s: State, a: Action, u: string)
    requires Enabled(s, a) && (Internal(a) || a.Tick?) && LoopThreat(Next(s, a), u)
    ensures Threatened(s, u)
  {
    if a.AddStep? && s.cells[a.k].adder.Handing? {
      assert AdderThreat(s, a.k, u);
    } else {
      assert LoopThreat(s, u);
    }
  }

  lemma KillerThreatBefore(s: State, a: Action, u: string)
    requires WellFormed(s) && Enabled(s, a) && (Internal(a) || a.Tick?) && KillerThreat(Next(s, a), u)
    ensures Threatened(s, u)
  {
    if a.TimerStep? && s.timers[a.t].phase.Firing? {
      assert TimerThreat(s, a.t, u);
    } else if a.SettleStep? && s.requests[a.r].goroutine.Killing? {
      assert RequestOkAt(s, a.r);
      assert RequestThreat(s, a.r, u);
    } else {
      assert KillerThreat(s, u);
    }
  }

  lemma AdderThreatBefore(s: State, a: Action, k: nat, u: string)
    requires Enabled(s, a) && (Internal(a) || a.Tick?) && u in s.store && AdderThreat(Next(s, a), k, u)
    ensures AdderThreat(s, k, u)
  {
  }

  lemma TimerThreatBefore(s: State, a: Action, t: nat, u: string)
    requires Enabled(s, a) && (Internal(a) || a.Tick?) && TimerThreat(Next(s, a), t, u)
    ensures Threatened(s, u)
  {
    if a.LoopStep? && t == |s.timers| {
      assert LoopThreat(s, u);
    } else {
      assert TimerThreat(s, t, u);
    }
  }

  lemma DeleteThreatBefore(s: State, a: Action, d: nat, u: string)
    requires Enabled(s, a) && (Internal(a) || a.Tick?) && DeleteThreat(Next(s, a), d, u)
    ensures DeleteThreat(s, d, u)
  {
  }

  /** What a threat by a request depends on. */
  lemma SameRequestThreat(s: State, s': State, r: nat, u: string)
    requires RequestThreat(s', r, u) && RequestAt(s, r) && s.requests[r].key == s'.requests[r].key
    requires s.cells[s.requests[r].key].key == s'.cells[s.requests[r].key].key
    requires Promised(s', s.requests[r].key) <= Promised(s, s.requests[r].key)
    requires s'.requests[r].goroutine == s.requests[r].goroutine
             || (s.requests[r].goroutine.Waiting?
                 && !s'.requests[r].goroutine.ReadBack? && !s'.requests[r].goroutine.Killing?)
    ensures RequestThreat(s, r, u)
  {
  }

  lemma SettleThreatBefore(s: State, q: nat, r: nat, u: string)
    requires Countable(s) && CanSettle(s, q) && RequestThreat(NextSettle(s, q), r, u)
    ensures RequestThreat(s, r, u)
  {
    var k := s.requests[r].key;
    SettleKeepsPromise(s, q, k);
    CounterIsCount(s, k);
    if q != r {
      SameRequestThreat(s, NextSettle(s, q), r, u);
    }
  }

  lemma RequestThreatBefore(s: State, a: Action, r: nat, u: string)
    requires Countable(s) && Enabled(s, a) && (Internal(a) || a.Tick?) && RequestThreat(Next(s, a), r, u)
    ensures RequestThreat(s, r, u)
  {
    if a.SettleStep? {
      SettleThreatBefore(s, a.r, r, u);
    } else {
      StepKeepsPromise(s, a, s.requests[r].key);
      SameRequestThreat(s, Next(s, a), r, u);
    }
  }

  lemma LeavingNeedsThreat(s: State, a: Action, u: string)
    requires WellFormed(s) && Enabled(s, a) && (Internal(a) || a.Tick?) && u in s.store && u !in Next(s, a).store
    ensures Threatened(s, u)
  {
    if a.DeleteStep? {
      assert DeleteThreat(s, a.d, u);
    } else {
      assert KillerThreat(s, u);
    }
  }

  lemma StepStaysSafe(s: State, a: Action, u: string)
    requires Countable(s) && Enabled(s, a) && (Internal(a) || a.Tick?) && u in s.store && !Threatened(s, u)
    ensures u in Next(s, a).store && !Threatened(Next(s, a), u)
  {
    var s' := Next(s, a);
    if u !in s'.store {
      LeavingNeedsThreat(s, a, u);
    }
    if LoopThreat(s', u) {
      LoopThreatBefore(s, a, u);
    }
    if KillerThreat(s', u) {
      KillerThreatBefore(s, a, u);
    }
    forall k: nat ensures !AdderThreat(s', k, u) {
      if AdderThreat(s', k, u) { AdderThreatBefore(s, a, k, u); }
    }
    forall t: nat ensures !TimerThreat(s', t, u) {
      if TimerThreat(s', t, u) { TimerThreatBefore(s, a, t, u); }
    }
    forall d: nat ensures !DeleteThreat(s', d, u) {
      if DeleteThreat(s', d, u) { DeleteThreatBefore(s, a, d, u); }
    }
    forall r: nat ensures !RequestThreat(s', r, u) {
      if RequestThreat(s', r, u) { RequestThreatBefore(s, a, r, u); }
    }
  }

  lemma {:induction false} RunStaysSafe(s: State, run: seq<Action>, u: string)
    requires Countable(s) && Allowed(s, run) && LeftAlone(run) && u in s.store && !Threatened(s, u)
    ensures u in Exec(s, run).store
    decreases |run|
  {
    if run != [] {
      StepStaysSafe(s, run[0], u);
      StepKeepsCountable(s, run[0]);
      RunStaysSafe(Next(s, run[0]), run[1..], u);
    }
  }

  // ---- Every threat can be carried out ----

  ghost predicate LoadersWait(s: State, s': State) {
    && |s.cells| == |s'.cells|
    && forall k: nat :: k < |s.cells| && s.cells[k].adder.Loading? ==> s'.cells[k] == s.cells[k]
  }

  /** The step brings the removal nearer: the url key is gone, or still threatened. AddKey calls that have yet to look
      the url key up are left where they are. */
  ghost predicate Nearer(s: State, a: Action, u: string) {
    && Enabled(s, a) && Internal(a)
    && (u !in Next(s, a).store || Threatened(Next(s, a), u))
    && LoadersWait(s, Next(s, a))
  }

  lemma KillerGoesOn(s: State, u: string)
    requires WellFormed(s) && Threatened(s, u) && u in s.store && !s.killer.Idle?
    ensures Nearer(s, KillerStep, u)
  {
    var s' := Next(s, KillerStep);
    if !KillerThreat(s, u) {
      if k: nat :| AdderThreat(s, k, u) {
        assert AdderThreat(s', k, u);
      } else if t: nat :| TimerThreat(s, t, u) {
        assert TimerThreat(s', t, u);
      } else if d: nat :| DeleteThreat(s, d, u) {
        assert DeleteThreat(s', d, u);
      } else if r: nat :| RequestThreat(s, r, u) {
        assert RequestThreat(s', r, u);
      } else {
        assert LoopThreat(s', u);
      }
    }
  }

  lemma LoopGoesOn(s: State, u: string)
    requires WellFormed(s) && Threatened(s, u) && s.killer.Idle? && s.loop.Holding?
    ensures Nearer(s, LoopStep, u)
  {
    var s' := Next(s, LoopStep);
    if LoopThreat(s, u) {
      assert TimerThreat(s', |s.timers|, u);
    } else if k: nat :| AdderThreat(s, k, u) {
      assert AdderThreat(s', k, u);
    } else if t: nat :| TimerThreat(s, t, u) {
      assert TimerThreat(s', t, u);
    } else if d: nat :| DeleteThreat(s, d, u) {
      assert DeleteThreat(s', d, u);
    } else {
      var r: nat :| RequestThreat(s, r, u);
      assert RequestThreat(s', r, u);
    }
  }

  lemma AdderGoesOn(s: State, k: nat, u: string)
    requires AdderThreat(s, k, u) && s.loop.Free?
    ensures Nearer(s, AddStep(k), u)
  {
    var s' := Next(s, AddStep(k));
    assert AdderThreat(s', k, u) || LoopThreat(s', u);
  }

  lemma TimerGoesOn(s: State, t: nat, u: string)
    requires TimerThreat(s, t, u) && CanTimer(s, t)
    ensures Nearer(s, TimerStep(t), u)
  {
    var s' := Next(s, TimerStep(t));
    assert TimerThreat(s', t, u) || KillerThreat(s', u);
  }

  lemma DeleteGoesOn(s: State, d: nat, u: string)
    requires DeleteThreat(s, d, u) && u in s.store
    ensures Nearer(s, DeleteStep(d), u)
  {
    var s' := Next(s, DeleteStep(d));
    assert DeleteThreat(s', d, u) || u !in s'.store;
  }

  /** A request that waits or was answered goes on by itself. */
  lemma AnswerGoesOn(s: State, r: nat, u: string) returns (a: Action)
    requires WellFormed(s) && RequestThreat(s, r, u)
    requires s.requests[r].goroutine.Waiting? || s.requests[r].goroutine.Answered?
    ensures Nearer(s, a, u)
  {
    var k := s.requests[r].key;
    assert RequestOkAt(s, r);
    if s.requests[r].goroutine.Answered? {
      a := SettleStep(r);
      SettleKeepsPromise(s, r, k);
    } else if s.requests[r].sender.Sending? {
      a := Receive(r);
      StepMovesCount(s, a, k);
      SelectKeepsPromise(s, r, k);
    } else {
      a := HandlerStep(r, true);
      StepMovesCount(s, a, k);
      HandlerKeepsPromise(s, r, true, k);
    }
    assert RequestThreat(Next(s, a), r, u);
  }

  lemma AdvanceLeavesOthers(s: State, q: nat, r: nat, a: Action)
    requires WellFormed(s) && q < |s.requests| && r < |s.requests| && q != r && Enabled(s, a)
    requires a == SettleStep(q) || a == Receive(q) || a == HandlerStep(q, true)
    ensures Next(s, a).requests[r] == s.requests[r] && |Next(s, a).requests| == |s.requests|
    ensures |Next(s, a).cells| == |s.cells|
    ensures forall k: nat :: k < |s.cells| ==>
              Next(s, a).cells[k].key == s.cells[k].key && Next(s, a).cells[k].adder == s.cells[k].adder
  {
  }

  /** A request that has added its answer lets the others add theirs first, and then loads a counter that has reached
      the limit. */
  lemma CountedGoesOn(s: State, r: nat, u: string) returns (a: Action)
    requires Countable(s) && RequestThreat(s, r, u) && s.requests[r].goroutine.Counted?
    ensures Nearer(s, a, u)
  {
    var k := s.requests[r].key;
    if q: nat :| q < |s.requests| && s.requests[q].key == k && MayAddTrue(s.cells[k].key, s.requests[q]) {
      assert RequestOkAt(s, q);
      a := Advance(s, q);
      AdvanceLeavesOthers(s, q, r, a);
      assert RequestThreat(Next(s, a), r, u);
    } else {
      SumZero(s.requests, OutstandingWeight(k, s.cells[k].key));
      CounterIsCount(s, k);
      assert RequestOkAt(s, r);
      a := SettleStep(r);
      assert RequestThreat(Next(s, a), r, u);
    }
  }

  lemma LateGoesOn(s: State, r: nat, u: string) returns (a: Action)
    requires WellFormed(s) && RequestThreat(s, r, u) && s.killer.Idle?
    requires s.requests[r].goroutine.ReadBack? || s.requests[r].goroutine.Killing?
    ensures Nearer(s, a, u)
  {
    a := SettleStep(r);
    assert RequestThreat(Next(s, a), r, u) || KillerThreat(Next(s, a), u);
  }

  lemma RequestGoesOn(s: State, r: nat, u: string) returns (a: Action)
    requires Countable(s) && RequestThreat(s, r, u) && s.killer.Idle?
    ensures Nearer(s, a, u)
  {
    if s.requests[r].goroutine.Waiting? || s.requests[r].goroutine.Answered? {
      a := AnswerGoesOn(s, r, u);
    } else if s.requests[r].goroutine.Counted? {
      a := CountedGoesOn(s, r, u);
    } else {
      a := LateGoesOn(s, r, u);
    }
  }

  predicate NotDue(s: State, t: nat) {
    t < |s.timers| && s.timers[t].phase.Running? && s.timers[t].phase.due > s.clock
  }

  /** The next step, unless only a timer is left whose time has not come. */
  lemma GoOn(s: State, u: string) returns (a: Action)
    requires Countable(s) && Threatened(s, u) && u in s.store
    requires forall t: nat :: TimerThreat(s, t, u) ==> !NotDue(s, t) || !s.killer.Idle?
    ensures Nearer(s, a, u)
  {
    if !s.killer.Idle? {
      a := KillerStep;
      KillerGoesOn(s, u);
    } else if s.loop.Holding? {
      a := LoopStep;
      LoopGoesOn(s, u);
    } else if k: nat :| AdderThreat(s, k, u) {
      a := AddStep(k);
      AdderGoesOn(s, k, u);
    } else if t: nat :| TimerThreat(s, t, u) {
      a := TimerStep(t);
      TimerGoesOn(s, t, u);
    } else if d: nat :| DeleteThreat(s, d, u) {
      a := DeleteStep(d);
      DeleteGoesOn(s, d, u);
    } else {
      var r: nat :| RequestThreat(s, r, u);
      a := RequestGoesOn(s, r, u);
    }
  }

  /** The timer fires, its goroutine sends, and the killer loop deletes what is under the url key by then. */
  lemma FireTimer(s: State, t: nat, u: string) returns (run: seq<Action>)
    requires WellFormed(s) && s.killer.Idle? && TimerThreat(s, t, u) && NotDue(s, t) && u in s.store
    ensures Allowed(s, run) && LeftAlone(run) && u !in Exec(s, run).store && Exec(s, run).cells == s.cells
  {
    var tick := Tick(s.timers[t].phase.due);
    var fired := Next(Next(Next(s, tick), TimerStep(t)), TimerStep(t));
    var gone := Next(Next(fired, KillerStep), KillerStep);
    assert Allowed(gone, []) && Exec(gone, []) == gone;
    TwoFirst(fired, KillerStep, KillerStep, []);
    OneFirst(Next(Next(s, tick), TimerStep(t)), TimerStep(t), [KillerStep, KillerStep] + []);
    TwoFirst(s, tick, TimerStep(t), [TimerStep(t)] + ([KillerStep, KillerStep] + []));
    run := [tick, TimerStep(t)] + ([TimerStep(t)] + ([KillerStep, KillerStep] + []));
  }

  lemma {:induction false} Strike(s: State, u: string) returns (run: seq<Action>)
    requires Countable(s) && Threatened(s, u) && u in s.store
    ensures Allowed(s, run) && LeftAlone(run) && u !in Exec(s, run).store && LoadersWait(s, Exec(s, run))
    decreases Work(s)
  {
    if t: nat :| s.killer.Idle? && TimerThreat(s, t, u) && NotDue(s, t) {
      run := FireTimer(s, t, u);
    } else {
      var a := GoOn(s, u);
      var rest := [];
      if u in Next(s, a).store {
        StepKeepsCountable(s, a);
        InternalStepFalls(s, a);
        rest := Strike(Next(s, a), u);
      }
      OneFirst(s, a, rest);
      run := [a] + rest;
    }
  }

  /** The url key can be taken out of the map without another call from outside. */
  ghost predicate CanGo(s: State, u: string) {
    exists run: seq<Action> :: Allowed(s, run) && LeftAlone(run) && u !in Exec(s, run).store
  }

  lemma CountableGoesIffThreatened(s: State, u: string)
    requires Countable(s) && u in s.store
    ensures CanGo(s, u) <==> Threatened(s, u)
  {
    if Threatened(s, u) {
      var run := Strike(s, u);
    } else {
      forall run: seq<Action> | Allowed(s, run) && LeftAlone(run) ensures u in Exec(s, run).store {
        RunStaysSafe(s, run, u);
      }
    }
  }

  lemma ReachableIsCountable(s: State)
    requires Reachable(s) && forall k: nat :: k < |s.cells| ==> Promised(s, k) < UINT64_BOUND
    ensures Countable(s)
  {
    ReachableIsSafe(s);
  }

  /** In every reachable state, whatever is under way: a url key in the map can go without another call from outside if
      and only if it is threatened. Whose key object is in the map does not matter. */
  lemma GoesIffThreatened(s: State, u: string)
    requires Reachable(s) && u in s.store
    requires forall k: nat :: k < |s.cells| ==> Promised(s, k) < UINT64_BOUND
    ensures CanGo(s, u) <==> Threatened(s, u)
  {
    ReachableIsCountable(s);
    CountableGoesIffThreatened(s, u);
  }
}
