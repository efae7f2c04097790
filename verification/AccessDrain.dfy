/** Left alone, the goroutines of the store finish (access/memory.go:20-44, 72-80). */
module AccessDrain {
  import opened AccessProtocol
  import opened Sums

  /** Steps taken without a new call from outside and without the clock moving. */
  predicate Internal(a: Action) {
    !a.CallAdd? && !a.Serve? && !a.CallDelete? && !a.Tick?
  }

  /** Some goroutine is blocked sending on killer or timeKiller, or the killer loop has work in hand. */
  ghost predicate Pending(s: State) {
    || !s.killer.Idle?
    || (exists k: nat :: k < |s.cells| && s.cells[k].adder.Handing?)
    || (exists t: nat :: t < |s.timers| && s.timers[t].phase.Firing?)
    || (exists r: nat :: r < |s.requests| && s.requests[r].goroutine.Killing?)
  }

  ghost predicate Quiet(s: State) {
    forall a: Action :: Internal(a) ==> !Enabled(s, a)
  }

  function AdderWork(): Cell -> nat {
    (c: Cell) => match c.adder
      case Loading => 10
      case Storing => 9
      case Handing => 8
      case _ => 0
  }

  function LoopWork(loop: TimerLoop): nat {
    if loop.Holding? then 7 else 0
  }

  function TimerWork(): Timer -> nat {
    (t: Timer) => match t.phase
      case Starting(_) => 6
      case Running(_) => 5
      case Firing => 4
      case Fired => 0
  }

  function RequestWork(): Request -> nat {
    (q: Request) =>
      (match q.handler
       case Deciding => 4
       case Downloading => 3
       case Returning(_) => 2
       case Launched => 1
       case Closed => 0)
      +
      (match q.goroutine
       case Waiting => 8
       case Answered(_) => 7
       case Counted(_) => 6
       case ReadBack(_, _) => 5
       case Killing(_, _) => 4
       case _ => 0)
  }

  function DeleteWork(): DeleteCall -> nat {
    (d: DeleteCall) => match d.progress
      case Looking => 2
      case Removing => 1
      case Returned(_) => 0
  }

  function KillerWork(killer: Killer): nat {
    match killer
    case Idle => 0
    case Deleting(_, _) => 1
    case Received(_, _) => 2
  }

  /** How many internal steps can follow, at most. */
  function Work(s: State): nat {
    SumBy(s.cells, AdderWork()) + LoopWork(s.loop) + SumBy(s.timers, TimerWork())
    + SumBy(s.requests, RequestWork()) + SumBy(s.deletes, DeleteWork()) + KillerWork(s.killer)
  }

  lemma RequestStepFalls(s: State, s': State, r: nat)
    requires r < |s.requests| == |s'.requests| && s'.requests == s.requests[r := s'.requests[r]]
    requires s'.deletes == s.deletes && s'.timers == s.timers && s'.loop == s.loop
    requires SumBy(s'.cells, AdderWork()) == SumBy(s.cells, AdderWork())
    requires RequestWork()(s'.requests[r]) + KillerWork(s'.killer) < RequestWork()(s.requests[r]) + KillerWork(s.killer)
    ensures Work(s') < Work(s)
  {
    SumUpdate(s.requests, r, s'.requests[r], RequestWork());
  }

  lemma SettleFalls(s: State, r: nat)
    requires CanSettle(s, r)
    ensures Work(NextSettle(s, r)) < Work(s)
  {
    var s' := NextSettle(s, r);
    var k := s.requests[r].key;
    if s'.cells != s.cells {
      SumUpdate(s.cells, k, s'.cells[k], AdderWork());
    }
    RequestStepFalls(s, s', r);
  }

  lemma AddFalls(s: State, k: nat)
    requires CanAdd(s, k)
    ensures Work(NextAdd(s, k)) < Work(s)
  {
    SumUpdate(s.cells, k, NextAdd(s, k).cells[k], AdderWork());
  }

  lemma LoopFalls(s: State)
    requires CanLoop(s)
    ensures Work(NextLoop(s)) < Work(s)
  {
    SumAppend(s.timers, NextLoop(s).timers[|s.timers|], TimerWork());
  }

  lemma TimerFalls(s: State, t: nat)
    requires CanTimer(s, t)
    ensures Work(NextTimer(s, t)) < Work(s)
  {
    SumUpdate(s.timers, t, NextTimer(s, t).timers[t], TimerWork());
  }

  lemma DeleteFalls(s: State, d: nat)
    requires CanDelete(s, d)
    ensures Work(NextDelete(s, d)) < Work(s)
  {
    SumUpdate(s.deletes, d, NextDelete(s, d).deletes[d], DeleteWork());
  }

  lemma HandlerFalls(s: State, r: nat, completed: bool)
    requires CanHandle(s, r)
    ensures Work(NextHandler(s, r, completed)) < Work(s)
  {
    RequestStepFalls(s, NextHandler(s, r, completed), r);
  }

  /** Every internal step leaves less work. */
  lemma InternalStepFalls(s: State, a: Action)
    requires Enabled(s, a) && Internal(a)
    ensures Work(Next(s, a)) < Work(s)
  {
    match a
    case AddStep(k) => AddFalls(s, k);
    case LoopStep => LoopFalls(s);
    case TimerStep(t) => TimerFalls(s, t);
    case HandlerStep(r, completed) => HandlerFalls(s, r, completed);
    case Receive(r) => RequestStepFalls(s, NextReceive(s, r), r);
    case GiveUp(r) => RequestStepFalls(s, NextGiveUp(s, r), r);
    case SettleStep(r) => SettleFalls(s, r);
    case KillerStep =>
    case DeleteStep(d) => DeleteFalls(s, d);
  }

  ghost predicate AllInternal(run: seq<Action>) {
    forall i :: 0 <= i < |run| ==> Internal(run[i])
  }

  /** Nothing is called from outside, and the clock may move. */
  ghost predicate LeftAlone(run: seq<Action>) {
    forall i :: 0 <= i < |run| ==> Internal(run[i]) || run[i].Tick?
  }

  /** The steps the goroutines take in a run, between the moves of the clock. */
  function Moves(run: seq<Action>): nat {
    if run == [] then 0 else (if Internal(run[0]) then 1 else 0) + Moves(run[1..])
  }

  /** However the clock moves meanwhile, the goroutines take no more steps than there was work to begin with. */
  lemma {:induction false} GoroutinesStop(s: State, run: seq<Action>)
    requires Allowed(s, run) && LeftAlone(run)
    ensures Work(Exec(s, run)) + Moves(run) <= Work(s)
    decreases |run|
  {
    if run != [] {
      if Internal(run[0]) {
        InternalStepFalls(s, run[0]);
      }
      GoroutinesStop(Next(s, run[0]), run[1..]);
    }
  }

  /** No deadlock: as long as a send or a kill is pending, one of the store's own loops, or a send it is ready for,
      can move. */
  lemma PendingMoves(s: State)
    requires WellFormed(s) && Pending(s)
    ensures exists a: Action ::
      (a.KillerStep? || a.LoopStep? || a.AddStep? || a.TimerStep? || a.SettleStep?) && Enabled(s, a)
  {
    if !s.killer.Idle? {
      assert Enabled(s, KillerStep);
    } else if s.loop.Holding? {
      assert Enabled(s, LoopStep);
    } else if k: nat :| k < |s.cells| && s.cells[k].adder.Handing? {
      assert Enabled(s, AddStep(k));
    } else if t: nat :| t < |s.timers| && s.timers[t].phase.Firing? {
      assert Enabled(s, TimerStep(t));
    } else {
      var r: nat :| r < |s.requests| && s.requests[r].goroutine.Killing?;
      assert RequestOkAt(s, r);
      assert Enabled(s, SettleStep(r));
    }
  }

  lemma QuietIsNotPending(s: State)
    requires WellFormed(s) && Quiet(s)
    ensures !Pending(s)
  {
    if Pending(s) {
      PendingMoves(s);
      assert false;
    }
  }

  /** There is a run of internal steps to the end. */
  lemma {:induction false} Drain(s: State) returns (run: seq<Action>)
    requires WellFormed(s)
    ensures Allowed(s, run) && AllInternal(run) && |run| <= Work(s)
    ensures Quiet(Exec(s, run)) && !Pending(Exec(s, run))
    decreases Work(s)
  {
    if Quiet(s) {
      run := [];
      QuietIsNotPending(s);
    } else {
      var a: Action :| Internal(a) && Enabled(s, a);
      InternalStepFalls(s, a);
      StepKeepsWellFormed(s, a);
      var rest := Drain(Next(s, a));
      run := [a] + rest;
      assert run[1..] == rest;
    }
  }
}
