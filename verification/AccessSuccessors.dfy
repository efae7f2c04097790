/** Kills go by url key, so a key object can fall to a kill of its predecessor. When that can happen
    (access/memory.go:20-44, 86-94). */
module AccessSuccessors {
  import opened Common
  import opened AccessProtocol
  import opened AccessCounting
  import opened AccessLimit
  import opened AccessDrain
  import opened AccessTheorems
  import opened AccessThreats
  import opened AccessRuns
  import opened Sums

  /** Nothing that is under way can take this url key out of the map. */
  ghost predicate Undisturbed(s: State, u: string) {
    && s.loop.Free?
    && (!s.killer.Idle? ==> s.killer.key < |s.cells| && s.cells[s.killer.key].key.urlKey != u)
    && (forall k: nat :: k < |s.cells| ==> s.cells[k].adder.Added? || s.cells[k].adder.Refused?)
    && (forall t: nat :: !TimerThreat(s, t, u))
    && (forall r: nat :: r < |s.requests| ==>
          s.requests[r].goroutine.Cancelled? || s.requests[r].goroutine.Killed? || s.requests[r].goroutine.Spared?)
    && (forall d: nat :: d < |s.deletes| ==> s.deletes[d].progress.Returned?)
  }

  lemma StepKeepsUndisturbed(s: State, a: Action, u: string)
    requires WellFormed(s) && Undisturbed(s, u) && Enabled(s, a) && (Internal(a) || a.Tick?)
    ensures Undisturbed(Next(s, a), u)
    ensures u in s.store ==> u in Next(s, a).store && Next(s, a).store[u] == s.store[u]
  {
    if a.TimerStep? {
      assert TimerOkAt(s, a.t);
      assert !TimerThreat(s, a.t, u);
    }
    forall t: nat ensures !TimerThreat(Next(s, a), t, u) {
      assert !TimerThreat(s, t, u);
    }
  }

  lemma {:induction false} RunKeepsUndisturbed(s: State, run: seq<Action>, u: string)
    requires WellFormed(s) && Undisturbed(s, u) && Allowed(s, run) && LeftAlone(run) && u in s.store
    ensures u in Exec(s, run).store && Exec(s, run).store[u] == s.store[u]
    decreases |run|
  {
    if run != [] {
      StepKeepsUndisturbed(s, run[0], u);
      StepKeepsWellFormed(s, run[0]);
      RunKeepsUndisturbed(Next(s, run[0]), run[1..], u);
    }
  }

  /** Some key object with this url key, in the map or not, has a timer still ahead. */
  ghost predicate TimerWaits(s: State, u: string) {
    exists k: nat :: Under(s, k, u) && TimerAhead(s, k)
  }

  lemma WaitingTimer(s: State, t: nat, u: string)
    requires TimerThreat(s, t, u) && NotDue(s, t)
    ensures TimerWaits(s, u)
  {
    assert TimerAhead(s, s.timers[t].key);
  }

  lemma OnlyExpiringHaveTimers(s: State, k: nat)
    requires WellFormed(s) && k < |s.cells| && TimerAhead(s, k)
    ensures s.cells[k].key.expires
  {
    var t: nat :| t < |s.timers| && s.timers[t].key == k && s.timers[t].phase.Running?;
    assert TimerOkAt(s, t);
  }

  lemma RestIsUndisturbed(s: State, u: string)
    requires WellFormed(s) && Quiet(s) && !TimerWaits(s, u)
    ensures Undisturbed(s, u)
  {
    AtRest(s);
    forall t: nat ensures !TimerThreat(s, t, u) {
      if TimerThreat(s, t, u) {
        WaitingTimer(s, t, u);
      }
    }
  }

  /** At rest, the only threats are timers that run. */
  lemma RestThreatsAreTimers(s: State, u: string)
    requires WellFormed(s) && Quiet(s)
    ensures Threatened(s, u) <==> TimerWaits(s, u)
  {
    AtRest(s);
    if TimerWaits(s, u) {
      var k: nat :| Under(s, k, u) && TimerAhead(s, k);
      var t: nat :| t < |s.timers| && s.timers[t].key == k && s.timers[t].phase.Running?
                    && s.timers[t].phase.due > s.clock;
      assert TimerThreat(s, t, u);
    } else {
      RestIsUndisturbed(s, u);
    }
  }

  /** At rest, a url key in the map can go without another call if and only if some key object with that url key has a
      timer ahead. If the key object in the map does not expire, the timer is that of another one. */
  lemma GoesIffTimerWaits(s: State, u: string)
    requires Reachable(s) && Quiet(s) && u in s.store
    ensures CanGo(s, u) <==> TimerWaits(s, u)
    ensures Threatened(s, u) <==> TimerWaits(s, u)
    ensures s.store[u] < |s.cells|
    ensures s.cells[s.store[u]].key.expires ==> TimerWaits(s, u)
    ensures !s.cells[s.store[u]].key.expires ==> !TimerAhead(s, s.store[u])
  {
    ReachableIsSafe(s);
    AtRest(s);
    RestThreatsAreTimers(s, u);
    assert EntryOkAt(s, u);
    if TimerWaits(s, u) {
      var k: nat :| Under(s, k, u) && TimerAhead(s, k);
      var t: nat :| t < |s.timers| && s.timers[t].key == k && s.timers[t].phase.Running?
                    && s.timers[t].phase.due > s.clock;
      var run := FireTimer(s, t, u);
    } else {
      RestIsUndisturbed(s, u);
      forall run: seq<Action> | Allowed(s, run) && LeftAlone(run) ensures u in Exec(s, run).store {
        RunKeepsUndisturbed(s, run, u);
      }
    }
    if s.cells[s.store[u]].key.expires {
      RestIsUnexpired(s, s.store[u]);
    } else if TimerAhead(s, s.store[u]) {
      OnlyExpiringHaveTimers(s, s.store[u]);
    }
  }

  // ---- The ways it happens ----

  /** Two overlapping requests on a key with a limit of one, both granted and both about to kill. */
  lemma FollowTwoDownloads(start: State) returns (s: State)
    requires start == Start(0)
    ensures Reaches(start, s)
    ensures |s.cells| == 1 && s.cells[0] == Cell(ONCE, 2, Added) && s.store == map["url" := 0]
    ensures |s.requests| == 2 && s.killer.Idle? && s.deletes == []
    ensures forall r :: 0 <= r < 2 ==> s.requests[r].key == 0 && s.requests[r].goroutine == Killing(true, r + 1)
  {
    ReachesItself(start);
    s := FollowAdd(start, start, ONCE);
    s := Follow(start, s, Serve("url", 0, None, None));
    s := Follow(start, s, Serve("url", 0, None, None));
    s := FollowHandler(start, s, 0);
    s := FollowAnswer(start, s, 0);
    s := FollowHandler(start, s, 1);
    s := FollowAnswer(start, s, 1);
  }

  /** The state before the second kill strikes: a successor has taken the url key. */
  lemma FollowStaleKill(start: State) returns (s: State)
    requires start == Start(0)
    ensures Reaches(start, s)
    ensures s.cells == [Cell(ONCE, 2, Added), Cell(FREE, 0, Added)] && s.store == map["url" := 1] && s.deletes == []
    ensures s.killer.Deleting? && s.killer.key == 0
    ensures |s.requests| == 2 &&
            forall r :: 0 <= r < 2 ==> s.requests[r].key == 0 && s.requests[r].goroutine == Killed(true, r + 1)
  {
    s := FollowTwoDownloads(start);
    s := FollowKill(start, s, 0);
    s := FollowAdd(start, s, FREE);
    s := Follow(start, s, SettleStep(1));
    s := Follow(start, s, KillerStep);
  }

  lemma CountOfTwo(s: State)
    requires |s.requests| == 2
    requires forall r :: 0 <= r < 2 ==> s.requests[r].key == 0 && AddedTrue(s.requests[r].goroutine)
    ensures TrueAnswers(s, 0) == 2
  {
    assert s.requests == ([] + [s.requests[0]]) + [s.requests[1]];
    SumAppend([], s.requests[0], TrueWeight(0));
    SumAppend([] + [s.requests[0]], s.requests[1], TrueWeight(0));
  }

  /** With overlapping requests: both are granted on a key with a limit of one, and the second kill, sent for a key
      object that is already gone, removes a successor that is neither limited nor expiring. */
  lemma StaleKillsCanHitSuccessors()
    ensures exists s: State ::
      && Reachable(s) && Enabled(s, KillerStep) && |s.cells| == 2
      && s.cells[0].key.limited && TrueAnswers(s, 0) > s.cells[0].key.limit
      && !s.cells[1].key.limited && !s.cells[1].key.expires && |s.deletes| == 0
      && InMap(s, 1) && !InMap(Next(s, KillerStep), 1)
  {
    var s := FollowStaleKill(Start(0));
    CountOfTwo(s);
    assert Reachable(s);
  }

  /** A request that was granted and one that was refused on the same key are both about to kill. */
  lemma FollowRefusedKiller(start: State) returns (s: State)
    requires start == Start(0)
    ensures Reaches(start, s)
    ensures |s.cells| == 1 && s.cells[0] == Cell(LOCKED, 1, Added) && s.store == map["url" := 0]
    ensures s.killer.Idle? && s.deletes == []
    ensures s.requests == [
      Request(0, 0, None, Some(DIGEST), true, Launched, Sent(true), Killing(true, 1)),
      Request(0, 0, None, None, false, Launched, Sent(false), Killing(false, 1))]
  {
    ReachesItself(start);
    s := FollowAdd(start, start, LOCKED);
    s := Follow(start, s, Serve("url", 0, None, Some(DIGEST)));
    s := Follow(start, s, Serve("url", 0, None, None));
    s := FollowHandler(start, s, 0);
    s := FollowRefusal(start, s, 1);
    s := FollowAnswer(start, s, 0);
    s := FollowAnswer(start, s, 1);
  }

  lemma FollowRefusedKill(start: State) returns (s: State)
    requires start == Start(0)
    ensures Reaches(start, s)
    ensures s.cells == [Cell(LOCKED, 1, Added), Cell(FREE, 0, Added)] && s.store == map["url" := 1] && s.deletes == []
    ensures s.killer.Deleting? && s.killer.key == 0 && s.killer.origin == Spent(1)
    ensures s.requests == [
      Request(0, 0, None, Some(DIGEST), true, Launched, Sent(true), Killed(true, 1)),
      Request(0, 0, None, None, false, Launched, Sent(false), Killed(false, 1))]
  {
    s := FollowRefusedKiller(start);
    s := FollowKill(start, s, 0);
    s := FollowAdd(start, s, FREE);
    s := Follow(start, s, SettleStep(1));
    s := Follow(start, s, KillerStep);
  }

  lemma OneDownload(s: State)
    requires |s.requests| == 2 && s.requests[0].key == 0 && s.requests[0].downloaded && !s.requests[1].downloaded
    ensures Downloads(s, 0) == 1
  {
    assert s.requests == ([] + [s.requests[0]]) + [s.requests[1]];
    SumAppend([], s.requests[0], DownloadWeight(0));
    SumAppend([] + [s.requests[0]], s.requests[1], DownloadWeight(0));
  }

  /** With one grant only, so within every limit: the kill that removes a successor comes from a request that was
      refused. Its false answer was received after the other request had used the key up. */
  lemma RefusedRequestsCanHitSuccessors()
    ensures exists s: State ::
      && Reachable(s) && Enabled(s, KillerStep) && |s.cells| == 2 && s.cells[0].key.limit == 1
      && Downloads(s, 0) == 1 && s.killer.origin == Spent(1) && |s.requests| == 2 && !s.requests[1].downloaded
      && !s.cells[1].key.limited && !s.cells[1].key.expires && |s.deletes| == 0
      && InMap(s, 1) && !InMap(Next(s, KillerStep), 1)
  {
    var s := FollowRefusedKill(Start(0));
    OneDownload(s);
    assert Reachable(s);
  }

  /** A key that expires was used up by one request, which is settled; its timer is still running. */
  function UsedUp(): State {
    State(map[], [Cell(SHORT, 1, Added)],
          [GRANTED.(handler := Closed, sender := Sent(true), goroutine := Killed(true, 1))],
          [Timer(0, Running(1000))], [], Free, Idle, 0)
  }

  /** A successor has been added since. */
  function Replaced(): State {
    UsedUp().(cells := [Cell(SHORT, 1, Added), Cell(FREE, 0, Added)], store := map["url" := 1])
  }

  /** No goroutine is left but timers that run. */
  ghost predicate AllDone(s: State) {
    && s.killer.Idle? && s.loop.Free? && s.deletes == []
    && (forall c :: c in s.cells ==> c.adder.Added?)
    && (forall q :: q in s.requests ==> q.handler.Closed? && q.goroutine.Killed?)
    && (forall t :: t in s.timers ==> t.phase.Running? && t.phase.due > s.clock)
  }

  lemma DoneIsQuiet(s: State)
    requires AllDone(s)
    ensures Quiet(s)
  {
    forall a: Action | Internal(a) ensures !Enabled(s, a) {
      match a
      case AddStep(k) => if k < |s.cells| { assert s.cells[k] in s.cells; }
      case TimerStep(t) => if t < |s.timers| { assert s.timers[t] in s.timers; }
      case HandlerStep(r, _) => if r < |s.requests| { assert s.requests[r] in s.requests; }
      case Receive(r) => if r < |s.requests| { assert s.requests[r] in s.requests; }
      case GiveUp(r) => if r < |s.requests| { assert s.requests[r] in s.requests; }
      case SettleStep(r) => if r < |s.requests| { assert s.requests[r] in s.requests; }
      case _ =>
    }
  }

  lemma FollowUsedUp(start: State) returns (s: State)
    requires start == Start(0)
    ensures Reaches(start, s) && s == UsedUp()
  {
    ReachesItself(start);
    s := FollowExpiringAdd(start, start, SHORT);
    s := Follow(start, s, Serve("url", 0, None, None));
    s := FollowHandler(start, s, 0);
    s := FollowAnswer(start, s, 0);
    s := FollowKill(start, s, 0);
    s := Follow(start, s, HandlerStep(0, true));
  }

  /** Without any overlap: with every goroutine at rest before and after its AddKey call, a successor that is neither
      limited nor expiring falls to the timer of its predecessor. */
  lemma StaleTimersCanHitSuccessors()
    ensures Reachable(UsedUp()) && Quiet(UsedUp())
    ensures Reachable(Replaced()) && Quiet(Replaced())
    ensures CanGo(Replaced(), "url")
  {
    DoneIsQuiet(UsedUp());
    DoneIsQuiet(Replaced());
    var before := FollowUsedUp(Start(0));
    var s := FollowAdd(Start(0), before, FREE);
    assert s == Replaced();
    assert Reachable(before) && Reachable(s);
    ReachableIsSafe(s);
    var run := FireTimer(s, 0, "url");
  }
}
