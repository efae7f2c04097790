/** When a request is cancelled: its context ends with its handler, or 100 seconds after it was made (router.go:250-251,
    access/memory.go:68-70). */
module AccessCancel {
  import opened Common
  import opened AccessProtocol
  import opened AccessCounting
  import opened AccessTheorems
  import opened AccessRuns

  /** This request was waiting, and this step makes its goroutine give up. */
  predicate Cancels(s: State, a: Action, r: nat)
    requires Enabled(s, a)
  {
    && r < |s.requests| && s.requests[r].goroutine.Waiting?
    && r < |Next(s, a).requests| && Next(s, a).requests[r].goroutine.Cancelled?
  }

  /** The context has ended: the handler has run its deferred cancel, or 100 seconds have gone by. */
  predicate ContextEnded(s: State, r: nat)
    requires r < |s.requests|
  {
    s.requests[r].handler.Closed? || s.clock >= s.requests[r].issued + 100_000_000_000
  }

  lemma OnlyGivingUpCancels(s: State, a: Action, r: nat)
    requires Enabled(s, a) && Cancels(s, a, r)
    ensures a == GiveUp(r)
  {
  }

  /** In every reachable state, a request that waits can be cancelled at once if and only if its context has ended,
      also while its handler is still downloading; and the request stays as it is but for its goroutine. */
  lemma CancelledIffContextEnded(s: State, r: nat)
    requires Reachable(s) && r < |s.requests| && s.requests[r].goroutine.Waiting?
    ensures (exists a: Action :: Enabled(s, a) && Cancels(s, a, r)) <==> ContextEnded(s, r)
    ensures forall a: Action :: Enabled(s, a) && Cancels(s, a, r) ==>
              Next(s, a) == s.(requests := s.requests[r := s.requests[r].(goroutine := Cancelled)])
  {
    ReachableIsSafe(s);
    assert RequestOkAt(s, r);
    if ContextEnded(s, r) {
      assert Enabled(s, GiveUp(r)) && Cancels(s, GiveUp(r), r);
    }
    forall a: Action | Enabled(s, a) && Cancels(s, a, r)
      ensures ContextEnded(s, r)
      ensures Next(s, a) == s.(requests := s.requests[r := s.requests[r].(goroutine := Cancelled)])
    {
      OnlyGivingUpCancels(s, a, r);
    }
  }

  /** Cancelled is for good, and never counted. */
  lemma CancelledStays(s: State, a: Action, r: nat)
    requires Enabled(s, a) && r < |s.requests| && s.requests[r].goroutine.Cancelled?
    ensures r < |Next(s, a).requests| && Next(s, a).requests[r].goroutine.Cancelled?
    ensures CountMove(s, a, s.requests[r].key) == 1 ==> a.SettleStep? && a.r != r
  {
  }

  lemma StepKeepsIssued(s: State, a: Action, r: nat)
    requires Enabled(s, a) && (r < |s.requests| ==> s.requests[r].issued <= s.clock)
    ensures r < |Next(s, a).requests| ==> Next(s, a).requests[r].issued <= Next(s, a).clock
  {
  }

  /** A request is issued before it is served. */
  lemma {:induction false} IssuedBefore(s: State, run: seq<Action>, r: nat)
    requires Allowed(s, run) && (r < |s.requests| ==> s.requests[r].issued <= s.clock)
    ensures r < |Exec(s, run).requests| ==> Exec(s, run).requests[r].issued <= Exec(s, run).clock
    decreases |run|
  {
    if run != [] {
      StepKeepsIssued(s, run[0], r);
      IssuedBefore(Next(s, run[0]), run[1..], r);
    }
  }

  /** A slow download: it completes after 150 seconds, when its goroutine has given up, while the handler is still on
      its way to its deferred cancel. */
  lemma FollowSlowDownload(start: State) returns (s: State)
    requires start == Start(0)
    ensures Reaches(start, s)
    ensures s == State(map["url" := 0], [Cell(ONCE, 0, Added)], [GRANTED.(goroutine := Cancelled)], [], [], Free, Idle,
                       150_000_000_000)
  {
    ReachesItself(start);
    s := FollowAdd(start, start, ONCE);
    s := Follow(start, s, Serve("url", 0, None, None));
    s := Follow(start, s, HandlerStep(0, true));
    s := Follow(start, s, Tick(100_000_000_000));
    s := Follow(start, s, GiveUp(0));
    s := Follow(start, s, Tick(150_000_000_000));
    s := Follow(start, s, HandlerStep(0, true));
    s := Follow(start, s, HandlerStep(0, true));
  }

  /** A download that completes can be lost although its handler has not closed: the key is not used, and stays. */
  lemma SlowDownloadsAreLost()
    ensures exists s: State ::
      && Reachable(s) && |s.requests| == 1 && s.requests[0].downloaded && s.requests[0].sender == Sending(true)
      && !s.requests[0].handler.Closed? && s.requests[0].goroutine.Cancelled?
      && |s.cells| == 1 && s.cells[0].key.limit == 1 && s.cells[0].used == 0
      && s.cells[0].key.urlKey in s.store
  {
    var s := FollowSlowDownload(Start(0));
    assert Reachable(s);
  }
}
