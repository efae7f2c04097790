/** Downloads that are never counted (router.go:249-323, access/memory.go:67-82). */
module AccessLost {
  import opened Common
  import opened AccessKeys
  import opened AccessProtocol
  import opened AccessCounting
  import opened AccessDrain
  import opened AccessTheorems
  import opened AccessRuns
  import opened Sums

  function UncountedWeight(k: nat): Request -> nat {
    (q: Request) => if q.key == k && q.downloaded && !AddedTrue(q.goroutine) then 1 else 0
  }

  /** The goroutine gave up waiting, so the download will never be counted. */
  function LostWeight(k: nat): Request -> nat {
    (q: Request) => if q.key == k && q.downloaded && q.goroutine.Cancelled? then 1 else 0
  }

  predicate HeardFalse(goroutine: Goroutine) {
    IsAnswered(goroutine) && !goroutine.message
  }

  /** The goroutine has received false although Download was called. */
  function DeniedWeight(k: nat): Request -> nat {
    (q: Request) => if q.key == k && q.downloaded && HeardFalse(q.goroutine) then 1 else 0
  }

  /** In every well-formed state, counted downloads and uncounted ones are all there are. */
  lemma DownloadsAreCountedOrNot(s: State, k: nat)
    requires WellFormed(s)
    ensures Downloads(s, k) == TrueAnswers(s, k) + SumBy(s.requests, UncountedWeight(k))
  {
    forall q | q in s.requests ensures DownloadWeight(k)(q) == TrueWeight(k)(q) + UncountedWeight(k)(q) {
      var r: nat :| r < |s.requests| && s.requests[r] == q;
      assert RequestOkAt(s, r);
    }
    SumSplit(s.requests, DownloadWeight(k), TrueWeight(k), UncountedWeight(k));
  }

  /** No download of the run panics. */
  predicate NoPanics(run: seq<Action>) {
    forall i :: 0 <= i < |run| && run[i].HandlerStep? ==> run[i].completed
  }

  /** Without a panic, a request that was downloaded is answered true or not at all. */
  predicate PanicFree(request: Request) {
    request.downloaded ==>
      && (request.handler.Returning? ==> request.handler.message)
      && (!request.sender.Unsent? ==> request.sender.message)
  }

  ghost predicate AllPanicFree(s: State) {
    forall r: nat :: r < |s.requests| ==> PanicFree(s.requests[r])
  }

  lemma StepStaysPanicFree(s: State, a: Action)
    requires WellFormed(s) && AllPanicFree(s) && Enabled(s, a) && (a.HandlerStep? ==> a.completed)
    ensures AllPanicFree(Next(s, a))
  {
    forall r: nat | r < |Next(s, a).requests| ensures PanicFree(Next(s, a).requests[r]) {
      assert RequestOkAt(s, r);
    }
  }

  lemma {:induction false} RunsStayPanicFree(s: State, run: seq<Action>)
    requires WellFormed(s) && AllPanicFree(s) && Allowed(s, run) && NoPanics(run)
    ensures AllPanicFree(Exec(s, run))
    decreases |run|
  {
    if run != [] {
      StepStaysPanicFree(s, run[0]);
      StepKeepsWellFormed(s, run[0]);
      RunsStayPanicFree(Next(s, run[0]), run[1..]);
    }
  }

  /** At rest each download was counted, or its goroutine was cancelled, or it was answered false; and the last happens
      only after a panic. */
  lemma LostAtRest(clock: int, run: seq<Action>, k: nat)
    requires Allowed(Start(clock), run) && Quiet(Exec(Start(clock), run))
    ensures var s := Exec(Start(clock), run);
      && Downloads(s, k) == TrueAnswers(s, k) + SumBy(s.requests, LostWeight(k)) + SumBy(s.requests, DeniedWeight(k))
      && (NoPanics(run) ==> SumBy(s.requests, DeniedWeight(k)) == 0)
  {
    var s := Exec(Start(clock), run);
    RunKeepsWellFormed(Start(clock), run);
    AtRest(s);
    DownloadsAreCountedOrNot(s, k);
    SumSplit(s.requests, UncountedWeight(k), LostWeight(k), DeniedWeight(k));
    if NoPanics(run) {
      RunsStayPanicFree(Start(clock), run);
      forall q | q in s.requests ensures DeniedWeight(k)(q) == 0 {
        var r: nat :| r < |s.requests| && s.requests[r] == q;
        assert RequestOkAt(s, r);
      }
      SumZero(s.requests, DeniedWeight(k));
    }
  }

  predicate LostIn(s: State, r: nat) {
    r < |s.requests| && s.requests[r].downloaded && s.requests[r].goroutine.Cancelled?
  }

  /** Some continuation leaves this request downloaded and its goroutine cancelled. */
  ghost predicate CanBeLost(s: State, r: nat) {
    exists run: seq<Action> :: Allowed(s, run) && LostIn(Exec(s, run), r)
  }

  /** Its goroutine has not received an answer, and its download was or will be made. */
  predicate Unanswered(s: State, r: nat) {
    && RequestAt(s, r)
    && var q := s.requests[r];
       && (q.goroutine.Waiting? || q.goroutine.Cancelled?)
       && (q.downloaded || (q.handler.Deciding? && Admits(s.cells[q.key].key, q.query, q.header)))
  }

  lemma StepKeepsAnswer(s: State, a: Action, r: nat)
    requires WellFormed(s) && Enabled(s, a) && r < |s.requests| && !Unanswered(s, r)
    ensures r < |Next(s, a).requests| && !Unanswered(Next(s, a), r)
  {
    assert RequestOkAt(s, r);
  }

  lemma {:induction false} RunKeepsAnswer(s: State, run: seq<Action>, r: nat)
    requires WellFormed(s) && Allowed(s, run) && r < |s.requests| && !Unanswered(s, r)
    ensures !LostIn(Exec(s, run), r)
    decreases |run|
  {
    if run != [] {
      StepKeepsAnswer(s, run[0], r);
      StepKeepsWellFormed(s, run[0]);
      RunKeepsAnswer(Next(s, run[0]), run[1..], r);
    } else {
      assert RequestOkAt(s, r);
    }
  }

  /** The handler can run to its deferred cancel before the answer is received. */
  lemma {:induction false} CloseFirst(s: State, r: nat) returns (run: seq<Action>)
    requires WellFormed(s) && Unanswered(s, r)
    ensures Allowed(s, run) && Unanswered(Exec(s, run), r)
    ensures Exec(s, run).requests[r].handler.Closed?
    decreases Work(s)
  {
    run := [];
    if !s.requests[r].handler.Closed? {
      var a := HandlerStep(r, true);
      assert RequestOkAt(s, r);
      InternalStepFalls(s, a);
      StepKeepsWellFormed(s, a);
      var rest := CloseFirst(Next(s, a), r);
      run := [a] + rest;
      assert run[1..] == rest;
    }
  }

  /** A download can be lost exactly as long as no answer was received for it: nothing about the request, its key or its
      handler prevents that. */
  lemma LostIffUnanswered(s: State, r: nat)
    requires Reachable(s) && r < |s.requests|
    ensures CanBeLost(s, r) <==> Unanswered(s, r)
  {
    ReachableIsSafe(s);
    if Unanswered(s, r) {
      var run := CloseFirst(s, r);
      var s' := Exec(s, run);
      RunKeepsWellFormed(s, run);
      assert RequestOkAt(s', r);
      if s'.requests[r].goroutine.Waiting? {
        ExecOneMore(s, run, GiveUp(r));
        assert LostIn(Exec(s, run + [GiveUp(r)]), r);
      } else {
        assert LostIn(s', r);
      }
    } else {
      forall run: seq<Action> | Allowed(s, run) ensures !LostIn(Exec(s, run), r) {
        RunKeepsAnswer(s, run, r);
      }
    }
  }

  /** A granted request whose handler has closed before its answer was received. */
  lemma FollowLostAnswer(start: State) returns (s: State)
    requires start == Start(0)
    ensures Reaches(start, s)
    ensures s.requests == [GRANTED.(handler := Closed, goroutine := Cancelled)]
  {
    ReachesItself(start);
    s := FollowAdd(start, start, FREE);
    s := Follow(start, s, Serve("url", 0, None, None));
    s := FollowHandler(start, s, 0);
    s := Follow(start, s, HandlerStep(0, true));
    s := Follow(start, s, GiveUp(0));
  }

  lemma CountOfOne(s: State)
    requires s.requests == [GRANTED.(handler := Closed, goroutine := Cancelled)]
    ensures Downloads(s, 0) == 1 && TrueAnswers(s, 0) == 0
  {
    assert s.requests == [] + [s.requests[0]];
    SumAppend([], s.requests[0], DownloadWeight(0));
    SumAppend([], s.requests[0], TrueWeight(0));
  }

  predicate AnswerLost(s: State) {
    && |s.requests| == 1 && Downloads(s, 0) == 1 && TrueAnswers(s, 0) == 0
    && s.requests[0].goroutine.Cancelled? && s.requests[0].handler.Closed?
  }

  /** The deferred cancel can overtake the launched answer, so a download may go uncounted for good. */
  lemma AnswersCanBeLost()
    ensures exists s: State :: Reachable(s) && AnswerLost(s)
  {
    var s := FollowLostAnswer(Start(0));
    CountOfOne(s);
    assert Reachable(s);
  }
}
