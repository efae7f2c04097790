/** Use counters against the answers that were given (access/memory.go:66-82, router.go:249-323). */
module AccessCounting {
  import opened Common
  import opened AccessProtocol
  import opened Sums

  /** The goroutine of this request has received true and has added it. */
  predicate AddedTrue(goroutine: Goroutine) {
    match goroutine
    case Counted(m) => m
    case ReadBack(m, _) => m
    case Killing(m, _) => m
    case Killed(m, _) => m
    case Spared(m, _) => m
    case _ => false
  }

  predicate IsAnswered(goroutine: Goroutine) {
    !goroutine.Waiting? && !goroutine.Cancelled?
  }

  function TrueWeight(k: nat): Request -> nat {
    (q: Request) => if q.key == k && AddedTrue(q.goroutine) then 1 else 0
  }

  function DownloadWeight(k: nat): Request -> nat {
    (q: Request) => if q.key == k && q.downloaded then 1 else 0
  }

  function AccessWeight(k: nat): Request -> nat {
    (q: Request) => if q.key == k then 1 else 0
  }

  function WaitingWeight(k: nat): Request -> nat {
    (q: Request) => if q.key == k && q.goroutine.Waiting? then 1 else 0
  }

  function CancelledWeight(k: nat): Request -> nat {
    (q: Request) => if q.key == k && q.goroutine.Cancelled? then 1 else 0
  }

  function AnsweredWeight(k: nat): Request -> nat {
    (q: Request) => if q.key == k && IsAnswered(q.goroutine) then 1 else 0
  }

  function EndedWeight(k: nat): Request -> nat {
    (q: Request) => if q.key == k && !q.goroutine.Waiting? then 1 else 0
  }

  /** How many true answers the goroutines of a key object have received and added. */
  function TrueAnswers(s: State, k: nat): nat {
    SumBy(s.requests, TrueWeight(k))
  }

  /** How many times the handler called Download for a key object. */
  function Downloads(s: State, k: nat): nat {
    SumBy(s.requests, DownloadWeight(k))
  }

  ghost predicate CountAt(s: State, k: nat) {
    k < |s.cells| ==> s.cells[k].used == TrueAnswers(s, k) % UINT64_BOUND
  }

  /** One request changed: the count changes by what that request counts for. */
  lemma UpdateCount(s: State, s': State, r: nat, k: nat)
    requires r < |s.requests| == |s'.requests| && s'.requests == s.requests[r := s'.requests[r]]
    ensures TrueAnswers(s', k) + TrueWeight(k)(s.requests[r]) == TrueAnswers(s, k) + TrueWeight(k)(s'.requests[r])
  {
    SumUpdate(s.requests, r, s'.requests[r], TrueWeight(k));
  }

  lemma HandlerKeepsCount(s: State, r: nat, completed: bool, k: nat)
    requires CanHandle(s, r)
    ensures TrueAnswers(NextHandler(s, r, completed), k) == TrueAnswers(s, k)
  {
    UpdateCount(s, NextHandler(s, r, completed), r, k);
  }

  lemma SelectKeepsCount(s: State, r: nat, k: nat)
    ensures CanReceive(s, r) ==> TrueAnswers(NextReceive(s, r), k) == TrueAnswers(s, k)
    ensures CanGiveUp(s, r) ==> TrueAnswers(NextGiveUp(s, r), k) == TrueAnswers(s, k)
  {
    if CanReceive(s, r) {
      UpdateCount(s, NextReceive(s, r), r, k);
    }
    if CanGiveUp(s, r) {
      UpdateCount(s, NextGiveUp(s, r), r, k);
    }
  }

  /** A goroutine's add of a true answer is the only thing that moves the count. */
  lemma SettleMovesCount(s: State, r: nat, k: nat)
    requires CanSettle(s, r)
    ensures TrueAnswers(NextSettle(s, r), k) == TrueAnswers(s, k) +
              (if s.requests[r].goroutine == Answered(true) && s.requests[r].key == k then 1 else 0)
  {
    UpdateCount(s, NextSettle(s, r), r, k);
  }

  function CountMove(s: State, a: Action, k: nat): nat
    requires Enabled(s, a)
  {
    if a.SettleStep? && s.requests[a.r].goroutine == Answered(true) && s.requests[a.r].key == k then 1 else 0
  }

  lemma StepMovesCount(s: State, a: Action, k: nat)
    requires Enabled(s, a)
    ensures TrueAnswers(Next(s, a), k) == TrueAnswers(s, k) + CountMove(s, a, k)
  {
    match a
    case HandlerStep(r, completed) => HandlerKeepsCount(s, r, completed, k);
    case Receive(r) => SelectKeepsCount(s, r, k);
    case GiveUp(r) => SelectKeepsCount(s, r, k);
    case SettleStep(r) => SettleMovesCount(s, r, k);
    case Serve(u, issued, query, header) =>
      if u in s.store {
        SumAppend(s.requests, Next(s, a).requests[|s.requests|], TrueWeight(k));
      }
    case _ =>
  }

  lemma NoAnswersYet(s: State, k: nat)
    requires WellFormed(s) && k >= |s.cells|
    ensures TrueAnswers(s, k) == 0
  {
    forall q | q in s.requests ensures TrueWeight(k)(q) == 0 {
      var r: nat :| r < |s.requests| && s.requests[r] == q;
      assert RequestOkAt(s, r);
    }
    SumZero(s.requests, TrueWeight(k));
  }

  lemma AddOne(used: uint64, count: nat)
    requires used == count % UINT64_BOUND
    ensures Bumped(used, true) == (count + 1) % UINT64_BOUND
  {
  }

  /** The counter is a 64-bit one. */
  lemma CounterWraps(used: uint64)
    ensures Bumped(used, false) == used
    ensures Bumped(used, true) == if used == 18_446_744_073_709_551_615 then 0 else used + 1
  {
  }

  lemma StepKeepsCount(s: State, a: Action, k: nat)
    requires WellFormed(s) && Enabled(s, a) && CountAt(s, k)
    ensures CountAt(Next(s, a), k)
  {
    StepMovesCount(s, a, k);
    match a
    case CallAdd(_) =>
      if k == |s.cells| {
        NoAnswersYet(s, k);
      }
    case SettleStep(r) =>
      if k < |s.cells| {
        AddOne(s.cells[k].used, TrueAnswers(s, k));
      }
    case _ =>
  }

  /** The value a goroutine loaded is never more than the true answers that were added. */
  ghost predicate CounterAt(s: State, r: nat) {
    r < |s.requests| ==>
      match s.requests[r].goroutine
      case ReadBack(_, c) => c <= TrueAnswers(s, s.requests[r].key)
      case Killing(_, c) => c <= TrueAnswers(s, s.requests[r].key)
      case Killed(_, c) => c <= TrueAnswers(s, s.requests[r].key)
      case _ => true
  }

  lemma SettleKeepsCounter(s: State, q: nat, r: nat)
    requires CanSettle(s, q) && CounterAt(s, r) && CountAt(s, s.requests[q].key)
    ensures CounterAt(NextSettle(s, q), r)
  {
    if r < |s.requests| {
      SettleMovesCount(s, q, s.requests[r].key);
    }
  }

  lemma UnmovedCounter(s: State, s': State, r: nat)
    requires r < |s.requests| && r < |s'.requests| && CounterAt(s, r)
    requires s'.requests[r].key == s.requests[r].key && s'.requests[r].goroutine == s.requests[r].goroutine
    requires TrueAnswers(s, s.requests[r].key) <= TrueAnswers(s', s.requests[r].key)
    ensures CounterAt(s', r)
  {
  }

  lemma StepKeepsCounter(s: State, a: Action, r: nat)
    requires WellFormed(s) && Enabled(s, a) && CounterAt(s, r) && forall k: nat :: CountAt(s, k)
    ensures CounterAt(Next(s, a), r)
  {
    if r < |s.requests| {
      StepMovesCount(s, a, s.requests[r].key);
      match a
      case SettleStep(q) => SettleKeepsCounter(s, q, r);
      case Receive(q) => if q != r { UnmovedCounter(s, Next(s, a), r); }
      case GiveUp(q) => if q != r { UnmovedCounter(s, Next(s, a), r); }
      case HandlerStep(q, completed) => UnmovedCounter(s, Next(s, a), r);
      case _ => assert Next(s, a).requests[r] == s.requests[r];
    }
  }

  /** Every true answer was earned by a Download call, and each Access is still waiting, cancelled or answered. */
  lemma AnswersNeedDownloads(s: State, k: nat)
    requires WellFormed(s)
    ensures TrueAnswers(s, k) <= Downloads(s, k)
    ensures SumBy(s.requests, AccessWeight(k)) ==
            SumBy(s.requests, WaitingWeight(k)) + SumBy(s.requests, CancelledWeight(k))
              + SumBy(s.requests, AnsweredWeight(k))
  {
    forall q | q in s.requests ensures TrueWeight(k)(q) <= DownloadWeight(k)(q) {
      var r: nat :| r < |s.requests| && s.requests[r] == q;
      assert RequestOkAt(s, r);
    }
    SumMonotone(s.requests, TrueWeight(k), DownloadWeight(k));
    SumSplit(s.requests, AccessWeight(k), WaitingWeight(k), EndedWeight(k));
    SumSplit(s.requests, EndedWeight(k), CancelledWeight(k), AnsweredWeight(k));
  }
}
