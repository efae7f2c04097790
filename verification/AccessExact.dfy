/** When the limit of a key object is exact (access/memory.go:60-94). */
module AccessExact {
  import opened Common
  import opened AccessProtocol
  import opened AccessCounting
  import opened AccessLimit
  import opened AccessRemoval
  import opened AccessDrain
  import opened AccessPromise
  import opened AccessTheorems
  import opened Sums

  predicate TimeIsUp(s: State, k: nat)
    requires k < |s.cells|
  {
    s.cells[k].key.expires && s.clock >= Ttl(s.cells[k].key)
  }

  lemma UnansweredAtRest(s: State, k: nat)
    requires Safe(s) && Quiet(s) && k < |s.cells| && s.cells[k].key.limited && s.cells[k].key.limit == 0
    requires InMap(s, k)
    ensures forall r: nat :: r < |s.requests| && s.requests[r].key == k ==> s.requests[r].goroutine.Cancelled?
  {
    AtRest(s);
    assert DeliveredAt(s, k);
    forall r: nat | r < |s.requests| && s.requests[r].key == k ensures s.requests[r].goroutine.Cancelled? {
      assert RequestOkAt(s, r);
      assert !KilledBy(s, k, r);
    }
  }

  /** At rest, for a limited key whose url key nobody else touched and whose time is not up, membership in the map says
      exactly how much was used: with a limit of at least one, fewer true answers than the limit; with a limit of zero,
      no answer at all, true or false. */
  lemma RestIsExact(s: State, k: nat)
    requires Reachable(s) && Quiet(s)
    requires k < |s.cells| && s.cells[k].adder.Added? && s.cells[k].key.limited
    requires Unique(s, k) && NeverDeleted(s, k) && !TimeIsUp(s, k)
    requires TrueAnswers(s, k) < UINT64_BOUND
    ensures s.cells[k].key.limit >= 1 ==> (InMap(s, k) <==> TrueAnswers(s, k) < s.cells[k].key.limit)
    ensures s.cells[k].key.limit == 0 ==>
              (InMap(s, k) <==> forall r: nat :: r < |s.requests| && s.requests[r].key == k ==>
                                  s.requests[r].goroutine.Cancelled?)
  {
    ReachableIsSafe(s);
    if InMap(s, k) {
      RestIsUnexhausted(s, k);
      assert CountAt(s, k);
      if s.cells[k].key.limit == 0 {
        UnansweredAtRest(s, k);
      }
    } else {
      assert PresentAt(s, k);
      SentMeansJustified(s, k);
    }
  }

  /** Every request of the run starts only when all goroutines have come to rest. */
  ghost predicate OneAtATime(s: State, run: seq<Action>)
    requires Allowed(s, run)
    decreases |run|
  {
    run == [] || ((run[0].Serve? ==> Quiet(s)) && OneAtATime(Next(s, run[0]), run[1..]))
  }

  lemma NothingOutstandingAtRest(s: State, k: nat)
    requires WellFormed(s) && Quiet(s) && k < |s.cells|
    ensures Promised(s, k) == TrueAnswers(s, k)
  {
    AtRest(s);
    SumZero(s.requests, OutstandingWeight(k, s.cells[k].key));
  }

  /** A request that starts at rest meets the guard of its limit. */
  lemma RestMeetsGuard(s: State, a: Action, k: nat, n: nat)
    requires Safe(s) && Quiet(s) && Grants(s, a, k) && PromiseWithin(s, k, n)
    requires s.cells[k].key.limited && n == Max(1, s.cells[k].key.limit)
    ensures Promised(s, k) < n
  {
    NothingOutstandingAtRest(s, k);
    assert EntryOkAt(s, a.urlKey) && CountAt(s, k);
    RestIsUnexhausted(s, k);
  }

  /** The limit of a key object, once the key object is there, is n or stands for n. */
  ghost predicate LimitIs(s: State, k: nat, n: nat) {
    k < |s.cells| ==> s.cells[k].key.limited && n == Max(1, s.cells[k].key.limit)
  }

  lemma {:induction false} EarlierLimit(s: State, run: seq<Action>, k: nat, n: nat)
    requires Allowed(s, run) && LimitIs(Exec(s, run), k, n)
    ensures LimitIs(s, k, n)
    decreases |run|
  {
    if run != [] {
      EarlierLimit(Next(s, run[0]), run[1..], k, n);
    }
  }

  /** Requests one at a time are guarded ones. */
  lemma {:induction false} OneAtATimeIsGuarded(s: State, run: seq<Action>, k: nat, n: nat)
    requires Safe(s) && Allowed(s, run) && OneAtATime(s, run)
    requires PromiseWithin(s, k, n) && LimitIs(Exec(s, run), k, n)
    ensures Guarded(s, run, k, n)
    decreases |run|
  {
    if run != [] {
      EarlierLimit(s, run, k, n);
      if Grants(s, run[0], k) {
        RestMeetsGuard(s, run[0], k, n);
      }
      GuardedStepKeepsBound(s, run[0], k, n);
      StepKeepsSafe(s, run[0]);
      OneAtATimeIsGuarded(Next(s, run[0]), run[1..], k, n);
    }
  }

  /** Guarded requests, overlapping or not, never get a limited key more than max(1, limit) grants, whatever DeleteKey
      calls and reuses of url keys there are; and at rest an undisturbed key with a limit of at least one is gone if
      and only if it was granted exactly limit times. */
  lemma GuardedRunsAreExact(clock: int, run: seq<Action>, k: nat)
    requires Allowed(Start(clock), run) && k < |Exec(Start(clock), run).cells|
    requires Exec(Start(clock), run).cells[k].key.limited
    requires Guarded(Start(clock), run, k, Max(1, Exec(Start(clock), run).cells[k].key.limit))
    ensures var s := Exec(Start(clock), run);
      && TrueAnswers(s, k) <= Promised(s, k) <= Max(1, s.cells[k].key.limit)
      && (Quiet(s) && s.cells[k].adder.Added? && s.cells[k].key.limit >= 1
          && Unique(s, k) && NeverDeleted(s, k) && !TimeIsUp(s, k) ==>
            (InMap(s, k) <==> TrueAnswers(s, k) < s.cells[k].key.limit)
            && (!InMap(s, k) <==> TrueAnswers(s, k) == s.cells[k].key.limit))
  {
    var s := Exec(Start(clock), run);
    RunKeepsSafe(Start(clock), run);
    GuardedRunsKeepBound(Start(clock), run, k, Max(1, s.cells[k].key.limit));
    if Quiet(s) && s.cells[k].adder.Added? && s.cells[k].key.limit >= 1
       && Unique(s, k) && NeverDeleted(s, k) && !TimeIsUp(s, k)
    {
      assert Reaches(Start(clock), s);
      RestIsExact(s, k);
    }
  }

  /** When each request is settled and its kill carried out before the next one starts, every request meets the guard
      by itself. */
  lemma DrainedRunsAreExact(clock: int, run: seq<Action>, k: nat)
    requires Allowed(Start(clock), run) && OneAtATime(Start(clock), run)
    requires k < |Exec(Start(clock), run).cells| && Exec(Start(clock), run).cells[k].key.limited
    ensures var s := Exec(Start(clock), run);
      && Guarded(Start(clock), run, k, Max(1, s.cells[k].key.limit))
      && TrueAnswers(s, k) <= Max(1, s.cells[k].key.limit)
      && (Quiet(s) && s.cells[k].adder.Added? && s.cells[k].key.limit >= 1
          && Unique(s, k) && NeverDeleted(s, k) && !TimeIsUp(s, k) ==>
            (InMap(s, k) <==> TrueAnswers(s, k) < s.cells[k].key.limit)
            && (!InMap(s, k) <==> TrueAnswers(s, k) == s.cells[k].key.limit))
  {
    RunKeepsSafe(Start(clock), []);
    OneAtATimeIsGuarded(Start(clock), run, k, Max(1, Exec(Start(clock), run).cells[k].key.limit));
    GuardedRunsAreExact(clock, run, k);
  }
}
