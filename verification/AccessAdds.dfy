/** When AddKey calls on one url key exclude each other (access/memory.go:48-58). */
module AccessAdds {
  import opened Common
  import opened AccessProtocol
  import opened AccessDrain
  import opened AccessPromise
  import opened AccessThreats
  import opened AccessRuns

  /** An AddKey call for this url key that has not stored yet and was not refused. */
  predicate Early(s: State, k: nat, u: string) {
    k < |s.cells| && s.cells[k].key.urlKey == u && (s.cells[k].adder.Loading? || s.cells[k].adder.Storing?)
  }

  /** This step is the Store of an AddKey call, and the url key is taken by then. */
  predicate Overwrites(s: State, a: Action, u: string) {
    && a.AddStep? && a.k < |s.cells| && s.cells[a.k].adder.Storing? && s.cells[a.k].key.urlKey == u
    && u in s.store
  }

  ghost predicate NeverOverwrites(s: State, run: seq<Action>, u: string)
    requires Allowed(s, run)
    decreases |run|
  {
    run == [] || (!Overwrites(s, run[0], u) && NeverOverwrites(Next(s, run[0]), run[1..], u))
  }

  /** Every AddKey call for the url key starts when no other one for it is early. */
  ghost predicate Spaced(s: State, run: seq<Action>, u: string)
    requires Allowed(s, run)
    decreases |run|
  {
    run == [] ||
    (&& (run[0].CallAdd? && run[0].newKey.urlKey == u ==> forall k: nat :: !Early(s, k, u))
     && Spaced(Next(s, run[0]), run[1..], u))
  }

  /** At most one call is early, and if it is about to store, the url key is free. */
  ghost predicate Exclusive(s: State, u: string) {
    && (forall j: nat, k: nat :: Early(s, j, u) && Early(s, k, u) ==> j == k)
    && (forall k: nat :: Early(s, k, u) && s.cells[k].adder.Storing? ==> u !in s.store)
  }

  lemma StepKeepsExclusive(s: State, a: Action, u: string)
    requires Exclusive(s, u) && Enabled(s, a)
    requires a.CallAdd? && a.newKey.urlKey == u ==> forall k: nat :: !Early(s, k, u)
    ensures Exclusive(Next(s, a), u) && !Overwrites(s, a, u)
  {
    var s' := Next(s, a);
    forall k: nat | Early(s', k, u) ensures Early(s, k, u) || (a.CallAdd? && a.newKey.urlKey == u && k == |s.cells|) {}
    forall k: nat | Early(s', k, u) && s'.cells[k].adder.Storing? ensures u !in s'.store {
      assert Early(s, k, u);
      if a.AddStep? && Early(s, a.k, u) {
        assert a.k == k;
      }
    }
    if a.AddStep? && Early(s, a.k, u) {
      assert !Overwrites(s, a, u);
    }
  }

  /** Calls that keep apart never overwrite each other, whatever else goes on. */
  lemma {:induction false} SpacedAddsExclude(s: State, run: seq<Action>, u: string)
    requires Exclusive(s, u) && Allowed(s, run) && Spaced(s, run, u)
    ensures NeverOverwrites(s, run, u)
    decreases |run|
  {
    if run != [] {
      StepKeepsExclusive(s, run[0], u);
      SpacedAddsExclude(Next(s, run[0]), run[1..], u);
    }
  }

  ghost predicate OnlyAdds(run: seq<Action>) {
    forall i :: 0 <= i < |run| ==> run[i].AddStep?
  }

  lemma {:induction false} LeftAloneIsSpaced(s: State, run: seq<Action>, u: string)
    requires Allowed(s, run) && LeftAlone(run)
    ensures Spaced(s, run, u)
    decreases |run|
  {
    if run != [] {
      LeftAloneIsSpaced(Next(s, run[0]), run[1..], u);
    }
  }

  lemma {:induction false} NeverOverwritesTail(s: State, first: seq<Action>, a: Action, u: string)
    requires Allowed(s, first) && Enabled(Exec(s, first), a) && Overwrites(Exec(s, first), a, u)
    ensures Allowed(s, first + [a]) && !NeverOverwrites(s, first + [a], u)
    decreases |first|
  {
    ExecOneMore(s, first, a);
    if first != [] {
      assert (first + [a])[1..] == first[1..] + [a];
      NeverOverwritesTail(Next(s, first[0]), first[1..], a, u);
    }
  }

  /** An early call under a free url key can get to the point where it is about to store. */
  lemma ToStore(s: State, k: nat, u: string) returns (run: seq<Action>)
    requires Early(s, k, u) && u !in s.store
    ensures Allowed(s, run) && OnlyAdds(run) && Exec(s, run) == WithAdder(s, k, Storing)
  {
    run := [];
    if s.cells[k].adder.Loading? {
      ExecOneMore(s, [], AddStep(k));
      run := [] + [AddStep(k)];
    } else {
      assert s.cells == s.cells[k := s.cells[k].(adder := Storing)];
    }
  }

  /** Two early calls under a free url key can both store, the second over the first. */
  lemma BothStore(s: State, u: string, j: nat, k: nat) returns (run: seq<Action>)
    requires Early(s, j, u) && Early(s, k, u) && j != k && u !in s.store
    ensures Allowed(s, run) && OnlyAdds(run) && !NeverOverwrites(s, run, u)
    ensures var s' := Exec(s, run);
      && k < |s'.cells| && j < |s'.cells| && Stored(s'.cells[j].adder) && Stored(s'.cells[k].adder)
      && u in s'.store && s'.store[u] == k
  {
    var first := ToStore(s, j, u);
    var s1 := Exec(s, first);
    var second := ToStore(s1, k, u);
    ExecAppend(s, first, second);
    var both := first + second;
    ExecOneMore(s, both, AddStep(j));
    NeverOverwritesTail(s, both + [AddStep(j)], AddStep(k), u);
    ExecOneMore(s, both + [AddStep(j)], AddStep(k));
    run := both + [AddStep(j)] + [AddStep(k)];
  }

  /** Without another call from outside, some AddKey call under way can store over the url key. */
  ghost predicate CanOverwrite(s: State, u: string) {
    exists run: seq<Action> :: Allowed(s, run) && LeftAlone(run) && !NeverOverwrites(s, run, u)
  }

  ghost predicate TwoEarly(s: State, u: string) {
    exists j: nat, k: nat :: j != k && Early(s, j, u) && Early(s, k, u)
  }

  /** A call is about to store although the url key is taken. */
  ghost predicate StoreIsLate(s: State, u: string) {
    u in s.store && exists k: nat :: Early(s, k, u) && s.cells[k].adder.Storing?
  }

  lemma ExclusiveNeverOverwrites(s: State, u: string)
    requires !TwoEarly(s, u) && !StoreIsLate(s, u)
    ensures !CanOverwrite(s, u)
  {
    forall run: seq<Action> | Allowed(s, run) && LeftAlone(run) ensures NeverOverwrites(s, run, u) {
      LeftAloneIsSpaced(s, run, u);
      SpacedAddsExclude(s, run, u);
    }
  }

  /** Under a free url key, the calls that are under way can overwrite one another if and only if two of them are
      early. */
  lemma OverwriteIffTwoEarly(s: State, u: string)
    requires u !in s.store
    ensures CanOverwrite(s, u) <==> TwoEarly(s, u)
  {
    if j: nat, k: nat :| j != k && Early(s, j, u) && Early(s, k, u) {
      var run := BothStore(s, u, j, k);
      assert LeftAlone(run);
    } else {
      ExclusiveNeverOverwrites(s, u);
    }
  }

  lemma StillRefused(s: State, a: Action, u: string)
    requires Enabled(s, a) && (Internal(a) || a.Tick?) && u in s.store && !StoreIsLate(s, u)
    ensures !Overwrites(s, a, u) && !StoreIsLate(Next(s, a), u)
  {
    if Overwrites(s, a, u) {
      assert Early(s, a.k, u);
    }
    forall k: nat | Early(Next(s, a), k, u) ensures !Next(s, a).cells[k].adder.Storing? {
      assert Early(s, k, u);
    }
  }

  /** While a taken url key is not threatened, calls that look it up are refused. */
  lemma {:induction false} TakenNeverOverwrites(s: State, run: seq<Action>, u: string)
    requires Countable(s) && Allowed(s, run) && LeftAlone(run)
    requires u in s.store && !Threatened(s, u) && !StoreIsLate(s, u)
    ensures NeverOverwrites(s, run, u)
    decreases |run|
  {
    if run != [] {
      StepStaysSafe(s, run[0], u);
      StepKeepsCountable(s, run[0]);
      StillRefused(s, run[0], u);
      TakenNeverOverwrites(Next(s, run[0]), run[1..], u);
    }
  }

  lemma {:induction false} LaterOverwrite(s: State, first: seq<Action>, second: seq<Action>, u: string)
    requires Allowed(s, first) && Allowed(Exec(s, first), second) && !NeverOverwrites(Exec(s, first), second, u)
    ensures Allowed(s, first + second) && !NeverOverwrites(s, first + second, u)
    decreases |first|
  {
    ExecAppend(s, first, second);
    if first == [] {
      assert first + second == second;
    } else {
      assert (first + second)[1..] == first[1..] + second;
      LaterOverwrite(Next(s, first[0]), first[1..], second, u);
    }
  }

  /** The url key is removed first, while two calls have yet to look it up. */
  lemma StrikeThenStore(s: State, u: string) returns (run: seq<Action>)
    requires Countable(s) && u in s.store && Threatened(s, u) && TwoEarly(s, u) && !StoreIsLate(s, u)
    ensures Allowed(s, run) && LeftAlone(run) && !NeverOverwrites(s, run, u)
  {
    var j: nat, k: nat :| j != k && Early(s, j, u) && Early(s, k, u);
    var first := Strike(s, u);
    var second := BothStore(Exec(s, first), u, j, k);
    LaterOverwrite(s, first, second, u);
    run := first + second;
  }

  lemma StoreNow(s: State, u: string) returns (run: seq<Action>)
    requires StoreIsLate(s, u)
    ensures Allowed(s, run) && LeftAlone(run) && !NeverOverwrites(s, run, u)
  {
    var k: nat :| Early(s, k, u) && s.cells[k].adder.Storing?;
    NeverOverwritesTail(s, [], AddStep(k), u);
    run := [] + [AddStep(k)];
  }

  /** In every reachable state: without another call from outside, a Store can overwrite the url key if and only if one
      is about to store although it is taken, or two calls are early and the url key is free or can still be removed. */
  lemma OverwriteIffEarly(s: State, u: string)
    requires Reachable(s) && forall k: nat :: k < |s.cells| ==> Promised(s, k) < UINT64_BOUND
    ensures CanOverwrite(s, u) <==>
              StoreIsLate(s, u) || (TwoEarly(s, u) && (u !in s.store || Threatened(s, u)))
  {
    ReachableIsCountable(s);
    if StoreIsLate(s, u) {
      var run := StoreNow(s, u);
    } else if u !in s.store {
      OverwriteIffTwoEarly(s, u);
    } else if !TwoEarly(s, u) {
      ExclusiveNeverOverwrites(s, u);
    } else if Threatened(s, u) {
      var run := StrikeThenStore(s, u);
    } else {
      forall run: seq<Action> | Allowed(s, run) && LeftAlone(run) ensures NeverOverwrites(s, run, u) {
        TakenNeverOverwrites(s, run, u);
      }
    }
  }

  /** In every run from the start in which the calls for a url key keep apart, none of them overwrites another. */
  lemma SpacedRunsExclude(clock: int, run: seq<Action>, u: string)
    requires Allowed(Start(clock), run) && Spaced(Start(clock), run, u)
    ensures NeverOverwrites(Start(clock), run, u)
  {
    SpacedAddsExclude(Start(clock), run, u);
  }

  /** Two AddKey calls on one url key that overlap can both succeed. */
  lemma OverlappingAddsCanBothSucceed()
    ensures exists s: State ::
      Reachable(s) && |s.cells| == 2 && s.cells[0].adder.Added? && s.cells[1].adder.Added?
      && s.cells[0].key.urlKey == s.cells[1].key.urlKey && |s.requests| == |s.timers| == |s.deletes| == 0
  {
    var start := Start(0);
    ReachesItself(start);
    var s := Follow(start, start, CallAdd(FREE));
    s := Follow(start, s, CallAdd(ONCE));
    s := Follow(start, s, AddStep(0));
    s := Follow(start, s, AddStep(1));
    s := Follow(start, s, AddStep(0));
    s := Follow(start, s, AddStep(1));
    assert Reachable(s);
  }
}
