/** The timed removal of keys that expire (access/memory.go:29-44, 53-56). */
module AccessExpiry {
  import opened AccessProtocol
  import opened AccessLimit
  import opened Sums

  function LiveWeight(k: nat): Timer -> nat {
    (t: Timer) => if t.key == k && !t.phase.Fired? then 1 else 0
  }

  function LiveTimers(s: State, k: nat): nat {
    SumBy(s.timers, LiveWeight(k))
  }

  function Bit(b: bool): nat {
    if b then 1 else 0
  }

  /** How many places will still lead to a timed removal of this key object: its AddKey handing it over, the timer
      loop, timer goroutines that have not sent yet, and the killer loop working on a timed kill. */
  function Sources(s: State, k: nat): nat
    requires k < |s.cells|
  {
    Bit(s.cells[k].adder.Handing?)
    + Bit(s.loop.Holding? && s.loop.key == k)
    + LiveTimers(s, k)
    + Bit(!s.killer.Idle? && s.killer.key == k && s.killer.origin.Expired?)
  }

  ghost predicate ExpiryAt(s: State, k: nat) {
    k < |s.cells| ==>
      && (!Stored(s.cells[k].adder) ==> Sources(s, k) == 0)
      && (s.cells[k].key.expires ==> Sources(s, k) <= 1)
      && (s.cells[k].key.expires && InMap(s, k) ==> Sources(s, k) == 1)
  }

  lemma UpdateTimer(s: State, t: nat, phase: Phase, k: nat)
    requires t < |s.timers|
    ensures LiveTimers(WithPhase(s, t, phase), k) + LiveWeight(k)(s.timers[t])
         == LiveTimers(s, k) + Bit(s.timers[t].key == k && !phase.Fired?)
  {
    SumUpdate(s.timers, t, s.timers[t].(phase := phase), LiveWeight(k));
  }

  lemma NoTimersYet(s: State, k: nat)
    requires WellFormed(s) && k >= |s.cells|
    ensures LiveTimers(s, k) == 0
  {
    forall q | q in s.timers ensures LiveWeight(k)(q) == 0 {
      var t: nat :| t < |s.timers| && s.timers[t] == q;
      assert TimerOkAt(s, t);
    }
    SumZero(s.timers, LiveWeight(k));
  }

  lemma AddKeepsExpiry(s: State, q: nat, k: nat)
    requires WellFormed(s) && CanAdd(s, q) && ExpiryAt(s, k)
    ensures ExpiryAt(NextAdd(s, q), k)
  {
    assert CellOkAt(s, q);
    assert NextAdd(s, q).timers == s.timers;
    if k < |s.cells| {
      assert EntryOkAt(s, s.cells[k].key.urlKey);
    }
  }

  lemma LoopKeepsExpiry(s: State, k: nat)
    requires WellFormed(s) && CanLoop(s) && ExpiryAt(s, k)
    ensures ExpiryAt(NextLoop(s), k)
  {
    SumAppend(s.timers, NextLoop(s).timers[|s.timers|], LiveWeight(k));
  }

  lemma TimerKeepsExpiry(s: State, t: nat, k: nat)
    requires WellFormed(s) && CanTimer(s, t) && ExpiryAt(s, k)
    ensures ExpiryAt(NextTimer(s, t), k)
  {
    UpdateTimer(s, t, NextTimer(s, t).timers[t].phase, k);
  }

  lemma KillerKeepsExpiry(s: State, k: nat)
    requires WellFormed(s) && CanKiller(s) && ExpiryAt(s, k)
    ensures ExpiryAt(NextKiller(s), k)
  {
    assert NextKiller(s).timers == s.timers;
  }

  lemma SettleKeepsExpiry(s: State, r: nat, k: nat)
    requires WellFormed(s) && CanSettle(s, r) && ExpiryAt(s, k)
    ensures ExpiryAt(NextSettle(s, r), k)
  {
    assert NextSettle(s, r).timers == s.timers;
  }

  lemma StepKeepsExpiry(s: State, a: Action, k: nat)
    requires WellFormed(s) && Enabled(s, a) && ExpiryAt(s, k)
    ensures ExpiryAt(Next(s, a), k)
  {
    match a
    case AddStep(q) => AddKeepsExpiry(s, q, k);
    case LoopStep => LoopKeepsExpiry(s, k);
    case TimerStep(t) => TimerKeepsExpiry(s, t, k);
    case KillerStep => KillerKeepsExpiry(s, k);
    case SettleStep(r) => SettleKeepsExpiry(s, r, k);
    case CallAdd(newKey) =>
      assert EntryOkAt(s, newKey.urlKey);
      if k == |s.cells| {
        NoTimersYet(s, k);
      }
    case _ => assert Next(s, a).timers == s.timers;
  }

  /** A timer goroutine sends its kill only when the key's ttl has passed. */
  lemma NoEarlyKill(s: State, t: nat)
    requires WellFormed(s) && t < |s.timers| && s.timers[t].phase.Firing?
    ensures s.timers[t].key < |s.cells| && s.clock >= Ttl(s.cells[s.timers[t].key].key)
  {
    assert TimerOkAt(s, t);
  }
}
