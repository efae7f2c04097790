/** Why keys leave the map, and what the map holds when nobody else interferes (access/memory.go:20-44, 86-94). */
module AccessRemoval {
  import opened AccessProtocol
  import opened AccessCounting
  import opened AccessLimit

  /** No other key object was ever submitted under the same url key. */
  ghost predicate Unique(s: State, k: nat) {
    k < |s.cells| &&
    forall j: nat :: j < |s.cells| && j != k ==> s.cells[j].key.urlKey != s.cells[k].key.urlKey
  }

  /** DeleteKey was never called from outside for this url key. */
  ghost predicate NeverDeleted(s: State, k: nat) {
    k < |s.cells| &&
    forall d: nat :: d < |s.deletes| ==> s.deletes[d].urlKey != s.cells[k].key.urlKey
  }

  ghost predicate KilledBy(s: State, k: nat, r: nat) {
    r < |s.requests| && s.requests[r].key == k && s.requests[r].goroutine.Killed?
  }

  ghost predicate TimedOutBy(s: State, k: nat, t: nat) {
    t < |s.timers| && s.timers[t].key == k && s.timers[t].phase.Fired?
  }

  /** A goroutine of this key object has sent its kill. */
  ghost predicate KillSent(s: State, k: nat) {
    || (exists r: nat :: KilledBy(s, k, r))
    || (exists t: nat :: TimedOutBy(s, k, t))
  }

  /** A kill of this key object, together with the reason it was sent for. */
  ghost predicate Justified(s: State, k: nat) {
    && k < |s.cells|
    && var key := s.cells[k].key;
       || (key.limited && exists r: nat ::
             KilledBy(s, k, r) && key.limit <= s.requests[r].goroutine.counter <= TrueAnswers(s, k))
       || (key.expires && s.clock >= Ttl(key) && exists t: nat :: TimedOutBy(s, k, t))
  }

  lemma SentMeansJustified(s: State, k: nat)
    requires WellFormed(s) && k < |s.cells| && forall r: nat :: CounterAt(s, r)
    ensures KillSent(s, k) <==> Justified(s, k)
  {
    if KillSent(s, k) {
      if r: nat :| KilledBy(s, k, r) {
        assert RequestOkAt(s, r) && CounterAt(s, r);
      } else {
        var t: nat :| TimedOutBy(s, k, t);
        assert TimerOkAt(s, t);
      }
    }
  }

  /** Unless another key object used the same url key or DeleteKey was called for it, only a sent kill can have taken
      a stored key out of the map. */
  ghost predicate PresentAt(s: State, k: nat) {
    k < |s.cells| && Stored(s.cells[k].adder) && Unique(s, k) && NeverDeleted(s, k) && !InMap(s, k) ==> KillSent(s, k)
  }

  /** A kill that was sent has been carried out, or the killer loop is at it. */
  ghost predicate DeliveredAt(s: State, k: nat) {
    k < |s.cells| && KillSent(s, k) && InMap(s, k) ==> KillerHolds(s, k)
  }

  lemma KillsStaySent(s: State, a: Action, k: nat)
    requires Enabled(s, a) && KillSent(s, k)
    ensures KillSent(Next(s, a), k)
  {
    var s' := Next(s, a);
    if r: nat :| KilledBy(s, k, r) {
      assert KilledBy(s', k, r);
    } else {
      var t: nat :| TimedOutBy(s, k, t);
      assert TimedOutBy(s', k, t);
    }
  }

  /** A kill is sent only by a step that hands it to the killer loop. */
  lemma SendingHandsOver(s: State, a: Action, k: nat)
    requires Enabled(s, a) && !KillSent(s, k) && KillSent(Next(s, a), k)
    ensures KillerHolds(Next(s, a), k)
  {
    var s' := Next(s, a);
    if r: nat :| KilledBy(s', k, r) {
      assert !KilledBy(s, k, r);
    } else {
      var t: nat :| TimedOutBy(s', k, t);
      assert !TimedOutBy(s, k, t);
    }
  }

  lemma KillerSent(s: State)
    requires KillerOk(s) && !s.killer.Idle?
    ensures KillSent(s, s.killer.key)
  {
    match s.killer.origin
    case Spent(r) => assert KilledBy(s, s.killer.key, r);
    case Expired(t) => assert TimedOutBy(s, s.killer.key, t);
  }

  /** While nobody else uses the url key, a key object leaves the map only by the killer loop's Delete for it. */
  lemma LeavingNeedsKiller(s: State, a: Action, k: nat)
    requires WellFormed(s) && Enabled(s, a) && k < |s.cells| && InMap(s, k) && !InMap(Next(s, a), k)
    requires Unique(s, k) && NeverDeleted(s, k)
    ensures a.KillerStep? && s.killer.key == k
  {
    assert EntryOkAt(s, s.cells[k].key.urlKey);
  }

  lemma EarlierUnique(s: State, a: Action, k: nat)
    requires Enabled(s, a) && k < |s.cells| && Unique(Next(s, a), k) && NeverDeleted(Next(s, a), k)
    ensures Unique(s, k) && NeverDeleted(s, k)
  {
    var s' := Next(s, a);
    forall j: nat | j < |s.cells| && j != k ensures s.cells[j].key.urlKey != s.cells[k].key.urlKey {
      assert s'.cells[j].key == s.cells[j].key;
    }
    forall d: nat | d < |s.deletes| ensures s.deletes[d].urlKey != s.cells[k].key.urlKey {
      assert s'.deletes[d].urlKey == s.deletes[d].urlKey;
    }
  }

  lemma StepKeepsPresent(s: State, a: Action, k: nat)
    requires WellFormed(s) && Enabled(s, a) && PresentAt(s, k)
    ensures PresentAt(Next(s, a), k)
  {
    var s' := Next(s, a);
    if k < |s.cells| && Stored(s'.cells[k].adder) && Unique(s', k) && NeverDeleted(s', k) && !InMap(s', k) {
      EarlierUnique(s, a, k);
      assert Stored(s.cells[k].adder);
      if InMap(s, k) {
        LeavingNeedsKiller(s, a, k);
        KillerSent(s);
      }
      KillsStaySent(s, a, k);
    }
  }

  lemma SentMeansStored(s: State, k: nat)
    requires WellFormed(s) && k < |s.cells| && KillSent(s, k)
    ensures Stored(s.cells[k].adder)
  {
    if r: nat :| KilledBy(s, k, r) {
      assert RequestOkAt(s, r);
    } else {
      var t: nat :| TimedOutBy(s, k, t);
      assert TimerOkAt(s, t);
    }
  }

  lemma EnteringMap(s: State, a: Action, k: nat)
    requires WellFormed(s) && Enabled(s, a) && k < |s.cells| && !InMap(s, k) && InMap(Next(s, a), k)
    ensures !Stored(s.cells[k].adder)
  {
  }

  lemma KillerStaysUntilGone(s: State, a: Action, k: nat)
    requires WellFormed(s) && Enabled(s, a) && k < |s.cells| && KillerHolds(s, k)
    ensures KillerHolds(Next(s, a), k) || !InMap(Next(s, a), k)
  {
  }

  lemma StepKeepsDelivered(s: State, a: Action, k: nat)
    requires WellFormed(s) && Enabled(s, a) && DeliveredAt(s, k)
    ensures DeliveredAt(Next(s, a), k)
  {
    var s' := Next(s, a);
    if a.CallAdd? {
      assert EntryOkAt(s, a.newKey.urlKey);
    }
    if k < |s.cells| && KillSent(s', k) && InMap(s', k) {
      if !KillSent(s, k) {
        SendingHandsOver(s, a, k);
      } else if InMap(s, k) {
        KillerStaysUntilGone(s, a, k);
      } else {
        EnteringMap(s, a, k);
        SentMeansStored(s, k);
      }
    }
  }

  /** A url key leaves the map only by a caller's DeleteKey for it, or by a kill of a key object with that url key that
      was then spent or expired. When no other key object ever used the url key, that object is the one removed. */
  lemma JustifiedRemoval(s: State, a: Action, u: string)
    requires WellFormed(s) && Enabled(s, a) && forall r: nat :: CounterAt(s, r)
    requires u in s.store && u !in Next(s, a).store
    ensures
      || (a.DeleteStep? && s.deletes[a.d].urlKey == u)
      || (&& a.KillerStep?
          && s.killer.key < |s.cells|
          && s.cells[s.killer.key].key.urlKey == u
          && Justified(s, s.killer.key)
          && (Unique(s, s.killer.key) ==> s.store[u] == s.killer.key))
  {
    if a.KillerStep? {
      KillerSent(s);
      SentMeansJustified(s, s.killer.key);
      assert EntryOkAt(s, u);
    }
  }
}
