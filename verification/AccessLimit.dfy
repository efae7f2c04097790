/** What is owed for a key whose limit is reached (access/memory.go:20-28, 60-94). */
module AccessLimit {
  import opened Common
  import opened AccessProtocol

  /** This goroutine is between its add and its send on killer, and it is going to send. */
  predicate Owes(request: Request, k: nat, limit: uint64) {
    && request.key == k
    && match request.goroutine
       case Counted(_) => true
       case ReadBack(_, c) => c >= limit
       case Killing(_, _) => true
       case _ => false
  }

  predicate KillerHolds(s: State, k: nat) {
    !s.killer.Idle? && s.killer.key == k
  }

  ghost predicate KillOwed(s: State, k: nat)
    requires k < |s.cells|
  {
    KillerHolds(s, k) ||
    exists r: nat :: r < |s.requests| && Owes(s.requests[r], k, s.cells[k].key.limit)
  }

  predicate Exhausted(cell: Cell) {
    cell.key.limited && cell.used >= Max(1, cell.key.limit)
  }

  predicate InMap(s: State, k: nat)
    requires k < |s.cells|
  {
    var u := s.cells[k].key.urlKey;
    u in s.store && s.store[u] == k
  }

  /** A key object in the map that has used up its limit has a kill on its way. */
  ghost predicate ObligationAt(s: State, k: nat) {
    k < |s.cells| && InMap(s, k) && Exhausted(s.cells[k]) ==> KillOwed(s, k)
  }

  lemma OtherRequestOwes(s: State, s': State, q: nat, k: nat)
    requires k < |s.cells| && k < |s'.cells| && s'.cells[k].key == s.cells[k].key
    requires q < |s.requests| == |s'.requests| && s'.requests == s.requests[q := s'.requests[q]]
    requires KillOwed(s, k) && (KillerHolds(s, k) ==> KillerHolds(s', k))
    requires Owes(s.requests[q], k, s.cells[k].key.limit) ==>
               Owes(s'.requests[q], k, s.cells[k].key.limit) || KillerHolds(s', k)
    ensures KillOwed(s', k)
  {
    if !KillerHolds(s', k) {
      var r: nat :| r < |s.requests| && Owes(s.requests[r], k, s.cells[k].key.limit);
      assert Owes(s'.requests[r], k, s'.cells[k].key.limit);
    }
  }

  lemma SettleKeepsObligation(s: State, q: nat, k: nat)
    requires CanSettle(s, q) && RequestOkAt(s, q) && ObligationAt(s, k)
    ensures ObligationAt(NextSettle(s, q), k)
  {
    var s' := NextSettle(s, q);
    if k < |s.cells| && InMap(s', k) && Exhausted(s'.cells[k]) {
      if Exhausted(s.cells[k]) {
        OtherRequestOwes(s, s', q, k);
      } else {
        assert Owes(s'.requests[q], k, s'.cells[k].key.limit);
      }
    }
  }

  lemma HandlerKeepsObligation(s: State, q: nat, completed: bool, k: nat)
    requires CanHandle(s, q) && ObligationAt(s, k)
    ensures ObligationAt(NextHandler(s, q, completed), k)
  {
    var s' := NextHandler(s, q, completed);
    if k < |s.cells| && InMap(s', k) && Exhausted(s'.cells[k]) {
      OtherRequestOwes(s, s', q, k);
    }
  }

  lemma SelectKeepsObligation(s: State, q: nat, k: nat)
    requires ObligationAt(s, k)
    ensures CanReceive(s, q) ==> ObligationAt(NextReceive(s, q), k)
    ensures CanGiveUp(s, q) ==> ObligationAt(NextGiveUp(s, q), k)
  {
    if k < |s.cells| && InMap(s, k) && Exhausted(s.cells[k]) {
      if CanReceive(s, q) {
        OtherRequestOwes(s, NextReceive(s, q), q, k);
      }
      if CanGiveUp(s, q) {
        OtherRequestOwes(s, NextGiveUp(s, q), q, k);
      }
    }
  }

  lemma SameRequestsKeepObligation(s: State, s': State, k: nat)
    requires k < |s.cells| && k < |s'.cells| && s'.cells[k].key == s.cells[k].key
    requires s.requests <= s'.requests
    requires KillerHolds(s, k) ==> KillerHolds(s', k)
    requires KillOwed(s, k)
    ensures KillOwed(s', k)
  {
    if !KillerHolds(s', k) {
      var r: nat :| r < |s.requests| && Owes(s.requests[r], k, s.cells[k].key.limit);
      assert s'.requests[r] == s.requests[r];
    }
  }

  lemma QuietStepKeepsObligation(s: State, a: Action, k: nat)
    requires WellFormed(s) && Enabled(s, a) && ObligationAt(s, k)
    requires !a.HandlerStep? && !a.Receive? && !a.GiveUp? && !a.SettleStep?
    ensures ObligationAt(Next(s, a), k)
  {
    var s' := Next(s, a);
    if a.CallAdd? {
      assert EntryOkAt(s, a.newKey.urlKey);
    }
    if k < |s.cells| && InMap(s', k) && Exhausted(s'.cells[k]) {
      assert CellOkAt(s, k);
      assert InMap(s, k);
      SameRequestsKeepObligation(s, s', k);
    }
  }

  lemma StepKeepsObligation(s: State, a: Action, k: nat)
    requires WellFormed(s) && Enabled(s, a) && ObligationAt(s, k)
    ensures ObligationAt(Next(s, a), k)
  {
    match a
    case HandlerStep(q, completed) => HandlerKeepsObligation(s, q, completed, k);
    case Receive(q) => SelectKeepsObligation(s, q, k);
    case GiveUp(q) => SelectKeepsObligation(s, q, k);
    case SettleStep(q) =>
      assert RequestOkAt(s, q);
      SettleKeepsObligation(s, q, k);
    case _ => QuietStepKeepsObligation(s, a, k);
  }
}
