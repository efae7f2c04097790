/** Pieces of runs, for the lemmas that follow one run to a state of interest. */
module AccessRuns {
  import opened Common
  import opened AccessKeys
  import opened AccessProtocol

  /** A key for everyone, without limit or end, and two that grant once; the last one also expires. */
  const FREE := AKey(false, None, false, 0, "bucket", "key", "url", false, None, false)
  const ONCE := AKey(false, None, true, 1, "bucket", "key", "url", false, None, false)
  const SHORT := AKey(true, Some(1000), true, 1, "bucket", "key", "url", false, None, false)

  /** A key that grants once, to those who show this digest in the header. */
  const DIGEST: Digest := seq(DIGEST_LENGTH, _ => 0)
  const LOCKED := AKey(false, None, true, 1, "bucket", "key", "url", true, Some({DIGEST}), false)

  /** A request that was just served, at time zero. */
  const FRESH := Request(0, 0, None, None, false, Deciding, Unsent, Waiting)

  const GRANTED := FRESH.(downloaded := true, handler := Launched, sender := Sending(true))

  /** Follows a run one action at a time. */
  lemma Follow(start: State, s: State, a: Action) returns (s': State)
    requires Reaches(start, s) && Enabled(s, a)
    ensures s' == Next(s, a) && Reaches(start, s')
  {
    s' := Next(s, a);
    ReachesStep(start, s, a);
  }

  /** A whole AddKey call of a key that does not expire, under a url key that is free. */
  lemma FollowAdd(start: State, s: State, key: AKey) returns (s': State)
    requires Reaches(start, s) && WellFormedKey(key) && !key.expires && key.urlKey !in s.store
    ensures Reaches(start, s')
    ensures s' == s.(cells := s.cells + [Cell(key, 0, Added)], store := s.store[key.urlKey := |s.cells|])
  {
    s' := Follow(start, s, CallAdd(key));
    s' := Follow(start, s', AddStep(|s.cells|));
    s' := Follow(start, s', AddStep(|s.cells|));
  }

  lemma FollowStore(start: State, s: State, key: AKey) returns (s': State)
    requires Reaches(start, s) && WellFormedKey(key) && key.expires && key.urlKey !in s.store
    ensures Reaches(start, s')
    ensures s' == s.(cells := s.cells + [Cell(key, 0, Handing)], store := s.store[key.urlKey := |s.cells|])
  {
    s' := Follow(start, s, CallAdd(key));
    s' := Follow(start, s', AddStep(|s.cells|));
    s' := Follow(start, s', AddStep(|s.cells|));
  }

  /** The same for a key that expires, with the hand-over and the start of its timer. */
  lemma FollowExpiringAdd(start: State, s: State, key: AKey) returns (s': State)
    requires Reaches(start, s) && WellFormedKey(key) && key.expires && key.urlKey !in s.store && s.loop.Free?
    ensures Reaches(start, s')
    ensures s' == s.(cells := s.cells + [Cell(key, 0, Added)], store := s.store[key.urlKey := |s.cells|],
                     timers := s.timers + [Timer(|s.cells|, Running(key.ttl.value))])
  {
    s' := FollowStore(start, s, key);
    s' := Follow(start, s', AddStep(|s.cells|));
    s' := Follow(start, s', LoopStep);
    s' := Follow(start, s', TimerStep(|s.timers|));
  }

  /** The handler of an admitted request, up to the launch of its answer. */
  lemma FollowHandler(start: State, s: State, r: nat) returns (s': State)
    requires Reaches(start, s) && RequestAt(s, r) && s.requests[r].handler.Deciding?
    requires Admits(s.cells[s.requests[r].key].key, s.requests[r].query, s.requests[r].header)
    ensures Reaches(start, s')
    ensures s' == s.(requests := s.requests[r := s.requests[r].(downloaded := true, handler := Launched,
                                                                sender := Sending(true))])
  {
    s' := Follow(start, s, HandlerStep(r, true));
    s' := Follow(start, s', HandlerStep(r, true));
    s' := Follow(start, s', HandlerStep(r, true));
  }

  /** The handler of a request that is not admitted. */
  lemma FollowRefusal(start: State, s: State, r: nat) returns (s': State)
    requires Reaches(start, s) && RequestAt(s, r) && s.requests[r].handler.Deciding?
    requires !Admits(s.cells[s.requests[r].key].key, s.requests[r].query, s.requests[r].header)
    ensures Reaches(start, s')
    ensures s' == s.(requests := s.requests[r := s.requests[r].(handler := Launched, sender := Sending(false))])
  {
    s' := Follow(start, s, HandlerStep(r, true));
    s' := Follow(start, s', HandlerStep(r, true));
  }

  /** The goroutine of a request, from its answer to the point where it is about to kill. */
  lemma FollowAnswer(start: State, s: State, r: nat) returns (s': State)
    requires Reaches(start, s) && r < |s.requests| && |s.cells| == 1 && s.requests[r].key == 0
    requires s.requests[r].sender.Sending? && s.requests[r].goroutine.Waiting?
    requires s.cells[0].key.limited && Bumped(s.cells[0].used, s.requests[r].sender.message) >= s.cells[0].key.limit
    ensures Reaches(start, s')
    ensures var m := s.requests[r].sender.message; var used := Bumped(s.cells[0].used, m);
      s' == s.(cells := [s.cells[0].(used := used)],
               requests := s.requests[r := s.requests[r].(sender := Sent(m), goroutine := Killing(m, used))])
  {
    s' := Follow(start, s, Receive(r));
    s' := Follow(start, s', SettleStep(r));
    s' := Follow(start, s', SettleStep(r));
    s' := Follow(start, s', SettleStep(r));
  }

  /** The kill of one request, carried out to the end. */
  lemma FollowKill(start: State, s: State, r: nat) returns (s': State)
    requires Reaches(start, s) && r < |s.requests| && s.requests[r].key < |s.cells|
    requires s.requests[r].goroutine.Killing? && s.killer.Idle? && s.cells[s.requests[r].key].key.urlKey in s.store
    ensures Reaches(start, s')
    ensures var g := s.requests[r].goroutine;
      s' == s.(requests := s.requests[r := s.requests[r].(goroutine := Killed(g.message, g.counter))],
               store := s.store - {s.cells[s.requests[r].key].key.urlKey})
  {
    s' := Follow(start, s, SettleStep(r));
    s' := Follow(start, s', KillerStep);
    s' := Follow(start, s', KillerStep);
  }
}
