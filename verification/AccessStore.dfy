/** The store as one caller at a time sees it: each method runs its goroutines to the end without interruption, updating
    the store's fields in place. Every such run is one of the interleavings of AccessProtocol. */
module AccessStore {
  import opened Common
  import opened AccessKeys
  import opened AccessProtocol
  import opened Router

  /** A request: the unlock keys it shows, whether its download completes, and whether the handler's deferred cancel
      overtakes its answer. */
  datatype Course = Course(query: Option<seq<byte>>, header: Option<seq<byte>>, completed: bool, overtaken: bool)

  /** The key admits the request, and its answer will be a true one that arrives. */
  predicate Uses(key: AKey, course: Course) {
    Admits(key, course.query, course.header) && course.completed && !course.overtaken
  }

  function Used(key: AKey, courses: seq<Course>): nat {
    if courses == [] then 0
    else Used(key, courses[..|courses| - 1]) + if Uses(key, courses[|courses| - 1]) then 1 else 0
  }

  /** The request is admitted, and fewer uses than the limit come before it. */
  predicate Due(key: AKey, courses: seq<Course>, i: nat)
    requires i < |courses|
  {
    Admits(key, courses[i].query, courses[i].header) && Used(key, courses[..i]) < key.limit
  }

  lemma ReachedIsWellFormed(s: State, s': State)
    requires WellFormed(s) && Reaches(s, s')
    ensures WellFormed(s')
  {
    var run: seq<Action> :| Allowed(s, run) && Exec(s, run) == s';
    RunKeepsWellFormed(s, run);
  }

  class MemoryStore {
    var m: map<string, nat>
    var cells: seq<Cell>
    var requests: seq<Request>
    var timers: seq<Timer>
    var deletes: seq<DeleteCall>
    var timerLoop: TimerLoop
    var killerLoop: Killer
    var clock: int

    ghost function View(): State
      reads this
    {
      State(m, cells, requests, timers, deletes, timerLoop, killerLoop, clock)
    }

    constructor NewMemoryStore(now: int)
      ensures View() == Start(now)
      ensures m == map[] && cells == [] && requests == [] && timers == [] && deletes == []
      ensures timerLoop.Free? && killerLoop.Idle? && clock == now
    {
      m, cells, requests, timers, deletes := map[], [], [], [], [];
      timerLoop, killerLoop, clock := Free, Idle, now;
    }

    /** The Load of AddKey. */
    method Load(key: AKey) returns (k: nat, ok: bool)
      requires WellFormedKey(key)
      modifies this`cells
      ensures Reaches(old(View()), View())
      ensures k == |old(cells)| && (ok <==> key.urlKey !in m)
      ensures cells == old(cells) + [Cell(key, 0, if ok then Storing else Refused)]
    {
      ghost var before := View();
      ReachesItself(before);
      k := |cells|;
      cells := cells + [Cell(key, 0, Loading)];
      ReachesStep(before, before, CallAdd(key));
      ghost var called := View();
      ok := key.urlKey !in m;
      cells := cells[k := Cell(key, 0, if ok then Storing else Refused)];
      ReachesStep(before, called, AddStep(k));
      assert View() == Next(called, AddStep(k));
    }

    /** The Store of AddKey. */
    method Store(k: nat)
      requires k < |cells| && cells[k].adder.Storing?
      modifies this`m, this`cells
      ensures Reaches(old(View()), View())
      ensures var cell := old(cells)[k];
        && m == old(m)[cell.key.urlKey := k]
        && cells == old(cells)[k := cell.(adder := if cell.key.expires then Handing else Added)]
    {
      ghost var before := View();
      ReachesItself(before);
      var key := cells[k].key;
      m := m[key.urlKey := k];
      cells := cells[k := cells[k].(adder := if key.expires then Handing else Added)];
      ReachesStep(before, before, AddStep(k));
      assert View() == Next(before, AddStep(k));
    }

    /** The send on timeKiller, one round of the timer loop, and the start of the timer it spawns. */
    method HandOver(k: nat)
      requires k < |cells| && cells[k].adder.Handing? && cells[k].key.ttl.Some? && timerLoop.Free?
      modifies this
      ensures Reaches(old(View()), View())
      ensures View() == old(View()).(
        cells := old(cells)[k := old(cells)[k].(adder := Added)],
        timers := old(timers) + [Timer(k, Running(old(cells)[k].key.ttl.value))])
    {
      ghost var before := View();
      ReachesItself(before);
      cells := cells[k := cells[k].(adder := Added)];
      timerLoop := Holding(k);
      ReachesStep(before, before, AddStep(k));
      ghost var handed := View();
      assert handed == Next(before, AddStep(k));
      var duration := cells[k].key.ttl.value - clock;
      var t := |timers|;
      timers := timers + [Timer(k, Starting(duration))];
      timerLoop := Free;
      ReachesStep(before, handed, LoopStep);
      ghost var spawned := View();
      assert spawned == Next(handed, LoopStep);
      timers := timers[t := Timer(k, Running(clock + duration))];
      ReachesStep(before, spawned, TimerStep(t));
      assert View() == Next(spawned, TimerStep(t));
    }

    /** Fails exactly when the url key is taken. A key that expires is handed to the timer loop, and ends up with a
        timer that is due at its ttl. */
    method AddKey(key: AKey) returns (k: nat, ok: bool)
      requires WellFormedKey(key) && timerLoop.Free?
      modifies this
      ensures Reaches(old(View()), View())
      ensures k == |old(cells)| && (ok <==> key.urlKey !in old(m))
      ensures View() == old(View()).(
        store := if ok then old(m)[key.urlKey := k] else old(m),
        cells := old(cells) + [Cell(key, 0, if ok then Added else Refused)],
        timers := if ok && key.expires then old(timers) + [Timer(k, Running(key.ttl.value))] else old(timers))
    {
      ghost var before := View();
      k, ok := Load(key);
      if !ok {
        return;
      }
      ghost var loaded := View();
      Store(k);
      ReachesOn(before, loaded, View());
      if key.expires {
        ghost var stored := View();
        HandOver(k);
        ReachesOn(before, stored, View());
      }
    }

    /** Finds the key object and starts the goroutine that waits for an answer. */
    method Access(urlKey: string, query: Option<seq<byte>>, header: Option<seq<byte>>) returns (r: Option<nat>)
      modifies this
      ensures Reaches(old(View()), View())
      ensures r.Some? <==> urlKey in old(m)
      ensures r.None? ==> View() == old(View())
      ensures r.Some? ==> r.value == |old(requests)| && View() == old(View()).(
        requests := old(requests) + [Request(old(m)[urlKey], clock, query, header,
                                             false, Deciding, Unsent, Waiting)])
    {
      ghost var before := View();
      ReachesItself(before);
      ReachesStep(before, before, Serve(urlKey, clock, query, header));
      if urlKey !in m {
        return None;
      }
      r := Some(|requests|);
      requests := requests + [Request(m[urlKey], clock, query, header, false, Deciding, Unsent, Waiting)];
    }

    /** The download handler up to the launch of its answer: the unlock check and the download. A download that panics
        leaves the answer false. */
    method Decide(r: nat, completed: bool) returns (granted: bool)
      requires r < |requests| && requests[r].key < |cells| && WellFormedKey(cells[requests[r].key].key)
      requires requests[r].handler.Deciding?
      modifies this`requests
      ensures Reaches(old(View()), View())
      ensures var q := old(requests)[r];
        && (granted <==> Admits(old(cells)[q.key].key, q.query, q.header))
        && requests == old(requests)[r := q.(downloaded := granted || q.downloaded, handler := Launched,
                                             sender := Sending(granted && completed))]
    {
      ghost var before := View();
      ReachesItself(before);
      var request := requests[r];
      granted := CheckUnlock(cells[request.key].key, request.query, request.header);
      ghost var decided := Next(before, HandlerStep(r, completed));
      ReachesStep(before, before, HandlerStep(r, completed));
      var backMessage := false;
      if granted {
        requests := requests[r := request.(downloaded := true, handler := Downloading)];
        backMessage := completed;
        ReachesStep(before, decided, HandlerStep(r, completed));
        decided := Next(decided, HandlerStep(r, completed));
      }
      requests := requests[r := requests[r].(handler := Returning(backMessage))];
      assert View() == decided;
      requests := requests[r := requests[r].(handler := Launched, sender := Sending(backMessage))];
      ReachesStep(before, decided, HandlerStep(r, completed));
      assert View() == Next(decided, HandlerStep(r, completed));
    }

    /** The deferred cancel against the answer: either the answer is received before it, or the cancel overtakes it. */
    method Finish(r: nat, overtaken: bool)
      requires r < |requests| && requests[r].key < |cells|
      requires requests[r].handler.Launched? && requests[r].sender.Sending? && requests[r].goroutine.Waiting?
      modifies this`requests
      ensures Reaches(old(View()), View())
      ensures var q := old(requests)[r];
        requests == old(requests)[r := q.(
          handler := Closed, sender := if overtaken then q.sender else Sent(q.sender.message),
          goroutine := if overtaken then Cancelled else Answered(q.sender.message))]
    {
      ghost var before := View();
      ReachesItself(before);
      if overtaken {
        requests := requests[r := requests[r].(handler := Closed)];
        ReachesStep(before, before, HandlerStep(r, true));
        ghost var closed := View();
        assert closed == Next(before, HandlerStep(r, true));
        requests := requests[r := requests[r].(goroutine := Cancelled)];
        ReachesStep(before, closed, GiveUp(r));
        assert View() == Next(closed, GiveUp(r));
      } else {
        var message := requests[r].sender.message;
        requests := requests[r := requests[r].(sender := Sent(message), goroutine := Answered(message))];
        ReachesStep(before, before, Receive(r));
        ghost var received := View();
        assert received == Next(before, Receive(r));
        requests := requests[r := requests[r].(handler := Closed)];
        ReachesStep(before, received, HandlerStep(r, true));
        assert View() == Next(received, HandlerStep(r, true));
      }
    }

    /** The whole handler for a request, with the two things it has no hand in: whether the download completes, and
        whether its cancel overtakes its answer. */
    method Handle(r: nat, completed: bool, overtaken: bool) returns (granted: bool)
      requires r < |requests| && requests[r].key < |cells| && WellFormedKey(cells[requests[r].key].key)
      requires requests[r].handler.Deciding? && requests[r].goroutine.Waiting?
      modifies this`requests
      ensures Reaches(old(View()), View())
      ensures var q := old(requests)[r]; var message := granted && completed;
        && (granted <==> Admits(old(cells)[q.key].key, q.query, q.header))
        && requests == old(requests)[r := q.(
             downloaded := granted || q.downloaded, handler := Closed,
             sender := if overtaken then Sending(message) else Sent(message),
             goroutine := if overtaken then Cancelled else Answered(message))]
    {
      ghost var before := View();
      granted := Decide(r, completed);
      ghost var launched := View();
      Finish(r, overtaken);
      ReachesOn(before, launched, View());
    }

    /** The rest of the goroutine of Access: add, load, and compare; a kill is carried out at once. */
    method Settle(r: nat)
      requires r < |requests| && requests[r].key < |cells| && requests[r].goroutine.Answered? && killerLoop.Idle?
      modifies this
      ensures Reaches(old(View()), View())
      ensures var q := old(requests)[r]; var cell := old(cells)[q.key]; var message := q.goroutine.message;
        var used := Bumped(cell.used, message);
        View() == old(View()).(
          cells := old(cells)[q.key := cell.(used := used)],
          requests := old(requests)[r := q.(goroutine := if used >= cell.key.limit && cell.key.limited
                                                         then Killed(message, used) else Spared(message, used))],
          store := if used >= cell.key.limit && cell.key.limited then old(m) - {cell.key.urlKey} else old(m))
    {
      ghost var before := View();
      var k := requests[r].key;
      var counter := CountAndLoad(r);
      var resp := requests[r].goroutine.message;
      ghost var read := View();
      ReachesStep(before, read, SettleStep(r));
      if counter >= cells[k].key.limit && cells[k].key.limited {
        requests := requests[r := requests[r].(goroutine := Killing(resp, counter))];
        ghost var judged := View();
        assert judged == Next(read, SettleStep(r));
        Kill(r);
        ReachesOn(before, judged, View());
      } else {
        requests := requests[r := requests[r].(goroutine := Spared(resp, counter))];
        assert View() == Next(read, SettleStep(r));
      }
    }

    /** The atomic add of a true answer, and the load that follows. */
    method CountAndLoad(r: nat) returns (counter: uint64)
      requires r < |requests| && requests[r].key < |cells| && requests[r].goroutine.Answered?
      modifies this`cells, this`requests
      ensures Reaches(old(View()), View())
      ensures var q := old(requests)[r]; var cell := old(cells)[q.key]; var message := q.goroutine.message;
        && counter == Bumped(cell.used, message)
        && cells == old(cells)[q.key := cell.(used := counter)]
        && requests == old(requests)[r := q.(goroutine := ReadBack(message, counter))]
    {
      ghost var before := View();
      ReachesItself(before);
      var k := requests[r].key;
      var resp := requests[r].goroutine.message;
      if resp {
        cells := cells[k := cells[k].(used := (cells[k].used + 1) % UINT64_BOUND)];
      }
      requests := requests[r := requests[r].(goroutine := Counted(resp))];
      ghost var added := View();
      assert added == Next(before, SettleStep(r));
      ReachesStep(before, before, SettleStep(r));
      counter := cells[k].used;
      requests := requests[r := requests[r].(goroutine := ReadBack(resp, counter))];
      ReachesStep(before, added, SettleStep(r));
      assert View() == Next(added, SettleStep(r));
    }

    /** The send on killer, and one round of the killer loop. */
    method Kill(r: nat)
      requires r < |requests| && requests[r].key < |cells| && requests[r].goroutine.Killing? && killerLoop.Idle?
      modifies this
      ensures Reaches(old(View()), View())
      ensures var q := old(requests)[r]; View() == old(View()).(
        requests := old(requests)[r := q.(goroutine := Killed(q.goroutine.message, q.goroutine.counter))],
        store := old(m) - {old(cells)[q.key].key.urlKey})
    {
      ghost var before := View();
      ReachesItself(before);
      var request := requests[r];
      requests := requests[r := request.(goroutine := Killed(request.goroutine.message, request.goroutine.counter))];
      killerLoop := Received(request.key, Spent(r));
      ReachesStep(before, before, SettleStep(r));
      ghost var sent := View();
      assert sent == Next(before, SettleStep(r));
      KillerRound();
      ReachesOn(before, sent, View());
    }

    /** DeleteKey as the killer loop calls it: with its own check, by the url key of the key object it received. */
    method KillerRound()
      requires killerLoop.Received? && killerLoop.key < |cells|
      modifies this`m, this`killerLoop
      ensures Reaches(old(View()), View())
      ensures View() == old(View()).(store := old(m) - {old(cells)[old(killerLoop).key].key.urlKey}, killer := Idle)
    {
      ghost var before := View();
      ReachesItself(before);
      var urlKey := cells[killerLoop.key].key.urlKey;
      ReachesStep(before, before, KillerStep);
      if urlKey !in m {
        killerLoop := Idle;
        assert View() == Next(before, KillerStep);
        assert m == old(m) - {urlKey};
        return;
      }
      killerLoop := Deleting(killerLoop.key, killerLoop.origin);
      ghost var found := View();
      assert found == Next(before, KillerStep);
      m := m - {urlKey};
      killerLoop := Idle;
      ReachesStep(before, found, KillerStep);
      assert View() == Next(found, KillerStep);
    }

    /** DeleteKey called from outside: whatever key object is under the url key goes. It fails when there is none. */
    method DeleteKey(key: AKey) returns (ok: bool)
      modifies this`m, this`deletes
      ensures Reaches(old(View()), View())
      ensures ok <==> key.urlKey in old(m)
      ensures View() == old(View()).(
        store := old(m) - {key.urlKey}, deletes := old(deletes) + [DeleteCall(key.urlKey, Returned(ok))])
    {
      ghost var before := View();
      ReachesItself(before);
      var d := |deletes|;
      deletes := deletes + [DeleteCall(key.urlKey, Looking)];
      ReachesStep(before, before, CallDelete(key.urlKey));
      ghost var called := View();
      ReachesStep(before, called, DeleteStep(d));
      if key.urlKey !in m {
        deletes := deletes[d := DeleteCall(key.urlKey, Returned(false))];
        assert View() == Next(called, DeleteStep(d));
        assert m == old(m) - {key.urlKey};
        return false;
      }
      deletes := deletes[d := DeleteCall(key.urlKey, Removing)];
      ghost var found := View();
      assert found == Next(called, DeleteStep(d));
      m := m - {key.urlKey};
      deletes := deletes[d := DeleteCall(key.urlKey, Returned(true))];
      ReachesStep(before, found, DeleteStep(d));
      assert View() == Next(found, DeleteStep(d));
      return true;
    }

    /** Time passes until a timer is due; its goroutine sends on killer, and the killer loop removes the url key. */
    method Expire(t: nat, now: int)
      requires t < |timers| && timers[t].key < |cells| && timers[t].phase.Running? && killerLoop.Idle?
      requires now >= clock && now >= timers[t].phase.due
      modifies this
      ensures Reaches(old(View()), View())
      ensures View() == old(View()).(
        clock := now,
        timers := old(timers)[t := Timer(old(timers)[t].key, Fired)],
        store := old(m) - {old(cells)[old(timers)[t].key].key.urlKey})
    {
      ghost var before := View();
      ReachesItself(before);
      clock := now;
      ReachesStep(before, before, Tick(now));
      ghost var due := View();
      timers := timers[t := Timer(timers[t].key, Firing)];
      ReachesStep(before, due, TimerStep(t));
      ghost var firing := View();
      assert firing == Next(due, TimerStep(t));
      timers := timers[t := Timer(timers[t].key, Fired)];
      killerLoop := Received(timers[t].key, AccessProtocol.Expired(t));
      ReachesStep(before, firing, TimerStep(t));
      ghost var sent := View();
      assert sent == Next(firing, TimerStep(t));
      KillerRound();
      ReachesOn(before, sent, View());
    }

    /** One download request from start to finish. Download is called exactly when the url key has a key object that
        admits the request. It uses the key once if it completes and its answer is not overtaken; and once an answer
        was received, the url key is gone exactly when the key is limited and its counter has reached the limit. */
    method Download(urlKey: string, course: Course) returns (granted: bool)
      requires WellFormed(View()) && killerLoop.Idle?
      modifies this
      ensures Reaches(old(View()), View()) && killerLoop.Idle?
      ensures urlKey in old(m) ==> old(m)[urlKey] < |old(cells)|
      ensures granted <==> urlKey in old(m) && Admits(old(cells)[old(m)[urlKey]].key, course.query, course.header)
      ensures urlKey !in old(m) ==> View() == old(View())
      ensures urlKey in old(m) ==> (
        var k := old(m)[urlKey]; var key := old(cells)[k].key;
        var used := Bumped(old(cells)[k].used, Uses(key, course));
        && cells == old(cells)[k := old(cells)[k].(used := used)]
        && m == (if !course.overtaken && key.limited && used >= key.limit then old(m) - {urlKey} else old(m)))
    {
      ghost var before := View();
      assert EntryOkAt(before, urlKey);
      var r := Access(urlKey, course.query, course.header);
      if r.None? {
        return false;
      }
      assert CellOkAt(before, m[urlKey]);
      ghost var served := View();
      granted := Handle(r.value, course.completed, course.overtaken);
      ReachesOn(before, served, View());
      if !course.overtaken {
        ghost var answered := View();
        Settle(r.value);
        ReachesOn(before, answered, View());
      }
    }

    /** This key object has been used so many times, and is in the map until its limit is reached. */
    ghost predicate Tally(urlKey: string, k: nat, key: AKey, count: nat)
      reads this
    {
      && (urlKey in m <==> count < key.limit)
      && (urlKey in m ==> (m[urlKey] == k && k < |cells| && cells[k].key == key && cells[k].used == count))
    }

    method DownloadNext(urlKey: string, course: Course, ghost k: nat, ghost key: AKey, ghost count: nat)
      returns (granted: bool)
      requires WellFormed(View()) && killerLoop.Idle?
      requires key.limited && key.limit >= 1 && Tally(urlKey, k, key, count)
      modifies this
      ensures Reaches(old(View()), View()) && WellFormed(View()) && killerLoop.Idle?
      ensures granted <==> Admits(key, course.query, course.header) && count < key.limit
      ensures Tally(urlKey, k, key, if Uses(key, course) then count + 1 else count)
    {
      ghost var before := View();
      granted := Download(urlKey, course);
      ReachedIsWellFormed(before, View());
    }

    /** Requests for one url key, each finished before the next begins. With a limit of at least one, a request is
        granted exactly when the key admits it and fewer than limit uses were counted before; requests that are not
        admitted, panic or lose their answer cost nothing; and the url key is in the map until the limit is reached. */
    method DownloadInTurn(urlKey: string, courses: seq<Course>) returns (granted: seq<bool>)
      requires WellFormed(View()) && killerLoop.Idle?
      requires urlKey in m && m[urlKey] < |cells| && cells[m[urlKey]].used == 0
      requires cells[m[urlKey]].key.limited && cells[m[urlKey]].key.limit >= 1
      modifies this
      ensures Reaches(old(View()), View())
      ensures old(m)[urlKey] < |old(cells)| && |granted| == |courses|
      ensures var key := old(cells)[old(m)[urlKey]].key;
        && (forall i :: 0 <= i < |courses| ==> (granted[i] <==> Due(key, courses, i)))
        && (urlKey in m <==> Used(key, courses) < key.limit)
    {
      ghost var before := View();
      ghost var k, key := m[urlKey], cells[m[urlKey]].key;
      ReachesItself(before);
      granted := [];
      for n := 0 to |courses|
        invariant Reaches(before, View()) && WellFormed(View()) && killerLoop.Idle?
        invariant |granted| == n && Tally(urlKey, k, key, Used(key, courses[..n]))
        invariant forall i :: 0 <= i < n ==> (granted[i] <==> Due(key, courses, i))
      {
        assert courses[..n + 1][..n] == courses[..n];
        ghost var mid := View();
        var g := DownloadNext(urlKey, courses[n], k, key, Used(key, courses[..n]));
        ReachesOn(before, mid, View());
        granted := granted + [g];
      }
      assert courses[..|courses|] == courses;
    }
  }
}
