/** The in-memory access-key store and the download handler that drives it, as a step system
    (access/memory.go, and the /api/download handler of router.go).

    Key objects, requests, timer goroutines and DeleteKey calls are numbered by their position in a sequence, so a
    new one is always fresh. One action is one step that other goroutines can observe: a Load, Store or Delete of the
    shared map, an atomic operation on a use counter, a rendezvous on an unbuffered channel, or a timer event. */
module AccessProtocol {
  import opened Common
  import opened AccessKeys

  const SECOND := 1_000_000_000
  const DEADLINE := 100 * SECOND

  /** Progress of the one AddKey call that was made for a key object. */
  datatype Adder = Loading | Storing | Handing | Added | Refused

  datatype Cell = Cell(key: AKey, used: uint64, adder: Adder)

  /** The handler, from the return of Access to the deferred cancel of its context. */
  datatype Handler = Deciding | Downloading | Returning(message: bool) | Launched | Closed

  /** The goroutine the handler launches to send its answer. */
  datatype Sender = Unsent | Sending(message: bool) | Sent(message: bool)

  /** The goroutine Access starts. */
  datatype Goroutine =
    | Waiting
    | Cancelled
    | Answered(message: bool)
    | Counted(message: bool)
    | ReadBack(message: bool, counter: uint64)
    | Killing(message: bool, counter: uint64)
    | Killed(message: bool, counter: uint64)
    | Spared(message: bool, counter: uint64)

  /** One download request whose Access call found a key object; issued is when the context of its handler was made. */
  datatype Request = Request(
    key: nat,
    issued: int,
    query: Option<seq<byte>>,
    header: Option<seq<byte>>,
    downloaded: bool,
    handler: Handler,
    sender: Sender,
    goroutine: Goroutine)

  datatype Phase = Starting(duration: int) | Running(due: int) | Firing | Fired

  datatype Timer = Timer(key: nat, phase: Phase)

  datatype TimerLoop = Free | Holding(key: nat)

  /** Which goroutine sent the kill that the killer loop is working on. */
  datatype Origin = Spent(request: nat) | Expired(timer: nat)

  datatype Killer = Idle | Received(key: nat, origin: Origin) | Deleting(key: nat, origin: Origin)

  datatype DeleteCall = DeleteCall(urlKey: string, progress: DeleteProgress)

  datatype DeleteProgress = Looking | Removing | Returned(found: bool)

  datatype State = State(
    store: map<string, nat>,
    cells: seq<Cell>,
    requests: seq<Request>,
    timers: seq<Timer>,
    deletes: seq<DeleteCall>,
    loop: TimerLoop,
    killer: Killer,
    clock: int)

  function Start(clock: int): State {
    State(map[], [], [], [], [], Free, Idle, clock)
  }

  /** The calls from outside and the clock come first; every other action is the next step of one goroutine. */
  datatype Action =
    | CallAdd(newKey: AKey)
    | Serve(urlKey: string, issued: int, query: Option<seq<byte>>, header: Option<seq<byte>>)
    | CallDelete(urlKey: string)
    | Tick(now: int)
    | AddStep(k: nat)
    | LoopStep
    | TimerStep(t: nat)
    | HandlerStep(r: nat, completed: bool)
    | Receive(r: nat)
    | GiveUp(r: nat)
    | SettleStep(r: nat)
    | KillerStep
    | DeleteStep(d: nat)

  predicate Stored(adder: Adder) {
    adder.Handing? || adder.Added?
  }

  /** The ttl of a key object; asked only of keys that expire. */
  function Ttl(key: AKey): int {
    if key.ttl.Some? then key.ttl.value else 0
  }

  function WithAdder(s: State, k: nat, adder: Adder): State
    requires k < |s.cells|
  {
    s.(cells := s.cells[k := s.cells[k].(adder := adder)])
  }

  function WithPhase(s: State, t: nat, phase: Phase): State
    requires t < |s.timers|
  {
    s.(timers := s.timers[t := s.timers[t].(phase := phase)])
  }

  function WithRequest(s: State, r: nat, request: Request): State
    requires r < |s.requests|
  {
    s.(requests := s.requests[r := request])
  }

  function WithProgress(s: State, d: nat, progress: DeleteProgress): State
    requires d < |s.deletes|
  {
    s.(deletes := s.deletes[d := s.deletes[d].(progress := progress)])
  }

  /** AddKey: Load, then Store, then for an expiring key the send on timeKiller. */
  predicate CanAdd(s: State, k: nat) {
    && k < |s.cells|
    && match s.cells[k].adder
       case Loading => true
       case Storing => true
       case Handing => s.loop.Free?
       case _ => false
  }

  function NextAdd(s: State, k: nat): State
    requires CanAdd(s, k)
  {
    var key := s.cells[k].key;
    match s.cells[k].adder
    case Loading => WithAdder(s, k, if key.urlKey in s.store then Refused else Storing)
    case Storing => WithAdder(s, k, if key.expires then Handing else Added).(store := s.store[key.urlKey := k])
    case Handing => WithAdder(s, k, Added).(loop := Holding(k))
  }

  /** The timer loop computes the time that is left and starts a goroutine with it. */
  predicate CanLoop(s: State) {
    s.loop.Holding? && s.loop.key < |s.cells|
  }

  function NextLoop(s: State): State
    requires CanLoop(s)
  {
    s.(loop := Free,
       timers := s.timers + [Timer(s.loop.key, Starting(Ttl(s.cells[s.loop.key].key) - s.clock))])
  }

  /** A timer goroutine: start the timer, wait for it, send on killer. */
  predicate CanTimer(s: State, t: nat) {
    && t < |s.timers|
    && match s.timers[t].phase
       case Starting(_) => true
       case Running(due) => s.clock >= due
       case Firing => s.killer.Idle?
       case Fired => false
  }

  function NextTimer(s: State, t: nat): State
    requires CanTimer(s, t)
  {
    match s.timers[t].phase
    case Starting(duration) => WithPhase(s, t, Running(s.clock + duration))
    case Running(_) => WithPhase(s, t, Firing)
    case Firing => WithPhase(s, t, Fired).(killer := Received(s.timers[t].key, Expired(t)))
  }

  predicate RequestAt(s: State, r: nat) {
    r < |s.requests| && s.requests[r].key < |s.cells|
  }

  /** The handler: check the unlock key, download, launch the answer, cancel the context.
      A download that panics runs the two deferred functions with the answer still false. */
  predicate CanHandle(s: State, r: nat) {
    RequestAt(s, r) && !s.requests[r].handler.Closed?
  }

  function NextHandler(s: State, r: nat, completed: bool): State
    requires CanHandle(s, r)
  {
    var request := s.requests[r];
    WithRequest(s, r,
                match request.handler
                case Deciding =>
                  if Admits(s.cells[request.key].key, request.query, request.header)
                  then request.(handler := Downloading, downloaded := true)
                  else request.(handler := Returning(false))
                case Downloading => request.(handler := Returning(completed))
                case Returning(message) => request.(handler := Launched, sender := Sending(message))
                case Launched => request.(handler := Closed))
  }

  /** The select of the access goroutine: an answer, or the end of the context. */
  predicate CanReceive(s: State, r: nat) {
    RequestAt(s, r) && s.requests[r].goroutine.Waiting? && s.requests[r].sender.Sending?
  }

  function NextReceive(s: State, r: nat): State
    requires CanReceive(s, r)
  {
    var message := s.requests[r].sender.message;
    WithRequest(s, r, s.requests[r].(sender := Sent(message), goroutine := Answered(message)))
  }

  predicate CanGiveUp(s: State, r: nat) {
    && RequestAt(s, r)
    && s.requests[r].goroutine.Waiting?
    && (s.requests[r].handler.Closed? || s.clock >= s.requests[r].issued + DEADLINE)
  }

  function NextGiveUp(s: State, r: nat): State
    requires CanGiveUp(s, r)
  {
    WithRequest(s, r, s.requests[r].(goroutine := Cancelled))
  }

  /** After an answer: add, load, compare with the limit, send on killer. */
  predicate CanSettle(s: State, r: nat) {
    && RequestAt(s, r)
    && match s.requests[r].goroutine
       case Answered(_) => true
       case Counted(_) => true
       case ReadBack(_, _) => true
       case Killing(_, _) => s.killer.Idle?
       case _ => false
  }

  function Bumped(used: uint64, message: bool): uint64 {
    if message then (used + 1) % UINT64_BOUND else used
  }

  function NextSettle(s: State, r: nat): State
    requires CanSettle(s, r)
  {
    var request := s.requests[r];
    var cell := s.cells[request.key];
    match request.goroutine
    case Answered(m) =>
      WithRequest(s, r, request.(goroutine := Counted(m)))
        .(cells := s.cells[request.key := cell.(used := Bumped(cell.used, m))])
    case Counted(m) => WithRequest(s, r, request.(goroutine := ReadBack(m, cell.used)))
    case ReadBack(m, c) =>
      WithRequest(s, r, request.(goroutine := if c >= cell.key.limit && cell.key.limited
                                              then Killing(m, c) else Spared(m, c)))
    case Killing(m, c) =>
      WithRequest(s, r, request.(goroutine := Killed(m, c))).(killer := Received(request.key, Spent(r)))
  }

  /** The killer loop: the Load and the Delete of DeleteKey for the key object it received. */
  predicate CanKiller(s: State) {
    !s.killer.Idle? && s.killer.key < |s.cells|
  }

  function NextKiller(s: State): State
    requires CanKiller(s)
  {
    var urlKey := s.cells[s.killer.key].key.urlKey;
    match s.killer
    case Received(k, origin) => s.(killer := if urlKey in s.store then Deleting(k, origin) else Idle)
    case Deleting(_, _) => s.(store := s.store - {urlKey}, killer := Idle)
  }

  /** DeleteKey called from outside: Load, then Delete. */
  predicate CanDelete(s: State, d: nat) {
    d < |s.deletes| && !s.deletes[d].progress.Returned?
  }

  function NextDelete(s: State, d: nat): State
    requires CanDelete(s, d)
  {
    var urlKey := s.deletes[d].urlKey;
    match s.deletes[d].progress
    case Looking => WithProgress(s, d, if urlKey in s.store then Removing else Returned(false))
    case Removing => WithProgress(s, d, Returned(true)).(store := s.store - {urlKey})
  }

  /** Access: with no key object it fails, and the deferred answer then blocks forever on a nil channel. */
  function NextServe(s: State, urlKey: string, issued: int, query: Option<seq<byte>>, header: Option<seq<byte>>): State
  {
    if urlKey !in s.store then s else
    s.(requests := s.requests + [Request(s.store[urlKey], issued, query, header,
                                         false, Deciding, Unsent, Waiting)])
  }

  predicate Enabled(s: State, a: Action) {
    match a
    case CallAdd(newKey) => WellFormedKey(newKey)
    case Serve(_, issued, _, _) => issued <= s.clock
    case CallDelete(_) => true
    case Tick(now) => now >= s.clock
    case AddStep(k) => CanAdd(s, k)
    case LoopStep => CanLoop(s)
    case TimerStep(t) => CanTimer(s, t)
    case HandlerStep(r, _) => CanHandle(s, r)
    case Receive(r) => CanReceive(s, r)
    case GiveUp(r) => CanGiveUp(s, r)
    case SettleStep(r) => CanSettle(s, r)
    case KillerStep => CanKiller(s)
    case DeleteStep(d) => CanDelete(s, d)
  }

  function Next(s: State, a: Action): State
    requires Enabled(s, a)
  {
    match a
    case CallAdd(newKey) => s.(cells := s.cells + [Cell(newKey, 0, Loading)])
    case Serve(urlKey, issued, query, header) => NextServe(s, urlKey, issued, query, header)
    case CallDelete(urlKey) => s.(deletes := s.deletes + [DeleteCall(urlKey, Looking)])
    case Tick(now) => s.(clock := now)
    case AddStep(k) => NextAdd(s, k)
    case LoopStep => NextLoop(s)
    case TimerStep(t) => NextTimer(s, t)
    case HandlerStep(r, completed) => NextHandler(s, r, completed)
    case Receive(r) => NextReceive(s, r)
    case GiveUp(r) => NextGiveUp(s, r)
    case SettleStep(r) => NextSettle(s, r)
    case KillerStep => NextKiller(s)
    case DeleteStep(d) => NextDelete(s, d)
  }

  /** Every action of the run is enabled when its turn comes. */
  predicate Allowed(s: State, run: seq<Action>)
    decreases |run|
  {
    run == [] || (Enabled(s, run[0]) && Allowed(Next(s, run[0]), run[1..]))
  }

  function Exec(s: State, run: seq<Action>): State
    requires Allowed(s, run)
    decreases |run|
  {
    if run == [] then s else Exec(Next(s, run[0]), run[1..])
  }

  /** Some interleaving leads from the first state to the second. */
  ghost predicate Reaches(s: State, s': State) {
    exists run: seq<Action> :: Allowed(s, run) && Exec(s, run) == s'
  }

  ghost predicate Reachable(s: State) {
    exists clock: int :: Reaches(Start(clock), s)
  }

  lemma ReachesItself(s: State)
    ensures Reaches(s, s)
  {
    assert Allowed(s, []) && Exec(s, []) == s;
  }

  lemma {:induction false} ExecOneMore(s: State, run: seq<Action>, a: Action)
    requires Allowed(s, run) && Enabled(Exec(s, run), a)
    ensures Allowed(s, run + [a]) && Exec(s, run + [a]) == Next(Exec(s, run), a)
    decreases |run|
  {
    if run == [] {
      var one := [a];
      assert run + [a] == one && one[1..] == [];
      assert Allowed(Next(s, a), one[1..]) && Exec(Next(s, a), one[1..]) == Next(s, a);
    } else {
      assert (run + [a])[1..] == run[1..] + [a];
      ExecOneMore(Next(s, run[0]), run[1..], a);
    }
  }

  lemma {:induction false} ExecAppend(s: State, first: seq<Action>, second: seq<Action>)
    requires Allowed(s, first) && Allowed(Exec(s, first), second)
    ensures Allowed(s, first + second) && Exec(s, first + second) == Exec(Exec(s, first), second)
    decreases |first|
  {
    if first == [] {
      assert first + second == second;
    } else {
      assert (first + second)[1..] == first[1..] + second;
      ExecAppend(Next(s, first[0]), first[1..], second);
    }
  }

  lemma ReachesOn(s: State, mid: State, s': State)
    requires Reaches(s, mid) && Reaches(mid, s')
    ensures Reaches(s, s')
  {
    var first: seq<Action> :| Allowed(s, first) && Exec(s, first) == mid;
    var second: seq<Action> :| Allowed(mid, second) && Exec(mid, second) == s';
    ExecAppend(s, first, second);
  }

  /** What can be reached can be reached one step further. */
  lemma ReachesStep(s: State, s': State, a: Action)
    requires Reaches(s, s') && Enabled(s', a)
    ensures Reaches(s, Next(s', a))
  {
    var run: seq<Action> :| Allowed(s, run) && Exec(s, run) == s';
    ExecOneMore(s, run, a);
  }

  predicate EntryOkAt(s: State, u: string) {
    u in s.store ==>
      s.store[u] < |s.cells| && s.cells[s.store[u]].key.urlKey == u && Stored(s.cells[s.store[u]].adder)
  }

  ghost predicate StoreOk(s: State) {
    forall u: string :: EntryOkAt(s, u)
  }

  predicate CellOkAt(s: State, k: nat) {
    k < |s.cells| ==>
      && WellFormedKey(s.cells[k].key)
      && (!Stored(s.cells[k].adder) ==> s.cells[k].used == 0)
      && (s.cells[k].adder.Handing? ==> s.cells[k].key.expires)
  }

  ghost predicate CellsOk(s: State) {
    forall k: nat :: CellOkAt(s, k)
  }

  /** A request is answered only with what its handler decided, and decided only what the key admits. */
  predicate RequestOk(key: AKey, request: Request) {
    && (request.downloaded ==> Admits(key, request.query, request.header))
    && (match request.handler
        case Deciding => !request.downloaded && request.sender.Unsent?
        case Downloading => request.downloaded && request.sender.Unsent?
        case Returning(m) => (m ==> request.downloaded) && request.sender.Unsent?
        case Launched => !request.sender.Unsent?
        case Closed => !request.sender.Unsent?)
    && (!request.sender.Unsent? && request.sender.message ==> request.downloaded)
    && (match request.goroutine
        case Waiting => !request.sender.Sent?
        case Cancelled => !request.sender.Sent?
        case Answered(m) => request.sender == Sent(m)
        case Counted(m) => request.sender == Sent(m)
        case ReadBack(m, _) => request.sender == Sent(m)
        case Killing(m, c) => request.sender == Sent(m) && key.limited && c >= key.limit
        case Killed(m, c) => request.sender == Sent(m) && key.limited && c >= key.limit
        case Spared(m, c) => request.sender == Sent(m) && !(key.limited && c >= key.limit))
  }

  predicate RequestOkAt(s: State, r: nat) {
    r < |s.requests| ==>
      && s.requests[r].key < |s.cells|
      && Stored(s.cells[s.requests[r].key].adder)
      && RequestOk(s.cells[s.requests[r].key].key, s.requests[r])
  }

  ghost predicate RequestsOk(s: State) {
    forall r: nat :: RequestOkAt(s, r)
  }

  predicate PhaseOk(ttl: int, clock: int, phase: Phase) {
    match phase
    case Starting(d) => clock + d >= ttl
    case Running(due) => due >= ttl
    case Firing => clock >= ttl
    case Fired => clock >= ttl
  }

  predicate TimerOkAt(s: State, t: nat) {
    t < |s.timers| ==>
      && s.timers[t].key < |s.cells|
      && s.cells[s.timers[t].key].key.expires
      && s.cells[s.timers[t].key].adder.Added?
      && PhaseOk(Ttl(s.cells[s.timers[t].key].key), s.clock, s.timers[t].phase)
  }

  ghost predicate TimersOk(s: State) {
    forall t: nat :: TimerOkAt(s, t)
  }

  predicate LoopOk(s: State) {
    s.loop.Holding? ==>
      s.loop.key < |s.cells| && s.cells[s.loop.key].key.expires && s.cells[s.loop.key].adder.Added?
  }

  /** Every kill the killer loop works on was sent by a goroutine of that very key, for a reason that held then. */
  predicate KillerOk(s: State) {
    !s.killer.Idle? ==>
      && s.killer.key < |s.cells|
      && match s.killer.origin
         case Spent(r) =>
           r < |s.requests| && s.requests[r].key == s.killer.key && s.requests[r].goroutine.Killed?
         case Expired(t) =>
           t < |s.timers| && s.timers[t].key == s.killer.key && s.timers[t].phase.Fired?
  }

  /** The structure every reachable state has. */
  ghost predicate WellFormed(s: State) {
    && StoreOk(s)
    && CellsOk(s)
    && RequestsOk(s)
    && TimersOk(s)
    && LoopOk(s)
    && KillerOk(s)
  }

  lemma StepKeepsEntry(s: State, a: Action, u: string)
    requires WellFormed(s) && Enabled(s, a)
    ensures EntryOkAt(Next(s, a), u)
  {
    assert EntryOkAt(s, u);
  }

  lemma StepKeepsCell(s: State, a: Action, k: nat)
    requires WellFormed(s) && Enabled(s, a)
    ensures CellOkAt(Next(s, a), k)
  {
    assert CellOkAt(s, k);
    if a.SettleStep? {
      assert RequestOkAt(s, a.r);
    }
  }

  lemma HandlerKeepsRequest(s: State, q: nat, completed: bool, r: nat)
    requires RequestsOk(s) && CanHandle(s, q)
    ensures RequestOkAt(NextHandler(s, q, completed), r)
  {
    assert RequestOkAt(s, r);
  }

  lemma SelectKeepsRequest(s: State, q: nat, r: nat)
    requires RequestsOk(s)
    ensures CanReceive(s, q) ==> RequestOkAt(NextReceive(s, q), r)
    ensures CanGiveUp(s, q) ==> RequestOkAt(NextGiveUp(s, q), r)
  {
    assert RequestOkAt(s, r);
  }

  lemma SettleKeepsRequest(s: State, q: nat, r: nat)
    requires RequestsOk(s) && CanSettle(s, q)
    ensures RequestOkAt(NextSettle(s, q), r)
  {
    assert RequestOkAt(s, r);
  }

  lemma StepKeepsRequest(s: State, a: Action, r: nat)
    requires WellFormed(s) && Enabled(s, a)
    ensures RequestOkAt(Next(s, a), r)
  {
    assert RequestOkAt(s, r);
    match a
    case HandlerStep(q, completed) => HandlerKeepsRequest(s, q, completed, r);
    case Receive(q) => SelectKeepsRequest(s, q, r);
    case GiveUp(q) => SelectKeepsRequest(s, q, r);
    case SettleStep(q) => SettleKeepsRequest(s, q, r);
    case Serve(u, _, _, _) => assert EntryOkAt(s, u);
    case _ =>
  }

  lemma StepKeepsTimer(s: State, a: Action, t: nat)
    requires WellFormed(s) && Enabled(s, a)
    ensures TimerOkAt(Next(s, a), t)
  {
    assert TimerOkAt(s, t);
  }

  lemma StepKeepsLoop(s: State, a: Action)
    requires WellFormed(s) && Enabled(s, a)
    ensures LoopOk(Next(s, a))
  {
    if a.AddStep? {
      assert CellOkAt(s, a.k);
    }
  }

  lemma StepKeepsKiller(s: State, a: Action)
    requires WellFormed(s) && Enabled(s, a)
    ensures KillerOk(Next(s, a))
  {
    match a
    case TimerStep(t) => assert TimerOkAt(s, t);
    case SettleStep(r) => assert RequestOkAt(s, r);
    case _ =>
  }

  lemma StepKeepsWellFormed(s: State, a: Action)
    requires WellFormed(s) && Enabled(s, a)
    ensures WellFormed(Next(s, a))
  {
    forall u: string ensures EntryOkAt(Next(s, a), u) { StepKeepsEntry(s, a, u); }
    forall k: nat ensures CellOkAt(Next(s, a), k) { StepKeepsCell(s, a, k); }
    forall r: nat ensures RequestOkAt(Next(s, a), r) { StepKeepsRequest(s, a, r); }
    forall t: nat ensures TimerOkAt(Next(s, a), t) { StepKeepsTimer(s, a, t); }
    StepKeepsLoop(s, a);
    StepKeepsKiller(s, a);
  }

  lemma {:induction false} RunKeepsWellFormed(s: State, run: seq<Action>)
    requires WellFormed(s) && Allowed(s, run)
    ensures WellFormed(Exec(s, run))
    decreases |run|
  {
    if run != [] {
      StepKeepsWellFormed(s, run[0]);
      RunKeepsWellFormed(Next(s, run[0]), run[1..]);
    }
  }
}
