/** Writes and reads of the file storage running at the same time, with no deletes (storage/fs.go:100-162).
    Looking a name up and claiming it happen under the lock; creating the file, every piece copied into it, opening it
    and every piece read from it are steps of their own. */
module FsConcurrent {
  import opened Common
  import opened Buckets
  import opened Identifiers
  import opened Paths

  datatype WritePhase = Claiming | Creating | Copying | Ended(err: Option<StoreError>)

  datatype ReadPhase =
    | Looking
    | Opening
    | Reading(got: seq<byte>)
    | Delivered(got: seq<byte>)
    | Refused(error: StoreError)

  /** What a Write's reader delivers, whether it fails after that, and how much of it has been copied. */
  datatype Call =
    | WriteCall(b: string, k: string, bytes: seq<byte>, fails: bool, claimed: bool, copied: nat, write: WritePhase)
    | ReadCall(b: string, k: string, read: ReadPhase)

  /** owner records, for the statements below, which Write call claimed the name of a file. */
  datatype State = State(
    root: string,
    memRep: map<string, set<string>>,
    files: map<string, seq<byte>>,
    calls: seq<Call>,
    owner: map<string, nat>)

  datatype Action =
    | NewBucket(bucket: string)
    | StartWrite(b: string, k: string, bytes: seq<byte>, fails: bool)
    | StartRead(b: string, k: string)
    | Continue(i: nat, amount: nat)

  /** No file is named like an object. */
  ghost predicate IsStart(s: State) {
    && s.memRep == map[] && s.calls == [] && s.owner == map[]
    && forall b: string, k: string :: IsId(b) && IsId(k) ==> RootKey(s.root, b, k) !in s.files
  }

  function PathOf(s: State, c: Call): string {
    RootKey(s.root, c.b, c.k)
  }

  function WithCall(s: State, i: nat, call: Call): State
    requires i < |s.calls|
  {
    s.(calls := s.calls[i := call])
  }

  predicate CanWrite(s: State, i: nat) {
    && i < |s.calls| && s.calls[i].WriteCall?
    && var c := s.calls[i];
       !c.write.Ended? && (c.write.Copying? ==> PathOf(s, c) in s.files && c.copied <= |c.bytes|)
  }

  function NextWrite(s: State, i: nat, amount: nat): State
    requires CanWrite(s, i)
  {
    var c := s.calls[i];
    var path := PathOf(s, c);
    match c.write
    case Claiming =>
      if c.b !in s.memRep then WithCall(s, i, c.(write := Ended(Some(BucketDoesNotExist(c.b)))))
      else if c.k in s.memRep[c.b] then WithCall(s, i, c.(write := Ended(Some(ObjectAlreadyExists(c.k)))))
      else WithCall(s, i, c.(write := Creating, claimed := true))
             .(memRep := s.memRep[c.b := s.memRep[c.b] + {c.k}], owner := s.owner[path := i])
    case Creating => WithCall(s, i, c.(write := Copying)).(files := s.files[path := []])
    case Copying =>
      if c.copied == |c.bytes| then WithCall(s, i, c.(write := Ended(if c.fails then Some(ReaderFailed) else None)))
      else
        var upTo := if c.copied + 1 + amount <= |c.bytes| then c.copied + 1 + amount else |c.bytes|;
        WithCall(s, i, c.(copied := upTo)).(files := s.files[path := s.files[path] + c.bytes[c.copied..upTo]])
  }

  predicate CanRead(s: State, i: nat) {
    && i < |s.calls| && s.calls[i].ReadCall?
    && var c := s.calls[i];
       match c.read
       case Reading(got) => PathOf(s, c) in s.files && |got| <= |s.files[PathOf(s, c)]|
       case Delivered(_) => false
       case Refused(_) => false
       case _ => true
  }

  /** A reader may stop at any time, and does at what is the end of the file just then. */
  function ReadMoved(s: State, i: nat, amount: nat): ReadPhase
    requires CanRead(s, i)
  {
    var c := s.calls[i];
    match c.read
    case Looking =>
      if c.b !in s.memRep then Refused(BucketDoesNotExist(c.b))
      else if c.k !in s.memRep[c.b] then Refused(ObjectDoesNotExist(c.k))
      else Opening
    case Opening => if PathOf(s, c) in s.files then Reading([]) else Refused(OsFailed)
    case Reading(got) =>
      var file := s.files[PathOf(s, c)];
      if amount == 0 || |got| == |file| then Delivered(got)
      else
        var upTo := if |got| + amount <= |file| then |got| + amount else |file|;
        Reading(got + file[|got|..upTo])
  }

  function NextRead(s: State, i: nat, amount: nat): State
    requires CanRead(s, i)
  {
    WithCall(s, i, s.calls[i].(read := ReadMoved(s, i, amount)))
  }

  predicate Enabled(s: State, a: Action) {
    match a
    case NewBucket(b) => IsId(b)
    case StartWrite(b, k, _, _) => IsId(b) && IsId(k)
    case StartRead(b, k) => IsId(b) && IsId(k)
    case Continue(i, _) => CanWrite(s, i) || CanRead(s, i)
  }

  function Next(s: State, a: Action): State
    requires Enabled(s, a)
  {
    match a
    case NewBucket(b) => if b in s.memRep then s else s.(memRep := s.memRep[b := {}])
    case StartWrite(b, k, bytes, fails) =>
      s.(calls := s.calls + [WriteCall(b, k, bytes, fails, false, 0, Claiming)])
    case StartRead(b, k) => s.(calls := s.calls + [ReadCall(b, k, Looking)])
    case Continue(i, amount) => if CanWrite(s, i) then NextWrite(s, i, amount) else NextRead(s, i, amount)
  }

  predicate Allowed(s: State, run: seq<Action>)
    decreases |run|
  {
    run == [] || (Enabled(s, run[0]) && Allowed(Next(s, run[0]), run[1..]))
  }

  function Exec(s: State, run: seq<Action>): State
    requires Allowed(s, run)
    decreases |run|
  {
    if run == [] then s else Exec(Next(s, run[0]), run[1..])
  }

  predicate Owned(s: State, b: string, k: string) {
    && RootKey(s.root, b, k) in s.owner
    && s.owner[RootKey(s.root, b, k)] < |s.calls|
    && var w := s.calls[s.owner[RootKey(s.root, b, k)]];
       w.WriteCall? && w.b == b && w.k == k && w.claimed && !w.write.Claiming?
  }

  /** A claimed name has one owner; a file is what its owner has copied so far. */
  predicate NameOk(s: State, b: string, k: string) {
    IsId(b) && IsId(k) ==>
      var path := RootKey(s.root, b, k);
      && (b in s.memRep && k in s.memRep[b] ==> Owned(s, b, k))
      && (path in s.owner ==> Owned(s, b, k) && b in s.memRep && k in s.memRep[b])
      && (path in s.files ==>
            && Owned(s, b, k)
            && var w := s.calls[s.owner[path]];
               !w.write.Creating? && w.copied <= |w.bytes| && s.files[path] == w.bytes[..w.copied])
  }

  predicate CallOk(s: State, i: nat) {
    i < |s.calls| ==>
      var c := s.calls[i];
      && IsId(c.b) && IsId(c.k)
      && match c
         case WriteCall(_, _, bytes, fails, claimed, copied, phase) =>
           && copied <= |bytes|
           && (claimed ==> PathOf(s, c) in s.owner && s.owner[PathOf(s, c)] == i)
           && (phase.Claiming? ==> !claimed && copied == 0)
           && (phase.Creating? ==> claimed && copied == 0)
           && (phase.Copying? ==> claimed && PathOf(s, c) in s.files)
           && (phase.Ended? && claimed ==>
                 && PathOf(s, c) in s.files && copied == |bytes|
                 && phase.err == if fails then Some(ReaderFailed) else None)
           && (phase.Ended? && !claimed ==>
                 phase.err == Some(BucketDoesNotExist(c.b))
                 || (phase.err == Some(ObjectAlreadyExists(c.k)) && PathOf(s, c) in s.owner))
         case ReadCall(_, _, phase) =>
           && (phase.Opening? ==> PathOf(s, c) in s.owner)
           && (phase.Reading? || phase.Delivered? ==> PathOf(s, c) in s.files && phase.got <= s.files[PathOf(s, c)])
  }

  ghost predicate Consistent(s: State) {
    && (forall b: string, k: string :: NameOk(s, b, k))
    && (forall i: nat :: CallOk(s, i))
  }

  /** Files and claims stay, files only grow. */
  ghost predicate GrowsAt(s: State, s': State, path: string) {
    && s'.root == s.root
    && (path in s.owner ==> path in s'.owner && s'.owner[path] == s.owner[path])
    && (path in s.files ==> path in s'.files && s.files[path] <= s'.files[path])
  }

  lemma UntouchedCall(s: State, s': State, j: nat)
    requires j < |s.calls| && j < |s'.calls| && s'.calls[j] == s.calls[j] && CallOk(s, j)
    requires GrowsAt(s, s', PathOf(s, s.calls[j]))
    ensures CallOk(s', j)
  {
  }

  /** The path of the call that moves belongs to no other accepted name. */
  lemma OtherName(s: State, i: nat, b: string, k: string)
    requires i < |s.calls| && CallOk(s, i) && IsId(b) && IsId(k)
    ensures PathOf(s, s.calls[i]) == RootKey(s.root, b, k) <==> s.calls[i].b == b && s.calls[i].k == k
  {
    KeyPathsDiffer(s.root, s.calls[i].b, s.calls[i].k, b, k);
  }

  lemma ClaimingKeeps(s: State, i: nat, b: string, k: string)
    requires Consistent(s) && CanWrite(s, i) && s.calls[i].write.Claiming?
    ensures NameOk(NextWrite(s, i, 0), b, k) && CallOk(NextWrite(s, i, 0), i)
    ensures IsId(b) && IsId(k) ==> GrowsAt(s, NextWrite(s, i, 0), RootKey(s.root, b, k))
  {
    assert CallOk(s, i) && NameOk(s, b, k) && NameOk(s, s.calls[i].b, s.calls[i].k);
    if IsId(b) && IsId(k) {
      OtherName(s, i, b, k);
    }
  }

  /** Nobody else has created the file, so creating it truncates nothing. */
  lemma CreatingKeeps(s: State, i: nat, b: string, k: string)
    requires Consistent(s) && CanWrite(s, i) && s.calls[i].write.Creating?
    ensures PathOf(s, s.calls[i]) !in s.files
    ensures NameOk(NextWrite(s, i, 0), b, k) && CallOk(NextWrite(s, i, 0), i)
    ensures IsId(b) && IsId(k) ==> GrowsAt(s, NextWrite(s, i, 0), RootKey(s.root, b, k))
  {
    assert CallOk(s, i) && NameOk(s, b, k) && NameOk(s, s.calls[i].b, s.calls[i].k);
    if IsId(b) && IsId(k) {
      OtherName(s, i, b, k);
    }
  }

  /** The next piece goes to the end of the file, and to no other file. */
  lemma CopyingKeeps(s: State, i: nat, amount: nat, b: string, k: string)
    requires Consistent(s) && CanWrite(s, i) && s.calls[i].write.Copying?
    ensures NameOk(NextWrite(s, i, amount), b, k)
  {
    var c, upTo := s.calls[i], NextWrite(s, i, amount).calls[i].copied;
    assert CallOk(s, i) && NameOk(s, b, k);
    assert c.bytes[..c.copied] + c.bytes[c.copied..upTo] == c.bytes[..upTo];
    if IsId(b) && IsId(k) {
      OtherName(s, i, b, k);
    }
  }

  lemma CopyingGrows(s: State, i: nat, amount: nat, b: string, k: string)
    requires Consistent(s) && CanWrite(s, i) && s.calls[i].write.Copying?
    ensures CallOk(NextWrite(s, i, amount), i)
    ensures GrowsAt(s, NextWrite(s, i, amount), RootKey(s.root, b, k))
  {
    assert CallOk(s, i);
  }

  lemma WriteKeepsAt(s: State, i: nat, amount: nat, b: string, k: string)
    requires Consistent(s) && CanWrite(s, i)
    ensures NameOk(NextWrite(s, i, amount), b, k) && CallOk(NextWrite(s, i, amount), i)
    ensures IsId(b) && IsId(k) ==> GrowsAt(s, NextWrite(s, i, amount), RootKey(s.root, b, k))
  {
    match s.calls[i].write
    case Claiming => ClaimingKeeps(s, i, b, k);
    case Creating => CreatingKeeps(s, i, b, k);
    case Copying =>
      CopyingKeeps(s, i, amount, b, k);
      CopyingGrows(s, i, amount, b, k);
  }

  lemma WriteLeavesCalls(s: State, i: nat, amount: nat, j: nat)
    requires CanWrite(s, i) && j < |s.calls| && j != i
    ensures j < |NextWrite(s, i, amount).calls| && NextWrite(s, i, amount).calls[j] == s.calls[j]
  {
  }

  lemma WriteKeepsCall(s: State, i: nat, amount: nat, j: nat)
    requires Consistent(s) && CanWrite(s, i) && j < |s.calls|
    ensures CallOk(NextWrite(s, i, amount), j)
  {
    if j == i {
      WriteKeepsAt(s, i, amount, "", "");
    } else {
      assert CallOk(s, j);
      WriteKeepsAt(s, i, amount, s.calls[j].b, s.calls[j].k);
      WriteLeavesCalls(s, i, amount, j);
      UntouchedCall(s, NextWrite(s, i, amount), j);
    }
  }

  lemma WriteKeeps(s: State, i: nat, amount: nat)
    requires Consistent(s) && CanWrite(s, i)
    ensures Consistent(NextWrite(s, i, amount))
  {
    var s' := NextWrite(s, i, amount);
    forall b: string, k: string ensures NameOk(s', b, k) { WriteKeepsAt(s, i, amount, b, k); }
    forall j: nat ensures CallOk(s', j) {
      if j < |s.calls| {
        WriteKeepsCall(s, i, amount, j);
      }
    }
  }

  /** A step that touches neither files nor owners, and no writer. */
  lemma HarmlessName(s: State, s': State, b: string, k: string)
    requires NameOk(s, b, k) && s'.root == s.root && s'.files == s.files && s'.owner == s.owner
    requires b in s'.memRep && k in s'.memRep[b] <==> b in s.memRep && k in s.memRep[b]
    requires |s.calls| <= |s'.calls|
    requires forall i :: 0 <= i < |s.calls| && s.calls[i].WriteCall? ==> s'.calls[i] == s.calls[i]
    ensures NameOk(s', b, k)
  {
  }

  lemma ReadKeepsCall(s: State, i: nat, amount: nat)
    requires CanRead(s, i) && CallOk(s, i) && NameOk(s, s.calls[i].b, s.calls[i].k)
    ensures CallOk(NextRead(s, i, amount), i)
  {
  }

  lemma OtherStepKeeps(s: State, a: Action)
    requires Consistent(s) && Enabled(s, a) && (a.Continue? ==> !CanWrite(s, a.i))
    ensures Consistent(Next(s, a))
  {
    var s' := Next(s, a);
    forall b: string, k: string ensures NameOk(s', b, k) {
      assert NameOk(s, b, k);
      HarmlessName(s, s', b, k);
    }
    forall j: nat ensures CallOk(s', j) {
      if j < |s.calls| {
        assert CallOk(s, j);
        if a.Continue? && j == a.i {
          assert NameOk(s, s.calls[j].b, s.calls[j].k);
          ReadKeepsCall(s, j, a.amount);
        } else {
          UntouchedCall(s, s', j);
        }
      }
    }
  }

  lemma {:induction false} RunKeepsConsistent(s: State, run: seq<Action>)
    requires Consistent(s) && Allowed(s, run)
    ensures Consistent(Exec(s, run))
    decreases |run|
  {
    if run != [] {
      if run[0].Continue? && CanWrite(s, run[0].i) {
        WriteKeeps(s, run[0].i, run[0].amount);
      } else {
        OtherStepKeeps(s, run[0]);
      }
      RunKeepsConsistent(Next(s, run[0]), run[1..]);
    }
  }

  ghost predicate Reachable(s: State) {
    exists start: State, run: seq<Action> :: IsStart(start) && Allowed(start, run) && Exec(start, run) == s
  }

  lemma ReachableIsConsistent(s: State)
    requires Reachable(s)
    ensures Consistent(s)
  {
    var start: State, run: seq<Action> :| IsStart(start) && Allowed(start, run) && Exec(start, run) == s;
    RunKeepsConsistent(start, run);
  }

  predicate Finished(c: Call) {
    if c.WriteCall? then c.write.Ended? else c.read.Delivered? || c.read.Refused?
  }

  /** No call is ever stuck. */
  lemma CallsNeverBlock(s: State, i: nat, amount: nat)
    requires Reachable(s) && i < |s.calls| && !Finished(s.calls[i])
    ensures Enabled(s, Continue(i, amount))
  {
    ReachableIsConsistent(s);
    assert CallOk(s, i);
  }

  /** This Write call has claimed its name. */
  predicate Claimed(s: State, i: nat) {
    i < |s.calls| && s.calls[i].WriteCall? && s.calls[i].claimed
  }

  predicate Succeeded(s: State, i: nat) {
    i < |s.calls| && s.calls[i].WriteCall? && s.calls[i].write == Ended(None)
  }

  /** In every interleaving at most one Write claims a name and so creates its file, calls on other names never touch
      it, and when a Write creates its file there is none yet. The file of a Write that returned success holds exactly
      what its reader delivered, for good. */
  lemma OneWriterPerFile(s: State, i: nat, j: nat)
    requires Reachable(s)
    ensures Claimed(s, i) && Claimed(s, j) && PathOf(s, s.calls[i]) == PathOf(s, s.calls[j]) ==> i == j
    ensures Claimed(s, i) && s.calls[i].write.Creating? ==> PathOf(s, s.calls[i]) !in s.files
    ensures Succeeded(s, i) ==>
              Claimed(s, i) && PathOf(s, s.calls[i]) in s.files && s.files[PathOf(s, s.calls[i])] == s.calls[i].bytes
  {
    ReachableIsConsistent(s);
    assert CallOk(s, i) && CallOk(s, j);
    if Claimed(s, i) {
      assert NameOk(s, s.calls[i].b, s.calls[i].k);
      if Succeeded(s, i) {
        assert s.calls[i].bytes[..|s.calls[i].bytes|] == s.calls[i].bytes;
      }
    }
  }

  /** In every interleaving a Read that is not refused has read a prefix of what the one Write of that name delivers. */
  lemma ReadsArePrefixes(s: State, r: nat)
    requires Reachable(s) && r < |s.calls| && s.calls[r].ReadCall? && s.calls[r].read.Delivered?
    ensures exists w: nat :: Claimed(s, w) && s.calls[w].b == s.calls[r].b && s.calls[w].k == s.calls[r].k
                             && s.calls[r].read.got <= s.calls[w].bytes
  {
    ReachableIsConsistent(s);
    var c := s.calls[r];
    assert CallOk(s, r) && NameOk(s, c.b, c.k);
    var w := s.owner[PathOf(s, c)];
    assert Claimed(s, w) && c.read.got <= s.files[PathOf(s, c)] <= s.calls[w].bytes;
  }
}
