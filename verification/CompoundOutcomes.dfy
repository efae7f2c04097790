/** How overlapping calls of the compound store end, over memory and over files (storeend.go:33-83). */
module CompoundOutcomes {
  import opened Common
  import opened Buckets
  import opened Ofb
  import opened CompoundConcurrent
  import opened CompoundAgreement
  import opened CompoundMetadata

  /** The call past WriteKey succeeds if its reader does; every other one finds the name taken. */
  function Outcome(c: Call): Option<StoreError>
    requires c.WriteCall?
  {
    if !c.won then Some(ObjectAlreadyExists(c.k)) else if c.fails then Some(ReaderFailed) else None
  }

  /** If the call has ended, then as it should. */
  predicate EndsWell(c: Call) {
    c.WriteCall? && c.write.Ended? ==> c.write.err == Outcome(c)
  }

  lemma KeyingEnds(s: State, i: nat)
    requires NearOwn(s, i) && InPhase(s, i, Keying) && s.calls[i].b in s.data
    ensures EndsWell(NextKeying(s, i).calls[i])
  {
  }

  lemma StoringEnds(s: State, i: nat)
    requires NearOwn(s, i) && InPhase(s, i, Claiming) && s.backend.Memory? && s.calls[i].b in s.data
    ensures EndsWell(NextStoring(s, i).calls[i])
  {
  }

  lemma ClaimingEnds(s: State, i: nat)
    requires NearOwn(s, i) && InPhase(s, i, Claiming) && s.backend.Files? && s.calls[i].b in s.data
    ensures EndsWell(NextClaiming(s, i).calls[i])
  {
  }

  lemma CopyingEnds(s: State, i: nat, amount: nat)
    requires NearOwn(s, i) && InPhase(s, i, Copying) && Has(s.data, s.calls[i].b, s.calls[i].k)
    requires s.calls[i].copied <= |s.calls[i].plain|
    ensures EndsWell(NextCopying(s, i, amount).calls[i])
  {
  }

  lemma WriteEnds(s: State, i: nat, amount: nat)
    requires NearOwn(s, i) && CanWrite(s, i) && s.calls[i].b in s.data
    ensures EndsWell(NextWrite(s, i, amount).calls[i])
  {
    match s.calls[i].write
    case Keying => KeyingEnds(s, i);
    case Claiming => if s.backend.Memory? { StoringEnds(s, i); } else { ClaimingEnds(s, i); }
    case Copying => CopyingEnds(s, i, amount);
    case _ =>
  }

  /** A bucket that is there in the storage stays. */
  lemma BucketStays(s: State, a: Action, b: string)
    requires Agreed(s) && Enabled(s, a) && b in s.data
    ensures b in Next(s, a).data
  {
    if a.Continue? {
      AgreedNear(s, a.i, b, "");
      if CanWrite(s, a.i) {
        WriteGrows(s, a.i, a.amount, b, "");
      } else if CanBucket(s, a.i) {
        BucketKeepsAt(s, a.i, b, "");
      }
    }
  }

  /** The Writes to the bucket from the n-th call on end well. */
  ghost predicate WritesEndWell(s: State, n: nat, b: string) {
    b in s.data && forall i: nat :: n <= i < |s.calls| && s.calls[i].b == b ==> EndsWell(s.calls[i])
  }

  lemma StepEndsWell(s: State, a: Action, n: nat, b: string)
    requires Agreed(s) && Enabled(s, a) && WritesEndWell(s, n, b)
    ensures WritesEndWell(Next(s, a), n, b)
  {
    var s' := Next(s, a);
    StepMoves(s, a);
    BucketStays(s, a, b);
    forall i: nat | n <= i < |s'.calls| && s'.calls[i].b == b ensures EndsWell(s'.calls[i]) {
      if a.Continue? && i == a.i {
        AgreedNear(s, i, "", "");
        if CanWrite(s, i) {
          WriteEnds(s, i, a.amount);
        }
      } else if i < |s.calls| {
        assert a.Continue? || s'.calls[i] == s'.calls[..|s.calls|][i];
        assert s'.calls[i] == s.calls[i];
      }
    }
  }

  lemma {:induction false} RunEndsWell(s: State, run: seq<Action>, n: nat, b: string)
    requires Agreed(s) && Allowed(s, run) && WritesEndWell(s, n, b)
    ensures WritesEndWell(Exec(s, run), n, b)
    decreases |run|
  {
    if run != [] {
      StepEndsWell(s, run[0], n, b);
      StepKeepsAgreed(s, run[0]);
      RunEndsWell(Next(s, run[0]), run[1..], n, b);
    }
  }

  /** In every interleaving, over memory and over files: a Write that starts when its bucket is there in the storage,
      and has ended, succeeded if and only if it got past WriteKey and its reader did not fail; if it got past and its
      reader failed it reports that, and otherwise that the name is taken. */
  lemma WriteOutcome(s: State, run: seq<Action>, i: nat)
    requires Reachable(s) && Allowed(s, run) && |s.calls| <= i < |Exec(s, run).calls|
    requires var c := Exec(s, run).calls[i]; c.WriteCall? && c.write.Ended? && c.b in s.data
    ensures var c := Exec(s, run).calls[i];
      && (c.write.err == None <==> c.won && !c.fails)
      && (c.write.err == Some(ReaderFailed) <==> c.won && c.fails)
      && (c.write.err == Some(ObjectAlreadyExists(c.k)) <==> !c.won)
  {
    ReachableIsAgreed(s);
    RunEndsWell(s, run, |s.calls|, Exec(s, run).calls[i].b);
  }

  // ---- Without knowing the bucket is there ----

  /** A Write that has ended in success has its data stored; a winner that has not, and whose reader did not fail, has
      stored nothing. */
  predicate StoredIfEnded(s: State, i: nat) {
    i < |s.calls| && s.calls[i].WriteCall? && s.calls[i].write.Ended? ==>
      var c := s.calls[i];
      c.write.err == None <==> c.won && !c.fails && Has(s.data, c.b, c.k)
  }

  lemma OwnContentsAppear(s: State, i: nat, amount: nat)
    requires NearOwn(s, i) && CanWrite(s, i) && !Has(s.data, s.calls[i].b, s.calls[i].k)
    requires Has(NextWrite(s, i, amount).data, s.calls[i].b, s.calls[i].k)
    ensures s.calls[i].won
  {
  }

  /** Contents appear under a name only by a Write on it that has got past WriteKey. */
  lemma ContentsAppear(s: State, a: Action, b: string, k: string)
    requires Agreed(s) && Enabled(s, a) && !Has(s.data, b, k) && Has(Next(s, a).data, b, k)
    ensures a.Continue? && Won(s, b, k, a.i) && !s.calls[a.i].write.Ended?
  {
    if a.Continue? {
      AgreedNear(s, a.i, b, k);
      if CanWrite(s, a.i) {
        if !IsOwn(s, a.i, b, k) {
          WriteLeavesOthers(s, a.i, a.amount, b, k);
        } else {
          OwnContentsAppear(s, a.i, a.amount);
        }
      } else if CanBucket(s, a.i) {
        match s.calls[a.i].bucket
        case ForMetadata => MetadataBucketKeeps(s, a.i, b, k);
        case ForKeys => KeyBucketKeeps(s, a.i, b, k);
        case ForData => DataBucketKeeps(s, a.i, b, k);
      }
    }
  }

  lemma ContentsStay(s: State, a: Action, b: string, k: string)
    requires Agreed(s) && Enabled(s, a) && Has(s.data, b, k)
    ensures Has(Next(s, a).data, b, k)
  {
    if a.Continue? {
      AgreedNear(s, a.i, b, k);
      if CanWrite(s, a.i) {
        WriteGrows(s, a.i, a.amount, b, k);
      } else if CanBucket(s, a.i) {
        BucketKeepsAt(s, a.i, b, k);
      }
    }
  }

  lemma StoringIsStored(s: State, i: nat)
    requires NearOwn(s, i) && InPhase(s, i, Claiming) && s.backend.Memory?
    ensures var c := NextStoring(s, i).calls[i];
      c.write.Ended? ==> (c.write.err == None <==> c.won && !c.fails && Has(NextStoring(s, i).data, c.b, c.k))
  {
  }

  lemma MovingIsStored(s: State, i: nat, amount: nat)
    requires NearOwn(s, i) && CanWrite(s, i)
    ensures StoredIfEnded(NextWrite(s, i, amount), i)
  {
    WriteMoves(s, i, amount);
    if s.calls[i].write.Claiming? && s.backend.Memory? {
      StoringIsStored(s, i);
    }
  }

  /** A call that has ended does not move. */
  lemma EndedStays(s: State, a: Action, i: nat)
    requires Enabled(s, a) && i < |s.calls| && s.calls[i].WriteCall? && s.calls[i].write.Ended?
    ensures i < |Next(s, a).calls| && Next(s, a).calls[i] == s.calls[i] && !(a.Continue? && a.i == i)
  {
    StepMoves(s, a);
    if !a.Continue? {
      assert Next(s, a).calls[i] == Next(s, a).calls[..|s.calls|][i];
    }
  }

  lemma EndedKeepsStored(s: State, a: Action, i: nat)
    requires Agreed(s) && Enabled(s, a) && i < |s.calls| && s.calls[i].WriteCall? && s.calls[i].write.Ended?
    requires StoredIfEnded(s, i)
    ensures StoredIfEnded(Next(s, a), i)
  {
    EndedStays(s, a, i);
    var c := s.calls[i];
    if Has(s.data, c.b, c.k) {
      ContentsStay(s, a, c.b, c.k);
    } else if Has(Next(s, a).data, c.b, c.k) && c.won {
      ContentsAppear(s, a, c.b, c.k);
      assert CallOk(s, i) && CallOk(s, a.i);
    }
  }

  lemma StepKeepsStored(s: State, a: Action, i: nat)
    requires Agreed(s) && Enabled(s, a) && StoredIfEnded(s, i)
    ensures StoredIfEnded(Next(s, a), i)
  {
    if i < |s.calls| && s.calls[i].WriteCall? && s.calls[i].write.Ended? {
      EndedKeepsStored(s, a, i);
    } else {
      StepMoves(s, a);
      if a.Continue? && i == a.i && CanWrite(s, i) {
        AgreedNear(s, i, "", "");
        MovingIsStored(s, i, a.amount);
      }
    }
  }

  lemma {:induction false} RunKeepsStored(s: State, run: seq<Action>, i: nat)
    requires Agreed(s) && Allowed(s, run) && StoredIfEnded(s, i)
    ensures StoredIfEnded(Exec(s, run), i)
    decreases |run|
  {
    if run != [] {
      StepKeepsStored(s, run[0], i);
      StepKeepsAgreed(s, run[0]);
      RunKeepsStored(Next(s, run[0]), run[1..], i);
    }
  }

  /** In every reachable state, whether or not the bucket was there: a Write that has ended succeeded if and only if it
      got past WriteKey, its reader did not fail, and the storage took its data. */
  lemma EndedIffStored(s: State, i: nat)
    requires Reachable(s) && i < |s.calls| && s.calls[i].WriteCall? && s.calls[i].write.Ended?
    ensures var c := s.calls[i]; c.write.err == None <==> c.won && !c.fails && Has(s.data, c.b, c.k)
  {
    var cipher, backend, run: seq<Action> :|
      Allowed(Start(cipher, backend), run) && Exec(Start(cipher, backend), run) == s;
    RunKeepsStored(Start(cipher, backend), run, i);
  }

  // ---- Calls can succeed ----

  function StepsToEnd(c: Call): nat
    requires c.WriteCall?
  {
    match c.write
    case Describing => |c.plain| + 5
    case Keying => |c.plain| + 4
    case Claiming => |c.plain| + 3
    case Creating => |c.plain| + 2
    case Copying => if c.copied <= |c.plain| then |c.plain| - c.copied + 1 else 1
    case Ended(_) => 0
  }

  /** This Write is on its way to success. */
  predicate OnItsWay(s: State, i: nat) {
    && i < |s.calls| && s.calls[i].WriteCall? && !s.calls[i].fails && s.calls[i].b in s.data
    && (s.calls[i].won || !Has(s.keys, s.calls[i].b, s.calls[i].k))
    && (s.calls[i].write.Ended? ==> s.calls[i].write.err == None)
  }

  lemma DescribingGoesOn(s: State, i: nat)
    requires NearOwn(s, i) && OnItsWay(s, i) && InPhase(s, i, Describing) && s.calls[i].b in s.meta
    ensures OnItsWay(NextDescribing(s, i), i)
    ensures StepsToEnd(NextDescribing(s, i).calls[i]) < StepsToEnd(s.calls[i])
  {
  }

  lemma KeyingGoesOn(s: State, i: nat)
    requires NearOwn(s, i) && OnItsWay(s, i) && InPhase(s, i, Keying)
    ensures OnItsWay(NextKeying(s, i), i) && StepsToEnd(NextKeying(s, i).calls[i]) < StepsToEnd(s.calls[i])
  {
  }

  lemma StoringGoesOn(s: State, i: nat)
    requires NearOwn(s, i) && OnItsWay(s, i) && InPhase(s, i, Claiming) && s.backend.Memory?
    ensures OnItsWay(NextStoring(s, i), i) && StepsToEnd(NextStoring(s, i).calls[i]) < StepsToEnd(s.calls[i])
  {
  }

  lemma ClaimingGoesOn(s: State, i: nat)
    requires NearOwn(s, i) && OnItsWay(s, i) && InPhase(s, i, Claiming) && s.backend.Files?
    ensures OnItsWay(NextClaiming(s, i), i) && StepsToEnd(NextClaiming(s, i).calls[i]) < StepsToEnd(s.calls[i])
  {
  }

  lemma CreatingGoesOn(s: State, i: nat)
    requires NearOwn(s, i) && OnItsWay(s, i) && InPhase(s, i, Creating)
    ensures OnItsWay(NextCreating(s, i), i) && StepsToEnd(NextCreating(s, i).calls[i]) < StepsToEnd(s.calls[i])
  {
  }

  lemma CopyingGoesOn(s: State, i: nat)
    requires NearOwn(s, i) && OnItsWay(s, i) && InPhase(s, i, Copying)
    requires Has(s.data, s.calls[i].b, s.calls[i].k) && s.calls[i].copied <= |s.calls[i].plain|
    ensures OnItsWay(NextCopying(s, i, 0), i) && StepsToEnd(NextCopying(s, i, 0).calls[i]) < StepsToEnd(s.calls[i])
  {
  }

  lemma WriteGoesOn(s: State, i: nat)
    requires NearOwn(s, i) && OnItsWay(s, i) && CanWrite(s, i)
    ensures OnItsWay(NextWrite(s, i, 0), i) && StepsToEnd(NextWrite(s, i, 0).calls[i]) < StepsToEnd(s.calls[i])
  {
    match s.calls[i].write
    case Describing => DescribingGoesOn(s, i);
    case Keying => KeyingGoesOn(s, i);
    case Claiming => if s.backend.Memory? { StoringGoesOn(s, i); } else { ClaimingGoesOn(s, i); }
    case Creating => CreatingGoesOn(s, i);
    case Copying => CopyingGoesOn(s, i);
  }

  /** Left to itself, it gets there. */
  lemma {:induction false} FinishWrite(s: State, i: nat) returns (run: seq<Action>)
    requires Agreed(s) && OnItsWay(s, i)
    ensures Allowed(s, run) && Agreed(Exec(s, run)) && i < |Exec(s, run).calls|
    ensures var c, c' := s.calls[i], Exec(s, run).calls[i];
      && c'.WriteCall? && c'.write == Ended(None) && c'.b == c.b && c'.k == c.k
      && c'.meta == c.meta && c'.key == c.key && c'.plain == c.plain
    ensures forall a :: a in run ==> a.Continue? && a.i == i
    ensures s.calls[i].write.Describing? ==> Has(Exec(s, run).meta, s.calls[i].b, s.calls[i].k)
                                              && Exec(s, run).meta[s.calls[i].b][s.calls[i].k] == s.calls[i].meta
    ensures !s.calls[i].write.Describing? ==> Exec(s, run).meta == s.meta
    ensures Exec(s, run).backend == s.backend && Exec(s, run).cipher == s.cipher
    decreases StepsToEnd(s.calls[i])
  {
    if s.calls[i].write.Ended? {
      run := [];
    } else {
      var a := Continue(i, 0);
      AgreedNear(s, i, "", "");
      assert CallOk(s, i);
      WriteGoesOn(s, i);
      WriteMoves(s, i, 0);
      WriteGrows(s, i, 0, "", "");
      StepKeepsAgreed(s, a);
      var rest := FinishWrite(Next(s, a), i);
      run := [a] + rest;
      assert run[1..] == rest;
    }
  }

  /** A Read of a name with contents is not refused, however it goes on. */
  lemma ReadIsServed(s: State, r: nat, amount: nat)
    requires CanRead(s, r) && Near(s, r, s.calls[r].b, s.calls[r].k)
    requires Has(s.data, s.calls[r].b, s.calls[r].k)
    ensures !ReadMoved(s, r, amount).Refused?
  {
  }

  /** What a Read on this name may be told is missing: all of it, the bucket in the stores behind the metadata, the
      object in one of them, or, over files, a file that is claimed but not made yet. */
  predicate IsMissing(s: State, b: string, k: string, error: StoreError) {
    match error
    case ThereIsNoBucket => !Has(s.meta, b, k)
    case BucketDoesNotExist(bucket) => bucket == b && b !in s.data && Has(s.meta, b, k)
    case ObjectDoesNotExist(key) => key == k && !Has(s.data, b, k) && Has(s.meta, b, k)
    case OsFailed => s.backend.Files? && b in s.claimed && k in s.claimed[b] && !Has(s.data, b, k)
    case _ => false
  }

  lemma ReadMissesRightly(s: State, r: nat, amount: nat)
    requires CanRead(s, r) && Near(s, r, s.calls[r].b, s.calls[r].k) && ReadMoved(s, r, amount).Refused?
    ensures IsMissing(s, s.calls[r].b, s.calls[r].k, ReadMoved(s, r, amount).error)
  {
  }

  /** In every reachable state, a Read is refused only if contents are missing, and is told what is. */
  lemma RefusalsAreRight(s: State, r: nat, amount: nat)
    requires Reachable(s) && CanRead(s, r) && ReadMoved(s, r, amount).Refused?
    ensures !Has(s.data, s.calls[r].b, s.calls[r].k)
    ensures IsMissing(s, s.calls[r].b, s.calls[r].k, ReadMoved(s, r, amount).error)
  {
    ReachableIsAgreed(s);
    AgreedNear(s, r, s.calls[r].b, s.calls[r].k);
    ReadMissesRightly(s, r, amount);
    if Has(s.data, s.calls[r].b, s.calls[r].k) {
      ReadIsServed(s, r, amount);
    }
  }

  /** Contents are there, and no Read of the name from the n-th call on was refused. */
  ghost predicate ReadersServed(s: State, n: nat, b: string, k: string) {
    && Has(s.data, b, k)
    && forall r: nat :: n <= r < |s.calls| && s.calls[r].ReadCall? && s.calls[r].b == b && s.calls[r].k == k ==>
         !s.calls[r].read.Refused?
  }

  lemma StepServes(s: State, a: Action, n: nat, b: string, k: string)
    requires Agreed(s) && Enabled(s, a) && ReadersServed(s, n, b, k)
    ensures ReadersServed(Next(s, a), n, b, k)
  {
    var s' := Next(s, a);
    StepMoves(s, a);
    ContentsStay(s, a, b, k);
    forall r: nat | n <= r < |s'.calls| && s'.calls[r].ReadCall? && s'.calls[r].b == b && s'.calls[r].k == k
      ensures !s'.calls[r].read.Refused?
    {
      if a.Continue? && r == a.i {
        AgreedNear(s, r, b, k);
        if CanRead(s, r) {
          ReadIsServed(s, r, a.amount);
        }
      } else if r < |s.calls| {
        assert a.Continue? || s'.calls[r] == s'.calls[..|s.calls|][r];
        assert s'.calls[r] == s.calls[r];
      }
    }
  }

  lemma {:induction false} RunServes(s: State, run: seq<Action>, n: nat, b: string, k: string)
    requires Agreed(s) && Allowed(s, run) && ReadersServed(s, n, b, k)
    ensures ReadersServed(Exec(s, run), n, b, k)
    decreases |run|
  {
    if run != [] {
      StepServes(s, run[0], n, b, k);
      StepKeepsAgreed(s, run[0]);
      RunServes(Next(s, run[0]), run[1..], n, b, k);
    }
  }

  /** In every interleaving: once there are contents under a name, no Read of it that starts later is ever refused. */
  lemma ReadsAreServed(s: State, run: seq<Action>, r: nat)
    requires Reachable(s) && Allowed(s, run) && |s.calls| <= r < |Exec(s, run).calls|
    requires var c := Exec(s, run).calls[r]; c.ReadCall? && Has(s.data, c.b, c.k)
    ensures !Exec(s, run).calls[r].read.Refused?
  {
    ReachableIsAgreed(s);
    RunServes(s, run, |s.calls|, Exec(s, run).calls[r].b, Exec(s, run).calls[r].k);
  }

  /** How much of the file a Read has not got yet. */
  function Unread(s: State, r: nat): nat
    requires r < |s.calls| && s.calls[r].ReadCall? && Has(s.data, s.calls[r].b, s.calls[r].k)
  {
    var file := s.data[s.calls[r].b][s.calls[r].k];
    if s.calls[r].read.Reading? && |s.calls[r].read.got| <= |file| then |file| - |s.calls[r].read.got| else 0
  }

  lemma WholeStep(s: State, r: nat)
    requires r < |s.calls| && CallOk(s, r) && s.calls[r].ReadCall? && StepsLeft(s.calls[r].read) > 0
    requires NameOk(s, s.calls[r].b, s.calls[r].k) && Has(s.data, s.calls[r].b, s.calls[r].k)
    ensures CanRead(s, r)
    ensures var moved := ReadMoved(s, r, Unread(s, r)); var file := s.data[s.calls[r].b][s.calls[r].k];
      && !moved.Refused? && (moved.Delivered? ==> moved.got == file)
      && MetaOf(moved) == (if s.calls[r].read.Looking? then Some(s.meta[s.calls[r].b][s.calls[r].k])
                           else MetaOf(s.calls[r].read))
      && (StepsLeft(moved) < StepsLeft(s.calls[r].read)
          || (moved.Reading? && s.calls[r].read.Reading? && |s.calls[r].read.got| < |moved.got| <= |file|))
  {
  }

  /** A Read that goes on to the end of the file. */
  lemma {:induction false} ReadWhole(s: State, r: nat) returns (run: seq<Action>)
    requires Agreed(s) && r < |s.calls| && s.calls[r].ReadCall? && !s.calls[r].read.Refused?
    requires Has(s.data, s.calls[r].b, s.calls[r].k) && Has(s.meta, s.calls[r].b, s.calls[r].k)
    requires s.calls[r].read.Delivered? ==> s.calls[r].read.got == s.data[s.calls[r].b][s.calls[r].k]
    ensures Allowed(s, run)
    ensures Exec(s, run).cipher == s.cipher && Exec(s, run).backend == s.backend && DeliveredTo(Exec(s, run), r)
    ensures Exec(s, run).calls[r].b == s.calls[r].b && Exec(s, run).calls[r].k == s.calls[r].k
    ensures |Exec(s, run).calls| == |s.calls|
    ensures forall j: nat :: j < |s.calls| && j != r ==> Exec(s, run).calls[j] == s.calls[j]
    ensures Exec(s, run).calls[r].read.got == s.data[s.calls[r].b][s.calls[r].k]
    ensures Some(Exec(s, run).calls[r].read.meta) ==
            if s.calls[r].read.Looking? then Some(s.meta[s.calls[r].b][s.calls[r].k]) else MetaOf(s.calls[r].read)
    decreases StepsLeft(s.calls[r].read), Unread(s, r)
  {
    if s.calls[r].read.Delivered? {
      run := [];
    } else {
      assert CallOk(s, r) && NameOk(s, s.calls[r].b, s.calls[r].k);
      var a := Continue(r, Unread(s, r));
      WholeStep(s, r);
      StepKeepsAgreed(s, a);
      var rest := ReadWhole(Next(s, a), r);
      run := [a] + rest;
      assert run[1..] == rest;
    }
  }

  lemma WriteOutcomeWon(s: State, i: nat)
    requires Reachable(s) && i < |s.calls| && s.calls[i].WriteCall? && s.calls[i].write == Ended(None)
    ensures Won(s, s.calls[i].b, s.calls[i].k, i)
  {
    EndedIffStored(s, i);
  }

  /** What a Read has got of a whole file, it decrypts to the whole plaintext. */
  lemma WholeDecrypts(s: State, r: nat, i: nat)
    requires Reachable(s) && DeliveredTo(s, r) && Succeeded(s, s.calls[r].b, s.calls[r].k, i)
    requires |s.calls[r].read.got| == |s.calls[i].plain|
    ensures Encrypt(s.cipher, s.calls[r].read.key.key, s.calls[r].read.got) == s.calls[i].plain
  {
    ReadsDecryptTheWinner(s, r);
    WriteOutcomeWon(s, i);
    StoresAgree(s, s.calls[r].b, s.calls[r].k);
  }

  /** Over memory and over files, from every reachable state with the bucket in the storage: an object can be stored
      under a free name with a key of 32 bytes and be read back whole, with its metadata. */
  lemma UploadAndRead(s: State, b: string, k: string, meta: Metadata, key: EncryptionKey, plain: seq<byte>)
    returns (s': State, r: nat)
    requires Reachable(s) && b in s.data && !Has(s.keys, b, k) && |key.key| == 32
    ensures Reachable(s') && s'.cipher == s.cipher && s'.backend == s.backend
    ensures Succeeded(s', b, k, |s.calls|) && s'.calls[|s.calls|].plain == plain
    ensures DeliveredTo(s', r) && s'.calls[r].b == b && s'.calls[r].k == k && s'.calls[r].read.meta == meta
    ensures Encrypt(s'.cipher, s'.calls[r].read.key.key, s'.calls[r].read.got) == plain
  {
    ReachableIsAgreed(s);
    assert NameOk(s, b, k);
    var i := |s.calls|;
    var s1 := Follow(s, StartWrite(b, k, meta, key, plain, false));
    ReachableIsAgreed(s1);
    var write := FinishWrite(s1, i);
    var s2 := Exec(s1, write);
    FollowRun(s1, write);
    SuccessMeansStored(s2, b, k, i, i);
    var s3 := Follow(s2, StartRead(b, k));
    ReachableIsAgreed(s3);
    r := |s2.calls|;
    var read := ReadWhole(s3, r);
    s' := Exec(s3, read);
    FollowRun(s3, read);
    WholeDecrypts(s', r, i);
  }

  /** NewBucket succeeds if nobody else makes the bucket. */
  lemma FollowNewBucket(s: State, b: string) returns (s': State)
    requires Reachable(s) && b !in s.meta
    ensures Reachable(s') && b in s'.data && |s.calls| < |s'.calls|
    ensures s'.calls[|s.calls|] == BucketCall(b, CompoundConcurrent.Settled(None))
  {
    ReachableIsAgreed(s);
    assert NameOk(s, b, "");
    var i := |s.calls|;
    s' := Follow(s, StartBucket(b));
    s' := Follow(s', Continue(i, 0));
    s' := Follow(s', Continue(i, 0));
    s' := Follow(s', Continue(i, 0));
  }

  predicate BucketSettles(s: State, i: nat) {
    i < |s.calls| && s.calls[i].BucketCall? && s.calls[i].bucket.Settled? ==>
      var c := s.calls[i];
      && (c.bucket.err == None ==> c.b in s.data)
      && (c.bucket.err != None ==> c.bucket.err == Some(BucketAlreadyExists(c.b)) && c.b in s.meta)
  }

  lemma MakingSettles(s: State, i: nat)
    requires NearOwn(s, i) && CanBucket(s, i)
    ensures BucketSettles(NextBucket(s, i), i)
  {
  }

  lemma MetadataBucketStays(s: State, a: Action, b: string)
    requires Agreed(s) && Enabled(s, a) && b in s.meta
    ensures b in Next(s, a).meta
  {
    if a.Continue? {
      AgreedNear(s, a.i, b, "");
      if CanWrite(s, a.i) {
        WriteGrows(s, a.i, a.amount, b, "");
      } else if CanBucket(s, a.i) {
        BucketKeepsAt(s, a.i, b, "");
      }
    }
  }

  lemma StepKeepsBucket(s: State, a: Action, i: nat)
    requires Agreed(s) && Enabled(s, a) && BucketSettles(s, i)
    ensures BucketSettles(Next(s, a), i)
  {
    var s' := Next(s, a);
    StepMoves(s, a);
    if a.Continue? && i == a.i && CanBucket(s, i) {
      AgreedNear(s, i, "", "");
      MakingSettles(s, i);
    } else if i < |s.calls| && s.calls[i].BucketCall? && s.calls[i].bucket.Settled? {
      assert a.Continue? || s'.calls[i] == s'.calls[..|s.calls|][i];
      assert s'.calls[i] == s.calls[i];
      if s.calls[i].b in s.data {
        BucketStays(s, a, s.calls[i].b);
      }
      if s.calls[i].b in s.meta {
        MetadataBucketStays(s, a, s.calls[i].b);
      }
    }
  }

  lemma {:induction false} RunKeepsBucket(s: State, run: seq<Action>, i: nat)
    requires Agreed(s) && Allowed(s, run) && BucketSettles(s, i)
    ensures BucketSettles(Exec(s, run), i)
    decreases |run|
  {
    if run != [] {
      StepKeepsBucket(s, run[0], i);
      StepKeepsAgreed(s, run[0]);
      RunKeepsBucket(Next(s, run[0]), run[1..], i);
    }
  }

  /** A settled NewBucket call that succeeded has made the bucket in all three stores, and one that failed found it. */
  lemma BucketOutcome(s: State, i: nat)
    requires Reachable(s) && i < |s.calls| && s.calls[i].BucketCall? && s.calls[i].bucket.Settled?
    ensures var c := s.calls[i];
      && (c.bucket.err == None ==> c.b in s.meta && c.b in s.keys && c.b in s.data)
      && (c.bucket.err != None ==> c.bucket.err == Some(BucketAlreadyExists(c.b)) && c.b in s.meta)
  {
    var cipher, backend, run: seq<Action> :|
      Allowed(Start(cipher, backend), run) && Exec(Start(cipher, backend), run) == s;
    RunKeepsBucket(Start(cipher, backend), run, i);
    ReachableIsAgreed(s);
    assert NameOk(s, s.calls[i].b, "");
  }

  /** From the start, over memory and over files: a bucket is made, an object stored, and read back whole. */
  lemma UploadsHappen(cipher: Cipher, backend: Backend, plain: seq<byte>)
    ensures exists s: State, i: nat, r: nat ::
      && Succeeded(s, "bucket", "key", i) && DeliveredTo(s, r) && Reachable(s)
      && s.backend == backend && s.cipher == cipher && s.calls[r].b == "bucket" && s.calls[r].k == "key"
      && s.calls[i].plain == plain && Encrypt(cipher, s.calls[r].read.key.key, s.calls[r].read.got) == plain
  {
    var s := FollowBucket(cipher, backend);
    var s', r := UploadAndRead(s, "bucket", "key", Metadata(|plain|, "name"), ANY_KEY, plain);
    SuccessMeansStored(s', "bucket", "key", |s.calls|, |s.calls|);
    ReadsDecryptTheWinner(s', r);
    assert Succeeded(s', "bucket", "key", |s.calls|);
  }

  // ---- A Write that comes while the bucket is being made ----

  /** The bucket has its metadata. */
  lemma FollowBucketStart(cipher: Cipher, backend: Backend) returns (s: State)
    ensures Reachable(s)
    ensures s == Start(cipher, backend).(meta := map["bucket" := map[]], calls := [BucketCall("bucket", ForKeys)])
  {
    s := Start(cipher, backend);
    assert Allowed(s, []) && Exec(s, []) == s;
    s := Follow(s, StartBucket("bucket"));
    s := Follow(s, Continue(0, 0));
  }

  /** A Write on it has started. */
  lemma FollowEarlyStart(cipher: Cipher, backend: Backend) returns (s: State)
    ensures Reachable(s)
    ensures s == Start(cipher, backend).(
      meta := map["bucket" := map["key" := Metadata(0, "name")]],
      calls := [BucketCall("bucket", ForKeys),
                WriteCall("bucket", "key", Metadata(0, "name"), ANY_KEY, [], false, false, 0, Keying)])
  {
    s := FollowBucketStart(cipher, backend);
    s := Follow(s, StartWrite("bucket", "key", Metadata(0, "name"), ANY_KEY, [], false));
    s := Follow(s, Continue(1, 0));
  }

  /** A winner whose reader does not fail can still end in an error: it came to the storage before its bucket did. */
  lemma FollowEarlyWrite(cipher: Cipher, backend: Backend) returns (s: State)
    ensures Reachable(s) && |s.calls| == 2 && s.calls[1].WriteCall? && s.calls[1].won && !s.calls[1].fails
    ensures s.calls[1].write == Ended(Some(BucketDoesNotExist("bucket")))
  {
    s := FollowEarlyStart(cipher, backend);
    s := Follow(s, Continue(0, 0));
    s := Follow(s, Continue(1, 0));
    s := Follow(s, Continue(1, 0));
  }

  lemma WinnersCanFail()
    ensures exists s: State :: Reachable(s) && |s.calls| == 2 && s.calls[1].WriteCall? && s.calls[1].won
                               && !s.calls[1].fails && s.calls[1].write.Ended? && s.calls[1].write.err != None
  {
    var s := FollowEarlyWrite((key, block) => block, Files);
  }
}
