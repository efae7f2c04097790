/** Which metadata a Read hands out when Writes overlap (storeend.go:49-83, metadata/memory.go:21-38). */
module CompoundMetadata {
  import opened Common
  import opened Buckets
  import opened Ofb
  import opened CompoundConcurrent
  import opened CompoundAgreement

  /** This Write call on the name carries the metadata and has written them. */
  predicate Described(s: State, b: string, k: string, meta: Metadata, w: nat) {
    && w < |s.calls| && s.calls[w].WriteCall? && s.calls[w].b == b && s.calls[w].k == k
    && s.calls[w].meta == meta && !s.calls[w].write.Describing?
  }

  ghost predicate FromAWrite(s: State, b: string, k: string, meta: Metadata) {
    exists w: nat :: Described(s, b, k, meta, w)
  }

  /** The metadata a Read holds in hand. */
  function MetaOf(read: ReadPhase): Option<Metadata> {
    match read
    case Unlocking(meta) => Some(meta)
    case Fetching(meta, _) => Some(meta)
    case Opening(meta, _) => Some(meta)
    case Reading(meta, _, _) => Some(meta)
    case Delivered(meta, _, _) => Some(meta)
    case _ => None
  }

  ghost predicate NamedOk(s: State, b: string, k: string) {
    Has(s.meta, b, k) ==> FromAWrite(s, b, k, s.meta[b][k])
  }

  ghost predicate ReaderOk(s: State, i: nat) {
    i < |s.calls| && s.calls[i].ReadCall? && MetaOf(s.calls[i].read).Some? ==>
      FromAWrite(s, s.calls[i].b, s.calls[i].k, MetaOf(s.calls[i].read).value)
  }

  ghost predicate MetadataOk(s: State) {
    (forall b: string, k: string :: NamedOk(s, b, k)) && (forall i: nat :: ReaderOk(s, i))
  }

  /** Every other call is what it was. */
  ghost predicate OnlyMoved(s: State, s': State, i: nat)
    requires |s.calls| == |s'.calls|
  {
    forall j: nat :: j < |s.calls| && j != i ==> s'.calls[j] == s.calls[j]
  }

  /** A Write call has gone on: its name and its metadata are what they were, and so is every other call. */
  ghost predicate WriteMoved(s: State, s': State, i: nat) {
    && i < |s.calls| == |s'.calls| && s.calls[i].WriteCall? && s'.calls[i].WriteCall?
    && OnlyMoved(s, s', i)
    && s'.calls[i].b == s.calls[i].b && s'.calls[i].k == s.calls[i].k && s'.calls[i].meta == s.calls[i].meta
    && s'.calls[i].key == s.calls[i].key && s'.calls[i].plain == s.calls[i].plain
    && !s'.calls[i].write.Describing? && (s.calls[i].won ==> s'.calls[i].won)
    && if s.calls[i].write.Describing?
       then s.calls[i].b in s.meta && s'.meta == Put(s.meta, s.calls[i].b, s.calls[i].k, s.calls[i].meta)
       else s'.meta == s.meta
  }

  lemma DescribingMoves(s: State, i: nat)
    requires InPhase(s, i, Describing) && s.calls[i].b in s.meta
    ensures WriteMoved(s, NextDescribing(s, i), i)
  {
  }

  lemma RefusalMoves(s: State, i: nat, error: StoreError)
    requires i < |s.calls| && s.calls[i].WriteCall? && !s.calls[i].write.Describing?
    ensures WriteMoved(s, WithRefusal(s, i, error), i)
  {
  }

  lemma WithKeyMoves(s: State, i: nat)
    requires InPhase(s, i, Keying) && s.calls[i].b in s.keys
    ensures WriteMoved(s, WithKey(s, i), i)
  {
  }

  lemma KeyingMoves(s: State, i: nat)
    requires InPhase(s, i, Keying)
    ensures WriteMoved(s, NextKeying(s, i), i)
  {
    if s.calls[i].b in s.keys && s.calls[i].k !in s.keys[s.calls[i].b] {
      WithKeyMoves(s, i);
    } else {
      RefusalMoves(s, i, BucketDoesNotExist(s.calls[i].b));
      RefusalMoves(s, i, ObjectAlreadyExists(s.calls[i].k));
    }
  }

  lemma WithDataMoves(s: State, i: nat)
    requires InPhase(s, i, Claiming) && s.calls[i].b in s.data
    ensures WriteMoved(s, WithData(s, i), i)
  {
  }

  lemma StoringMoves(s: State, i: nat)
    requires InPhase(s, i, Claiming)
    ensures WriteMoved(s, NextStoring(s, i), i)
  {
    if s.calls[i].b in s.data && s.calls[i].k !in s.data[s.calls[i].b] && !s.calls[i].fails {
      WithDataMoves(s, i);
    } else {
      RefusalMoves(s, i, BucketDoesNotExist(s.calls[i].b));
      RefusalMoves(s, i, ObjectAlreadyExists(s.calls[i].k));
      RefusalMoves(s, i, ReaderFailed);
    }
  }

  lemma WithClaimMoves(s: State, i: nat)
    requires InPhase(s, i, Claiming) && s.calls[i].b in s.claimed
    ensures WriteMoved(s, WithClaim(s, i), i)
  {
  }

  lemma ClaimingMoves(s: State, i: nat)
    requires InPhase(s, i, Claiming)
    ensures WriteMoved(s, NextClaiming(s, i), i)
  {
    if s.calls[i].b in s.claimed && s.calls[i].k !in s.claimed[s.calls[i].b] {
      WithClaimMoves(s, i);
    } else {
      RefusalMoves(s, i, BucketDoesNotExist(s.calls[i].b));
      RefusalMoves(s, i, ObjectAlreadyExists(s.calls[i].k));
    }
  }

  lemma CreatingMoves(s: State, i: nat)
    requires InPhase(s, i, Creating) && s.calls[i].b in s.data
    ensures WriteMoved(s, NextCreating(s, i), i)
  {
  }

  lemma WithPieceMoves(s: State, i: nat, amount: nat)
    requires InPhase(s, i, Copying) && Has(s.data, s.calls[i].b, s.calls[i].k)
    requires s.calls[i].copied <= |s.calls[i].plain|
    ensures WriteMoved(s, WithPiece(s, i, amount), i)
  {
  }

  lemma CopyingMoves(s: State, i: nat, amount: nat)
    requires InPhase(s, i, Copying) && Has(s.data, s.calls[i].b, s.calls[i].k)
    requires s.calls[i].copied <= |s.calls[i].plain|
    ensures WriteMoved(s, NextCopying(s, i, amount), i)
  {
    if s.calls[i].copied < |s.calls[i].plain| {
      WithPieceMoves(s, i, amount);
    }
  }

  lemma WriteMoves(s: State, i: nat, amount: nat)
    requires CanWrite(s, i)
    ensures WriteMoved(s, NextWrite(s, i, amount), i)
  {
    match s.calls[i].write
    case Describing => DescribingMoves(s, i);
    case Keying => KeyingMoves(s, i);
    case Claiming => if s.backend.Memory? { StoringMoves(s, i); } else { ClaimingMoves(s, i); }
    case Creating => CreatingMoves(s, i);
    case Copying => CopyingMoves(s, i, amount);
  }

  /** A Read call has gone on: it holds the metadata it held, or those it has just looked up. */
  ghost predicate ReadMovedOn(s: State, s': State, i: nat) {
    && i < |s.calls| == |s'.calls| && s.calls[i].ReadCall? && s'.calls[i].ReadCall?
    && OnlyMoved(s, s', i) && s'.meta == s.meta
    && s'.calls[i].b == s.calls[i].b && s'.calls[i].k == s.calls[i].k
    && (MetaOf(s'.calls[i].read).Some? ==>
          || MetaOf(s'.calls[i].read) == MetaOf(s.calls[i].read)
          || (Has(s.meta, s.calls[i].b, s.calls[i].k)
              && MetaOf(s'.calls[i].read) == Some(s.meta[s.calls[i].b][s.calls[i].k])))
  }

  lemma ReadMoves(s: State, i: nat, amount: nat)
    requires CanRead(s, i)
    ensures ReadMovedOn(s, NextRead(s, i, amount), i)
  {
  }

  /** A NewBucket call has gone on: it adds an empty bucket at most. */
  ghost predicate BucketMoved(s: State, s': State, i: nat) {
    && i < |s.calls| == |s'.calls| && s.calls[i].BucketCall? && s'.calls[i].BucketCall?
    && OnlyMoved(s, s', i)
    && (s'.meta == s.meta || (s.calls[i].b !in s.meta && s'.meta == s.meta[s.calls[i].b := map[]]))
  }

  lemma MetadataBucketMoves(s: State, i: nat)
    requires CanBucket(s, i) && s.calls[i].bucket.ForMetadata?
    ensures BucketMoved(s, NextMetadataBucket(s, i), i)
  {
  }

  lemma KeyBucketMoves(s: State, i: nat)
    requires CanBucket(s, i) && s.calls[i].bucket.ForKeys?
    ensures BucketMoved(s, NextKeyBucket(s, i), i)
  {
  }

  lemma DataBucketMoves(s: State, i: nat)
    requires CanBucket(s, i) && s.calls[i].bucket.ForData?
    ensures BucketMoved(s, NextDataBucket(s, i), i)
  {
  }

  lemma BucketMoves(s: State, i: nat)
    requires CanBucket(s, i)
    ensures BucketMoved(s, NextBucket(s, i), i)
  {
    match s.calls[i].bucket
    case ForMetadata => MetadataBucketMoves(s, i);
    case ForKeys => KeyBucketMoves(s, i);
    case ForData => DataBucketMoves(s, i);
  }

  /** A call has been added that has not done anything yet. */
  ghost predicate Started(s: State, s': State) {
    && s'.meta == s.meta && |s'.calls| == |s.calls| + 1 && s'.calls[..|s.calls|] == s.calls
    && var c := s'.calls[|s.calls|];
       (c.WriteCall? ==> c.write.Describing?) && (c.ReadCall? ==> c.read.Looking?)
  }

  ghost predicate Moved(s: State, s': State, i: nat) {
    WriteMoved(s, s', i) || ReadMovedOn(s, s', i) || BucketMoved(s, s', i)
  }

  lemma StepMoves(s: State, a: Action)
    requires Enabled(s, a)
    ensures if a.Continue? then Moved(s, Next(s, a), a.i) else Started(s, Next(s, a))
  {
    if a.Continue? {
      if CanWrite(s, a.i) {
        WriteMoves(s, a.i, a.amount);
      } else if CanRead(s, a.i) {
        ReadMoves(s, a.i, a.amount);
      } else {
        BucketMoves(s, a.i);
      }
    }
  }

  /** Either a call went on, or one was started. */
  ghost predicate Stepped(s: State, s': State) {
    (exists i: nat :: Moved(s, s', i)) || Started(s, s')
  }

  lemma StepIsStepped(s: State, a: Action)
    requires Enabled(s, a)
    ensures Stepped(s, Next(s, a))
  {
    StepMoves(s, a);
  }

  lemma StepKeepsFromAWrite(s: State, s': State, b: string, k: string, meta: Metadata)
    requires Stepped(s, s') && FromAWrite(s, b, k, meta)
    ensures FromAWrite(s', b, k, meta)
  {
    var w: nat :| Described(s, b, k, meta, w);
    if !Started(s, s') {
      var i: nat :| Moved(s, s', i);
      assert Described(s', b, k, meta, w);
    } else {
      assert s'.calls[w] == s'.calls[..|s.calls|][w];
      assert Described(s', b, k, meta, w);
    }
  }

  /** The metadata of a name change only to those of a Write call that has just stored them. */
  lemma MetadataChange(s: State, s': State, b: string, k: string)
    requires Stepped(s, s') && Has(s'.meta, b, k)
    ensures
      || (Has(s.meta, b, k) && s'.meta[b][k] == s.meta[b][k])
      || (exists w: nat :: InPhase(s, w, Describing) && Described(s', b, k, s'.meta[b][k], w))
  {
    if !Started(s, s') {
      var i: nat :| Moved(s, s', i);
      if WriteMoved(s, s', i) && s.calls[i].write.Describing? && s.calls[i].b == b && s.calls[i].k == k {
        assert InPhase(s, i, Describing) && Described(s', b, k, s'.meta[b][k], i);
      }
    }
  }

  /** What a Read holds after a step it held before, or has just looked up. */
  lemma HeldOrLookedUp(s: State, s': State, r: nat)
    requires Stepped(s, s') && r < |s'.calls| && s'.calls[r].ReadCall? && MetaOf(s'.calls[r].read).Some?
    ensures r < |s.calls| && s.calls[r].ReadCall? && s.calls[r].b == s'.calls[r].b && s.calls[r].k == s'.calls[r].k
    ensures
      || MetaOf(s'.calls[r].read) == MetaOf(s.calls[r].read)
      || (Has(s.meta, s.calls[r].b, s.calls[r].k)
          && MetaOf(s'.calls[r].read) == Some(s.meta[s.calls[r].b][s.calls[r].k]))
  {
    if !Started(s, s') {
      var i: nat :| Moved(s, s', i);
      assert r == i || s'.calls[r] == s.calls[r];
    } else {
      assert r < |s.calls| ==> s'.calls[r] == s'.calls[..|s.calls|][r];
    }
  }

  lemma StepKeepsNamed(s: State, s': State, b: string, k: string)
    requires Stepped(s, s') && NamedOk(s, b, k)
    ensures NamedOk(s', b, k)
  {
    if Has(s'.meta, b, k) {
      MetadataChange(s, s', b, k);
      if Has(s.meta, b, k) && s'.meta[b][k] == s.meta[b][k] {
        StepKeepsFromAWrite(s, s', b, k, s.meta[b][k]);
      }
    }
  }

  lemma StepKeepsReader(s: State, s': State, i: nat)
    requires Stepped(s, s') && MetadataOk(s)
    ensures ReaderOk(s', i)
  {
    if i < |s'.calls| && s'.calls[i].ReadCall? && MetaOf(s'.calls[i].read).Some? {
      HeldOrLookedUp(s, s', i);
      assert ReaderOk(s, i) && NamedOk(s, s.calls[i].b, s.calls[i].k);
      StepKeepsFromAWrite(s, s', s.calls[i].b, s.calls[i].k, MetaOf(s'.calls[i].read).value);
    }
  }

  lemma {:induction false} RunKeepsMetadata(s: State, run: seq<Action>)
    requires MetadataOk(s) && Allowed(s, run)
    ensures MetadataOk(Exec(s, run))
    decreases |run|
  {
    if run != [] {
      var s' := Next(s, run[0]);
      StepIsStepped(s, run[0]);
      forall b: string, k: string ensures NamedOk(s', b, k) { StepKeepsNamed(s, s', b, k); }
      forall i: nat ensures ReaderOk(s', i) { StepKeepsReader(s, s', i); }
      RunKeepsMetadata(s', run[1..]);
    }
  }

  /** The metadata a successful Read hands out are those of some Write call on the name, the winner or another one. */
  lemma MetadataComeFromAWrite(s: State, r: nat)
    requires Reachable(s) && DeliveredTo(s, r)
    ensures FromAWrite(s, s.calls[r].b, s.calls[r].k, s.calls[r].read.meta)
  {
    var cipher, backend, run: seq<Action> :|
      Allowed(Start(cipher, backend), run) && Exec(Start(cipher, backend), run) == s;
    RunKeepsMetadata(Start(cipher, backend), run);
    assert ReaderOk(s, r);
  }

  // ---- When they are the winner's ----

  /** No other metadata than these are stored under the name, and no Write under way there is about to store others. */
  ghost predicate Settled(s: State, b: string, k: string, meta: Metadata) {
    && (Has(s.meta, b, k) ==> s.meta[b][k] == meta)
    && forall w: nat :: InPhase(s, w, Describing) && s.calls[w].b == b && s.calls[w].k == k ==> s.calls[w].meta == meta
  }

  /** Without another Write call on the name. */
  ghost predicate NoOtherWrite(run: seq<Action>, b: string, k: string) {
    forall i :: 0 <= i < |run| && run[i].StartWrite? ==> run[i].b != b || run[i].k != k
  }

  /** The Reads of the name from the n-th call on hold these metadata if any. */
  ghost predicate ReadersHold(s: State, n: nat, b: string, k: string, meta: Metadata) {
    forall r: nat :: n <= r < |s.calls| && s.calls[r].ReadCall? && s.calls[r].b == b && s.calls[r].k == k ==>
      MetaOf(s.calls[r].read) == None || MetaOf(s.calls[r].read) == Some(meta)
  }

  /** A Write that has yet to store its metadata was there before, or was started just now. */
  lemma StillDescribing(s: State, s': State, w: nat)
    requires Stepped(s, s') && InPhase(s', w, Describing)
    ensures w < |s.calls| ==> InPhase(s, w, Describing) && s'.calls[w] == s.calls[w]
    ensures w >= |s.calls| ==> w == |s.calls| && Started(s, s')
  {
    if !Started(s, s') {
      var i: nat :| Moved(s, s', i);
      assert w == i || s'.calls[w] == s.calls[w];
    } else {
      assert w < |s.calls| ==> s'.calls[w] == s'.calls[..|s.calls|][w];
    }
  }

  /** A Write call keeps its name and its metadata. */
  lemma StepKeepsCall(s: State, s': State, w: nat)
    requires Stepped(s, s') && w < |s.calls| && s.calls[w].WriteCall?
    ensures w < |s'.calls| && s'.calls[w].WriteCall?
    ensures s'.calls[w].b == s.calls[w].b && s'.calls[w].k == s.calls[w].k && s'.calls[w].meta == s.calls[w].meta
    ensures s.calls[w].won ==> s'.calls[w].won
  {
    if !Started(s, s') {
      var i: nat :| Moved(s, s', i);
      assert w == i || s'.calls[w] == s.calls[w];
    } else {
      assert s'.calls[w] == s'.calls[..|s.calls|][w];
    }
  }

  lemma StepKeepsSettled(s: State, s': State, b: string, k: string, meta: Metadata)
    requires Stepped(s, s') && Settled(s, b, k, meta)
    requires Started(s, s') ==> var c := s'.calls[|s.calls|]; c.WriteCall? ==> c.b != b || c.k != k
    ensures Settled(s', b, k, meta)
  {
    if Has(s'.meta, b, k) {
      MetadataChange(s, s', b, k);
      if w: nat :| InPhase(s, w, Describing) && Described(s', b, k, s'.meta[b][k], w) {
        StepKeepsCall(s, s', w);
      }
    }
    forall w: nat | InPhase(s', w, Describing) && s'.calls[w].b == b && s'.calls[w].k == k
      ensures s'.calls[w].meta == meta
    {
      StillDescribing(s, s', w);
    }
  }

  lemma StepKeepsReaders(s: State, s': State, n: nat, b: string, k: string, meta: Metadata)
    requires Stepped(s, s') && Settled(s, b, k, meta) && ReadersHold(s, n, b, k, meta)
    ensures ReadersHold(s', n, b, k, meta)
  {
    forall r: nat | n <= r < |s'.calls| && s'.calls[r].ReadCall? && s'.calls[r].b == b && s'.calls[r].k == k
      ensures MetaOf(s'.calls[r].read) == None || MetaOf(s'.calls[r].read) == Some(meta)
    {
      if MetaOf(s'.calls[r].read).Some? {
        HeldOrLookedUp(s, s', r);
      }
    }
  }

  lemma StartedCall(s: State, a: Action, b: string, k: string)
    requires Enabled(s, a) && Started(s, Next(s, a)) && (a.StartWrite? ==> a.b != b || a.k != k)
    ensures var c := Next(s, a).calls[|s.calls|]; c.WriteCall? ==> c.b != b || c.k != k
  {
    StepMoves(s, a);
  }

  lemma {:induction false} SettledRunsHold(s: State, run: seq<Action>, n: nat, b: string, k: string, meta: Metadata)
    requires Allowed(s, run) && NoOtherWrite(run, b, k) && Settled(s, b, k, meta) && ReadersHold(s, n, b, k, meta)
    ensures ReadersHold(Exec(s, run), n, b, k, meta)
    decreases |run|
  {
    if run != [] {
      StepIsStepped(s, run[0]);
      if Started(s, Next(s, run[0])) {
        StartedCall(s, run[0], b, k);
      }
      StepKeepsSettled(s, Next(s, run[0]), b, k, meta);
      StepKeepsReaders(s, Next(s, run[0]), n, b, k, meta);
      SettledRunsHold(Next(s, run[0]), run[1..], n, b, k, meta);
    }
  }

  /** This Read of the name started at or after the n-th call and has looked up other metadata. */
  predicate LookedUp(s: State, n: nat, b: string, k: string, meta: Metadata, r: nat) {
    && n <= r < |s.calls| && s.calls[r].ReadCall? && s.calls[r].b == b && s.calls[r].k == k
    && MetaOf(s.calls[r].read).Some? && MetaOf(s.calls[r].read) != Some(meta)
  }

  ghost predicate CanLookUp(s: State, b: string, k: string, meta: Metadata) {
    exists run: seq<Action>, r: nat ::
      Allowed(s, run) && NoOtherWrite(run, b, k) && LookedUp(Exec(s, run), |s.calls|, b, k, meta, r)
  }

  /** A Read that starts now looks up the metadata that are stored now. */
  lemma LookUpNow(s: State, b: string, k: string) returns (run: seq<Action>)
    requires Has(s.meta, b, k)
    ensures Allowed(s, run) && (forall i :: 0 <= i < |run| ==> !run[i].StartWrite?)
    ensures var s' := Exec(s, run); var r := |s.calls|;
      && r < |s'.calls| && s'.calls[r].ReadCall? && s'.calls[r].b == b && s'.calls[r].k == k
      && MetaOf(s'.calls[r].read) == Some(s.meta[b][k])
  {
    var s1 := Next(s, StartRead(b, k));
    var look := Continue(|s.calls|, 0);
    var s2 := Next(s1, look);
    run := [StartRead(b, k), look];
    assert run[1..] == [look] && [look][1..] == [];
    assert Allowed(s2, []) && Exec(s2, []) == s2;
    assert Allowed(s1, [look]) && Exec(s1, [look]) == s2;
  }

  /** A Write that is about to store other metadata does so first. */
  lemma DescribeFirst(s: State, w: nat, b: string, k: string) returns (s': State)
    requires Agreed(s) && InPhase(s, w, Describing) && s.calls[w].b == b && s.calls[w].k == k
    ensures Enabled(s, Continue(w, 0)) && s' == Next(s, Continue(w, 0)) && Agreed(s') && |s'.calls| == |s.calls|
    ensures Has(s'.meta, b, k) && s'.meta[b][k] == s.calls[w].meta
    ensures Has(s.data, b, k) ==> Has(s'.data, b, k)
  {
    assert CallOk(s, w);
    s' := Next(s, Continue(w, 0));
    StepKeepsAgreed(s, Continue(w, 0));
    WriteMoves(s, w, 0);
  }

  lemma UnsettledLookUp(s: State, b: string, k: string, meta: Metadata)
    requires Agreed(s) && !Settled(s, b, k, meta)
    ensures CanLookUp(s, b, k, meta)
  {
    if Has(s.meta, b, k) && s.meta[b][k] != meta {
      var run := LookUpNow(s, b, k);
      assert LookedUp(Exec(s, run), |s.calls|, b, k, meta, |s.calls|);
    } else {
      var w: nat :| InPhase(s, w, Describing) && s.calls[w].b == b && s.calls[w].k == k && s.calls[w].meta != meta;
      var s' := DescribeFirst(s, w, b, k);
      var rest := LookUpNow(s', b, k);
      var run := [Continue(w, 0)] + rest;
      assert run[1..] == rest;
      assert LookedUp(Exec(s, run), |s.calls|, b, k, meta, |s.calls|);
    }
  }

  /** In every reachable state, with or without contents under the name: a Read that starts from here on may look up
      other metadata than these if and only if others are stored or a Write under way has yet to store others. */
  lemma LookUpIffUnsettled(s: State, b: string, k: string, meta: Metadata)
    requires Reachable(s)
    ensures CanLookUp(s, b, k, meta) <==> !Settled(s, b, k, meta)
  {
    ReachableIsAgreed(s);
    if Settled(s, b, k, meta) {
      forall run: seq<Action>, r: nat | Allowed(s, run) && NoOtherWrite(run, b, k)
        ensures !LookedUp(Exec(s, run), |s.calls|, b, k, meta, r)
      {
        SettledRunsHold(s, run, |s.calls|, b, k, meta);
      }
    } else {
      UnsettledLookUp(s, b, k, meta);
    }
  }

  /** This Read of the name started at or after the n-th call and delivered other metadata. */
  predicate Misled(s: State, n: nat, b: string, k: string, meta: Metadata, r: nat) {
    n <= r && DeliveredTo(s, r) && s.calls[r].b == b && s.calls[r].k == k && s.calls[r].read.meta != meta
  }

  ghost predicate CanMislead(s: State, b: string, k: string, meta: Metadata) {
    exists run: seq<Action>, r: nat ::
      Allowed(s, run) && NoOtherWrite(run, b, k) && Misled(Exec(s, run), |s.calls|, b, k, meta, r)
  }

  function StepsLeft(read: ReadPhase): nat {
    match read
    case Looking => 5
    case Unlocking(_) => 4
    case Fetching(_, _) => 3
    case Opening(_, _) => 2
    case Reading(_, _, _) => 1
    case _ => 0
  }

  /** A Read of a name with contents goes on to the next phase, with the metadata that are there. */
  lemma ReadOn(s: State, r: nat)
    requires Agreed(s) && r < |s.calls| && s.calls[r].ReadCall? && StepsLeft(s.calls[r].read) > 0
    requires Has(s.data, s.calls[r].b, s.calls[r].k)
    ensures CanRead(s, r) && StepsLeft(ReadMoved(s, r, 0)) < StepsLeft(s.calls[r].read)
    ensures !ReadMoved(s, r, 0).Refused?
    ensures MetaOf(ReadMoved(s, r, 0)) ==
            if s.calls[r].read.Looking? then Some(s.meta[s.calls[r].b][s.calls[r].k]) else MetaOf(s.calls[r].read)
  {
    assert CallOk(s, r) && NameOk(s, s.calls[r].b, s.calls[r].k);
  }

  lemma {:induction false} ReadToEnd(s: State, r: nat) returns (run: seq<Action>)
    requires Agreed(s) && r < |s.calls| && s.calls[r].ReadCall? && !s.calls[r].read.Refused?
    requires Has(s.data, s.calls[r].b, s.calls[r].k) && Has(s.meta, s.calls[r].b, s.calls[r].k)
    ensures Allowed(s, run) && (forall i :: 0 <= i < |run| ==> run[i].Continue?)
    ensures var s' := Exec(s, run);
      && DeliveredTo(s', r) && s'.calls[r].b == s.calls[r].b && s'.calls[r].k == s.calls[r].k
      && (s.calls[r].read.Looking? ==> s'.calls[r].read.meta == s.meta[s.calls[r].b][s.calls[r].k])
      && (!s.calls[r].read.Looking? ==> Some(s'.calls[r].read.meta) == MetaOf(s.calls[r].read))
    decreases StepsLeft(s.calls[r].read)
  {
    if s.calls[r].read.Delivered? {
      run := [];
    } else {
      ReadOn(s, r);
      var a := Continue(r, 0);
      StepKeepsAgreed(s, a);
      var rest := ReadToEnd(Next(s, a), r);
      run := [a] + rest;
      assert run[1..] == rest;
    }
  }

  /** A Read that starts now can deliver the metadata that are stored now. */
  lemma ReadNow(s: State, b: string, k: string) returns (run: seq<Action>)
    requires Agreed(s) && Has(s.data, b, k) && Has(s.meta, b, k)
    ensures Allowed(s, run) && (forall i :: 0 <= i < |run| ==> !run[i].StartWrite?)
    ensures var s' := Exec(s, run); var r := |s.calls|;
      DeliveredTo(s', r) && s'.calls[r].b == b && s'.calls[r].k == k && s'.calls[r].read.meta == s.meta[b][k]
  {
    var a := StartRead(b, k);
    StepKeepsAgreed(s, a);
    var rest := ReadToEnd(Next(s, a), |s.calls|);
    run := [a] + rest;
    assert run[1..] == rest;
  }

  lemma UnsettledMislead(s: State, b: string, k: string, meta: Metadata)
    requires Agreed(s) && Has(s.data, b, k) && !Settled(s, b, k, meta)
    ensures CanMislead(s, b, k, meta)
  {
    assert NameOk(s, b, k);
    if s.meta[b][k] != meta {
      var run := ReadNow(s, b, k);
      assert Misled(Exec(s, run), |s.calls|, b, k, meta, |s.calls|);
    } else {
      var w: nat :| InPhase(s, w, Describing) && s.calls[w].b == b && s.calls[w].k == k && s.calls[w].meta != meta;
      var s' := DescribeFirst(s, w, b, k);
      var rest := ReadNow(s', b, k);
      var run := [Continue(w, 0)] + rest;
      assert run[1..] == rest;
      assert Misled(Exec(s, run), |s.calls|, b, k, meta, |s.calls|);
    }
  }

  /** Once there are contents under the name, such a Read may also succeed: it may hand out other metadata than these,
      in particular others than the winner's, under the same condition. */
  lemma MisledIffUnsettled(s: State, b: string, k: string, meta: Metadata)
    requires Reachable(s) && Has(s.data, b, k)
    ensures CanMislead(s, b, k, meta) <==> !Settled(s, b, k, meta)
  {
    ReachableIsAgreed(s);
    if Settled(s, b, k, meta) {
      forall run: seq<Action>, r: nat | Allowed(s, run) && NoOtherWrite(run, b, k)
        ensures !Misled(Exec(s, run), |s.calls|, b, k, meta, r)
      {
        SettledRunsHold(s, run, |s.calls|, b, k, meta);
      }
    } else {
      UnsettledMislead(s, b, k, meta);
    }
  }

  // ---- A Write that lost can mislead a Read ----

  lemma {:induction false} ExecOneMore(s: State, run: seq<Action>, a: Action)
    requires Allowed(s, run) && Enabled(Exec(s, run), a)
    ensures Allowed(s, run + [a]) && Exec(s, run + [a]) == Next(Exec(s, run), a)
    decreases |run|
  {
    if run == [] {
      assert run + [a] == [a] && [a][1..] == [];
      assert Allowed(Next(s, a), [a][1..]) && Exec(Next(s, a), [a][1..]) == Next(s, a);
    } else {
      assert (run + [a])[1..] == run[1..] + [a];
      ExecOneMore(Next(s, run[0]), run[1..], a);
    }
  }

  /** Follows a run one action at a time. */
  lemma Follow(s: State, a: Action) returns (s': State)
    requires Reachable(s) && Enabled(s, a)
    ensures s' == Next(s, a) && Reachable(s')
  {
    s' := Next(s, a);
    var cipher, backend, run: seq<Action> :|
      Allowed(Start(cipher, backend), run) && Exec(Start(cipher, backend), run) == s;
    ExecOneMore(Start(cipher, backend), run, a);
  }

  lemma {:induction false} FollowRun(s: State, run: seq<Action>)
    requires Reachable(s) && Allowed(s, run)
    ensures Reachable(Exec(s, run))
    decreases |run|
  {
    if run != [] {
      var s' := Follow(s, run[0]);
      FollowRun(s', run[1..]);
    }
  }

  lemma {:induction false} RunKeepsWinner(s: State, run: seq<Action>, b: string, k: string, w: nat)
    requires Allowed(s, run) && Won(s, b, k, w)
    ensures Won(Exec(s, run), b, k, w) && Exec(s, run).calls[w].meta == s.calls[w].meta
    decreases |run|
  {
    if run != [] {
      StepIsStepped(s, run[0]);
      StepKeepsCall(s, Next(s, run[0]), w);
      RunKeepsWinner(Next(s, run[0]), run[1..], b, k, w);
    }
  }

  const ANY_KEY := EncryptionKey(seq(32, _ => 0))

  /** A second Write on a name with contents fails, and still a Read after its first step hands out its metadata. */
  lemma LoserCanMislead(s: State, b: string, k: string, w: nat, meta: Metadata) returns (s': State, r: nat)
    requires Reachable(s) && Has(s.data, b, k) && Won(s, b, k, w) && meta != s.calls[w].meta
    ensures Reachable(s') && Won(s', b, k, w) && DeliveredTo(s', r) && s'.calls[r].b == b && s'.calls[r].k == k
    ensures s'.calls[r].read.meta == meta != s'.calls[w].meta
  {
    ReachableIsAgreed(s);
    assert NameOk(s, b, k);
    var write := StartWrite(b, k, meta, ANY_KEY, [], false);
    var s1 := Follow(s, write);
    ReachableIsAgreed(s1);
    var s2 := DescribeFirst(s1, |s.calls|, b, k);
    s2 := Follow(s1, Continue(|s.calls|, 0));
    var read := ReadNow(s2, b, k);
    FollowRun(s2, read);
    RunKeepsWinner(s, [write], b, k, w);
    RunKeepsWinner(s1, [Continue(|s.calls|, 0)], b, k, w);
    RunKeepsWinner(s2, read, b, k, w);
    s', r := Exec(s2, read), |s2.calls|;
  }

  /** NewBucket from start to end. */
  lemma FollowBucket(cipher: Cipher, backend: Backend) returns (s: State)
    ensures Reachable(s)
    ensures s == Start(cipher, backend).(meta := map["bucket" := map[]], keys := map["bucket" := map[]],
                                         data := map["bucket" := map[]], claimed := map["bucket" := {}],
                                         calls := [BucketCall("bucket", CompoundConcurrent.Settled(None))])
  {
    s := Start(cipher, backend);
    assert Allowed(s, []) && Exec(s, []) == s;
    s := Follow(s, StartBucket("bucket"));
    s := Follow(s, Continue(0, 0));
    s := Follow(s, Continue(0, 0));
    s := Follow(s, Continue(0, 0));
  }

  /** One Write from start to end. */
  lemma FollowObject(cipher: Cipher, meta: Metadata) returns (s: State)
    ensures Reachable(s) && Has(s.data, "bucket", "key") && Won(s, "bucket", "key", 1) && s.calls[1].meta == meta
  {
    s := FollowBucket(cipher, Memory);
    s := Follow(s, StartWrite("bucket", "key", meta, ANY_KEY, [], false));
    s := Follow(s, Continue(1, 0));
    s := Follow(s, Continue(1, 0));
    s := Follow(s, Continue(1, 0));
  }

  lemma LosersCanMislead()
    ensures exists s: State, r: nat, w: nat ::
      && DeliveredTo(s, r) && Reachable(s) && Won(s, s.calls[r].b, s.calls[r].k, w)
      && s.calls[r].read.meta != s.calls[w].meta
  {
    var first, second := Metadata(0, "first"), Metadata(0, "second");
    var s := FollowObject((key, block) => block, first);
    var s', r := LoserCanMislead(s, "bucket", "key", 1, second);
  }
}
