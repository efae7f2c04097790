/** How overlapping Writes and Reads of the file storage end (storage/fs.go:116-162). */
module FsOutcomes {
  import opened Common
  import opened Buckets
  import opened Identifiers
  import opened Paths
  import opened FsConcurrent

  lemma {:induction false} ExecOneMore(s: State, run: seq<Action>, a: Action)
    requires Allowed(s, run) && Enabled(Exec(s, run), a)
    ensures Allowed(s, run + [a]) && Exec(s, run + [a]) == Next(Exec(s, run), a)
    decreases |run|
  {
    if run == [] {
      assert run + [a] == [a] && [a][1..] == [];
      assert Allowed(Next(s, a), [a][1..]) && Exec(Next(s, a), [a][1..]) == Next(s, a);
    } else {
      assert (run + [a])[1..] == run[1..] + [a];
      ExecOneMore(Next(s, run[0]), run[1..], a);
    }
  }

  /** Follows a run one action at a time. */
  lemma Follow(s: State, a: Action) returns (s': State)
    requires Reachable(s) && Enabled(s, a)
    ensures s' == Next(s, a) && Reachable(s')
  {
    s' := Next(s, a);
    var start: State, run: seq<Action> :| IsStart(start) && Allowed(start, run) && Exec(start, run) == s;
    ExecOneMore(start, run, a);
  }

  lemma {:induction false} FollowRun(s: State, run: seq<Action>)
    requires Reachable(s) && Allowed(s, run)
    ensures Reachable(Exec(s, run))
    decreases |run|
  {
    if run != [] {
      var s' := Follow(s, run[0]);
      FollowRun(s', run[1..]);
    }
  }

  /** In every interleaving, a Write that has ended succeeded if and only if it claimed its name and its reader did not
      fail; if it claimed its name and its reader failed it reports that; and otherwise the bucket was missing, or
      another Write has claimed the name. */
  lemma WriteOutcome(s: State, i: nat)
    requires Reachable(s) && i < |s.calls| && s.calls[i].WriteCall? && s.calls[i].write.Ended?
    ensures var c := s.calls[i];
      && (c.write.err == None <==> c.claimed && !c.fails)
      && (c.write.err == Some(ReaderFailed) <==> c.claimed && c.fails)
      && (!c.claimed ==> c.write.err == Some(BucketDoesNotExist(c.b)) || c.write.err == Some(ObjectAlreadyExists(c.k)))
      && (c.write.err == Some(ObjectAlreadyExists(c.k)) ==>
            exists j: nat :: j != i && Claimed(s, j) && s.calls[j].b == c.b && s.calls[j].k == c.k)
  {
    ReachableIsConsistent(s);
    var c := s.calls[i];
    assert CallOk(s, i) && NameOk(s, c.b, c.k);
    if c.write.err == Some(ObjectAlreadyExists(c.k)) {
      assert Claimed(s, s.owner[PathOf(s, c)]);
    }
  }

  /** The bucket is there, and none of its Writes from the n-th call on has missed it. */
  ghost predicate BucketFound(s: State, n: nat, b: string) {
    && b in s.memRep
    && forall i: nat :: n <= i < |s.calls| && s.calls[i].WriteCall? && s.calls[i].b == b ==>
         s.calls[i].write != Ended(Some(BucketDoesNotExist(b)))
  }

  lemma StepFindsBucket(s: State, a: Action, n: nat, b: string)
    requires Enabled(s, a) && BucketFound(s, n, b)
    ensures BucketFound(Next(s, a), n, b)
  {
    var s' := Next(s, a);
    forall i: nat | n <= i < |s'.calls| && s'.calls[i].WriteCall? && s'.calls[i].b == b
      ensures s'.calls[i].write != Ended(Some(BucketDoesNotExist(b)))
    {
      assert i < |s.calls| ==> s.calls[i].WriteCall? && s.calls[i].b == b;
    }
  }

  lemma {:induction false} RunFindsBucket(s: State, run: seq<Action>, n: nat, b: string)
    requires Allowed(s, run) && BucketFound(s, n, b)
    ensures BucketFound(Exec(s, run), n, b)
    decreases |run|
  {
    if run != [] {
      StepFindsBucket(s, run[0], n, b);
      RunFindsBucket(Next(s, run[0]), run[1..], n, b);
    }
  }

  /** A Write that starts when its bucket is there, and has ended without its name, lost to another Write. */
  lemma LosersFindTheName(s: State, run: seq<Action>, i: nat)
    requires Reachable(s) && Allowed(s, run) && |s.calls| <= i < |Exec(s, run).calls|
    requires var c := Exec(s, run).calls[i]; c.WriteCall? && c.write.Ended? && c.b in s.memRep
    ensures var c := Exec(s, run).calls[i]; !c.claimed <==> c.write.err == Some(ObjectAlreadyExists(c.k))
  {
    RunFindsBucket(s, run, |s.calls|, Exec(s, run).calls[i].b);
    FollowRun(s, run);
    WriteOutcome(Exec(s, run), i);
  }

  /** A Read is refused only if its file is missing, and is told what is: the bucket, the name, or a file that is
      claimed but not made. */
  lemma RefusalsAreRight(s: State, r: nat, amount: nat)
    requires Reachable(s) && CanRead(s, r) && ReadMoved(s, r, amount).Refused?
    ensures var c, error := s.calls[r], ReadMoved(s, r, amount).error;
      && RootKey(s.root, c.b, c.k) !in s.files
      && (error == BucketDoesNotExist(c.b) <==> c.b !in s.memRep)
      && (error == ObjectDoesNotExist(c.k) <==> c.b in s.memRep && c.k !in s.memRep[c.b])
      && (error == OsFailed <==> c.b in s.memRep && c.k in s.memRep[c.b])
  {
    ReachableIsConsistent(s);
    assert CallOk(s, r) && NameOk(s, s.calls[r].b, s.calls[r].k);
  }

  // ---- Calls can succeed ----

  function StepsToEnd(c: Call): nat
    requires c.WriteCall?
  {
    match c.write
    case Claiming => |c.bytes| + 3
    case Creating => |c.bytes| + 2
    case Copying => if c.copied <= |c.bytes| then |c.bytes| - c.copied + 1 else 1
    case Ended(_) => 0
  }

  /** A Write on a free name in a bucket that is there, or one that has claimed its name. */
  predicate OnItsWay(s: State, i: nat) {
    && i < |s.calls| && s.calls[i].WriteCall? && !s.calls[i].fails
    && (s.calls[i].write.Claiming? ==>
          s.calls[i].b in s.memRep && s.calls[i].k !in s.memRep[s.calls[i].b])
    && (s.calls[i].write.Ended? ==> s.calls[i].write.err == None)
  }

  lemma WriteGoesOn(s: State, i: nat)
    requires CallOk(s, i) && OnItsWay(s, i) && !s.calls[i].write.Ended?
    ensures CanWrite(s, i) && OnItsWay(NextWrite(s, i, 0), i)
    ensures StepsToEnd(NextWrite(s, i, 0).calls[i]) < StepsToEnd(s.calls[i])
    ensures var c, c' := s.calls[i], NextWrite(s, i, 0).calls[i]; c'.b == c.b && c'.k == c.k && c'.bytes == c.bytes
    ensures |NextWrite(s, i, 0).calls| == |s.calls| && NextWrite(s, i, 0).root == s.root
  {
  }

  lemma {:induction false} FinishWrite(s: State, i: nat) returns (s': State)
    requires Reachable(s) && OnItsWay(s, i)
    ensures Reachable(s') && s'.root == s.root && |s'.calls| == |s.calls| && Succeeded(s', i)
    ensures var c, c' := s.calls[i], s'.calls[i]; c'.b == c.b && c'.k == c.k && c'.bytes == c.bytes
    decreases StepsToEnd(s.calls[i])
  {
    if s.calls[i].write.Ended? {
      s' := s;
    } else {
      ReachableIsConsistent(s);
      assert CallOk(s, i);
      WriteGoesOn(s, i);
      s' := Follow(s, Continue(i, 0));
      s' := FinishWrite(s', i);
    }
  }

  lemma FinishRead(s: State, r: nat, b: string, k: string) returns (s': State)
    requires Reachable(s) && r < |s.calls| && s.calls[r] == ReadCall(b, k, Reading([]))
    requires RootKey(s.root, b, k) in s.files
    ensures Reachable(s') && s'.calls == s.calls[r := ReadCall(b, k, Delivered(s.files[RootKey(s.root, b, k)]))]
  {
    var file := s.files[RootKey(s.root, b, k)];
    s' := Follow(s, Continue(r, |file|));
    if file != [] {
      assert [] + file[0..|file|] == file;
      s' := Follow(s', Continue(r, |file|));
    }
  }

  /** A Read that goes on to the end of the file. */
  lemma ReadWhole(s: State, b: string, k: string) returns (s': State)
    requires Reachable(s) && IsId(b) && IsId(k) && RootKey(s.root, b, k) in s.files
    ensures Reachable(s') && |s'.calls| == |s.calls| + 1 && s'.calls[..|s.calls|] == s.calls
    ensures s'.calls[|s.calls|] == ReadCall(b, k, Delivered(s.files[RootKey(s.root, b, k)]))
  {
    ReachableIsConsistent(s);
    assert NameOk(s, b, k);
    var r, file := |s.calls|, s.files[RootKey(s.root, b, k)];
    s' := Follow(s, StartRead(b, k));
    s' := Follow(s', Continue(r, 0));
    s' := Follow(s', Continue(r, 0));
    s' := FinishRead(s', r, b, k);
  }

  /** From every reachable state with the bucket: what is written under a free accepted name is read back whole. */
  lemma WriteThenRead(s: State, b: string, k: string, bytes: seq<byte>) returns (s': State, i: nat, r: nat)
    requires Reachable(s) && IsId(b) && IsId(k) && b in s.memRep && k !in s.memRep[b]
    ensures Reachable(s') && Succeeded(s', i) && s'.calls[i].b == b && s'.calls[i].k == k && s'.calls[i].bytes == bytes
    ensures r < |s'.calls| && s'.calls[r] == ReadCall(b, k, Delivered(bytes))
  {
    i := |s.calls|;
    s' := Follow(s, StartWrite(b, k, bytes, false));
    s' := FinishWrite(s', i);
    OneWriterPerFile(s', i, i);
    r := |s'.calls|;
    var s1 := s';
    s' := ReadWhole(s1, b, k);
    assert s'.calls[i] == s'.calls[..|s1.calls|][i];
  }

  /** A single part of lower-case letters is an identifier. */
  lemma WordIsId(w: string)
    requires |w| >= 2 && AllIn(IsLower, w)
    ensures IsId(w)
  {
    SplitWhole(w, '-');
    assert Last(Split(w, '-')) == w && Split(w, '-')[1..] == [];
  }

  lemma WritesHappen(bytes: seq<byte>)
    ensures exists s: State, i: nat, r: nat ::
      Succeeded(s, i) && Reachable(s) && r < |s.calls| && s.calls[r] == ReadCall("bucket", "key", Delivered(bytes))
  {
    var s := State("/data", map[], map[], [], map[]);
    assert IsStart(s) && Allowed(s, []) && Exec(s, []) == s;
    WordIsId("bucket");
    WordIsId("key");
    s := Follow(s, NewBucket("bucket"));
    var s', i, r := WriteThenRead(s, "bucket", "key", bytes);
  }
}
