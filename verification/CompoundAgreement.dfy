/** In every interleaving without deletes, the three stores agree on which write won (storeend.go:49-83). */
module CompoundAgreement {
  import opened Common
  import opened Buckets
  import opened Ofb
  import opened CompoundConcurrent

  /** The next piece of the stream continues the prefix already copied. */
  lemma PieceExtends(cipher: Cipher, key: seq<byte>, plain: seq<byte>, from: nat, upTo: nat)
    requires from <= upTo <= |plain|
    ensures Encrypt(cipher, key, plain)[..from] + Keyed(cipher, key, from, plain[from..upTo]) ==
            Encrypt(cipher, key, plain)[..upTo]
  {
    var left := Encrypt(cipher, key, plain)[..from] + Keyed(cipher, key, from, plain[from..upTo]);
    forall x | 0 <= x < upTo ensures left[x] == Encrypt(cipher, key, plain)[..upTo][x] {
      if x >= from {
        assert left[x] == Keyed(cipher, key, from, plain[from..upTo])[x - from];
        assert plain[from..upTo][x - from] == plain[x];
        assert from + (x - from) == 0 + x;
      }
    }
  }

  /** What one step leaves standing at a name. */
  ghost predicate GrowsAt(s: State, s': State, b: string, k: string) {
    && s'.cipher == s.cipher && s'.backend == s.backend
    && (b in s.meta ==> b in s'.meta)
    && (b in s.keys ==> b in s'.keys)
    && (b in s.data ==> b in s'.data)
    && (b in s.claimed && k in s.claimed[b] ==> b in s'.claimed && k in s'.claimed[b])
    && (Has(s.meta, b, k) ==> Has(s'.meta, b, k))
    && (Has(s.keys, b, k) ==> Has(s'.keys, b, k) && s'.keys[b][k] == s.keys[b][k])
    && (Has(s.data, b, k) ==> Has(s'.data, b, k) && s.data[b][k] <= s'.data[b][k])
    && (Has(s.data, b, k) && s.backend.Memory? ==> s'.data[b][k] == s.data[b][k])
    && ((b, k) in s.winner ==> (b, k) in s'.winner && s'.winner[(b, k)] == s.winner[(b, k)])
  }

  function NameOf(c: Call): (string, string) {
    (c.b, if c.BucketCall? then "" else c.k)
  }

  /** A call that did not move is as good as before. */
  lemma UntouchedCall(s: State, s': State, j: nat)
    requires j < |s.calls| && j < |s'.calls| && s'.calls[j] == s.calls[j] && CallOk(s, j)
    requires GrowsAt(s, s', NameOf(s.calls[j]).0, NameOf(s.calls[j]).1)
    ensures CallOk(s', j)
  {
  }

  /** What is stored under a name, and the call that won it, did not change. */
  ghost predicate SameAt(s: State, s': State, b: string, k: string) {
    && s'.cipher == s.cipher && s'.backend == s.backend
    && (Has(s.meta, b, k) ==> Has(s'.meta, b, k))
    && Has(s'.keys, b, k) == Has(s.keys, b, k) && (Has(s.keys, b, k) ==> s'.keys[b][k] == s.keys[b][k])
    && Has(s'.data, b, k) == Has(s.data, b, k) && (Has(s.data, b, k) ==> s'.data[b][k] == s.data[b][k])
    && (b in s'.claimed && k in s'.claimed[b] <==> b in s.claimed && k in s.claimed[b])
    && ((b, k) in s'.winner <==> (b, k) in s.winner)
    && (IsWinner(s, b, k) ==>
          var w := s.winner[(b, k)];
          s'.winner[(b, k)] == w && w < |s'.calls| && s'.calls[w] == s.calls[w])
  }

  /** A name at which nothing changed is as good as before. */
  lemma UntouchedName(s: State, s': State, b: string, k: string)
    requires NameOk(s, b, k) && BucketOk(s', b) && SameAt(s, s', b, k)
    ensures NameOk(s', b, k)
  {
  }

  /** What holds of the call that moves and of its own name, and what holds of the name looked at. */
  predicate NearOwn(s: State, i: nat) {
    i < |s.calls| && CallOk(s, i) && NameOk(s, NameOf(s.calls[i]).0, NameOf(s.calls[i]).1)
  }

  predicate Near(s: State, i: nat, b: string, k: string) {
    NearOwn(s, i) && NameOk(s, b, k)
  }

  predicate IsOwn(s: State, i: nat, b: string, k: string)
    requires i < |s.calls| && s.calls[i].WriteCall?
  {
    s.calls[i].b == b && s.calls[i].k == k
  }

  lemma DescribingKeepsOwn(s: State, i: nat)
    requires NearOwn(s, i) && InPhase(s, i, Describing) && s.calls[i].b in s.meta
    ensures NameOk(NextDescribing(s, i), s.calls[i].b, s.calls[i].k) && CallOk(NextDescribing(s, i), i)
  {
  }

  lemma DescribingGrows(s: State, i: nat, b: string, k: string)
    requires NearOwn(s, i) && InPhase(s, i, Describing) && s.calls[i].b in s.meta
    ensures GrowsAt(s, NextDescribing(s, i), b, k)
  {
  }

  lemma DescribingLeavesOthers(s: State, i: nat, b: string, k: string)
    requires InPhase(s, i, Describing) && s.calls[i].b in s.meta && !IsOwn(s, i, b, k)
    ensures SameAt(s, NextDescribing(s, i), b, k) && (BucketOk(s, b) ==> BucketOk(NextDescribing(s, i), b))
  {
  }

  lemma RefusalLeavesOthers(s: State, i: nat, error: StoreError, b: string, k: string)
    requires i < |s.calls| && s.calls[i].WriteCall? && !IsOwn(s, i, b, k)
    ensures SameAt(s, WithRefusal(s, i, error), b, k)
    ensures BucketOk(s, b) ==> BucketOk(WithRefusal(s, i, error), b)
  {
  }

  lemma KeyingKeepsName(s: State, i: nat)
    requires NearOwn(s, i) && InPhase(s, i, Keying)
    ensures NameOk(NextKeying(s, i), s.calls[i].b, s.calls[i].k)
  {
  }

  lemma KeyingKeepsOwn(s: State, i: nat)
    requires NearOwn(s, i) && InPhase(s, i, Keying)
    ensures NameOk(NextKeying(s, i), s.calls[i].b, s.calls[i].k) && CallOk(NextKeying(s, i), i)
  {
    KeyingKeepsName(s, i);
  }

  lemma KeyingGrows(s: State, i: nat, b: string, k: string)
    requires NearOwn(s, i) && InPhase(s, i, Keying)
    ensures GrowsAt(s, NextKeying(s, i), b, k)
  {
  }

  lemma WithKeyLeavesOthers(s: State, i: nat, b: string, k: string)
    requires InPhase(s, i, Keying) && s.calls[i].b in s.keys && !IsOwn(s, i, b, k)
    ensures SameAt(s, WithKey(s, i), b, k) && (BucketOk(s, b) ==> BucketOk(WithKey(s, i), b))
  {
  }

  lemma KeyingLeavesOthers(s: State, i: nat, b: string, k: string)
    requires InPhase(s, i, Keying) && !IsOwn(s, i, b, k)
    ensures SameAt(s, NextKeying(s, i), b, k) && (BucketOk(s, b) ==> BucketOk(NextKeying(s, i), b))
  {
    var c := s.calls[i];
    if c.b in s.keys && c.k !in s.keys[c.b] {
      WithKeyLeavesOthers(s, i, b, k);
    } else {
      RefusalLeavesOthers(s, i, BucketDoesNotExist(c.b), b, k);
      RefusalLeavesOthers(s, i, ObjectAlreadyExists(c.k), b, k);
    }
  }

  /** Over memory: the object is stored whole. */
  lemma WithDataKeepsOwn(s: State, i: nat)
    requires NearOwn(s, i) && InPhase(s, i, Claiming) && s.backend.Memory?
    requires s.calls[i].b in s.data && s.calls[i].k !in s.data[s.calls[i].b] && !s.calls[i].fails
    ensures NameOk(WithData(s, i), s.calls[i].b, s.calls[i].k) && CallOk(WithData(s, i), i)
  {
    var c := s.calls[i];
    assert Encrypt(s.cipher, c.key.key, c.plain)[..|c.plain|] == Encrypt(s.cipher, c.key.key, c.plain);
  }

  lemma StoringKeepsOwn(s: State, i: nat)
    requires NearOwn(s, i) && InPhase(s, i, Claiming) && s.backend.Memory?
    ensures NameOk(NextStoring(s, i), s.calls[i].b, s.calls[i].k) && CallOk(NextStoring(s, i), i)
  {
    var c := s.calls[i];
    if c.b in s.data && c.k !in s.data[c.b] && !c.fails {
      WithDataKeepsOwn(s, i);
    }
  }

  lemma StoringGrows(s: State, i: nat, b: string, k: string)
    requires NearOwn(s, i) && InPhase(s, i, Claiming) && s.backend.Memory?
    ensures GrowsAt(s, NextStoring(s, i), b, k)
  {
  }

  lemma WithDataLeavesOthers(s: State, i: nat, b: string, k: string)
    requires InPhase(s, i, Claiming) && s.calls[i].b in s.data && !IsOwn(s, i, b, k)
    ensures SameAt(s, WithData(s, i), b, k) && (BucketOk(s, b) ==> BucketOk(WithData(s, i), b))
  {
  }

  lemma StoringLeavesOthers(s: State, i: nat, b: string, k: string)
    requires InPhase(s, i, Claiming) && s.backend.Memory? && !IsOwn(s, i, b, k)
    ensures SameAt(s, NextStoring(s, i), b, k) && (BucketOk(s, b) ==> BucketOk(NextStoring(s, i), b))
  {
    var c := s.calls[i];
    if c.b in s.data && c.k !in s.data[c.b] && !c.fails {
      WithDataLeavesOthers(s, i, b, k);
    } else {
      RefusalLeavesOthers(s, i, BucketDoesNotExist(c.b), b, k);
      RefusalLeavesOthers(s, i, ObjectAlreadyExists(c.k), b, k);
      RefusalLeavesOthers(s, i, ReaderFailed, b, k);
    }
  }

  /** Over files: the name is taken. */
  lemma ClaimingKeepsOwn(s: State, i: nat)
    requires NearOwn(s, i) && InPhase(s, i, Claiming) && s.backend.Files?
    ensures NameOk(NextClaiming(s, i), s.calls[i].b, s.calls[i].k) && CallOk(NextClaiming(s, i), i)
  {
  }

  lemma ClaimingGrows(s: State, i: nat, b: string, k: string)
    requires NearOwn(s, i) && InPhase(s, i, Claiming) && s.backend.Files?
    ensures GrowsAt(s, NextClaiming(s, i), b, k)
  {
  }

  lemma WithClaimLeavesOthers(s: State, i: nat, b: string, k: string)
    requires InPhase(s, i, Claiming) && s.calls[i].b in s.claimed && !IsOwn(s, i, b, k)
    ensures SameAt(s, WithClaim(s, i), b, k) && (BucketOk(s, b) ==> BucketOk(WithClaim(s, i), b))
  {
  }

  lemma ClaimingLeavesOthers(s: State, i: nat, b: string, k: string)
    requires InPhase(s, i, Claiming) && s.backend.Files? && !IsOwn(s, i, b, k)
    ensures SameAt(s, NextClaiming(s, i), b, k) && (BucketOk(s, b) ==> BucketOk(NextClaiming(s, i), b))
  {
    var c := s.calls[i];
    if c.b in s.claimed && c.k !in s.claimed[c.b] {
      WithClaimLeavesOthers(s, i, b, k);
    } else {
      RefusalLeavesOthers(s, i, BucketDoesNotExist(c.b), b, k);
      RefusalLeavesOthers(s, i, ObjectAlreadyExists(c.k), b, k);
    }
  }

  lemma CreatingKeepsOwn(s: State, i: nat)
    requires NearOwn(s, i) && InPhase(s, i, Creating) && s.calls[i].b in s.data
    ensures NameOk(NextCreating(s, i), s.calls[i].b, s.calls[i].k) && CallOk(NextCreating(s, i), i)
  {
  }

  lemma CreatingGrows(s: State, i: nat, b: string, k: string)
    requires NearOwn(s, i) && InPhase(s, i, Creating) && s.calls[i].b in s.data
    ensures GrowsAt(s, NextCreating(s, i), b, k)
  {
  }

  lemma CreatingLeavesOthers(s: State, i: nat, b: string, k: string)
    requires InPhase(s, i, Creating) && s.calls[i].b in s.data && !IsOwn(s, i, b, k)
    ensures SameAt(s, NextCreating(s, i), b, k) && (BucketOk(s, b) ==> BucketOk(NextCreating(s, i), b))
  {
  }

  lemma CopyingKeepsOwn(s: State, i: nat, amount: nat)
    requires NearOwn(s, i) && InPhase(s, i, Copying) && Has(s.data, s.calls[i].b, s.calls[i].k)
    ensures NameOk(NextCopying(s, i, amount), s.calls[i].b, s.calls[i].k) && CallOk(NextCopying(s, i, amount), i)
  {
    var c := s.calls[i];
    PieceExtends(s.cipher, c.key.key, c.plain, c.copied, UpTo(c, amount));
  }

  lemma CopyingGrows(s: State, i: nat, amount: nat, b: string, k: string)
    requires NearOwn(s, i) && InPhase(s, i, Copying) && Has(s.data, s.calls[i].b, s.calls[i].k)
    ensures GrowsAt(s, NextCopying(s, i, amount), b, k)
  {
  }

  lemma CopyingLeavesOthers(s: State, i: nat, amount: nat, b: string, k: string)
    requires InPhase(s, i, Copying) && Has(s.data, s.calls[i].b, s.calls[i].k)
    requires s.calls[i].copied <= |s.calls[i].plain| && !IsOwn(s, i, b, k)
    ensures SameAt(s, NextCopying(s, i, amount), b, k) && (BucketOk(s, b) ==> BucketOk(NextCopying(s, i, amount), b))
  {
  }

  lemma WriteKeepsOwn(s: State, i: nat, amount: nat)
    requires NearOwn(s, i) && CanWrite(s, i)
    ensures NameOk(NextWrite(s, i, amount), s.calls[i].b, s.calls[i].k) && CallOk(NextWrite(s, i, amount), i)
  {
    match s.calls[i].write
    case Describing => DescribingKeepsOwn(s, i);
    case Keying => KeyingKeepsOwn(s, i);
    case Claiming =>
      if s.backend.Memory? { StoringKeepsOwn(s, i); } else { ClaimingKeepsOwn(s, i); }
    case Creating => CreatingKeepsOwn(s, i);
    case Copying => CopyingKeepsOwn(s, i, amount);
  }

  lemma WriteGrows(s: State, i: nat, amount: nat, b: string, k: string)
    requires NearOwn(s, i) && CanWrite(s, i)
    ensures GrowsAt(s, NextWrite(s, i, amount), b, k)
  {
    match s.calls[i].write
    case Describing => DescribingGrows(s, i, b, k);
    case Keying => KeyingGrows(s, i, b, k);
    case Claiming =>
      if s.backend.Memory? { StoringGrows(s, i, b, k); } else { ClaimingGrows(s, i, b, k); }
    case Creating => CreatingGrows(s, i, b, k);
    case Copying => CopyingGrows(s, i, amount, b, k);
  }

  lemma WriteLeavesOthers(s: State, i: nat, amount: nat, b: string, k: string)
    requires CanWrite(s, i) && !IsOwn(s, i, b, k)
    ensures SameAt(s, NextWrite(s, i, amount), b, k) && (BucketOk(s, b) ==> BucketOk(NextWrite(s, i, amount), b))
  {
    match s.calls[i].write
    case Describing => DescribingLeavesOthers(s, i, b, k);
    case Keying => KeyingLeavesOthers(s, i, b, k);
    case Claiming =>
      if s.backend.Memory? { StoringLeavesOthers(s, i, b, k); } else { ClaimingLeavesOthers(s, i, b, k); }
    case Creating => CreatingLeavesOthers(s, i, b, k);
    case Copying => CopyingLeavesOthers(s, i, amount, b, k);
  }

  lemma AgreedNear(s: State, i: nat, b: string, k: string)
    requires Agreed(s) && i < |s.calls|
    ensures Near(s, i, b, k)
  {
    assert CallOk(s, i) && NameOk(s, b, k) && NameOk(s, NameOf(s.calls[i]).0, NameOf(s.calls[i]).1);
  }

  lemma WriteKeepsNames(s: State, i: nat, amount: nat)
    requires Agreed(s) && CanWrite(s, i)
    ensures forall b: string, k: string :: NameOk(NextWrite(s, i, amount), b, k)
  {
    forall b: string, k: string ensures NameOk(NextWrite(s, i, amount), b, k) {
      AgreedNear(s, i, b, k);
      if IsOwn(s, i, b, k) {
        WriteKeepsOwn(s, i, amount);
      } else {
        WriteLeavesOthers(s, i, amount, b, k);
        UntouchedName(s, NextWrite(s, i, amount), b, k);
      }
    }
  }

  lemma WriteKeepsCall(s: State, i: nat, amount: nat, j: nat)
    requires NearOwn(s, i) && j < |s.calls| && CallOk(s, j) && CanWrite(s, i)
    ensures CallOk(NextWrite(s, i, amount), j)
  {
    if j == i {
      WriteKeepsOwn(s, i, amount);
    } else {
      WriteGrows(s, i, amount, NameOf(s.calls[j]).0, NameOf(s.calls[j]).1);
      UntouchedCall(s, NextWrite(s, i, amount), j);
    }
  }

  lemma WriteKeepsCalls(s: State, i: nat, amount: nat)
    requires Agreed(s) && CanWrite(s, i)
    ensures forall j: nat :: CallOk(NextWrite(s, i, amount), j)
  {
    forall j: nat ensures CallOk(NextWrite(s, i, amount), j) {
      if j < |s.calls| {
        AgreedNear(s, i, "", "");
        assert CallOk(s, j);
        WriteKeepsCall(s, i, amount, j);
      }
    }
  }

  lemma WriteKeeps(s: State, i: nat, amount: nat)
    requires Agreed(s) && CanWrite(s, i)
    ensures Agreed(NextWrite(s, i, amount))
  {
    WriteKeepsNames(s, i, amount);
    WriteKeepsCalls(s, i, amount);
  }

  lemma ReadKeepsOwnCall(s: State, i: nat, amount: nat)
    requires Agreed(s) && CanRead(s, i)
    ensures CallOk(NextRead(s, i, amount), i)
  {
    assert CallOk(s, i);
  }

  lemma ReadKeeps(s: State, i: nat, amount: nat)
    requires Agreed(s) && CanRead(s, i)
    ensures Agreed(NextRead(s, i, amount))
  {
    var s' := NextRead(s, i, amount);
    ReadKeepsOwnCall(s, i, amount);
    forall b: string, k: string ensures NameOk(s', b, k) {
      assert NameOk(s, b, k);
      UntouchedName(s, s', b, k);
    }
    forall j: nat ensures CallOk(s', j) {
      if j < |s.calls| && j != i {
        assert CallOk(s, j);
        UntouchedCall(s, s', j);
      }
    }
  }

  lemma MetadataBucketKeeps(s: State, i: nat, b: string, k: string)
    requires CanBucket(s, i) && s.calls[i].bucket.ForMetadata? && CallOk(s, i) && BucketOk(s, b)
    ensures SameAt(s, NextMetadataBucket(s, i), b, k) && GrowsAt(s, NextMetadataBucket(s, i), b, k)
    ensures BucketOk(NextMetadataBucket(s, i), b) && CallOk(NextMetadataBucket(s, i), i)
  {
  }

  lemma KeyBucketKeeps(s: State, i: nat, b: string, k: string)
    requires CanBucket(s, i) && s.calls[i].bucket.ForKeys? && CallOk(s, i) && BucketOk(s, b)
    ensures SameAt(s, NextKeyBucket(s, i), b, k) && GrowsAt(s, NextKeyBucket(s, i), b, k)
    ensures BucketOk(NextKeyBucket(s, i), b) && CallOk(NextKeyBucket(s, i), i)
  {
  }

  lemma DataBucketKeeps(s: State, i: nat, b: string, k: string)
    requires CanBucket(s, i) && s.calls[i].bucket.ForData? && CallOk(s, i) && BucketOk(s, b)
    ensures SameAt(s, NextDataBucket(s, i), b, k) && GrowsAt(s, NextDataBucket(s, i), b, k)
    ensures BucketOk(NextDataBucket(s, i), b) && CallOk(NextDataBucket(s, i), i)
  {
  }

  lemma BucketKeepsAt(s: State, i: nat, b: string, k: string)
    requires Near(s, i, b, k) && CanBucket(s, i)
    ensures NameOk(NextBucket(s, i), b, k) && GrowsAt(s, NextBucket(s, i), b, k) && CallOk(NextBucket(s, i), i)
  {
    match s.calls[i].bucket
    case ForMetadata => MetadataBucketKeeps(s, i, b, k);
    case ForKeys => KeyBucketKeeps(s, i, b, k);
    case ForData => DataBucketKeeps(s, i, b, k);
    UntouchedName(s, NextBucket(s, i), b, k);
  }

  lemma BucketKeepsCall(s: State, i: nat, j: nat)
    requires j < |s.calls| && Near(s, i, NameOf(s.calls[j]).0, NameOf(s.calls[j]).1) && CallOk(s, j) && CanBucket(s, i)
    ensures CallOk(NextBucket(s, i), j)
  {
    BucketKeepsAt(s, i, NameOf(s.calls[j]).0, NameOf(s.calls[j]).1);
    if j != i {
      UntouchedCall(s, NextBucket(s, i), j);
    }
  }

  lemma BucketKeeps(s: State, i: nat)
    requires Agreed(s) && CanBucket(s, i)
    ensures Agreed(NextBucket(s, i))
  {
    var s' := NextBucket(s, i);
    forall b: string, k: string ensures NameOk(s', b, k) {
      AgreedNear(s, i, b, k);
      BucketKeepsAt(s, i, b, k);
    }
    forall j: nat ensures CallOk(s', j) {
      if j < |s.calls| {
        AgreedNear(s, i, NameOf(s.calls[j]).0, NameOf(s.calls[j]).1);
        assert CallOk(s, j);
        BucketKeepsCall(s, i, j);
      }
    }
  }

  lemma StartKeeps(s: State, a: Action)
    requires Agreed(s) && Enabled(s, a) && !a.Continue?
    ensures Agreed(Next(s, a))
  {
    var s' := Next(s, a);
    forall b: string, k: string ensures NameOk(s', b, k) {
      assert NameOk(s, b, k);
      UntouchedName(s, s', b, k);
    }
    forall j: nat ensures CallOk(s', j) {
      if j < |s.calls| {
        assert CallOk(s, j);
        UntouchedCall(s, s', j);
      }
    }
  }

  lemma StepKeepsAgreed(s: State, a: Action)
    requires Agreed(s) && Enabled(s, a)
    ensures Agreed(Next(s, a))
  {
    match a
    case Continue(i, amount) =>
      if CanWrite(s, i) {
        WriteKeeps(s, i, amount);
      } else if CanRead(s, i) {
        ReadKeeps(s, i, amount);
      } else {
        BucketKeeps(s, i);
      }
    case _ => StartKeeps(s, a);
  }

  lemma {:induction false} RunKeepsAgreed(s: State, run: seq<Action>)
    requires Agreed(s) && Allowed(s, run)
    ensures Agreed(Exec(s, run))
    decreases |run|
  {
    if run != [] {
      StepKeepsAgreed(s, run[0]);
      RunKeepsAgreed(Next(s, run[0]), run[1..]);
    }
  }

  ghost predicate Reachable(s: State) {
    exists cipher: Cipher, backend: Backend, run: seq<Action> ::
      Allowed(Start(cipher, backend), run) && Exec(Start(cipher, backend), run) == s
  }

  lemma ReachableIsAgreed(s: State)
    requires Reachable(s)
    ensures Agreed(s)
  {
    var cipher: Cipher, backend: Backend, run: seq<Action> :|
      Allowed(Start(cipher, backend), run) && Exec(Start(cipher, backend), run) == s;
    RunKeepsAgreed(Start(cipher, backend), run);
  }

  /** This Write call on the name has got past WriteKey. */
  predicate Won(s: State, b: string, k: string, i: nat) {
    i < |s.calls| && s.calls[i].WriteCall? && s.calls[i].b == b && s.calls[i].k == k && s.calls[i].won
  }

  predicate Finished(c: Call) {
    match c
    case WriteCall(_, _, _, _, _, _, _, _, phase) => phase.Ended?
    case ReadCall(_, _, phase) => phase.Delivered? || phase.Refused?
    case BucketCall(_, phase) => phase.Settled?
  }

  /** No call is ever stuck: the code never reaches a missing bucket or file at the steps that take one for granted. */
  lemma CallsNeverBlock(s: State, i: nat, amount: nat)
    requires Reachable(s) && i < |s.calls| && !Finished(s.calls[i])
    ensures Enabled(s, Continue(i, amount))
  {
    ReachableIsAgreed(s);
    assert CallOk(s, i);
  }

  /** In every interleaving of Write, Read and NewBucket: contents have a key, keys have metadata, at most one Write
      for a name gets past WriteKey, and what is stored is that write's plaintext, or over files a prefix of it,
      encrypted under the key the security store holds. */
  lemma StoresAgree(s: State, b: string, k: string)
    requires Reachable(s)
    ensures Has(s.data, b, k) ==> Has(s.keys, b, k)
    ensures Has(s.keys, b, k) ==> Has(s.meta, b, k)
    ensures forall i: nat, j: nat :: Won(s, b, k, i) && Won(s, b, k, j) ==> i == j
    ensures Has(s.keys, b, k) ==>
              exists w: nat :: Won(s, b, k, w) && s.calls[w].key == s.keys[b][k]
    ensures Has(s.data, b, k) ==>
              exists w: nat :: Won(s, b, k, w) && s.calls[w].key == s.keys[b][k]
                && s.data[b][k] <= Encrypt(s.cipher, s.calls[w].key.key, s.calls[w].plain)
                && (s.backend.Memory? ==> s.data[b][k] == Encrypt(s.cipher, s.calls[w].key.key, s.calls[w].plain))
  {
    ReachableIsAgreed(s);
    assert NameOk(s, b, k);
    forall i: nat, j: nat | Won(s, b, k, i) && Won(s, b, k, j) ensures i == j {
      assert CallOk(s, i) && CallOk(s, j);
    }
    if Has(s.keys, b, k) {
      assert Won(s, b, k, s.winner[(b, k)]);
    }
  }

  predicate Succeeded(s: State, b: string, k: string, i: nat) {
    i < |s.calls| && s.calls[i].WriteCall? && s.calls[i].b == b && s.calls[i].k == k && s.calls[i].write == Ended(None)
  }

  /** Success means stored: in every interleaving, over memory and over files, at most one Write for a name reports
      success, and from then on the whole of its plaintext is there, under its key. */
  lemma SuccessMeansStored(s: State, b: string, k: string, i: nat, j: nat)
    requires Reachable(s) && Succeeded(s, b, k, i)
    ensures Has(s.keys, b, k) && s.keys[b][k] == s.calls[i].key
    ensures Has(s.data, b, k) && s.data[b][k] == Encrypt(s.cipher, s.calls[i].key.key, s.calls[i].plain)
    ensures Succeeded(s, b, k, j) ==> i == j
  {
    ReachableIsAgreed(s);
    assert CallOk(s, i) && CallOk(s, j) && NameOk(s, b, k);
    var sealed := Encrypt(s.cipher, s.calls[i].key.key, s.calls[i].plain);
    assert sealed[..|sealed|] == sealed;
  }

  predicate DeliveredTo(s: State, r: nat) {
    r < |s.calls| && s.calls[r].ReadCall? && s.calls[r].read.Delivered?
  }

  lemma PrefixOfPrefix(a: seq<byte>, b: seq<byte>, c: seq<byte>)
    requires a <= b && b <= c
    ensures a <= c
  {
  }

  /** Every Read that succeeds hands out bytes that decrypt, under the key it found, to the winning write's plaintext:
      all of it over memory, a prefix of it over files, where the write may still be going on. */
  lemma ReadsDecryptTheWinner(s: State, r: nat)
    requires Reachable(s) && DeliveredTo(s, r)
    ensures var c := s.calls[r]; var plain := Encrypt(s.cipher, c.read.key.key, c.read.got);
      exists w: nat :: Won(s, c.b, c.k, w) && s.calls[w].key == c.read.key
        && plain <= s.calls[w].plain && (s.backend.Memory? ==> plain == s.calls[w].plain)
  {
    ReachableIsAgreed(s);
    var c := s.calls[r];
    assert CallOk(s, r) && NameOk(s, c.b, c.k);
    var w := s.winner[(c.b, c.k)];
    var sealed := Encrypt(s.cipher, s.calls[w].key.key, s.calls[w].plain);
    assert Won(s, c.b, c.k, w);
    PrefixOfPrefix(c.read.got, s.data[c.b][c.k], sealed);
    KeyedTwice(s.cipher, c.read.key.key, 0, s.calls[w].plain, |c.read.got|);
    assert c.read.got == sealed[..|c.read.got|];
  }

  /** Any two successful reads of one name, whenever they ran, agree: one result is a prefix of the other. */
  lemma ReadsAgree(s: State, r: nat, q: nat)
    requires Reachable(s) && DeliveredTo(s, r) && DeliveredTo(s, q)
    requires s.calls[r].b == s.calls[q].b && s.calls[r].k == s.calls[q].k
    ensures var x := Encrypt(s.cipher, s.calls[r].read.key.key, s.calls[r].read.got);
            var y := Encrypt(s.cipher, s.calls[q].read.key.key, s.calls[q].read.got);
            (x <= y || y <= x) && (s.backend.Memory? ==> x == y)
  {
    ReadsDecryptTheWinner(s, r);
    ReadsDecryptTheWinner(s, q);
    StoresAgree(s, s.calls[r].b, s.calls[r].k);
  }
}
