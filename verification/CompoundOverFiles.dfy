/** The compound store over files takes the steps of the file storage (storage/fs.go:100-162): CompoundConcurrent names
    objects by bucket and key, FsConcurrent by path, and each file phase of the one is the step of the other. */
module CompoundOverFiles {
  import opened Common
  import opened Buckets
  import opened Ofb
  import opened Identifiers
  import opened Paths
  import C = CompoundConcurrent
  import A = CompoundAgreement
  import F = FsConcurrent

  predicate SameName(c: C.State, f: F.State, b: string, k: string) {
    IsId(b) && IsId(k) ==>
      var path := RootKey(f.root, b, k);
      (Has(c.data, b, k) <==> path in f.files) && (Has(c.data, b, k) ==> f.files[path] == c.data[b][k])
  }

  /** The same names are claimed, and under every accepted name there is the same file. */
  ghost predicate SameFiles(c: C.State, f: F.State) {
    f.memRep == c.claimed && forall b: string, k: string :: SameName(c, f, b, k)
  }

  predicate SameWritePhase(x: C.WritePhase, y: F.WritePhase) {
    match x
    case Claiming => y.Claiming?
    case Creating => y.Creating?
    case Copying => y.Copying?
    case Ended(err) => y == F.Ended(err)
    case _ => false
  }

  /** The file storage's Write is given the ciphertext. */
  predicate SameWrite(cipher: Cipher, x: C.Call, y: F.Call) {
    && x.WriteCall? && y.WriteCall? && x.b == y.b && x.k == y.k && IsId(x.b) && IsId(x.k)
    && y.bytes == Encrypt(cipher, x.key.key, x.plain) && y.fails == x.fails && y.copied == x.copied
    && SameWritePhase(x.write, y.write)
  }

  predicate SameReadPhase(x: C.ReadPhase, y: F.ReadPhase) {
    match x
    case Fetching(_, _) => y.Looking?
    case Opening(_, _) => y.Opening?
    case Reading(_, _, got) => y == F.Reading(got)
    case Delivered(_, _, got) => y == F.Delivered(got)
    case Refused(error) => y == F.Refused(error)
    case _ => false
  }

  predicate SameRead(x: C.Call, y: F.Call) {
    && x.ReadCall? && y.ReadCall? && x.b == y.b && x.k == y.k && IsId(x.b) && IsId(x.k)
    && SameReadPhase(x.read, y.read)
  }

  lemma NothingWritten(c: C.State, c': C.State, f: F.State, f': F.State)
    requires SameFiles(c, f) && c'.data == c.data && f'.root == f.root && f'.files == f.files
    requires f'.memRep == c'.claimed
    ensures SameFiles(c', f')
  {
    forall b: string, k: string ensures SameName(c', f', b, k) {
      assert SameName(c, f, b, k);
    }
  }

  lemma ClaimIsClaim(c: C.State, i: nat, f: F.State, j: nat)
    requires SameFiles(c, f) && C.InPhase(c, i, C.Claiming) && j < |f.calls|
    requires SameWrite(c.cipher, c.calls[i], f.calls[j])
    requires c.calls[i].b in c.claimed && c.calls[i].k !in c.claimed[c.calls[i].b]
    ensures SameFiles(C.WithClaim(c, i), F.NextWrite(f, j, 0))
    ensures SameWrite(c.cipher, C.WithClaim(c, i).calls[i], F.NextWrite(f, j, 0).calls[j])
  {
    NothingWritten(c, C.WithClaim(c, i), f, F.NextWrite(f, j, 0));
  }

  lemma RefusalIsRefusal(c: C.State, i: nat, f: F.State, j: nat, error: StoreError)
    requires SameFiles(c, f) && C.InPhase(c, i, C.Claiming) && j < |f.calls|
    requires SameWrite(c.cipher, c.calls[i], f.calls[j])
    ensures var f' := F.WithCall(f, j, f.calls[j].(write := F.Ended(Some(error))));
      && SameFiles(C.WithRefusal(c, i, error), f')
      && SameWrite(c.cipher, C.WithRefusal(c, i, error).calls[i], f'.calls[j])
  {
    NothingWritten(c, C.WithRefusal(c, i, error), f, F.WithCall(f, j, f.calls[j].(write := F.Ended(Some(error)))));
  }

  lemma ClaimingIsClaim(c: C.State, i: nat, f: F.State, j: nat)
    requires SameFiles(c, f) && C.InPhase(c, i, C.Claiming) && j < |f.calls|
    requires SameWrite(c.cipher, c.calls[i], f.calls[j])
    ensures F.CanWrite(f, j) && SameFiles(C.NextClaiming(c, i), F.NextWrite(f, j, 0))
    ensures SameWrite(c.cipher, C.NextClaiming(c, i).calls[i], F.NextWrite(f, j, 0).calls[j])
  {
    var x := c.calls[i];
    if x.b in c.claimed && x.k !in c.claimed[x.b] {
      ClaimIsClaim(c, i, f, j);
    } else {
      RefusalIsRefusal(c, i, f, j, BucketDoesNotExist(x.b));
      RefusalIsRefusal(c, i, f, j, ObjectAlreadyExists(x.k));
    }
  }

  /** Writing one accepted name's file leaves every other name's. */
  lemma OneFileWritten(c: C.State, c': C.State, f: F.State, f': F.State, b: string, k: string, file: seq<byte>)
    requires SameFiles(c, f) && IsId(b) && IsId(k) && b in c.data
    requires c'.data == Put(c.data, b, k, file) && c'.claimed == c.claimed
    requires f'.root == f.root && f'.memRep == f.memRep && f'.files == f.files[RootKey(f.root, b, k) := file]
    ensures SameFiles(c', f')
  {
    forall x: string, y: string ensures SameName(c', f', x, y) {
      assert SameName(c, f, x, y);
      if IsId(x) && IsId(y) {
        KeyPathsDiffer(f.root, x, y, b, k);
      }
    }
  }

  lemma CreatingIsCreate(c: C.State, i: nat, f: F.State, j: nat)
    requires SameFiles(c, f) && C.InPhase(c, i, C.Creating) && c.calls[i].b in c.data && j < |f.calls|
    requires SameWrite(c.cipher, c.calls[i], f.calls[j])
    ensures F.CanWrite(f, j) && SameFiles(C.NextCreating(c, i), F.NextWrite(f, j, 0))
    ensures SameWrite(c.cipher, C.NextCreating(c, i).calls[i], F.NextWrite(f, j, 0).calls[j])
  {
    OneFileWritten(c, C.NextCreating(c, i), f, F.NextWrite(f, j, 0), c.calls[i].b, c.calls[i].k, []);
  }

  lemma SameTails(head: seq<byte>, a: seq<byte>, b: seq<byte>)
    requires head + a == head + b
    ensures a == b
  {
    assert a == (head + a)[|head|..] && b == (head + b)[|head|..];
  }

  /** The piece that the stream makes of the next stretch of plaintext is the next stretch of ciphertext. */
  lemma PieceIsSlice(cipher: Cipher, key: seq<byte>, plain: seq<byte>, from: nat, upTo: nat)
    requires from <= upTo <= |plain|
    ensures Keyed(cipher, key, from, plain[from..upTo]) == Encrypt(cipher, key, plain)[from..upTo]
  {
    A.PieceExtends(cipher, key, plain, from, upTo);
    var sealed := Encrypt(cipher, key, plain);
    assert sealed[..upTo] == sealed[..from] + sealed[from..upTo];
    SameTails(sealed[..from], Keyed(cipher, key, from, plain[from..upTo]), sealed[from..upTo]);
  }

  lemma CopyingIsCopy(c: C.State, i: nat, f: F.State, j: nat, amount: nat)
    requires SameFiles(c, f) && C.InPhase(c, i, C.Copying) && Has(c.data, c.calls[i].b, c.calls[i].k)
    requires c.calls[i].copied <= |c.calls[i].plain| && j < |f.calls|
    requires SameWrite(c.cipher, c.calls[i], f.calls[j])
    ensures F.CanWrite(f, j) && SameFiles(C.NextCopying(c, i, amount), F.NextWrite(f, j, amount))
    ensures SameWrite(c.cipher, C.NextCopying(c, i, amount).calls[i], F.NextWrite(f, j, amount).calls[j])
  {
    var x := c.calls[i];
    assert SameName(c, f, x.b, x.k);
    var c', f' := C.NextCopying(c, i, amount), F.NextWrite(f, j, amount);
    if x.copied < |x.plain| {
      PieceIsSlice(c.cipher, x.key.key, x.plain, x.copied, C.UpTo(x, amount));
      OneFileWritten(c, c', f, f', x.b, x.k, c'.data[x.b][x.k]);
    } else {
      NothingWritten(c, c', f, f');
    }
  }

  /** Looking the name up, opening the file and reading a piece of it. */
  lemma ReadingIsRead(c: C.State, i: nat, f: F.State, j: nat, amount: nat)
    requires SameFiles(c, f) && c.backend.Files? && C.CanRead(c, i) && j < |f.calls|
    requires SameRead(c.calls[i], f.calls[j])
    ensures F.CanRead(f, j) && SameReadPhase(C.ReadMoved(c, i, amount), F.ReadMoved(f, j, amount))
  {
    assert SameName(c, f, c.calls[i].b, c.calls[i].k);
  }

  /** The last step of NewBucket is that of the file storage. */
  lemma BucketIsBucket(c: C.State, i: nat, f: F.State)
    requires SameFiles(c, f) && C.CanBucket(c, i) && c.calls[i].bucket.ForData? && C.BucketOk(c, c.calls[i].b)
    requires IsId(c.calls[i].b)
    ensures SameFiles(C.NextDataBucket(c, i), F.Next(f, F.NewBucket(c.calls[i].b)))
  {
    var c', f' := C.NextDataBucket(c, i), F.Next(f, F.NewBucket(c.calls[i].b));
    forall b: string, k: string ensures SameName(c', f', b, k) {
      assert SameName(c, f, b, k);
    }
  }
}
