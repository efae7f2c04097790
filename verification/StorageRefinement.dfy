/** File storage and in-memory storage side by side: run on the same calls, they give the same answers
    (storage/fs.go against storage/memory.go). */
module StorageRefinement {
  import opened Common
  import opened Buckets
  import opened Ofb
  import opened Identifiers
  import opened MemoryStores
  import opened FsStores

  datatype StorageCall =
    | NewBucket(bucket: string)
    | Write(bucket: string, key: string, chunks: seq<seq<byte>>)
    | Read(bucket: string, key: string)
    | Delete(bucket: string, key: string)
    | DeleteBucket(bucket: string)

  datatype StorageReply = Done(err: Option<StoreError>) | Got(data: seq<byte>)

  predicate Accepted(call: StorageCall) {
    IsId(call.bucket) && (call.Write? || call.Read? || call.Delete? ==> IsId(call.key))
  }

  /** What a call leaves in the storage; a Write stores what the stream makes of its data. */
  function After(i: Buckets<seq<byte>>, call: StorageCall, cipher: Cipher, key: seq<byte>): Buckets<seq<byte>> {
    match call
    case NewBucket(b) => if b in i then i else i[b := map[]]
    case Write(b, k, chunks) =>
      if b in i && k !in i[b] then Put(i, b, k, Encrypt(cipher, key, Flatten(chunks))) else i
    case Read(_, _) => i
    case Delete(b, k) => if Has(i, b, k) then Drop(i, b, k) else i
    case DeleteBucket(b) => i - {b}
  }

  function Missing(i: Buckets<seq<byte>>, b: string, k: string): StorageReply {
    Done(Some(if b in i then ObjectDoesNotExist(k) else BucketDoesNotExist(b)))
  }

  function Answer(i: Buckets<seq<byte>>, call: StorageCall): StorageReply {
    match call
    case NewBucket(b) => Done(if b in i then Some(BucketAlreadyExists(b)) else None)
    case Write(b, k, _) =>
      Done(if b !in i then Some(BucketDoesNotExist(b)) else if k in i[b] then Some(ObjectAlreadyExists(k)) else None)
    case Read(b, k) => if Has(i, b, k) then Got(i[b][k]) else Missing(i, b, k)
    case Delete(b, k) => if Has(i, b, k) then Done(None) else Missing(i, b, k)
    case DeleteBucket(b) => Done(if b in i then None else Some(BucketDoesNotExist(b)))
  }

  function AfterAll(i: Buckets<seq<byte>>, calls: seq<StorageCall>, cipher: Cipher, key: seq<byte>): Buckets<seq<byte>>
  {
    if calls == [] then i
    else After(AfterAll(i, calls[..|calls| - 1], cipher, key), calls[|calls| - 1], cipher, key)
  }

  function Answers(i: Buckets<seq<byte>>, calls: seq<StorageCall>, cipher: Cipher, key: seq<byte>): seq<StorageReply> {
    if calls == [] then []
    else
      var before := calls[..|calls| - 1];
      Answers(i, before, cipher, key) + [Answer(AfterAll(i, before, cipher, key), calls[|calls| - 1])]
  }

  predicate Removes(call: StorageCall, b: string, k: string) {
    match call
    case Delete(x, y) => x == b && y == k
    case DeleteBucket(x) => x == b
    case _ => false
  }

  lemma {:induction false} UnremovedStays(i: Buckets<seq<byte>>, calls: seq<StorageCall>, cipher: Cipher,
                                          key: seq<byte>, b: string, k: string)
    requires Has(i, b, k) && forall c :: c in calls ==> !Removes(c, b, k)
    ensures Has(AfterAll(i, calls, cipher, key), b, k) && AfterAll(i, calls, cipher, key)[b][k] == i[b][k]
  {
    if calls != [] {
      assert !Removes(calls[|calls| - 1], b, k);
      UnremovedStays(i, calls[..|calls| - 1], cipher, key, b, k);
    }
  }

  lemma PutAddsEntry(i: Buckets<seq<byte>>, b: string, k: string, data: seq<byte>)
    requires b in i && k !in i[b]
    ensures Put(i, b, k, data) != i
  {
    assert Has(Put(i, b, k, data), b, k) && !Has(i, b, k);
  }

  class Pair {
    const fs: FsStorage
    const mem: MemoryStorage
    const cipher: Cipher
    const key: seq<byte>

    constructor (fs: FsStorage, mem: MemoryStorage, cipher: Cipher, key: seq<byte>)
      requires ValidKeyLength(key) && fs.Valid() && fs.Contents() == mem.i
      ensures Same() && this.fs == fs && this.mem == mem && ValidKeyLength(this.key)
    {
      this.fs, this.mem, this.cipher, this.key := fs, mem, cipher, key;
    }

    /** The files hold exactly what the in-memory storage holds. */
    ghost predicate Same()
      reads this, fs, fs.disk, mem
    {
      fs.Valid() && fs.Contents() == mem.i
    }

    method WriteFile(b: string, k: string, chunks: seq<seq<byte>>, fails: bool) returns (err: Option<StoreError>)
      requires fs.Valid() && IsId(b) && IsId(k) && ValidKeyLength(key)
      modifies fs, fs.disk
      ensures fs.Valid()
      ensures err == if b !in old(fs.Contents()) then Some(BucketDoesNotExist(b))
                     else if k in old(fs.Contents())[b] then Some(ObjectAlreadyExists(k))
                     else if fails then Some(ReaderFailed) else None
      ensures fs.Contents() == if b in old(fs.Contents()) && k !in old(fs.Contents())[b]
                               then Put(old(fs.Contents()), b, k, Encrypt(cipher, key, Flatten(chunks)))
                               else old(fs.Contents())
    {
      var source := new Reader(chunks, fails);
      var reader := CreateStreamReader(cipher, key, source);
      err := fs.Write(b, k, reader);
    }

    method WriteMemory(b: string, k: string, chunks: seq<seq<byte>>, fails: bool) returns (err: Option<StoreError>)
      requires ValidKeyLength(key)
      modifies mem
      ensures err == if b !in old(mem.i) then Some(BucketDoesNotExist(b))
                     else if k in old(mem.i)[b] then Some(ObjectAlreadyExists(k))
                     else if fails then Some(ReaderFailed) else None
      ensures mem.i == if err.None? then Put(old(mem.i), b, k, Encrypt(cipher, key, Flatten(chunks))) else old(mem.i)
    {
      var source := new Reader(chunks, fails);
      var reader := CreateStreamReader(cipher, key, source);
      err := mem.Write(b, k, reader);
    }

    /** With a reader that fails, both report it, and they part exactly when the write was accepted: the file storage
        keeps the object with what had arrived, the in-memory storage has nothing. */
    method WriteBoth(b: string, k: string, chunks: seq<seq<byte>>, fails: bool)
      returns (e1: Option<StoreError>, e2: Option<StoreError>)
      requires Same() && IsId(b) && IsId(k) && ValidKeyLength(key)
      modifies fs, fs.disk, mem
      ensures fs.Valid() && e1 == e2
      ensures Same() <==> !(fails && b in old(mem.i) && k !in old(mem.i)[b])
      ensures e1 == if b !in old(mem.i) then Some(BucketDoesNotExist(b))
                    else if k in old(mem.i)[b] then Some(ObjectAlreadyExists(k))
                    else if fails then Some(ReaderFailed) else None
      ensures mem.i == if e1.None? then Put(old(mem.i), b, k, Encrypt(cipher, key, Flatten(chunks))) else old(mem.i)
    {
      ghost var was := mem.i;
      e1 := WriteFile(b, k, chunks, fails);
      e2 := WriteMemory(b, k, chunks, fails);
      if b in was && k !in was[b] {
        PutAddsEntry(was, b, k, Encrypt(cipher, key, Flatten(chunks)));
      }
    }

    method ReadBoth(b: string, k: string) returns (r1: StorageReply, r2: StorageReply)
      requires Same() && IsId(b) && IsId(k) && ValidKeyLength(key)
      ensures r1 == r2
      ensures r1 == if Has(mem.i, b, k) then Got(mem.i[b][k])
                    else Done(Some(if b in mem.i then ObjectDoesNotExist(k) else BucketDoesNotExist(b)))
    {
      var f := fs.Read(b, k);
      var m := mem.Read(b, k);
      r1 := ReadReplyOf(f);
      r2 := ReadReplyOf(m);
    }

    method ReadReplyOf(r: Result<Reader, StoreError>) returns (reply: StorageReply)
      requires r.Ok? ==> !r.value.fails
      ensures reply == if r.Ok? then Got(Flatten(r.value.chunks)) else Done(Some(r.error))
    {
      if r.Err? {
        return Done(Some(r.error));
      }
      var data := [];
      var i := 0;
      while i < |r.value.chunks|
        invariant i <= |r.value.chunks|
        invariant data + Flatten(r.value.chunks[i..]) == Flatten(r.value.chunks)
      {
        AppendMiddle(data, r.value.chunks[i], Flatten(r.value.chunks[i + 1..]));
        assert r.value.chunks[i..][1..] == r.value.chunks[i + 1..];
        data := data + r.value.chunks[i];
        i := i + 1;
      }
      assert r.value.chunks[i..] == [];
      return Got(data);
    }

    method CallBoth(call: StorageCall) returns (r1: StorageReply, r2: StorageReply)
      requires Same() && Accepted(call) && ValidKeyLength(key)
      modifies fs, fs.disk, mem
      ensures Same() && r1 == r2 == Answer(old(mem.i), call)
      ensures mem.i == After(old(mem.i), call, cipher, key)
    {
      var e1, e2 := None, None;
      match call {
        case NewBucket(b) =>
          e1 := fs.NewBucket(b);
          e2 := mem.NewBucket(b);
        case Write(b, k, chunks) =>
          e1, e2 := WriteBoth(b, k, chunks, false);
        case Read(b, k) =>
          r1, r2 := ReadBoth(b, k);
          return;
        case Delete(b, k) =>
          e1 := fs.Delete(b, k);
          e2 := mem.Delete(b, k);
        case DeleteBucket(b) =>
          e1 := fs.DeleteBucket(b);
          e2 := mem.DeleteBucket(b);
      }
      return Done(e1), Done(e2);
    }

    /** Over any sequence of calls with accepted names and readers that succeed, the replies are the same and so is what
        is stored in the end. */
    method RunBoth(calls: seq<StorageCall>) returns (r1: seq<StorageReply>, r2: seq<StorageReply>)
      requires Same() && ValidKeyLength(key) && forall c :: c in calls ==> Accepted(c)
      modifies fs, fs.disk, mem
      ensures Same() && r1 == r2 == Answers(old(mem.i), calls, cipher, key)
      ensures mem.i == AfterAll(old(mem.i), calls, cipher, key)
    {
      r1, r2 := [], [];
      for n := 0 to |calls|
        invariant Same() && r1 == r2 == Answers(old(mem.i), calls[..n], cipher, key)
        invariant mem.i == AfterAll(old(mem.i), calls[..n], cipher, key)
      {
        assert calls[..n + 1][..n] == calls[..n];
        var x, y := CallBoth(calls[n]);
        r1, r2 := r1 + [x], r2 + [y];
      }
      assert calls[..|calls|] == calls;
    }

    /** Both deliver the ciphertext of what was written, whatever is written, read and deleted elsewhere meanwhile. */
    method WriteThenRead(b: string, k: string, chunks: seq<seq<byte>>, later: seq<StorageCall>)
      returns (err: Option<StoreError>, r1: StorageReply, r2: StorageReply)
      requires Same() && ValidKeyLength(key) && IsId(b) && IsId(k) && forall c :: c in later ==> Accepted(c)
      modifies fs, fs.disk, mem
      ensures Same() && r1 == r2 && (err.None? <==> b in old(mem.i) && k !in old(mem.i)[b])
      ensures err.None? && (forall c :: c in later ==> !Removes(c, b, k)) ==>
                r1 == Got(Encrypt(cipher, key, Flatten(chunks)))
    {
      var e;
      err, e := WriteBoth(b, k, chunks, false);
      ghost var written := mem.i;
      var _, _ := RunBoth(later);
      r1, r2 := ReadBoth(b, k);
      if err.None? && forall c :: c in later ==> !Removes(c, b, k) {
        UnremovedStays(written, later, cipher, key, b, k);
      }
    }
  }
}
