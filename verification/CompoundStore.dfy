/** The compound store (storeend.go) refines one map of objects. */
module CompoundStores {
  import opened Common
  import opened Buckets
  import opened Ofb
  import opened MemoryStores
  import ObjectMap

  type Objects = ObjectMap.Objects

  /** Within a bucket, metadata and keys are there for the same objects; contents may be missing. */
  ghost predicate BucketAligned(meta: map<string, Metadata>, keys: map<string, EncryptionKey>,
                                data: map<string, seq<byte>>)
  {
    && meta.Keys == keys.Keys
    && data.Keys <= meta.Keys
    && forall k :: k in keys ==> ValidKeyLength(keys[k].key)
  }

  /** The three stores agree on the buckets, and every bucket is aligned. */
  ghost predicate Aligned(meta: Buckets<Metadata>, keys: Buckets<EncryptionKey>, data: Buckets<seq<byte>>) {
    && meta.Keys == keys.Keys == data.Keys
    && forall b :: b in meta ==> BucketAligned(meta[b], keys[b], data[b])
  }

  ghost function ViewBucket(cipher: Cipher, meta: map<string, Metadata>, keys: map<string, EncryptionKey>,
                            data: map<string, seq<byte>>): map<string, ObjectMap.Entry>
    requires meta.Keys == keys.Keys
  {
    map k | k in meta ::
      ObjectMap.Entry(meta[k], if k in data then Some(Encrypt(cipher, keys[k].key, data[k])) else None)
  }

  /** The single map the three stores stand for. */
  ghost function View(cipher: Cipher, meta: Buckets<Metadata>, keys: Buckets<EncryptionKey>, data: Buckets<seq<byte>>):
    Objects
    requires Aligned(meta, keys, data)
  {
    map b | b in meta :: ViewBucket(cipher, meta[b], keys[b], data[b])
  }

  /** Opening what was sealed: decryption is encryption under the same key. */
  lemma Unseal(cipher: Cipher, key: seq<byte>, plain: seq<byte>)
    ensures Encrypt(cipher, key, Encrypt(cipher, key, plain)) == plain
  {
    KeyedTwice(cipher, key, 0, plain, |plain|);
    assert Encrypt(cipher, key, plain)[..|plain|] == Encrypt(cipher, key, plain);
    assert plain[..|plain|] == plain;
  }

  /** Only one bucket changed: the view changes there and nowhere else. */
  lemma OneBucketChanged(cipher: Cipher, meta: Buckets<Metadata>, keys: Buckets<EncryptionKey>,
                         data: Buckets<seq<byte>>, b: string, metaB: map<string, Metadata>,
                         keysB: map<string, EncryptionKey>, dataB: map<string, seq<byte>>)
    requires Aligned(meta, keys, data) && b in meta && BucketAligned(metaB, keysB, dataB)
    ensures Aligned(meta[b := metaB], keys[b := keysB], data[b := dataB])
    ensures View(cipher, meta[b := metaB], keys[b := keysB], data[b := dataB]) ==
            View(cipher, meta, keys, data)[b := ViewBucket(cipher, metaB, keysB, dataB)]
  {
    var left := View(cipher, meta[b := metaB], keys[b := keysB], data[b := dataB]);
    var right := View(cipher, meta, keys, data)[b := ViewBucket(cipher, metaB, keysB, dataB)];
    assert left.Keys == right.Keys;
    forall x | x in left ensures left[x] == right[x] {
      if x != b {
        assert left[x] == ViewBucket(cipher, meta[x], keys[x], data[x]);
      }
    }
  }

  /** A new object in a bucket, with or without contents. */
  lemma BucketGains(cipher: Cipher, meta: map<string, Metadata>, keys: map<string, EncryptionKey>,
                    data: map<string, seq<byte>>, k: string, m: Metadata, key: EncryptionKey, plain: seq<byte>)
    requires BucketAligned(meta, keys, data) && k !in meta && ValidKeyLength(key.key)
    ensures BucketAligned(meta[k := m], keys[k := key], data)
    ensures BucketAligned(meta[k := m], keys[k := key], data[k := Encrypt(cipher, key.key, plain)])
    ensures ViewBucket(cipher, meta[k := m], keys[k := key], data) ==
            ViewBucket(cipher, meta, keys, data)[k := ObjectMap.Entry(m, None)]
    ensures ViewBucket(cipher, meta[k := m], keys[k := key], data[k := Encrypt(cipher, key.key, plain)]) ==
            ViewBucket(cipher, meta, keys, data)[k := ObjectMap.Entry(m, Some(plain))]
  {
    Unseal(cipher, key.key, plain);
  }

  lemma FirstWriteRefines(cipher: Cipher, meta: Buckets<Metadata>, keys: Buckets<EncryptionKey>,
                          data: Buckets<seq<byte>>, b: string, k: string, m: Metadata, key: EncryptionKey,
                          plain: seq<byte>, fails: bool)
    requires Aligned(meta, keys, data) && b in meta && k !in meta[b] && ValidKeyLength(key.key)
    ensures
      var data' := if fails then data else Put(data, b, k, Encrypt(cipher, key.key, plain));
      && Aligned(Put(meta, b, k, m), Put(keys, b, k, key), data')
      && View(cipher, Put(meta, b, k, m), Put(keys, b, k, key), data') ==
         ObjectMap.After(View(cipher, meta, keys, data), ObjectMap.Write(b, k, m, key, plain, fails))
  {
    BucketGains(cipher, meta[b], keys[b], data[b], k, m, key, plain);
    var dataB := if fails then data[b] else data[b][k := Encrypt(cipher, key.key, plain)];
    OneBucketChanged(cipher, meta, keys, data, b, meta[b][k := m], keys[b][k := key], dataB);
    assert data[b := data[b]] == data;
  }

  lemma RepeatedWriteRefines(cipher: Cipher, meta: Buckets<Metadata>, keys: Buckets<EncryptionKey>,
                             data: Buckets<seq<byte>>, b: string, k: string, m: Metadata, key: EncryptionKey,
                             plain: seq<byte>, fails: bool)
    requires Aligned(meta, keys, data) && b in meta && k in meta[b]
    ensures
      && Aligned(Put(meta, b, k, m), keys, data)
      && View(cipher, Put(meta, b, k, m), keys, data) ==
         ObjectMap.After(View(cipher, meta, keys, data), ObjectMap.Write(b, k, m, key, plain, fails))
  {
    assert meta[b][k := m].Keys == meta[b].Keys;
    OneBucketChanged(cipher, meta, keys, data, b, meta[b][k := m], keys[b], data[b]);
    assert data[b := data[b]] == data && keys[b := keys[b]] == keys;
    assert ViewBucket(cipher, meta[b][k := m], keys[b], data[b]) ==
           ViewBucket(cipher, meta[b], keys[b], data[b])
             [k := ObjectMap.Entry(m, ViewBucket(cipher, meta[b], keys[b], data[b])[k].contents)];
  }

  /** Whatever comes of it, a write changes the single map as it should. */
  lemma WriteRefines(cipher: Cipher, meta: Buckets<Metadata>, keys: Buckets<EncryptionKey>, data: Buckets<seq<byte>>,
                     keys': Buckets<EncryptionKey>, data': Buckets<seq<byte>>, op: ObjectMap.Operation)
    requires op.Write? && Aligned(meta, keys, data) && op.bucketId in meta
    requires
      if op.keyId in meta[op.bucketId] then keys' == keys && data' == data
      else
        && ValidKeyLength(op.key.key) && keys' == Put(keys, op.bucketId, op.keyId, op.key)
        && data' == (if op.fails then data else Put(data, op.bucketId, op.keyId, Encrypt(cipher, op.key.key, op.plain)))
    ensures
      var meta' := Put(meta, op.bucketId, op.keyId, op.meta);
      && Aligned(meta', keys', data')
      && View(cipher, meta', keys', data') == ObjectMap.After(View(cipher, meta, keys, data), op)
  {
    if op.keyId in meta[op.bucketId] {
      RepeatedWriteRefines(cipher, meta, keys, data, op.bucketId, op.keyId, op.meta, op.key, op.plain, op.fails);
    } else {
      FirstWriteRefines(cipher, meta, keys, data, op.bucketId, op.keyId, op.meta, op.key, op.plain, op.fails);
    }
  }

  lemma BucketLoses(cipher: Cipher, meta: map<string, Metadata>, keys: map<string, EncryptionKey>,
                    data: map<string, seq<byte>>, k: string)
    requires BucketAligned(meta, keys, data)
    ensures BucketAligned(meta - {k}, keys - {k}, data - {k})
    ensures ViewBucket(cipher, meta - {k}, keys - {k}, data - {k}) == ViewBucket(cipher, meta, keys, data) - {k}
  {
  }

  lemma DropNothing<V>(m: Buckets<V>, b: string, k: string)
    requires b in m && k !in m[b]
    ensures Drop(m, b, k) == m
  {
    assert m[b] - {k} == m[b];
  }

  lemma DeleteRefines(cipher: Cipher, meta: Buckets<Metadata>, keys: Buckets<EncryptionKey>,
                      data: Buckets<seq<byte>>, b: string, k: string)
    requires Aligned(meta, keys, data) && Has(meta, b, k)
    ensures Aligned(Drop(meta, b, k), Drop(keys, b, k), Drop(data, b, k))
    ensures View(cipher, Drop(meta, b, k), Drop(keys, b, k), Drop(data, b, k)) ==
            ObjectMap.After(View(cipher, meta, keys, data), ObjectMap.Delete(b, k))
  {
    BucketLoses(cipher, meta[b], keys[b], data[b], k);
    OneBucketChanged(cipher, meta, keys, data, b, meta[b] - {k}, keys[b] - {k}, data[b] - {k});
  }

  lemma NewBucketRefines(cipher: Cipher, meta: Buckets<Metadata>, keys: Buckets<EncryptionKey>,
                         data: Buckets<seq<byte>>, b: string)
    requires Aligned(meta, keys, data) && b !in meta
    ensures Aligned(meta[b := map[]], keys[b := map[]], data[b := map[]])
    ensures View(cipher, meta[b := map[]], keys[b := map[]], data[b := map[]]) ==
            ObjectMap.After(View(cipher, meta, keys, data), ObjectMap.NewBucket(b))
  {
    assert ViewBucket(cipher, map[], map[], map[]) == map[];
  }

  lemma DeleteBucketRefines(cipher: Cipher, meta: Buckets<Metadata>, keys: Buckets<EncryptionKey>,
                            data: Buckets<seq<byte>>, b: string)
    requires Aligned(meta, keys, data)
    ensures Aligned(meta - {b}, keys - {b}, data - {b})
    ensures View(cipher, meta - {b}, keys - {b}, data - {b}) ==
            ObjectMap.After(View(cipher, meta, keys, data), ObjectMap.DeleteBucket(b))
  {
  }

  function ReplyOf(err: Option<StoreError>): ObjectMap.Reply {
    if err.None? then ObjectMap.Done else ObjectMap.Failed(err.value)
  }

  /** What the store demands of a caller: a write goes to a bucket that exists, and a new object comes with a key of a
      known length. */
  predicate Permitted(o: Objects, op: ObjectMap.Operation) {
    op.Write? ==> op.bucketId in o && (op.keyId !in o[op.bucketId] ==> ValidKeyLength(op.key.key))
  }

  class CompoundStore {
    const cipher: Cipher
    const metadata: MetadataStore
    const security: MemorySecurityStore
    const storage: MemoryStorage

    constructor (cipher: Cipher)
      ensures fresh(metadata) && fresh(security) && fresh(storage)
      ensures this.cipher == cipher && Valid() && Objects() == map[]
    {
      this.cipher := cipher;
      metadata := new MetadataStore();
      security := new MemorySecurityStore();
      storage := new MemoryStorage();
    }

    ghost predicate Valid()
      reads this, metadata, security, storage
    {
      Aligned(metadata.i, security.i, storage.i)
    }

    ghost function Objects(): Objects
      requires Valid()
      reads this, metadata, security, storage
    {
      View(cipher, metadata.i, security.i, storage.i)
    }

    method NewBucket(bucket: string) returns (err: Option<StoreError>)
      requires Valid()
      modifies metadata, security, storage
      ensures Valid() && Objects() == ObjectMap.After(old(Objects()), ObjectMap.NewBucket(bucket))
      ensures ReplyOf(err) == ObjectMap.ReplyTo(old(Objects()), ObjectMap.NewBucket(bucket))
      ensures err == if bucket in old(Objects()) then Some(BucketAlreadyExists(bucket)) else None
      ensures Objects() == if err.None? then old(Objects())[bucket := map[]] else old(Objects())
    {
      if bucket !in metadata.i {
        NewBucketRefines(cipher, metadata.i, security.i, storage.i, bucket);
      }
      err := metadata.NewBucket(bucket);
      if err.Some? {
        return;
      }
      err := security.NewBucket(bucket);
      if err.Some? {
        return;
      }
      err := storage.NewBucket(bucket);
      if err.Some? {
        return;
      }
      return None;
    }

    /** The bucket must exist, and the key of a new object must be one the block cipher takes. */
    method Write(bucketId: string, keyId: string, meta: Metadata, key: EncryptionKey, data: Reader)
      returns (err: Option<StoreError>)
      requires Valid() && bucketId in Objects() && (keyId !in Objects()[bucketId] ==> ValidKeyLength(key.key))
      modifies metadata, security, storage, data
      ensures var op := ObjectMap.Write(bucketId, keyId, meta, key, old(Flatten(data.chunks)), data.fails);
        && Valid() && Objects() == ObjectMap.After(old(Objects()), op)
        && ReplyOf(err) == ObjectMap.ReplyTo(old(Objects()), op)
      ensures err == if keyId in old(Objects())[bucketId] then Some(ObjectAlreadyExists(keyId))
                     else if data.fails then Some(ReaderFailed) else None
      ensures Has(Objects(), bucketId, keyId) && Objects()[bucketId][keyId].meta == meta
      ensures Objects()[bucketId][keyId].contents ==
              if keyId in old(Objects())[bucketId] then old(Objects())[bucketId][keyId].contents
              else if data.fails then None else Some(old(Flatten(data.chunks)))
    {
      ghost var op := ObjectMap.Write(bucketId, keyId, meta, key, Flatten(data.chunks), data.fails);
      ghost var meta0, keys0, data0 := metadata.i, security.i, storage.i;
      metadata.Write(bucketId, keyId, meta);
      err := security.WriteKey(bucketId, keyId, key);
      if err.Some? {
        WriteRefines(cipher, meta0, keys0, data0, security.i, storage.i, op);
        return;
      }
      var reader := CreateStreamReader(cipher, key.key, data);
      err := storage.Write(bucketId, keyId, reader);
      WriteRefines(cipher, meta0, keys0, data0, security.i, storage.i, op);
      if err.Some? {
        return;
      }
      return None;
    }

    /** On success the reader delivers the plaintext. */
    method Read(bucketId: string, keyId: string) returns (r: Result<(Metadata, StreamReader), StoreError>)
      requires Valid()
      ensures r.Ok? ==>
        && fresh(r.value.1.stream) && fresh(r.value.1.source) && r.value.1.stream.Valid() && !r.value.1.source.fails
        && ObjectMap.Found(r.value.0, r.value.1.Remaining()) ==
           ObjectMap.ReplyTo(Objects(), ObjectMap.Read(bucketId, keyId))
      ensures r.Err? ==> ObjectMap.Failed(r.error) == ObjectMap.ReplyTo(Objects(), ObjectMap.Read(bucketId, keyId))
      ensures r.Ok? <==> Has(Objects(), bucketId, keyId) && Objects()[bucketId][keyId].contents.Some?
      ensures r.Ok? ==> Objects()[bucketId][keyId] == ObjectMap.Entry(r.value.0, Some(r.value.1.Remaining()))
      ensures r.Err? ==>
                r.error == if Has(Objects(), bucketId, keyId) then ObjectDoesNotExist(keyId) else ThereIsNoBucket
    {
      var meta := metadata.Read(bucketId, keyId);
      if meta.Err? {
        return Err(meta.error);
      }
      var key := security.ReadKey(bucketId, keyId);
      match key {
        case Err(e) =>
          return Err(e);
        case Ok(found) =>
          var data := storage.Read(bucketId, keyId);
          if data.Err? {
            return Err(data.error);
          }
          var reader: StreamReader? := CreateStreamReader(cipher, found.key, data.value);
          return Ok((meta.value, reader));
      }
    }

    method Delete(bucketId: string, keyId: string) returns (err: Option<StoreError>)
      requires Valid()
      modifies metadata, security, storage
      ensures Valid() && Objects() == ObjectMap.After(old(Objects()), ObjectMap.Delete(bucketId, keyId))
      ensures ReplyOf(err) == ObjectMap.ReplyTo(old(Objects()), ObjectMap.Delete(bucketId, keyId))
      ensures err == if bucketId !in old(Objects()) then Some(BucketDoesNotExist(bucketId))
                     else if keyId !in old(Objects())[bucketId] || old(Objects())[bucketId][keyId].contents.None?
                     then Some(ObjectDoesNotExist(keyId)) else None
      ensures !Has(Objects(), bucketId, keyId)
    {
      if Has(metadata.i, bucketId, keyId) {
        DeleteRefines(cipher, metadata.i, security.i, storage.i, bucketId, keyId);
        if keyId !in storage.i[bucketId] {
          DropNothing(storage.i, bucketId, keyId);
        }
      }
      err := metadata.Delete(bucketId, keyId);
      if err.Some? {
        return;
      }
      err := security.DeleteKey(bucketId, keyId);
      if err.Some? {
        return;
      }
      err := storage.Delete(bucketId, keyId);
      if err.Some? {
        return;
      }
      return None;
    }

    method DeleteBucket(bucket: string) returns (err: Option<StoreError>)
      requires Valid()
      modifies metadata, security, storage
      ensures Valid() && Objects() == ObjectMap.After(old(Objects()), ObjectMap.DeleteBucket(bucket))
      ensures ReplyOf(err) == ObjectMap.ReplyTo(old(Objects()), ObjectMap.DeleteBucket(bucket))
      ensures err == if bucket in old(Objects()) then None else Some(BucketDoesNotExist(bucket))
      ensures Objects() == old(Objects()) - {bucket}
    {
      DeleteBucketRefines(cipher, metadata.i, security.i, storage.i, bucket);
      err := metadata.DeleteBucket(bucket);
      if err.Some? {
        assert storage.i - {bucket} == storage.i && security.i - {bucket} == security.i;
        return;
      }
      err := security.DeleteBucket(bucket);
      if err.Some? {
        return;
      }
      err := storage.DeleteBucket(bucket);
      if err.Some? {
        return;
      }
      return None;
    }

    method ListBuckets() returns (names: seq<string>)
      requires Valid()
      ensures forall b :: b in names <==> b in Objects()
      ensures |names| == |Objects().Keys|
    {
      names := metadata.ListBuckets();
      assert metadata.i.Keys == Objects().Keys;
    }

    /** Any sequence of calls, each made when the one before has returned, gets the replies of the single map and
        leaves the three stores standing for the map it leads to. */
    method Serve(ops: seq<ObjectMap.Operation>) returns (replies: seq<ObjectMap.Reply>)
      requires Valid()
      requires forall n :: 0 <= n < |ops| ==> Permitted(ObjectMap.AfterAll(Objects(), ops[..n]), ops[n])
      modifies metadata, security, storage
      ensures Valid() && Objects() == ObjectMap.AfterAll(old(Objects()), ops)
      ensures replies == ObjectMap.Replies(old(Objects()), ops)
    {
      replies := [];
      for n := 0 to |ops|
        invariant Valid() && Objects() == ObjectMap.AfterAll(old(Objects()), ops[..n])
        invariant replies == ObjectMap.Replies(old(Objects()), ops[..n])
      {
        assert ops[..n + 1][..n] == ops[..n];
        var reply := Call(ops[n]);
        replies := replies + [reply];
      }
      assert ops[..|ops|] == ops;
    }

    method ReadToEnd(bucketId: string, keyId: string) returns (reply: ObjectMap.Reply)
      requires Valid()
      ensures reply == ObjectMap.ReplyTo(Objects(), ObjectMap.Read(bucketId, keyId))
      ensures Has(Objects(), bucketId, keyId) ==>
                var entry := Objects()[bucketId][keyId];
                reply == if entry.contents.Some? then ObjectMap.Found(entry.meta, entry.contents.value)
                         else ObjectMap.Failed(ObjectDoesNotExist(keyId))
    {
      var r := Read(bucketId, keyId);
      if r.Err? {
        return ObjectMap.Failed(r.error);
      }
      var plain, _ := ReadAll(r.value.1);
      return ObjectMap.Found(r.value.0, plain);
    }

    method WriteWhole(bucketId: string, keyId: string, meta: Metadata, key: EncryptionKey, plain: seq<byte>,
                      fails: bool)
      returns (reply: ObjectMap.Reply)
      requires Valid() && bucketId in Objects() && (keyId !in Objects()[bucketId] ==> ValidKeyLength(key.key))
      modifies metadata, security, storage
      ensures var op := ObjectMap.Write(bucketId, keyId, meta, key, plain, fails);
        Valid() && Objects() == ObjectMap.After(old(Objects()), op) && reply == ObjectMap.ReplyTo(old(Objects()), op)
    {
      var data := new Reader([plain], fails);
      FlattenOne(plain);
      var err := Write(bucketId, keyId, meta, key, data);
      return ReplyOf(err);
    }

    method Call(op: ObjectMap.Operation) returns (reply: ObjectMap.Reply)
      requires Valid() && Permitted(Objects(), op)
      modifies metadata, security, storage
      ensures Valid() && Objects() == ObjectMap.After(old(Objects()), op)
      ensures reply == ObjectMap.ReplyTo(old(Objects()), op)
    {
      match op {
        case NewBucket(b) =>
          var err := NewBucket(b);
          reply := ReplyOf(err);
        case Write(b, k, meta, key, plain, fails) =>
          reply := WriteWhole(b, k, meta, key, plain, fails);
        case Read(b, k) =>
          reply := ReadToEnd(b, k);
        case Delete(b, k) =>
          var err := Delete(b, k);
          reply := ReplyOf(err);
        case DeleteBucket(b) =>
          var err := DeleteBucket(b);
          reply := ReplyOf(err);
      }
    }

    /** Once a Write has reported success, which it does exactly for a free name and a reader that does not fail, a Read
        finds its metadata and the whole of its plaintext, until the name is written again or deleted. */
    method WriteThenRead(bucketId: string, keyId: string, meta: Metadata, key: EncryptionKey, data: Reader,
                         later: seq<ObjectMap.Operation>)
      returns (err: Option<StoreError>, found: ObjectMap.Reply)
      requires Valid() && bucketId in Objects() && (keyId !in Objects()[bucketId] ==> ValidKeyLength(key.key))
      requires
        var write := ObjectMap.Write(bucketId, keyId, meta, key, Flatten(data.chunks), data.fails);
        var o := ObjectMap.After(Objects(), write);
        forall n :: 0 <= n < |later| ==> Permitted(ObjectMap.AfterAll(o, later[..n]), later[n])
      modifies metadata, security, storage, data
      ensures Valid()
      ensures err.None? <==> keyId !in old(Objects())[bucketId] && !data.fails
      ensures err.None? && (forall n :: 0 <= n < |later| ==> !ObjectMap.Touches(later[n], bucketId, keyId)) ==>
                found == ObjectMap.Found(meta, old(Flatten(data.chunks)))
    {
      err := Write(bucketId, keyId, meta, key, data);
      ghost var written := Objects();
      var _ := Serve(later);
      found := ReadToEnd(bucketId, keyId);
      if err.None? && forall n :: 0 <= n < |later| ==> !ObjectMap.Touches(later[n], bucketId, keyId) {
        ObjectMap.UntouchedStays(written, later, bucketId, keyId);
      }
    }

    /** An upload as the router makes it, with a key of 32 bytes, to a bucket that is there and a free name: it succeeds
        if its reader does, and is read back whole. */
    method UploadAndRead(bucketId: string, keyId: string, meta: Metadata, key: EncryptionKey, data: Reader)
      returns (err: Option<StoreError>, found: ObjectMap.Reply)
      requires Valid() && bucketId in Objects() && keyId !in Objects()[bucketId] && |key.key| == 32
      modifies metadata, security, storage, data
      ensures Valid()
      ensures !data.fails ==> err == None && found == ObjectMap.Found(meta, old(Flatten(data.chunks)))
      ensures data.fails ==> err == Some(ReaderFailed) && found == ObjectMap.Failed(ObjectDoesNotExist(keyId))
    {
      err := Write(bucketId, keyId, meta, key, data);
      found := ReadToEnd(bucketId, keyId);
    }
  }
}
