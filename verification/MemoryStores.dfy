/** The three in-memory stores behind the compound store: metadata/memory.go, security/memory.go, storage/memory.go.
    Every method runs under its store's mutex, so each is one atomic step. */
module MemoryStores {
  import opened Common
  import opened Buckets
  import opened Ofb

  class MetadataStore {
    var i: Buckets<Metadata>

    constructor ()
      ensures i == map[]
    {
      i := map[];
    }

    /** Overwrites. There is no check for the bucket: writing without one would store into a nil map. */
    method Write(bucketId: string, keyId: string, meta: Metadata)
      requires bucketId in i
      modifies this
      ensures i == Put(old(i), bucketId, keyId, meta)
    {
      var bucket := i[bucketId];
      bucket := bucket[keyId := meta];
      i := i[bucketId := bucket];
    }

    method Read(bucketId: string, keyId: string) returns (r: Result<Metadata, StoreError>)
      ensures r == if Has(i, bucketId, keyId) then Ok(i[bucketId][keyId]) else Err(ThereIsNoBucket)
    {
      if bucketId in i {
        if keyId in i[bucketId] {
          return Ok(i[bucketId][keyId]);
        }
      }
      return Err(ThereIsNoBucket);
    }

    method NewBucket(bucket: string) returns (err: Option<StoreError>)
      modifies this
      ensures err == if bucket in old(i) then Some(BucketAlreadyExists(bucket)) else None
      ensures i == if bucket in old(i) then old(i) else old(i)[bucket := map[]]
    {
      if bucket in i {
        return Some(BucketAlreadyExists(bucket));
      }
      i := i[bucket := map[]];
      return None;
    }

    method Delete(bucket: string, key: string) returns (err: Option<StoreError>)
      modifies this
      ensures err == if bucket !in old(i) then Some(BucketDoesNotExist(bucket))
                     else if key !in old(i)[bucket] then Some(ObjectDoesNotExist(key)) else None
      ensures i == if Has(old(i), bucket, key) then Drop(old(i), bucket, key) else old(i)
    {
      if bucket in i {
        if key !in i[bucket] {
          return Some(ObjectDoesNotExist(key));
        }
        i := i[bucket := i[bucket] - {key}];
        return None;
      }
      return Some(BucketDoesNotExist(bucket));
    }

    method DeleteBucket(bucket: string) returns (err: Option<StoreError>)
      modifies this
      ensures err == if bucket in old(i) then None else Some(BucketDoesNotExist(bucket))
      ensures i == old(i) - {bucket}
    {
      if bucket !in i {
        assert i == i - {bucket};
        return Some(BucketDoesNotExist(bucket));
      }
      i := i - {bucket};
      return None;
    }

    /** The names of the buckets, each once, in no particular order. */
    method ListBuckets() returns (names: seq<string>)
      ensures forall b :: b in names <==> b in i
      ensures |names| == |i.Keys|
    {
      names := [];
      var left := i.Keys;
      while left != {}
        invariant forall b :: b in i <==> b in names || b in left
        invariant |names| + |left| == |i.Keys|
        decreases left
      {
        var s :| s in left;
        names := names + [s];
        left := left - {s};
      }
    }
  }

  class MemorySecurityStore {
    var i: Buckets<EncryptionKey>

    constructor ()
      ensures i == map[]
    {
      i := map[];
    }

    method NewBucket(bucket: string) returns (err: Option<StoreError>)
      modifies this
      ensures err == if bucket in old(i) then Some(BucketAlreadyExists(bucket)) else None
      ensures i == if bucket in old(i) then old(i) else old(i)[bucket := map[]]
    {
      if bucket in i {
        return Some(BucketAlreadyExists(bucket));
      }
      i := i[bucket := map[]];
      return None;
    }

    /** Never replaces a key: the first write for an object wins. */
    method WriteKey(bucketId: string, keyId: string, key: EncryptionKey) returns (err: Option<StoreError>)
      modifies this
      ensures err == if bucketId !in old(i) then Some(BucketDoesNotExist(bucketId))
                     else if keyId in old(i)[bucketId] then Some(ObjectAlreadyExists(keyId)) else None
      ensures i == if err.None? then Put(old(i), bucketId, keyId, key) else old(i)
    {
      if bucketId !in i {
        return Some(BucketDoesNotExist(bucketId));
      }
      var bucket := i[bucketId];
      if keyId in bucket {
        return Some(ObjectAlreadyExists(keyId));
      }
      bucket := bucket[keyId := key];
      i := i[bucketId := bucket];
      return None;
    }

    method ReadKey(bucketId: string, keyId: string) returns (r: Result<EncryptionKey, StoreError>)
      ensures r == if bucketId !in i then Err(BucketDoesNotExist(bucketId))
                   else if keyId !in i[bucketId] then Err(ObjectDoesNotExist(keyId)) else Ok(i[bucketId][keyId])
    {
      if bucketId !in i {
        return Err(BucketDoesNotExist(bucketId));
      }
      if keyId !in i[bucketId] {
        return Err(ObjectDoesNotExist(keyId));
      }
      return Ok(i[bucketId][keyId]);
    }

    method DeleteKey(bucketId: string, keyId: string) returns (err: Option<StoreError>)
      modifies this
      ensures err == if bucketId !in old(i) then Some(BucketDoesNotExist(bucketId))
                     else if keyId !in old(i)[bucketId] then Some(ObjectDoesNotExist(keyId)) else None
      ensures i == if Has(old(i), bucketId, keyId) then Drop(old(i), bucketId, keyId) else old(i)
    {
      if bucketId !in i {
        return Some(BucketDoesNotExist(bucketId));
      }
      if keyId !in i[bucketId] {
        return Some(ObjectDoesNotExist(keyId));
      }
      i := i[bucketId := i[bucketId] - {keyId}];
      return None;
    }

    method DeleteBucket(bucket: string) returns (err: Option<StoreError>)
      modifies this
      ensures err == if bucket in old(i) then None else Some(BucketDoesNotExist(bucket))
      ensures i == old(i) - {bucket}
    {
      if bucket !in i {
        assert i == i - {bucket};
        return Some(BucketDoesNotExist(bucket));
      }
      i := i - {bucket};
      return None;
    }
  }

  class MemoryStorage {
    var i: Buckets<seq<byte>>

    constructor ()
      ensures i == map[]
    {
      i := map[];
    }

    method NewBucket(bucket: string) returns (err: Option<StoreError>)
      modifies this
      ensures err == if bucket in old(i) then Some(BucketAlreadyExists(bucket)) else None
      ensures i == if bucket in old(i) then old(i) else old(i)[bucket := map[]]
    {
      if bucket in i {
        return Some(BucketAlreadyExists(bucket));
      }
      i := i[bucket := map[]];
      return None;
    }

    /** Stores everything the reader delivers, or nothing if it fails on the way. */
    method Write(bucket: string, key: string, data: StreamReader) returns (err: Option<StoreError>)
      requires data.stream.Valid()
      modifies this, data.stream, data.source
      ensures err == if bucket !in old(i) then Some(BucketDoesNotExist(bucket))
                     else if key in old(i)[bucket] then Some(ObjectAlreadyExists(key))
                     else if data.source.fails then Some(ReaderFailed) else None
      ensures i == if err.None? then Put(old(i), bucket, key, old(data.Remaining())) else old(i)
    {
      if bucket in i {
        if key in i[bucket] {
          return Some(ObjectAlreadyExists(key));
        }
        var internalData, ok := ReadAll(data);
        if !ok {
          return Some(ReaderFailed);
        }
        i := i[bucket := i[bucket][key := internalData]];
      } else {
        return Some(BucketDoesNotExist(bucket));
      }
      return None;
    }

    /** A fresh reader over a copy of the stored bytes. */
    method Read(bucket: string, key: string) returns (r: Result<Reader, StoreError>)
      ensures r.Ok? <==> Has(i, bucket, key)
      ensures r.Ok? ==> fresh(r.value) && Flatten(r.value.chunks) == i[bucket][key] && !r.value.fails
      ensures r.Err? ==> r.error == if bucket in i then ObjectDoesNotExist(key) else BucketDoesNotExist(bucket)
    {
      if bucket in i {
        if key !in i[bucket] {
          return Err(ObjectDoesNotExist(key));
        }
        var data := i[bucket][key];
        var reader := new Reader([data], false);
        FlattenOne(data);
        return Ok(reader);
      }
      return Err(BucketDoesNotExist(bucket));
    }

    method Delete(bucket: string, key: string) returns (err: Option<StoreError>)
      modifies this
      ensures err == if bucket !in old(i) then Some(BucketDoesNotExist(bucket))
                     else if key !in old(i)[bucket] then Some(ObjectDoesNotExist(key)) else None
      ensures i == if Has(old(i), bucket, key) then Drop(old(i), bucket, key) else old(i)
    {
      if bucket in i {
        if key !in i[bucket] {
          return Some(ObjectDoesNotExist(key));
        }
        i := i[bucket := i[bucket] - {key}];
        return None;
      }
      return Some(BucketDoesNotExist(bucket));
    }

    method DeleteBucket(bucket: string) returns (err: Option<StoreError>)
      modifies this
      ensures err == if bucket in old(i) then None else Some(BucketDoesNotExist(bucket))
      ensures i == old(i) - {bucket}
    {
      if bucket !in i {
        assert i == i - {bucket};
        return Some(BucketDoesNotExist(bucket));
      }
      i := i - {bucket};
      return None;
    }
  }
}
