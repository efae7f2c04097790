/** What the compound store is meant to be: one map from object names to metadata and, unless a write failed half-way,
    contents. */
module ObjectMap {
  import opened Common
  import opened Buckets

  datatype Entry = Entry(meta: Metadata, contents: Option<seq<byte>>)

  type Objects = Buckets<Entry>

  datatype Operation =
    | NewBucket(bucket: string)
    | Write(bucketId: string, keyId: string, meta: Metadata, key: EncryptionKey, plain: seq<byte>, fails: bool)
    | Read(bucketId: string, keyId: string)
    | Delete(bucketId: string, keyId: string)
    | DeleteBucket(bucket: string)

  datatype Reply = Done | Failed(error: StoreError) | Found(meta: Metadata, plain: seq<byte>)

  /** A write that comes second fails and keeps the contents, but its metadata replaces the old ones. A write whose
      reader fails leaves an entry without contents. Deleting such an entry clears it and still reports an error. */
  function After(o: Objects, op: Operation): Objects {
    match op
    case NewBucket(b) => if b in o then o else o[b := map[]]
    case Write(b, k, meta, _, plain, fails) =>
      if b !in o then o
      else if k in o[b] then Put(o, b, k, Entry(meta, o[b][k].contents))
      else Put(o, b, k, Entry(meta, if fails then None else Some(plain)))
    case Read(_, _) => o
    case Delete(b, k) => if Has(o, b, k) then Drop(o, b, k) else o
    case DeleteBucket(b) => o - {b}
  }

  function ReplyTo(o: Objects, op: Operation): Reply {
    match op
    case NewBucket(b) => if b in o then Failed(BucketAlreadyExists(b)) else Done
    case Write(b, k, _, _, _, fails) =>
      if b !in o then Failed(BucketDoesNotExist(b))
      else if k in o[b] then Failed(ObjectAlreadyExists(k))
      else if fails then Failed(ReaderFailed)
      else Done
    case Read(b, k) =>
      if !Has(o, b, k) then Failed(ThereIsNoBucket)
      else if o[b][k].contents.None? then Failed(ObjectDoesNotExist(k))
      else Found(o[b][k].meta, o[b][k].contents.value)
    case Delete(b, k) =>
      if b !in o then Failed(BucketDoesNotExist(b))
      else if k !in o[b] || o[b][k].contents.None? then Failed(ObjectDoesNotExist(k))
      else Done
    case DeleteBucket(b) => if b in o then Done else Failed(BucketDoesNotExist(b))
  }

  function AfterAll(o: Objects, ops: seq<Operation>): Objects {
    if ops == [] then o else After(AfterAll(o, ops[..|ops| - 1]), ops[|ops| - 1])
  }

  function Replies(o: Objects, ops: seq<Operation>): seq<Reply> {
    if ops == [] then []
    else var before := ops[..|ops| - 1]; Replies(o, before) + [ReplyTo(AfterAll(o, before), ops[|ops| - 1])]
  }

  /** This operation may change the entry under the name. */
  predicate Touches(op: Operation, b: string, k: string) {
    match op
    case Write(x, y, _, _, _, _) => x == b && y == k
    case Delete(x, y) => x == b && y == k
    case DeleteBucket(x) => x == b
    case _ => false
  }

  /** No other operation does. */
  lemma {:induction false} UntouchedStays(o: Objects, ops: seq<Operation>, b: string, k: string)
    requires Has(o, b, k) && forall n :: 0 <= n < |ops| ==> !Touches(ops[n], b, k)
    ensures Has(AfterAll(o, ops), b, k) && AfterAll(o, ops)[b][k] == o[b][k]
  {
    if ops != [] {
      UntouchedStays(o, ops[..|ops| - 1], b, k);
    }
  }
}
