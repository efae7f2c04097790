/** Writes, reads and new buckets of the compound store running at the same time (storeend.go:33-83).
    A sub-store operation is one step; between two of them any other call may run. Over files (storage/fs.go) the claim
    of a name under the lock, the creation of the file, each piece copied into it, its opening and each piece read from
    it are steps of their own. */
module CompoundConcurrent {
  import opened Common
  import opened Buckets
  import opened Ofb

  datatype Backend = Memory | Files

  datatype WritePhase = Describing | Keying | Claiming | Creating | Copying | Ended(err: Option<StoreError>)

  datatype ReadPhase =
    | Looking
    | Unlocking(meta: Metadata)
    | Fetching(meta: Metadata, key: EncryptionKey)
    | Opening(meta: Metadata, key: EncryptionKey)
    | Reading(meta: Metadata, key: EncryptionKey, got: seq<byte>)
    | Delivered(meta: Metadata, key: EncryptionKey, got: seq<byte>)
    | Refused(error: StoreError)

  datatype BucketPhase = ForMetadata | ForKeys | ForData | Settled(err: Option<StoreError>)

  datatype Call =
    | WriteCall(b: string, k: string, meta: Metadata, key: EncryptionKey, plain: seq<byte>, fails: bool,
                won: bool, copied: nat, write: WritePhase)
    | ReadCall(b: string, k: string, read: ReadPhase)
    | BucketCall(b: string, bucket: BucketPhase)

  /** winner records, for the statements below, which Write call passed WriteKey for a name. */
  datatype State = State(
    cipher: Cipher,
    backend: Backend,
    meta: Buckets<Metadata>,
    keys: Buckets<EncryptionKey>,
    claimed: map<string, set<string>>,
    data: Buckets<seq<byte>>,
    calls: seq<Call>,
    winner: map<(string, string), nat>)

  function Start(cipher: Cipher, backend: Backend): State {
    State(cipher, backend, map[], map[], map[], map[], [], map[])
  }

  datatype Action =
    | StartWrite(b: string, k: string, meta: Metadata, key: EncryptionKey, plain: seq<byte>, fails: bool)
    | StartRead(b: string, k: string)
    | StartBucket(b: string)
    | Continue(i: nat, amount: nat)

  function WithCall(s: State, i: nat, call: Call): State
    requires i < |s.calls|
  {
    s.(calls := s.calls[i := call])
  }

  predicate CanWrite(s: State, i: nat) {
    && i < |s.calls| && s.calls[i].WriteCall?
    && var c := s.calls[i];
       match c.write
       case Describing => c.b in s.meta
       case Creating => c.b in s.data
       case Copying => Has(s.data, c.b, c.k) && c.copied <= |c.plain|
       case Ended(_) => false
       case _ => true
  }

  predicate InPhase(s: State, i: nat, phase: WritePhase) {
    i < |s.calls| && s.calls[i].WriteCall? && s.calls[i].write == phase
  }

  function WithRefusal(s: State, i: nat, error: StoreError): State
    requires i < |s.calls| && s.calls[i].WriteCall?
  {
    WithCall(s, i, s.calls[i].(write := Ended(Some(error))))
  }

  function NextDescribing(s: State, i: nat): State
    requires InPhase(s, i, Describing) && s.calls[i].b in s.meta
  {
    var c := s.calls[i];
    WithCall(s, i, c.(write := Keying)).(meta := Put(s.meta, c.b, c.k, c.meta))
  }

  /** The key store takes the key. */
  function WithKey(s: State, i: nat): State
    requires InPhase(s, i, Keying) && s.calls[i].b in s.keys
  {
    var c := s.calls[i];
    WithCall(s, i, c.(write := Claiming, won := true))
      .(keys := Put(s.keys, c.b, c.k, c.key), winner := s.winner[(c.b, c.k) := i])
  }

  function NextKeying(s: State, i: nat): State
    requires InPhase(s, i, Keying)
  {
    var c := s.calls[i];
    if c.b !in s.keys then WithRefusal(s, i, BucketDoesNotExist(c.b))
    else if c.k in s.keys[c.b] then WithRefusal(s, i, ObjectAlreadyExists(c.k))
    else WithKey(s, i)
  }

  /** The storage takes the whole ciphertext. */
  function WithData(s: State, i: nat): State
    requires InPhase(s, i, Claiming) && s.calls[i].b in s.data
  {
    var c := s.calls[i];
    WithCall(s, i, c.(copied := |c.plain|, write := Ended(None)))
      .(data := Put(s.data, c.b, c.k, Encrypt(s.cipher, c.key.key, c.plain)))
  }

  /** storage.Write over memory: at once. */
  function NextStoring(s: State, i: nat): State
    requires InPhase(s, i, Claiming)
  {
    var c := s.calls[i];
    if c.b !in s.data then WithRefusal(s, i, BucketDoesNotExist(c.b))
    else if c.k in s.data[c.b] then WithRefusal(s, i, ObjectAlreadyExists(c.k))
    else if c.fails then WithRefusal(s, i, ReaderFailed)
    else WithData(s, i)
  }

  function WithClaim(s: State, i: nat): State
    requires InPhase(s, i, Claiming) && s.calls[i].b in s.claimed
  {
    var c := s.calls[i];
    WithCall(s, i, c.(write := Creating)).(claimed := s.claimed[c.b := s.claimed[c.b] + {c.k}])
  }

  /** storage.Write over files: the claim is only the first part. */
  function NextClaiming(s: State, i: nat): State
    requires InPhase(s, i, Claiming)
  {
    var c := s.calls[i];
    if c.b !in s.claimed then WithRefusal(s, i, BucketDoesNotExist(c.b))
    else if c.k in s.claimed[c.b] then WithRefusal(s, i, ObjectAlreadyExists(c.k))
    else WithClaim(s, i)
  }

  function NextCreating(s: State, i: nat): State
    requires InPhase(s, i, Creating) && s.calls[i].b in s.data
  {
    var c := s.calls[i];
    WithCall(s, i, c.(write := Copying)).(data := Put(s.data, c.b, c.k, []))
  }

  /** How far the next piece reaches. */
  function UpTo(c: Call, amount: nat): nat
    requires c.WriteCall?
  {
    if c.copied + 1 + amount <= |c.plain| then c.copied + 1 + amount else |c.plain|
  }

  /** The next piece goes to the end of the file. */
  function WithPiece(s: State, i: nat, amount: nat): State
    requires InPhase(s, i, Copying) && Has(s.data, s.calls[i].b, s.calls[i].k)
    requires s.calls[i].copied <= |s.calls[i].plain|
  {
    var c := s.calls[i];
    var piece := Keyed(s.cipher, c.key.key, c.copied, c.plain[c.copied..UpTo(c, amount)]);
    WithCall(s, i, c.(copied := UpTo(c, amount))).(data := Put(s.data, c.b, c.k, s.data[c.b][c.k] + piece))
  }

  function NextCopying(s: State, i: nat, amount: nat): State
    requires InPhase(s, i, Copying) && Has(s.data, s.calls[i].b, s.calls[i].k)
    requires s.calls[i].copied <= |s.calls[i].plain|
  {
    var c := s.calls[i];
    if c.copied < |c.plain| then WithPiece(s, i, amount)
    else WithCall(s, i, c.(write := Ended(if c.fails then Some(ReaderFailed) else None)))
  }

  function NextWrite(s: State, i: nat, amount: nat): State
    requires CanWrite(s, i)
  {
    match s.calls[i].write
    case Describing => NextDescribing(s, i)
    case Keying => NextKeying(s, i)
    case Claiming => if s.backend.Memory? then NextStoring(s, i) else NextClaiming(s, i)
    case Creating => NextCreating(s, i)
    case Copying => NextCopying(s, i, amount)
  }

  predicate CanRead(s: State, i: nat) {
    && i < |s.calls| && s.calls[i].ReadCall?
    && var c := s.calls[i];
       match c.read
       case Reading(_, _, got) => Has(s.data, c.b, c.k) && |got| <= |s.data[c.b][c.k]|
       case Delivered(_, _, _) => false
       case Refused(_) => false
       case _ => true
  }

  /** storage.Read: at once over memory; over files the claim is looked up before the file is opened. */
  function Fetched(s: State, i: nat): ReadPhase
    requires CanRead(s, i) && s.calls[i].read.Fetching?
  {
    var c := s.calls[i];
    match s.backend
    case Memory =>
      if c.b !in s.data then Refused(BucketDoesNotExist(c.b))
      else if c.k !in s.data[c.b] then Refused(ObjectDoesNotExist(c.k))
      else Delivered(c.read.meta, c.read.key, s.data[c.b][c.k])
    case Files =>
      if c.b !in s.claimed then Refused(BucketDoesNotExist(c.b))
      else if c.k !in s.claimed[c.b] then Refused(ObjectDoesNotExist(c.k))
      else Opening(c.read.meta, c.read.key)
  }

  function ReadMoved(s: State, i: nat, amount: nat): ReadPhase
    requires CanRead(s, i)
  {
    var c := s.calls[i];
    match c.read
    case Looking =>
      if Has(s.meta, c.b, c.k) then Unlocking(s.meta[c.b][c.k]) else Refused(ThereIsNoBucket)
    case Unlocking(meta) =>
      if c.b !in s.keys then Refused(BucketDoesNotExist(c.b))
      else if c.k !in s.keys[c.b] then Refused(ObjectDoesNotExist(c.k))
      else Fetching(meta, s.keys[c.b][c.k])
    case Fetching(_, _) => Fetched(s, i)
    case Opening(meta, key) =>
      if Has(s.data, c.b, c.k) then Reading(meta, key, []) else Refused(OsFailed)
    case Reading(meta, key, got) =>
      var file := s.data[c.b][c.k];
      if amount == 0 || |got| == |file| then Delivered(meta, key, got)
      else
        var upTo := if |got| + amount <= |file| then |got| + amount else |file|;
        Reading(meta, key, got + file[|got|..upTo])
  }

  /** A read changes nothing but its own progress. */
  function NextRead(s: State, i: nat, amount: nat): State
    requires CanRead(s, i)
  {
    WithCall(s, i, s.calls[i].(read := ReadMoved(s, i, amount)))
  }

  predicate CanBucket(s: State, i: nat) {
    i < |s.calls| && s.calls[i].BucketCall? && !s.calls[i].bucket.Settled?
  }

  /** The bucket is made in one store, unless it is there; then the call fails and goes no further. */
  function NextMetadataBucket(s: State, i: nat): State
    requires CanBucket(s, i) && s.calls[i].bucket.ForMetadata?
  {
    var c := s.calls[i];
    if c.b in s.meta then WithCall(s, i, c.(bucket := Settled(Some(BucketAlreadyExists(c.b)))))
    else WithCall(s, i, c.(bucket := ForKeys)).(meta := s.meta[c.b := map[]])
  }

  function NextKeyBucket(s: State, i: nat): State
    requires CanBucket(s, i) && s.calls[i].bucket.ForKeys?
  {
    var c := s.calls[i];
    if c.b in s.keys then WithCall(s, i, c.(bucket := Settled(Some(BucketAlreadyExists(c.b)))))
    else WithCall(s, i, c.(bucket := ForData)).(keys := s.keys[c.b := map[]])
  }

  function NextDataBucket(s: State, i: nat): State
    requires CanBucket(s, i) && s.calls[i].bucket.ForData?
  {
    var c := s.calls[i];
    if c.b in s.data then WithCall(s, i, c.(bucket := Settled(Some(BucketAlreadyExists(c.b)))))
    else WithCall(s, i, c.(bucket := Settled(None)))
           .(data := s.data[c.b := map[]], claimed := s.claimed[c.b := {}])
  }

  function NextBucket(s: State, i: nat): State
    requires CanBucket(s, i)
  {
    match s.calls[i].bucket
    case ForMetadata => NextMetadataBucket(s, i)
    case ForKeys => NextKeyBucket(s, i)
    case ForData => NextDataBucket(s, i)
  }

  /** A caller starts a Write only on a bucket that has metadata, and with a key of a known length. */
  predicate Enabled(s: State, a: Action) {
    match a
    case StartWrite(b, _, _, key, _, _) => b in s.meta && ValidKeyLength(key.key)
    case StartRead(_, _) => true
    case StartBucket(_) => true
    case Continue(i, _) => CanWrite(s, i) || CanRead(s, i) || CanBucket(s, i)
  }

  function Next(s: State, a: Action): State
    requires Enabled(s, a)
  {
    match a
    case StartWrite(b, k, meta, key, plain, fails) =>
      s.(calls := s.calls + [WriteCall(b, k, meta, key, plain, fails, false, 0, Describing)])
    case StartRead(b, k) => s.(calls := s.calls + [ReadCall(b, k, Looking)])
    case StartBucket(b) => s.(calls := s.calls + [BucketCall(b, ForMetadata)])
    case Continue(i, amount) =>
      if CanWrite(s, i) then NextWrite(s, i, amount)
      else if CanRead(s, i) then NextRead(s, i, amount)
      else NextBucket(s, i)
  }

  predicate Allowed(s: State, run: seq<Action>)
    decreases |run|
  {
    run == [] || (Enabled(s, run[0]) && Allowed(Next(s, run[0]), run[1..]))
  }

  function Exec(s: State, run: seq<Action>): State
    requires Allowed(s, run)
    decreases |run|
  {
    if run == [] then s else Exec(Next(s, run[0]), run[1..])
  }

  /** How much of the winner's ciphertext is there. */
  function Sealed(s: State, w: Call): seq<byte>
    requires w.WriteCall? && w.copied <= |w.plain|
  {
    Encrypt(s.cipher, w.key.key, w.plain)[..w.copied]
  }

  predicate IsWinner(s: State, b: string, k: string) {
    && (b, k) in s.winner
    && s.winner[(b, k)] < |s.calls|
    && var w := s.calls[s.winner[(b, k)]];
       w.WriteCall? && w.b == b && w.k == k && w.won
  }

  /** The buckets of the three stores appear in this order, and a name is claimed only in a bucket of the storage. */
  predicate BucketOk(s: State, b: string) {
    && (b in s.keys ==> b in s.meta)
    && (b in s.data ==> b in s.keys)
    && (b in s.data <==> b in s.claimed)
  }

  predicate NameOk(s: State, b: string, k: string) {
    && BucketOk(s, b)
    && (Has(s.keys, b, k) ==> Has(s.meta, b, k) && IsWinner(s, b, k))
    && ((b, k) in s.winner ==>
          IsWinner(s, b, k) && Has(s.keys, b, k) && s.keys[b][k] == s.calls[s.winner[(b, k)]].key)
    && (Has(s.data, b, k) ==>
          && IsWinner(s, b, k)
          && var w := s.calls[s.winner[(b, k)]];
             && (w.write.Copying? || w.write.Ended?)
             && w.copied <= |w.plain|
             && s.data[b][k] == Sealed(s, w)
             && (s.backend.Memory? ==> w.copied == |w.plain|)
             && (s.backend.Files? ==> b in s.claimed && k in s.claimed[b]))
    && (b in s.claimed && k in s.claimed[b] ==>
          IsWinner(s, b, k) && !s.calls[s.winner[(b, k)]].write.Claiming?)
  }

  predicate WriteOk(s: State, i: nat, c: Call)
    requires c.WriteCall?
  {
    && c.b in s.meta
    && c.copied <= |c.plain|
    && (c.won ==> (c.b, c.k) in s.winner && s.winner[(c.b, c.k)] == i)
    && (match c.write
        case Describing => !c.won && c.copied == 0
        case Keying => !c.won && c.copied == 0 && Has(s.meta, c.b, c.k)
        case Claiming => c.won && c.copied == 0
        case Creating =>
          && c.won && c.b in s.data && s.backend.Files? && c.copied == 0
          && c.b in s.claimed && c.k in s.claimed[c.b]
        case Copying => c.won && Has(s.data, c.b, c.k) && s.backend.Files?
        case Ended(err) => err.None? ==> c.won && !c.fails && c.copied == |c.plain| && Has(s.data, c.b, c.k))
  }

  predicate KeyIs(s: State, c: Call, key: EncryptionKey)
    requires !c.BucketCall?
  {
    Has(s.keys, c.b, c.k) && s.keys[c.b][c.k] == key
  }

  predicate ReadOk(s: State, c: Call)
    requires c.ReadCall?
  {
    match c.read
    case Unlocking(_) => Has(s.meta, c.b, c.k)
    case Fetching(_, key) => KeyIs(s, c, key)
    case Opening(_, key) => KeyIs(s, c, key) && s.backend.Files? && c.b in s.claimed && c.k in s.claimed[c.b]
    case Reading(_, key, got) =>
      KeyIs(s, c, key) && s.backend.Files? && Has(s.data, c.b, c.k) && got <= s.data[c.b][c.k]
    case Delivered(_, key, got) =>
      && KeyIs(s, c, key) && Has(s.data, c.b, c.k) && got <= s.data[c.b][c.k]
      && (s.backend.Memory? ==> got == s.data[c.b][c.k])
    case _ => true
  }

  predicate CallOk(s: State, i: nat) {
    i < |s.calls| ==>
      match s.calls[i]
      case WriteCall(_, _, _, _, _, _, _, _, _) => WriteOk(s, i, s.calls[i])
      case ReadCall(_, _, _) => ReadOk(s, s.calls[i])
      case BucketCall(b, phase) =>
        (phase.ForKeys? ==> b in s.meta) && (phase.ForData? ==> b in s.meta && b in s.keys)
  }

  ghost predicate Agreed(s: State) {
    && (forall b: string, k: string :: NameOk(s, b, k))
    && (forall i: nat :: CallOk(s, i))
  }
}
