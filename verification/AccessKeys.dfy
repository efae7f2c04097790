/** Access keys and how they are built from a submitted description (access/access.go). */
module AccessKeys {
  import opened Common

  const DIGEST_LENGTH := 64

  /** A SHA-512 digest; the unlock keys of an access key are digests. */
  type Digest = d: seq<byte> | |d| == DIGEST_LENGTH witness seq(DIGEST_LENGTH, _ => 0)

  /** The fields of an access key that never change after it is built.
      The use counter is kept by the store that holds the key. */
  datatype AKey = AKey(
    expires: bool,
    ttl: Option<int>,
    limited: bool,
    limit: uint64,
    bucketId: string,
    keyId: string,
    urlKey: string,
    needsKey: bool,
    validKeys: Option<set<Digest>>,
    resolveByUrlKey: bool)

  /** What the constructors establish: each flag says whether its pointer is set. */
  predicate WellFormedKey(key: AKey) {
    && (key.expires <==> key.ttl.Some?)
    && (key.needsKey <==> key.validKeys.Some?)
  }

  /** The answer a download request earns: the query or the header is consulted as the key says,
      None standing for text that is not base64. */
  predicate Admits(key: AKey, query: Option<seq<byte>>, header: Option<seq<byte>>) {
    !key.needsKey ||
    var shown := if key.resolveByUrlKey then query else header;
    && shown.Some?
    && |shown.value| == DIGEST_LENGTH
    && key.validKeys.Some?
    && shown.value in key.validKeys.value
  }

  datatype KeyError = WrongKeyLength | TtlAlreadyExpired

  datatype ExAccessKey = ExAccessKey(
    ttl: Option<int>,
    limit: Option<uint64>,
    validKeys: seq<seq<byte>>,
    resolveByUrlKey: bool,
    bucketId: string,
    keyId: string,
    urlKey: string)

  datatype KeyOptions = KeyOptions(
    expires: bool,
    ttl: Option<int>,
    limited: bool,
    limit: uint64,
    needsKey: bool,
    validKeys: Option<set<Digest>>,
    resolveByUrlKey: bool)

  class HashSet {
    var set_: set<Digest>

    constructor ()
      ensures set_ == {}
    {
      set_ := {};
    }

    method Insert(obj: Digest)
      modifies this
      ensures set_ == old(set_) + {obj}
    {
      set_ := set_ + {obj};
    }
  }

  method NewKeyOptions(now: int, ttl: Option<int>, limit: Option<uint64>, validKeys: Option<set<Digest>>,
                       resolveByUrlKey: bool)
    returns (r: Result<KeyOptions, KeyError>)
    ensures r.Err? <==> ttl.Some? && now > ttl.value
    ensures r.Err? ==> r.error == TtlAlreadyExpired
    ensures r.Ok? ==> r.value == KeyOptions(ttl.Some?, ttl, limit.Some?,
                                            if limit.Some? then limit.value else 0,
                                            validKeys.Some?, validKeys, resolveByUrlKey)
  {
    if ttl.Some? && now > ttl.value {
      return Err(TtlAlreadyExpired);
    }
    var options := KeyOptions(ttl.Some?, ttl, limit.Some?, 0, validKeys.Some?, validKeys, resolveByUrlKey);
    if limit.Some? {
      options := options.(limit := limit.value);
    }
    return Ok(options);
  }

  function NewAccessKey(bucketId: string, keyId: string, urlKey: string, options: KeyOptions): (key: AKey) {
    AKey(options.expires, options.ttl, options.limited, options.limit, bucketId, keyId, urlKey,
         options.needsKey, options.validKeys, options.resolveByUrlKey)
  }

  /** The length check of every submitted key comes before the ttl check. The key that results is well formed,
      needs an unlock key exactly when keys were submitted, and holds exactly the submitted keys. */
  method FromExAccessKey(now: int, ex: ExAccessKey) returns (r: Result<AKey, KeyError>)
    ensures r.Err? && r.error.WrongKeyLength? <==> exists e :: e in ex.validKeys && |e| != 64
    ensures r.Err? && r.error.TtlAlreadyExpired? <==>
              (forall e :: e in ex.validKeys ==> |e| == 64) && ex.ttl.Some? && now > ex.ttl.value
    ensures r.Ok? ==>
      && WellFormedKey(r.value)
      && (r.value.needsKey <==> ex.validKeys != []) && (r.value.validKeys.Some? <==> ex.validKeys != [])
      && (ex.validKeys != [] ==> forall d: Digest :: d in r.value.validKeys.value <==> d in ex.validKeys)
      && r.value.ttl == ex.ttl && (r.value.expires <==> ex.ttl.Some?)
      && (r.value.limited <==> ex.limit.Some?)
      && r.value.limit == (if ex.limit.Some? then ex.limit.value else 0)
      && r.value.bucketId == ex.bucketId && r.value.keyId == ex.keyId && r.value.urlKey == ex.urlKey
      && r.value.resolveByUrlKey == ex.resolveByUrlKey
  {
    var submitted: Option<set<Digest>> := None;
    if ex.validKeys != [] {
      var validKeys := new HashSet();
      for i := 0 to |ex.validKeys|
        invariant forall j :: 0 <= j < i ==> |ex.validKeys[j]| == DIGEST_LENGTH
        invariant forall d: Digest :: d in validKeys.set_ <==> d in ex.validKeys[..i]
      {
        var e := ex.validKeys[i];
        if |e| != DIGEST_LENGTH {
          return Err(WrongKeyLength);
        }
        var arr := CopyDigest(e);
        assert arr == e;
        assert ex.validKeys[..i + 1] == ex.validKeys[..i] + [e];
        validKeys.Insert(arr);
      }
      assert ex.validKeys[..|ex.validKeys|] == ex.validKeys;
      submitted := Some(validKeys.set_);
    }
    var options := NewKeyOptions(now, ex.ttl, ex.limit, submitted, ex.resolveByUrlKey);
    if options.Err? {
      return Err(options.error);
    }
    return Ok(NewAccessKey(ex.bucketId, ex.keyId, ex.urlKey, options.value));
  }

  /** Fills a fresh 64-byte array from the first 64 bytes of a slice. */
  method CopyDigest(e: seq<byte>) returns (arr: Digest)
    requires |e| >= DIGEST_LENGTH
    ensures arr == e[..DIGEST_LENGTH]
  {
    arr := seq(DIGEST_LENGTH, _ => 0);
    for i := 0 to DIGEST_LENGTH
      invariant |arr| == DIGEST_LENGTH
      invariant arr[..i] == e[..i]
    {
      arr := arr[i := e[i]];
    }
    assert arr == arr[..DIGEST_LENGTH];
  }

  /** A key of another length is refused with an error; of the right length, it is looked up in the set,
      which must be there. */
  method ValidKey(key: AKey, shown: seq<byte>) returns (valid: bool, failed: bool)
    requires |shown| == DIGEST_LENGTH ==> key.validKeys.Some?
    ensures failed <==> |shown| != 64
    ensures valid <==> |shown| == 64 && shown in key.validKeys.value
  {
    if |shown| != DIGEST_LENGTH {
      return false, true;
    }
    var arr := CopyDigest(shown);
    assert shown[..DIGEST_LENGTH] == shown;
    return arr in key.validKeys.value, false;
  }
}
