/** Access keys as records for the wire and back (ProtoKeyFromAKey and AKeyFromProtoKey in access/redis.go). */
module ProtoKeys {
  import opened Common
  import opened AccessKeys

  const NANOS_PER_SECOND := 1_000_000_000

  datatype Timestamp = Timestamp(seconds: int, nanos: int)

  /** An instant, in nanoseconds, as whole seconds and the rest. */
  function ToTimestamp(t: int): Timestamp {
    Timestamp(t / NANOS_PER_SECOND, t % NANOS_PER_SECOND)
  }

  function AsTime(stamp: Timestamp): int {
    stamp.seconds * NANOS_PER_SECOND + stamp.nanos
  }

  /** The record; its valid keys are slices, which may share the memory they point into. */
  datatype ProtoAKey = ProtoAKey(
    expires: bool,
    ttl: Option<Timestamp>,
    limited: bool,
    limit: uint64,
    usedTimes: uint64,
    bucketId: string,
    keyId: string,
    urlKey: string,
    needsKey: bool,
    validKeys: seq<array<byte>>,
    resolveByUrlKey: bool)

  /** Everything but the valid keys arrives as it was sent. */
  predicate SameScalars(key: AKey, used: Option<uint64>, proto: ProtoAKey) {
    && proto.expires == key.expires
    && proto.ttl == (if key.ttl.Some? then Some(ToTimestamp(key.ttl.value)) else None)
    && proto.limited == key.limited && proto.limit == key.limit
    && proto.usedTimes == (if used.Some? then used.value else 0)
    && proto.bucketId == key.bucketId && proto.keyId == key.keyId && proto.urlKey == key.urlKey
    && proto.needsKey == key.needsKey && proto.resolveByUrlKey == key.resolveByUrlKey
  }

  method WithScalars(key: AKey, used: Option<uint64>, keys: seq<array<byte>>) returns (proto: ProtoAKey)
    ensures SameScalars(key, used, proto) && proto.validKeys == keys
  {
    var ttl := None;
    if key.ttl.Some? {
      ttl := Some(ToTimestamp(key.ttl.value));
    }
    var usedTimes := 0;
    if used.Some? {
      usedTimes := used.value;
    }
    proto := ProtoAKey(key.expires, ttl, key.limited, key.limit, usedTimes, key.bucketId, key.keyId, key.urlKey,
                       key.needsKey, keys, key.resolveByUrlKey);
  }

  method Fill(array_: array<byte>, d: Digest)
    requires array_.Length == DIGEST_LENGTH
    modifies array_
    ensures array_[..] == d
  {
    for i := 0 to DIGEST_LENGTH
      invariant array_[..i] == d[..i]
    {
      array_[i] := d[i];
    }
    assert array_[..] == array_[..DIGEST_LENGTH];
  }

  /** As the code stands under go 1.16: one loop variable for all iterations, so every appended slice points to it, and
      all of them show the key that came last. */
  method ProtoKeyFromAKey(key: AKey, used: Option<uint64>) returns (proto: ProtoAKey)
    requires key.needsKey ==> key.validKeys.Some?
    ensures SameScalars(key, used, proto)
    ensures forall i :: 0 <= i < |proto.validKeys| ==> proto.validKeys[i].Length == DIGEST_LENGTH
    ensures !key.needsKey ==> proto.validKeys == []
    ensures key.needsKey ==> |proto.validKeys| == |key.validKeys.value|
    ensures key.needsKey ==> forall i, j :: 0 <= i < |proto.validKeys| && 0 <= j < |proto.validKeys| ==>
              proto.validKeys[i] == proto.validKeys[j] && proto.validKeys[i][..] in key.validKeys.value
  {
    var keys: seq<array<byte>> := [];
    if key.needsKey {
      var array_ := new byte[DIGEST_LENGTH](_ => 0);
      var left := key.validKeys.value;
      while left != {}
        invariant left <= key.validKeys.value && |keys| + |left| == |key.validKeys.value|
        invariant forall i :: 0 <= i < |keys| ==> keys[i] == array_ && keys[i][..] in key.validKeys.value
        decreases left
      {
        var d :| d in left;
        Fill(array_, d);
        keys := keys + [array_];
        left := left - {d};
      }
    }
    proto := WithScalars(key, used, keys);
  }

  /** The same with a variable of its own for each iteration. */
  method ProtoKeyFromAKeyCopying(key: AKey, used: Option<uint64>) returns (proto: ProtoAKey)
    requires key.needsKey ==> key.validKeys.Some?
    ensures SameScalars(key, used, proto)
    ensures forall i :: 0 <= i < |proto.validKeys| ==> proto.validKeys[i].Length == DIGEST_LENGTH
    ensures !key.needsKey ==> proto.validKeys == []
    ensures key.needsKey ==> forall d: Digest :: d in key.validKeys.value <==>
              exists i :: 0 <= i < |proto.validKeys| && proto.validKeys[i][..] == d
  {
    var keys: seq<array<byte>> := [];
    if key.needsKey {
      var left := key.validKeys.value;
      while left != {}
        invariant left <= key.validKeys.value
        invariant forall i :: 0 <= i < |keys| ==> fresh(keys[i]) && keys[i].Length == DIGEST_LENGTH
        invariant forall i :: 0 <= i < |keys| ==> keys[i][..] in key.validKeys.value
        invariant forall d: Digest :: d in key.validKeys.value ==>
                    d in left || exists i :: 0 <= i < |keys| && keys[i][..] == d
        decreases left
      {
        var d :| d in left;
        var array_ := new byte[DIGEST_LENGTH](_ => 0);
        Fill(array_, d);
        ghost var before := keys;
        keys := keys + [array_];
        left := left - {d};
        forall e: Digest | e in key.validKeys.value && e !in left
          ensures exists i :: 0 <= i < |keys| && keys[i][..] == e
        {
          if e == d {
            assert keys[|before|][..] == e;
          } else {
            var i :| 0 <= i < |before| && before[i][..] == e;
            assert keys[i][..] == e;
          }
        }
      }
    }
    proto := WithScalars(key, used, keys);
  }

  /** Slices shorter than a digest would make the copy loop panic. */
  method AKeyFromProtoKey(proto: ProtoAKey) returns (key: AKey, used: uint64)
    requires forall i :: 0 <= i < |proto.validKeys| ==> proto.validKeys[i].Length >= DIGEST_LENGTH
    ensures key.expires == proto.expires
    ensures key.ttl == if proto.ttl.Some? then Some(AsTime(proto.ttl.value)) else None
    ensures key.limited == proto.limited && key.limit == proto.limit && used == proto.usedTimes
    ensures key.bucketId == proto.bucketId && key.keyId == proto.keyId && key.urlKey == proto.urlKey
    ensures key.needsKey == proto.needsKey && key.resolveByUrlKey == proto.resolveByUrlKey
    ensures key.validKeys.Some? && forall d: Digest :: d in key.validKeys.value <==>
              exists i :: 0 <= i < |proto.validKeys| && proto.validKeys[i][..DIGEST_LENGTH] == d
  {
    var ttl := None;
    if proto.ttl.Some? {
      ttl := Some(AsTime(proto.ttl.value));
    }
    var keys := new HashSet();
    for i := 0 to |proto.validKeys|
      invariant forall d: Digest :: d in keys.set_ <==>
                  exists j :: 0 <= j < i && proto.validKeys[j][..DIGEST_LENGTH] == d
    {
      var validKey := CopyDigest(proto.validKeys[i][..]);
      assert validKey == proto.validKeys[i][..DIGEST_LENGTH];
      keys.Insert(validKey);
    }
    used := proto.usedTimes;
    key := AKey(proto.expires, ttl, proto.limited, proto.limit, proto.bucketId, proto.keyId, proto.urlKey,
                proto.needsKey, Some(keys.set_), proto.resolveByUrlKey);
  }

  lemma TimeSurvives(t: int)
    ensures AsTime(ToTimestamp(t)) == t
    ensures t == ToTimestamp(t).seconds * 1_000_000_000 + ToTimestamp(t).nanos
    ensures 0 <= ToTimestamp(t).nanos < 1_000_000_000
  {
  }

  lemma Singletons<T>(s: set<T>, x: T)
    requires x in s
    ensures s == {x} <==> |s| <= 1
  {
    if |s| <= 1 {
      assert |s - {x}| == |s| - 1;
      assert s == (s - {x}) + {x};
    }
  }

  /** There and back: every scalar field, the ttl and the use count survive. Of the valid keys one survives when there
      were any, so the set is kept exactly when it had at most one member. */
  method RoundTrip(key: AKey, used: Option<uint64>) returns (key': AKey, used': uint64)
    requires key.needsKey ==> key.validKeys.Some?
    ensures key' == key.(validKeys := key'.validKeys)
    ensures used' == if used.Some? then used.value else 0
    ensures key'.validKeys.Some? && (!key.needsKey ==> key'.validKeys.value == {})
    ensures key.needsKey ==>
      && key'.validKeys.value <= key.validKeys.value
      && (key'.validKeys.value == {} <==> key.validKeys.value == {})
      && (key'.validKeys == key.validKeys <==> |key.validKeys.value| <= 1)
  {
    var proto := ProtoKeyFromAKey(key, used);
    key', used' := AKeyFromProtoKey(proto);
    if key.ttl.Some? {
      TimeSurvives(key.ttl.value);
    }
    if proto.validKeys != [] {
      var last := proto.validKeys[0][..];
      assert last[..DIGEST_LENGTH] == last;
      assert forall i :: 0 <= i < |proto.validKeys| ==> proto.validKeys[i][..DIGEST_LENGTH] == last;
      assert key'.validKeys.value == {last};
      Singletons(key.validKeys.value, last);
    }
  }

  /** With a variable of its own for each iteration every valid key survives; only a missing set comes back as an empty
      one, on a key that asks for none. */
  method RoundTripCopying(key: AKey, used: Option<uint64>) returns (key': AKey, used': uint64)
    requires key.needsKey ==> key.validKeys.Some?
    ensures used' == if used.Some? then used.value else 0
    ensures key.needsKey ==> key' == key
    ensures !key.needsKey ==> key' == key.(validKeys := Some({}))
  {
    var proto := ProtoKeyFromAKeyCopying(key, used);
    key', used' := AKeyFromProtoKey(proto);
    if key.ttl.Some? {
      TimeSurvives(key.ttl.value);
    }
    forall i | 0 <= i < |proto.validKeys| ensures proto.validKeys[i][..DIGEST_LENGTH] == proto.validKeys[i][..] {}
    if key.needsKey {
      assert forall d: Digest :: d in key'.validKeys.value <==> d in key.validKeys.value;
      assert key'.validKeys.value == key.validKeys.value;
    } else {
      assert key'.validKeys.value == {};
    }
  }
}
