/** The steps of the handlers that decide who is let in (router.go). */
module Router {
  import opened Common
  import opened AccessKeys
  import Users

  /** The download handler's unlock check (router.go): the two places a key can be shown are tried as the key says,
      and the answer sent back is true exactly when the key admits the request. It runs on every well-formed key,
      so the set of valid keys is never missing when it is consulted. */
  method CheckUnlock(key: AKey, query: Option<seq<byte>>, header: Option<seq<byte>>) returns (backMessage: bool)
    requires WellFormedKey(key)
    ensures backMessage <==> Admits(key, query, header)
  {
    backMessage := false;
    if !key.needsKey {
      backMessage := true;
      return;
    }
    var unlockKey: seq<byte> := [];
    if key.resolveByUrlKey {
      if query.None? {
        return;
      }
      unlockKey := query.value;
    } else {
      if header.None? {
        return;
      }
      unlockKey := header.value;
    }
    var keyValid, _ := ValidKey(key, unlockKey);
    if !keyValid {
      return;
    }
    backMessage := true;
  }

  /** What a submitted list means at the door: with no list everyone is admitted, with a list exactly those who show
      one of its members, whatever the order and the repetitions in it. */
  method UnlockAgreement(now: int, ex: ExAccessKey, query: Option<seq<byte>>, header: Option<seq<byte>>)
    returns (r: Result<bool, KeyError>)
    ensures r.Err? <==> (exists e :: e in ex.validKeys && |e| != 64) || (ex.ttl.Some? && now > ex.ttl.value)
    ensures r.Ok? ==>
      var shown := if ex.resolveByUrlKey then query else header;
      r.value <==> ex.validKeys == [] || (shown.Some? && shown.value in ex.validKeys)
  {
    var key := FromExAccessKey(now, ex);
    if key.Err? {
      assert key.error.WrongKeyLength? || key.error.TtlAlreadyExpired?;
      return Err(key.error);
    }
    var answer := CheckUnlock(key.value, query, header);
    return Ok(answer);
  }

  /** The first steps of the upload and add handlers: resolve the key, then compare it with the user's own. They let in
      exactly the live user who has these key bytes, also when an id was deleted and created again under another
      key. */
  method Authenticate(u: Users.MemoryStore, apiKeyBytes: seq<Octet>) returns (r: Result<Users.User, Users.UserError>)
    requires u.Valid()
    ensures r.Ok? <==> exists id :: id in u.userById && u.userById[id].apiKey == apiKeyBytes
    ensures r.Ok? ==>
              forall id :: id in u.userById && u.userById[id].apiKey == apiKeyBytes ==> u.userById[id] == r.value
  {
    r := u.ResolveByApiKey(apiKeyBytes);
    if r.Err? {
      return;
    }
    if !Users.VerifyApiKey(r.value, apiKeyBytes) {
      return Err(Users.AccessForbidden);
    }
    forall id | id in u.userById && u.userById[id].apiKey == apiKeyBytes ensures u.userById[id] == r.value {
      Users.IndexAgreement(u.events, id, r.value.id);
    }
  }
}
