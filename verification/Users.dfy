/** The in-memory user store with its two secondary indexes (users/memory.go), and the checks on submitted users
    (users/users.go). */
module Users {
  import opened Common
  import opened Base64
  import opened Identifiers

  const PASSWORD_HASH_LENGTH := 64
  const API_KEY_LENGTH := 64

  type Uuid = seq<Octet>

  datatype Role = Role(rootUser: bool, canCreateUsers: bool, canAddKeys: bool, canUploadData: bool, canDeleteKeys: bool)

  datatype User = User(
    id: Uuid,
    name: string,
    role: Role,
    username: string,
    passwordHash: seq<Octet>,
    passwordSalt: seq<Octet>,
    apiKey: seq<Octet>)

  datatype UserError =
    | UserAlreadyExists
    | UserDoesntExist
    | UserWithApiKeyAlreadyExists
    | UserWithApiKeyDoesntExist
    | UserWithUsernameAlreadyExists
    | UserWithUsernameDoesntExist
    | AccessForbidden

  datatype UserJson = UserJson(id: string, name: string, role: Role, username: string, passwordHash: seq<Octet>,
                               apiKey: seq<Octet>)

  datatype JsonError = NameIsAnIssue | UsernameIsAnIssue | PasswordHashHasWrongLength | ApiKeyHasWrongLength

  datatype Registry = Registry(userById: map<Uuid, User>, byApiKey: map<string, Uuid>, byUsername: map<string, Uuid>)

  datatype Event = Create(user: User) | Delete(id: Uuid)

  /** The checks of Create, in their order. */
  function CreateError(r: Registry, user: User): Option<UserError> {
    if user.id in r.userById then Some(UserAlreadyExists)
    else if Encode(user.apiKey) in r.byApiKey then Some(UserWithApiKeyAlreadyExists)
    else if user.username in r.byUsername then Some(UserWithUsernameAlreadyExists)
    else None
  }

  /** Delete forgets the user and leaves both index entries behind. */
  function After(r: Registry, event: Event): Registry {
    match event
    case Create(user) =>
      if CreateError(r, user).Some? then r
      else Registry(r.userById[user.id := user], r.byApiKey[Encode(user.apiKey) := user.id],
                    r.byUsername[user.username := user.id])
    case Delete(id) => r.(userById := r.userById - {id})
  }

  function AfterAll(events: seq<Event>): Registry {
    if events == [] then Registry(map[], map[], map[])
    else After(AfterAll(events[..|events| - 1]), events[|events| - 1])
  }

  /** The users whose creation succeeded, in order, deleted or not. */
  function Registered(events: seq<Event>): seq<User> {
    if events == [] then []
    else
      var before, event := events[..|events| - 1], events[|events| - 1];
      if event.Create? && CreateError(AfterAll(before), event.user).None?
      then Registered(before) + [event.user] else Registered(before)
  }

  predicate IndexedAt(r: Registry, id: Uuid) {
    id in r.userById ==>
      var user := r.userById[id];
      && user.id == id
      && Encode(user.apiKey) in r.byApiKey && r.byApiKey[Encode(user.apiKey)] == id
      && user.username in r.byUsername && r.byUsername[user.username] == id
  }

  lemma {:induction false} LiveUsersAreIndexed(events: seq<Event>, id: Uuid)
    ensures IndexedAt(AfterAll(events), id)
  {
    if events != [] {
      LiveUsersAreIndexed(events[..|events| - 1], id);
    }
  }

  /** After every run of creates and deletes, both index entries of a live user point to it; so no two live users share
      an API key or a username, although deletes leave stale entries. */
  lemma IndexAgreement(events: seq<Event>, id: Uuid, other: Uuid)
    ensures var r := AfterAll(events);
      && IndexedAt(r, id)
      && (id in r.userById && other in r.userById
          && (r.userById[id].apiKey == r.userById[other].apiKey
              || r.userById[id].username == r.userById[other].username)
          ==> id == other)
  {
    LiveUsersAreIndexed(events, id);
    LiveUsersAreIndexed(events, other);
  }

  ghost predicate KeyTaken(users: seq<User>, apiKey: seq<Octet>) {
    exists i :: 0 <= i < |users| && users[i].apiKey == apiKey
  }

  ghost predicate NameTaken(users: seq<User>, username: string) {
    exists i :: 0 <= i < |users| && users[i].username == username
  }

  lemma TakenBefore(users: seq<User>, user: User, apiKey: seq<Octet>, username: string)
    ensures KeyTaken(users + [user], apiKey) <==> KeyTaken(users, apiKey) || user.apiKey == apiKey
    ensures NameTaken(users + [user], username) <==> NameTaken(users, username) || user.username == username
  {
    var more := users + [user];
    assert more[|users|] == user;
    if KeyTaken(users, apiKey) {
      var i :| 0 <= i < |users| && users[i].apiKey == apiKey;
      assert more[i] == users[i];
    }
    if NameTaken(users, username) {
      var i :| 0 <= i < |users| && users[i].username == username;
      assert more[i] == users[i];
    }
  }

  /** The indexes remember every key and every name that was ever registered, and nothing else. */
  lemma {:induction false} IndexesRemember(events: seq<Event>, apiKey: seq<Octet>, username: string)
    ensures Encode(apiKey) in AfterAll(events).byApiKey <==> KeyTaken(Registered(events), apiKey)
    ensures username in AfterAll(events).byUsername <==> NameTaken(Registered(events), username)
  {
    if events != [] {
      var before, event := events[..|events| - 1], events[|events| - 1];
      IndexesRemember(before, apiKey, username);
      if event.Create? && CreateError(AfterAll(before), event.user).None? {
        TakenBefore(Registered(before), event.user, apiKey, username);
        if Encode(apiKey) == Encode(event.user.apiKey) {
          EncodeInjective(apiKey, event.user.apiKey);
        }
      }
    }
  }

  /** For an id that is not live, Create succeeds exactly when neither the API key nor the username was ever registered
      in the run; for a live id it never does. */
  lemma NamesAreNeverReused(events: seq<Event>, user: User)
    ensures CreateError(AfterAll(events), user).None? <==>
              user.id !in AfterAll(events).userById
              && !KeyTaken(Registered(events), user.apiKey) && !NameTaken(Registered(events), user.username)
  {
    IndexesRemember(events, user.apiKey, user.username);
  }

  class MemoryStore {
    var userById: map<Uuid, User>
    var uuidByApiKey: map<string, Uuid>
    var uuidByUsername: map<string, Uuid>
    ghost var events: seq<Event>

    ghost predicate Valid()
      reads this
    {
      View() == AfterAll(events)
    }

    ghost function View(): Registry
      reads this
    {
      Registry(userById, uuidByApiKey, uuidByUsername)
    }

    constructor NewMemoryStore()
      ensures Valid() && events == []
      ensures userById == map[] && uuidByApiKey == map[] && uuidByUsername == map[]
    {
      userById, uuidByApiKey, uuidByUsername, events := map[], map[], map[], [];
    }

    method Create(user: User) returns (err: Option<UserError>)
      requires Valid()
      modifies this
      ensures Valid() && events == old(events) + [Event.Create(user)]
      ensures err == if user.id in old(userById) then Some(UserAlreadyExists)
                     else if Encode(user.apiKey) in old(uuidByApiKey) then Some(UserWithApiKeyAlreadyExists)
                     else if user.username in old(uuidByUsername) then Some(UserWithUsernameAlreadyExists)
                     else None
      ensures userById == if err.None? then old(userById)[user.id := user] else old(userById)
      ensures uuidByApiKey == if err.None? then old(uuidByApiKey)[Encode(user.apiKey) := user.id] else old(uuidByApiKey)
      ensures uuidByUsername == if err.None? then old(uuidByUsername)[user.username := user.id] else old(uuidByUsername)
    {
      events := events + [Event.Create(user)];
      assert events[..|events| - 1] == old(events);
      if user.id in userById {
        return Some(UserAlreadyExists);
      }
      if Encode(user.apiKey) in uuidByApiKey {
        return Some(UserWithApiKeyAlreadyExists);
      }
      if user.username in uuidByUsername {
        return Some(UserWithUsernameAlreadyExists);
      }
      userById := userById[user.id := user];
      uuidByApiKey := uuidByApiKey[Encode(user.apiKey) := user.id];
      uuidByUsername := uuidByUsername[user.username := user.id];
      return None;
    }

    method Delete(id: Uuid) returns (err: Option<UserError>)
      requires Valid()
      modifies this
      ensures Valid() && events == old(events) + [Event.Delete(id)]
      ensures err == if id in old(userById) then None else Some(UserDoesntExist)
      ensures userById == old(userById) - {id}
      ensures uuidByApiKey == old(uuidByApiKey) && uuidByUsername == old(uuidByUsername)
    {
      events := events + [Event.Delete(id)];
      assert events[..|events| - 1] == old(events);
      if id !in userById {
        assert userById - {id} == userById;
        return Some(UserDoesntExist);
      }
      userById := userById - {id};
      return None;
    }

    method ResolveByUuid(id: Uuid) returns (r: Result<User, UserError>)
      ensures r == if id in userById then Ok(userById[id]) else Err(UserDoesntExist)
    {
      if id !in userById {
        return Err(UserDoesntExist);
      }
      return Ok(userById[id]);
    }

    /** The entry may be stale: the user it leads to can be gone, or be another one under the same id. */
    method ResolveByApiKey(apiKey: seq<Octet>) returns (r: Result<User, UserError>)
      requires Valid()
      ensures r.Ok? ==> r.value.id in userById && userById[r.value.id] == r.value
      ensures (exists id :: id in userById && userById[id].apiKey == apiKey) ==> r.Ok? && r.value.apiKey == apiKey
      ensures r == Err(UserWithApiKeyDoesntExist) <==> !KeyTaken(Registered(events), apiKey)
      ensures Encode(apiKey) in uuidByApiKey ==>
                var id := uuidByApiKey[Encode(apiKey)];
                r == if id in userById then Ok(userById[id]) else Err(UserDoesntExist)
    {
      IndexesRemember(events, apiKey, "");
      if Encode(apiKey) !in uuidByApiKey {
        if id :| id in userById && userById[id].apiKey == apiKey {
          LiveUsersAreIndexed(events, id);
        }
        return Err(UserWithApiKeyDoesntExist);
      }
      var id := uuidByApiKey[Encode(apiKey)];
      r := ResolveByUuid(id);
      LiveUsersAreIndexed(events, id);
      if live :| live in userById && userById[live].apiKey == apiKey {
        LiveUsersAreIndexed(events, live);
      }
    }

    method ResolveByUsername(username: string) returns (r: Result<User, UserError>)
      requires Valid()
      ensures (exists id :: id in userById && userById[id].username == username) ==>
                r.Ok? && r.value.username == username
      ensures r == Err(UserWithUsernameDoesntExist) <==> !NameTaken(Registered(events), username)
      ensures username in uuidByUsername ==>
                var id := uuidByUsername[username];
                r == if id in userById then Ok(userById[id]) else Err(UserDoesntExist)
    {
      IndexesRemember(events, [], username);
      if username !in uuidByUsername {
        if id :| id in userById && userById[id].username == username {
          LiveUsersAreIndexed(events, id);
        }
        return Err(UserWithUsernameDoesntExist);
      }
      var id := uuidByUsername[username];
      r := ResolveByUuid(id);
      if live :| live in userById && userById[live].username == username {
        LiveUsersAreIndexed(events, live);
      }
    }

    /** Creates and deletes one after the other. */
    method Serve(later: seq<Event>)
      requires Valid()
      modifies this
      ensures Valid() && events == old(events) + later
      ensures forall id :: id in old(userById) && Event.Delete(id) !in later ==>
                id in userById && userById[id] == old(userById)[id]
    {
      for n := 0 to |later|
        invariant Valid() && events == old(events) + later[..n]
        invariant forall id :: id in old(userById) && Event.Delete(id) !in later[..n] ==>
                    id in userById && userById[id] == old(userById)[id]
      {
        assert later[..n + 1] == later[..n] + [later[n]];
        match later[n] {
          case Create(user) => var _ := Create(user);
          case Delete(id) => var _ := Delete(id);
        }
      }
      assert later[..|later|] == later;
    }

    /** A user whose creation succeeded is found by id, API key and username until it is deleted, whatever other users
        are created and deleted meanwhile. */
    method CreateAndFind(user: User, later: seq<Event>)
      returns (err: Option<UserError>, byId: Result<User, UserError>, byKey: Result<User, UserError>,
               byName: Result<User, UserError>)
      requires Valid()
      modifies this
      ensures Valid()
      ensures err.None? && Event.Delete(user.id) !in later ==> byId == byKey == byName == Ok(user)
      ensures err.None? <==> user.id !in old(userById) && !KeyTaken(Registered(old(events)), user.apiKey)
                             && !NameTaken(Registered(old(events)), user.username)
    {
      NamesAreNeverReused(events, user);
      err := Create(user);
      Serve(later);
      byId := ResolveByUuid(user.id);
      byKey := ResolveByApiKey(user.apiKey);
      byName := ResolveByUsername(user.username);
      if err.None? && Event.Delete(user.id) !in later {
        assert userById[user.id] == user;
        LiveUsersAreIndexed(events, user.id);
      }
    }
  }

  predicate VerifyApiKey(user: User, apiKey: seq<Octet>) {
    apiKey == user.apiKey
  }

  /** The first requirement that is not met is reported. */
  function IsValid(u: UserJson): (err: Option<JsonError>)
    ensures err.None? <==>
              Matches(NameExp(' '), u.name) && Matches(NameExp('_'), u.username)
              && |u.passwordHash| == 64 && |u.apiKey| == 64
    ensures err == Some(NameIsAnIssue) <==> !Matches(NameExp(' '), u.name)
    ensures err == Some(UsernameIsAnIssue) <==> Matches(NameExp(' '), u.name) && !Matches(NameExp('_'), u.username)
    ensures err == Some(PasswordHashHasWrongLength) <==>
              Matches(NameExp(' '), u.name) && Matches(NameExp('_'), u.username) && |u.passwordHash| != 64
  {
    NameLanguage(u.name, ' ');
    NameLanguage(u.username, '_');
    if !IsName(u.name, ' ') then Some(NameIsAnIssue)
    else if !IsName(u.username, '_') then Some(UsernameIsAnIssue)
    else if |u.passwordHash| != PASSWORD_HASH_LENGTH then Some(PasswordHashHasWrongLength)
    else if |u.apiKey| != API_KEY_LENGTH then Some(ApiKeyHasWrongLength)
    else None
  }
}
