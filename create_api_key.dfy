/** CreateApiKeyCommandHandler: a new API key for the caller. The handler limits a user to five
    active keys, checks every requested permission, fixes the expiry from the requested
    duration and stores the key's hash; the plain key is returned once. */
module CreateApiKey {
  import opened Common
  import opened Entities
  import opened Store
  import opened Ledger
  import Permissions
  import ExpiryDurations
  import opened ExpiryDurationParser

  datatype CreateApiKeyCommand = CreateApiKeyCommand(name: string, permissions: seq<string>, expiryDuration: string)

  datatype CreateApiKeyResult = CreateApiKeyResult(
    apiKey: string,
    keyId: Guid,
    name: string,
    permissions: seq<string>,
    expiresAt: Instant)

  /** What the key service generated: the key shown to the user and the hash that is stored. */
  datatype ApiKeyGeneration = ApiKeyGeneration(plainKey: string, hashedKey: string)

  const MaxActiveKeys: nat := 5

  const TooManyKeys: string := "Maximum of 5 active API keys allowed per user"

  function InvalidPermissionMessage(permission: string): string {
    "Invalid permission: " + permission
  }

  /** The user's active keys: `ApiKeys.Where(k => k.UserId == userId && k.IsActive)`. */
  function ActiveKeys(keys: map<Guid, ApiKey>, userId: Guid): set<Guid> {
    set id | id in keys && keys[id].userId == userId && keys[id].isActive
  }

  function ActiveKeyCount(keys: map<Guid, ApiKey>, userId: Guid): nat {
    |ActiveKeys(keys, userId)|
  }

  /** Writing key `id` changes the user's active count by what the row was and what it becomes. */
  lemma ActiveKeyCountAfterPut(keys: map<Guid, ApiKey>, id: Guid, k: ApiKey, userId: Guid)
    ensures ActiveKeyCount(keys[id := k], userId)
            == ActiveKeyCount(keys, userId)
               - (if id in keys && keys[id].userId == userId && keys[id].isActive then 1 else 0)
               + (if k.userId == userId && k.isActive then 1 else 0)
  {
    var before, after := ActiveKeys(keys, userId), ActiveKeys(keys[id := k], userId);
    var rest := before - {id};
    assert after - {id} == rest;
    if k.userId == userId && k.isActive {
      assert after == rest + {id};
    } else {
      assert after == rest;
    }
    if id in before {
      assert before == rest + {id};
    } else {
      assert before == rest;
    }
  }

  /** The first requested permission that is not valid, if any. */
  function FirstInvalid(permissions: seq<string>): (r: Option<string>)
    ensures r.None? <==> forall i :: 0 <= i < |permissions| ==> Permissions.IsValid(permissions[i])
    ensures r.Some? ==> exists i :: && 0 <= i < |permissions| && permissions[i] == r.value
                                    && !Permissions.IsValid(permissions[i])
                                    && forall j :: 0 <= j < i ==> Permissions.IsValid(permissions[j])
  {
    if permissions == [] then None
    else if !Permissions.IsValid(permissions[0]) then Some(permissions[0])
    else
      var r := FirstInvalid(permissions[1..]);
      assert forall i :: 0 < i < |permissions| ==> permissions[i] == permissions[1..][i - 1];
      if r.Some? then
        var i :| && 0 <= i < |permissions[1..]| && permissions[1..][i] == r.value
                && !Permissions.IsValid(permissions[1..][i])
                && forall j :: 0 <= j < i ==> Permissions.IsValid(permissions[1..][j]);
        assert permissions[i + 1] == r.value;
        r
      else r
  }

  /** The exception the validation loop ends with. */
  function PermissionError(permissions: seq<string>): Option<Exception> {
    match FirstInvalid(permissions)
    case None => None
    case Some(p) => Some(InvalidOperationException(InvalidPermissionMessage(p)))
  }

  /** The foreach loop over the requested permissions: the first invalid one is reported. */
  method CheckPermissions(permissions: seq<string>) returns (err: Option<Exception>)
    ensures err == PermissionError(permissions)
  {
    for i := 0 to |permissions|
      invariant forall j :: 0 <= j < i ==> Permissions.IsValid(permissions[j])
    {
      var permission := permissions[i];
      if !Permissions.IsValid(permission) {
        var r := FirstInvalid(permissions);
        var k :| && 0 <= k < |permissions| && permissions[k] == r.value
                && !Permissions.IsValid(permissions[k])
                && forall j :: 0 <= j < k ==> Permissions.IsValid(permissions[j]);
        assert k == i;
        return Some(InvalidOperationException(InvalidPermissionMessage(permission)));
      }
    }
    return None;
  }

  function InsertKey(id: Guid, k: ApiKey): ChangeSet {
    ChangeSet(EmptyTables.(apiKeys := map[id := k]), EmptyTables)
  }

  /** The key row the handler adds. */
  function NewKey(generation: ApiKeyGeneration, name: string, permissions: seq<string>, expiresAt: Instant,
                  userId: Guid, now: Instant): ApiKey {
    ApiKey(generation.hashedKey, name, permissions, expiresAt, true, userId, None, now)
  }

  function Issued(generation: ApiKeyGeneration, keyId: Guid, k: ApiKey): CreateApiKeyResult {
    CreateApiKeyResult(generation.plainKey, keyId, k.name, k.permissions, k.expiresAt)
  }

  /** The handler run on store state `t`; `keyId` is the Guid drawn for the key and `now` the
      clock reading. */
  function CreateKey(t: Tables, currentUser: Option<Guid>, request: CreateApiKeyCommand, keyId: Guid,
                     generation: ApiKeyGeneration, now: Instant, outage: bool): Outcome<CreateApiKeyResult> {
    if currentUser.None? then Outcome(Err(UnauthorizedAccessException("User is not authenticated")), t)
    else if ActiveKeyCount(t.apiKeys, currentUser.value) >= MaxActiveKeys then
      Outcome(Err(InvalidOperationException(TooManyKeys)), t)
    else if PermissionError(request.permissions).Some? then Outcome(Err(PermissionError(request.permissions).value), t)
    else
      match ParseToDateTime(request.expiryDuration, now)
      case Err(e) => Outcome(Err(e), t)
      case Ok(expiresAt) =>
        var k := NewKey(generation, request.name, request.permissions, expiresAt, currentUser.value, now);
        var err := SaveError(t, InsertKey(keyId, k), outage);
        if err.Some? then Outcome(Err(err.value), t)
        else Outcome(Ok(Issued(generation, keyId, k)), Apply(t, InsertKey(keyId, k)))
  }

  /** CreateApiKeyCommandHandler.Handle. */
  method Handle(db: Db, currentUser: Option<Guid>, request: CreateApiKeyCommand, keyId: Guid,
                generation: ApiKeyGeneration, now: Instant, outage: bool) returns (r: Result<CreateApiKeyResult>)
    modifies db
    ensures Outcome(r, db.Snapshot()) == CreateKey(old(db.Snapshot()), currentUser, request, keyId, generation, now, outage)
  {
    if currentUser.None? {
      return Err(UnauthorizedAccessException("User is not authenticated"));
    }
    var userId := currentUser.value;
    var activeKeysCount := ActiveKeyCount(db.apiKeys, userId);
    if activeKeysCount >= MaxActiveKeys {
      return Err(InvalidOperationException(TooManyKeys));
    }
    var invalid := CheckPermissions(request.permissions);
    if invalid.Some? {
      return Err(invalid.value);
    }
    var expiresAt := ParseToDateTime(request.expiryDuration, now);
    if expiresAt.Err? {
      return Err(expiresAt.error);
    }
    var apiKey := NewKey(generation, request.name, request.permissions, expiresAt.value, userId, now);
    var err := db.SaveChanges(InsertKey(keyId, apiKey), outage);
    if err.Some? {
      return Err(err.value);
    }
    r := Ok(Issued(generation, keyId, apiKey));
  }

  /** The refusals, in the order the handler checks them: no caller; five active keys already,
      whatever permissions are asked for; the first invalid permission; an unknown duration. A
      refused or failed request writes nothing. */
  lemma CreateRefusals(t: Tables, currentUser: Option<Guid>, request: CreateApiKeyCommand, keyId: Guid,
                       generation: ApiKeyGeneration, now: Instant, outage: bool)
    ensures var o := CreateKey(t, currentUser, request, keyId, generation, now, outage);
            && (currentUser.None? ==> o.result == Err(UnauthorizedAccessException("User is not authenticated")))
            && (currentUser.Some? && ActiveKeyCount(t.apiKeys, currentUser.value) >= 5 ==>
                  o.result == Err(InvalidOperationException(TooManyKeys)))
            && (currentUser.Some? && ActiveKeyCount(t.apiKeys, currentUser.value) < 5 ==>
                  forall i :: 0 <= i < |request.permissions| && !Permissions.IsValid(request.permissions[i])
                              && (forall j :: 0 <= j < i ==> Permissions.IsValid(request.permissions[j])) ==>
                    o.result == Err(InvalidOperationException(InvalidPermissionMessage(request.permissions[i]))))
            && (&& currentUser.Some? && ActiveKeyCount(t.apiKeys, currentUser.value) < 5
                && (forall i :: 0 <= i < |request.permissions| ==> Permissions.IsValid(request.permissions[i]))
                && !ExpiryDurations.IsValid(request.expiryDuration) ==>
                  o.result == Err(ArgumentException(InvalidDurationMessage(request.expiryDuration))))
            && (o.result.Err? ==> o.tables == t)
  {
    ParseAcceptsTheValidDurations(request.expiryDuration, now);
    var ps := request.permissions;
    forall i | 0 <= i < |ps| && !Permissions.IsValid(ps[i]) && (forall j :: 0 <= j < i ==> Permissions.IsValid(ps[j]))
      ensures FirstInvalid(ps) == Some(ps[i])
    {
      var r := FirstInvalid(ps);
      var k :| && 0 <= k < |ps| && ps[k] == r.value && !Permissions.IsValid(ps[k])
              && forall j :: 0 <= j < k ==> Permissions.IsValid(ps[j]);
      assert k == i;
    }
  }

  /** The store after a successful creation: the one key more. */
  predicate KeyAdded(t: Tables, t': Tables, id: Guid, k: ApiKey) {
    id !in t.apiKeys && t' == t.(apiKeys := t.apiKeys[id := k])
  }

  lemma ApplyInsertKey(t: Tables, id: Guid, k: ApiKey)
    requires id !in t.apiKeys
    ensures KeyAdded(t, Apply(t, InsertKey(id, k)), id, k)
  {
    MergeOne(t.apiKeys, id, k);
    ApplyKeeps(t, InsertKey(id, k));
  }

  lemma InsertKeySaved(t: Tables, id: Guid, k: ApiKey, outage: bool)
    requires SaveError(t, InsertKey(id, k), outage).None?
    ensures id !in t.apiKeys
    ensures Schema(Apply(t, InsertKey(id, k)))
  {
    assert FreshKeys(t, InsertKey(id, k).inserted);
  }

  /** A successful creation adds exactly one key, active, of the caller, with the requested name
      and permissions, all of them valid, and the parsed expiry; the result describes that key.
      The caller's active count rises by one and stays within five; nobody else's changes. */
  lemma CreateAddsOneKey(t: Tables, userId: Guid, request: CreateApiKeyCommand, keyId: Guid,
                         generation: ApiKeyGeneration, now: Instant, outage: bool)
    requires CreateKey(t, Some(userId), request, keyId, generation, now, outage).result.Ok?
    ensures var o := CreateKey(t, Some(userId), request, keyId, generation, now, outage);
            && ExpiryDurations.IsValid(request.expiryDuration)
            && (forall i :: 0 <= i < |request.permissions| ==> Permissions.IsValid(request.permissions[i]))
            && var expiresAt := ParseToDateTime(request.expiryDuration, now).value;
               && KeyAdded(t, o.tables, keyId,
                           ApiKey(generation.hashedKey, request.name, request.permissions, expiresAt, true, userId, None, now))
               && o.result.value == CreateApiKeyResult(generation.plainKey, keyId, request.name, request.permissions, expiresAt)
               && ActiveKeyCount(o.tables.apiKeys, userId) == ActiveKeyCount(t.apiKeys, userId) + 1 <= MaxActiveKeys
               && (forall u :: u != userId ==> ActiveKeyCount(o.tables.apiKeys, u) == ActiveKeyCount(t.apiKeys, u))
               && Schema(o.tables)
  {
    ParseAcceptsTheValidDurations(request.expiryDuration, now);
    var expiresAt := ParseToDateTime(request.expiryDuration, now).value;
    var k := NewKey(generation, request.name, request.permissions, expiresAt, userId, now);
    InsertKeySaved(t, keyId, k, outage);
    ApplyInsertKey(t, keyId, k);
    ActiveKeyCountAfterPut(t.apiKeys, keyId, k, userId);
    forall u | u != userId ensures ActiveKeyCount(t.apiKeys[keyId := k], u) == ActiveKeyCount(t.apiKeys, u) {
      ActiveKeyCountAfterPut(t.apiKeys, keyId, k, u);
    }
  }

  /** The key a successful creation stores can be used at once: it is an active key of the
      caller, it is live for at least the hour after its creation, and it grants each requested
      permission. */
  lemma CreatedKeyIsUsable(t: Tables, userId: Guid, request: CreateApiKeyCommand, keyId: Guid,
                           generation: ApiKeyGeneration, now: Instant, outage: bool, later: Instant)
    requires CreateKey(t, Some(userId), request, keyId, generation, now, outage).result.Ok?
    requires now <= later <= now + TicksPerHour
    ensures var keys := CreateKey(t, Some(userId), request, keyId, generation, now, outage).tables.apiKeys;
            && keyId in keys
            && keys[keyId].isActive && keys[keyId].userId == userId
            && !HasExpired(keys[keyId], later)
            && forall i :: 0 <= i < |request.permissions| ==> HasPermission(keys[keyId], request.permissions[i])
  {
    CreateAddsOneKey(t, userId, request, keyId, generation, now, outage);
    ExpiryIsAhead(request.expiryDuration, now);
    var k := CreateKey(t, Some(userId), request, keyId, generation, now, outage).tables.apiKeys[keyId];
    GrantsOwnPermissions(k);
  }

  /** A creation, whether it succeeds or not, keeps the ledger consistent. */
  lemma CreatePreservesConsistency(t: Tables, currentUser: Option<Guid>, request: CreateApiKeyCommand, keyId: Guid,
                                   generation: ApiKeyGeneration, now: Instant, outage: bool)
    requires Consistent(t)
    ensures Consistent(CreateKey(t, currentUser, request, keyId, generation, now, outage).tables)
  {
    var o := CreateKey(t, currentUser, request, keyId, generation, now, outage);
    CreateRefusals(t, currentUser, request, keyId, generation, now, outage);
    if o.result.Ok? {
      CreateAddsOneKey(t, currentUser.value, request, keyId, generation, now, outage);
      KeyTableChangeKeepsConsistent(t, o.tables.apiKeys);
    }
  }
}
