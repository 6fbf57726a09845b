/** RolloverApiKeyCommandHandler: an expired key of the caller is replaced by a new one with the
    same name and permissions; the prior key is switched off in place and the new one added, in
    one save. */
module RolloverApiKey {
  import opened Common
  import opened Entities
  import opened Store
  import opened Ledger
  import ExpiryDurations
  import opened ExpiryDurationParser
  import opened CreateApiKey

  datatype RolloverApiKeyCommand = RolloverApiKeyCommand(oldKeyId: Guid, expiryDuration: string)

  const KeyNotFound: string := "API key not found"
  const NotYourKey: string := "You can only rollover your own API keys"
  const KeyNotExpired: string := "API key must be expired before it can be rolled over"

  /** The one save: the prior key updated, the new one added. */
  function Replace(oldId: Guid, prior: ApiKey, newId: Guid, successor: ApiKey): ChangeSet {
    ChangeSet(EmptyTables.(apiKeys := map[newId := successor]), EmptyTables.(apiKeys := map[oldId := prior]))
  }

  /** The checks on the key named by the request, in the handler's order. */
  function CheckRollover(t: Tables, currentUser: Option<Guid>, request: RolloverApiKeyCommand, now: Instant): Result<ApiKey> {
    if currentUser.None? then Err(UnauthorizedAccessException("User is not authenticated"))
    else if request.oldKeyId !in t.apiKeys then Err(InvalidOperationException(KeyNotFound))
    else
      var prior := t.apiKeys[request.oldKeyId];
      if prior.userId != currentUser.value then Err(InvalidOperationException(NotYourKey))
      else if !HasExpired(prior, now) then Err(InvalidOperationException(KeyNotExpired))
      else Ok(prior)
  }

  /** The handler run on store state `t`; `newKeyId` is the Guid drawn for the new key and `now`
      the clock reading. */
  function Rollover(t: Tables, currentUser: Option<Guid>, request: RolloverApiKeyCommand, newKeyId: Guid,
                    generation: ApiKeyGeneration, now: Instant, outage: bool): Outcome<CreateApiKeyResult> {
    match CheckRollover(t, currentUser, request, now)
    case Err(e) => Outcome(Err(e), t)
    case Ok(prior) =>
      match ParseToDateTime(request.expiryDuration, now)
      case Err(e) => Outcome(Err(e), t)
      case Ok(expiresAt) =>
        var successor := NewKey(generation, prior.name, prior.permissions, expiresAt, currentUser.value, now);
        var cs := Replace(request.oldKeyId, prior.(isActive := false), newKeyId, successor);
        var err := SaveError(t, cs, outage);
        if err.Some? then Outcome(Err(err.value), t)
        else Outcome(Ok(Issued(generation, newKeyId, successor)), Apply(t, cs))
  }

  /** RolloverApiKeyCommandHandler.Handle. */
  method Handle(db: Db, currentUser: Option<Guid>, request: RolloverApiKeyCommand, newKeyId: Guid,
                generation: ApiKeyGeneration, now: Instant, outage: bool) returns (r: Result<CreateApiKeyResult>)
    modifies db
    ensures Outcome(r, db.Snapshot()) == Rollover(old(db.Snapshot()), currentUser, request, newKeyId, generation, now, outage)
  {
    if currentUser.None? {
      return Err(UnauthorizedAccessException("User is not authenticated"));
    }
    var userId := currentUser.value;
    if request.oldKeyId !in db.apiKeys {
      return Err(InvalidOperationException(KeyNotFound));
    }
    var oldApiKey := db.apiKeys[request.oldKeyId];
    if oldApiKey.userId != userId {
      return Err(InvalidOperationException(NotYourKey));
    }
    if !HasExpired(oldApiKey, now) {
      return Err(InvalidOperationException(KeyNotExpired));
    }
    var expiresAt := ParseToDateTime(request.expiryDuration, now);
    if expiresAt.Err? {
      return Err(expiresAt.error);
    }
    var newApiKey := NewKey(generation, oldApiKey.name, oldApiKey.permissions, expiresAt.value, userId, now);
    oldApiKey := oldApiKey.(isActive := false);
    var err := db.SaveChanges(Replace(request.oldKeyId, oldApiKey, newKeyId, newApiKey), outage);
    if err.Some? {
      return Err(err.value);
    }
    r := Ok(Issued(generation, newKeyId, newApiKey));
  }

  /** The refusals, in the handler's order: no caller; no such key; someone else's key; a key
      that has not expired; an unknown duration. Neither the five-key limit nor whether the prior
      key is still active is looked at. A refused or failed rollover writes nothing. */
  lemma RolloverRefusals(t: Tables, currentUser: Option<Guid>, request: RolloverApiKeyCommand, newKeyId: Guid,
                         generation: ApiKeyGeneration, now: Instant, outage: bool)
    ensures var o := Rollover(t, currentUser, request, newKeyId, generation, now, outage);
            && (currentUser.None? ==> o.result == Err(UnauthorizedAccessException("User is not authenticated")))
            && (currentUser.Some? && request.oldKeyId !in t.apiKeys ==> o.result == Err(InvalidOperationException(KeyNotFound)))
            && (currentUser.Some? && request.oldKeyId in t.apiKeys && t.apiKeys[request.oldKeyId].userId != currentUser.value ==>
                  o.result == Err(InvalidOperationException(NotYourKey)))
            && (currentUser.Some? && request.oldKeyId in t.apiKeys && t.apiKeys[request.oldKeyId].userId == currentUser.value
                && now <= t.apiKeys[request.oldKeyId].expiresAt ==>
                  o.result == Err(InvalidOperationException(KeyNotExpired)))
            && (CheckRollover(t, currentUser, request, now).Ok? && !ExpiryDurations.IsValid(request.expiryDuration) ==>
                  o.result == Err(ArgumentException(InvalidDurationMessage(request.expiryDuration))))
            && (o.result.Err? ==> o.tables == t)
  {
    ParseAcceptsTheValidDurations(request.expiryDuration, now);
  }

  /** The checks pass for exactly the caller's own expired keys, active or not. */
  lemma CheckRolloverMeaning(t: Tables, userId: Guid, request: RolloverApiKeyCommand, now: Instant)
    ensures CheckRollover(t, Some(userId), request, now).Ok? <==>
              && request.oldKeyId in t.apiKeys
              && t.apiKeys[request.oldKeyId].userId == userId
              && now > t.apiKeys[request.oldKeyId].expiresAt
    ensures CheckRollover(t, Some(userId), request, now).Ok? ==>
              CheckRollover(t, Some(userId), request, now).value == t.apiKeys[request.oldKeyId]
  {
  }

  /** The store after a rollover: the prior key switched off and the new one added. */
  predicate KeyReplaced(t: Tables, t': Tables, oldId: Guid, newId: Guid, successor: ApiKey) {
    && oldId in t.apiKeys && newId !in t.apiKeys
    && t' == t.(apiKeys := t.apiKeys[oldId := t.apiKeys[oldId].(isActive := false)][newId := successor])
  }

  lemma ApplyReplace(t: Tables, oldId: Guid, newId: Guid, successor: ApiKey)
    requires oldId in t.apiKeys && newId !in t.apiKeys
    ensures KeyReplaced(t, Apply(t, Replace(oldId, t.apiKeys[oldId].(isActive := false), newId, successor)), oldId, newId, successor)
  {
    var prior := t.apiKeys[oldId].(isActive := false);
    var a := Apply(t, Replace(oldId, prior, newId, successor));
    assert a.apiKeys == t.apiKeys[oldId := prior][newId := successor];
    ApplyKeeps(t, Replace(oldId, prior, newId, successor));
  }

  lemma ReplaceSaved(t: Tables, oldId: Guid, prior: ApiKey, newId: Guid, successor: ApiKey, outage: bool)
    requires SaveError(t, Replace(oldId, prior, newId, successor), outage).None?
    ensures oldId in t.apiKeys && newId !in t.apiKeys
    ensures Schema(Apply(t, Replace(oldId, prior, newId, successor)))
  {
    assert Tracked(t, Replace(oldId, prior, newId, successor).modified);
    assert FreshKeys(t, Replace(oldId, prior, newId, successor).inserted);
  }

  /** A successful rollover: the prior key ends inactive and is otherwise unchanged; the new key
      is active, the caller's, with the prior key's name and permissions and the parsed expiry; no
      other key changes; the result describes the new key. */
  lemma RolloverEffect(t: Tables, userId: Guid, request: RolloverApiKeyCommand, newKeyId: Guid,
                       generation: ApiKeyGeneration, now: Instant, outage: bool)
    requires Rollover(t, Some(userId), request, newKeyId, generation, now, outage).result.Ok?
    ensures var o := Rollover(t, Some(userId), request, newKeyId, generation, now, outage);
            && request.oldKeyId in t.apiKeys
            && var prior := t.apiKeys[request.oldKeyId];
               && prior.userId == userId && HasExpired(prior, now)
               && ExpiryDurations.IsValid(request.expiryDuration)
               && var expiresAt := ParseToDateTime(request.expiryDuration, now).value;
                  && KeyReplaced(t, o.tables, request.oldKeyId, newKeyId,
                                 ApiKey(generation.hashedKey, prior.name, prior.permissions, expiresAt, true, userId, None, now))
                  && o.result.value == CreateApiKeyResult(generation.plainKey, newKeyId, prior.name, prior.permissions, expiresAt)
                  && Schema(o.tables)
  {
    ParseAcceptsTheValidDurations(request.expiryDuration, now);
    var prior := t.apiKeys[request.oldKeyId];
    var expiresAt := ParseToDateTime(request.expiryDuration, now).value;
    var successor := NewKey(generation, prior.name, prior.permissions, expiresAt, userId, now);
    ReplaceSaved(t, request.oldKeyId, prior.(isActive := false), newKeyId, successor, outage);
    ApplyReplace(t, request.oldKeyId, newKeyId, successor);
  }

  /** Rolling over an active key leaves the caller's active count as it was; rolling over a key
      that is already inactive raises it by one, so a user with five active keys and an expired
      inactive one ends with six. */
  lemma RolloverActiveCount(t: Tables, userId: Guid, request: RolloverApiKeyCommand, newKeyId: Guid,
                            generation: ApiKeyGeneration, now: Instant, outage: bool)
    requires Rollover(t, Some(userId), request, newKeyId, generation, now, outage).result.Ok?
    ensures var o := Rollover(t, Some(userId), request, newKeyId, generation, now, outage);
            && ActiveKeyCount(o.tables.apiKeys, userId)
               == ActiveKeyCount(t.apiKeys, userId) + (if t.apiKeys[request.oldKeyId].isActive then 0 else 1)
            && (ActiveKeyCount(t.apiKeys, userId) == MaxActiveKeys && !t.apiKeys[request.oldKeyId].isActive ==>
                  ActiveKeyCount(o.tables.apiKeys, userId) == MaxActiveKeys + 1)
  {
    RolloverEffect(t, userId, request, newKeyId, generation, now, outage);
    var prior := t.apiKeys[request.oldKeyId];
    var expiresAt := ParseToDateTime(request.expiryDuration, now).value;
    var successor := ApiKey(generation.hashedKey, prior.name, prior.permissions, expiresAt, true, userId, None, now);
    var step := t.apiKeys[request.oldKeyId := prior.(isActive := false)];
    ActiveKeyCountAfterPut(t.apiKeys, request.oldKeyId, prior.(isActive := false), userId);
    ActiveKeyCountAfterPut(step, newKeyId, successor, userId);
  }

  /** A rollover, whether it succeeds or not, keeps the ledger consistent. */
  lemma RolloverPreservesConsistency(t: Tables, currentUser: Option<Guid>, request: RolloverApiKeyCommand, newKeyId: Guid,
                                     generation: ApiKeyGeneration, now: Instant, outage: bool)
    requires Consistent(t)
    ensures Consistent(Rollover(t, currentUser, request, newKeyId, generation, now, outage).tables)
  {
    var o := Rollover(t, currentUser, request, newKeyId, generation, now, outage);
    RolloverRefusals(t, currentUser, request, newKeyId, generation, now, outage);
    if o.result.Ok? {
      RolloverEffect(t, currentUser.value, request, newKeyId, generation, now, outage);
      KeyTableChangeKeepsConsistent(t, o.tables.apiKeys);
    }
  }
}
