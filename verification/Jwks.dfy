/** The JWKS cache of the gateway: its locked sections as functions, and the cache changing in place. */
module Jwks {
  import opened Common
  import Text

  type Bytes = seq<bv8>

  type KeySet = map<string, Bytes>

  /** A refresh must not be held back for longer than the keys live. */
  datatype Config = Config(ttl: int, timeout: int, cooldown: int)
  {
    predicate Valid() {
      ttl > 0 && timeout > 0 && 0 < cooldown <= ttl
    }

    /** What is wrong with a configuration, checked in this order. */
    function Validate(): Option<ConfigError> {
      if ttl <= 0 then Some(TtlNotPositive)
      else if timeout <= 0 then Some(TimeoutNotPositive)
      else if cooldown <= 0 then Some(CooldownNotPositive)
      else if cooldown > ttl then Some(CooldownExceedsTtl)
      else None
    }
  }

  datatype ConfigError = TtlNotPositive | TimeoutNotPositive | CooldownNotPositive | CooldownExceedsTtl

  lemma ValidatedExactly(cfg: Config)
    ensures cfg.Validate().None? <==> cfg.Valid()
    ensures cfg.Validate() == Some(CooldownExceedsTtl) ==> cfg.cooldown > cfg.ttl
  {
  }

  datatype LoadError = LoadFailed(reason: string) | InvalidKeySet

  datatype Cache = Cache(keys: KeySet, expiresAt: Time, nextRefreshAt: Time, lastError: Option<LoadError>, generation: nat)

  const EMPTY_CACHE := Cache(map[], ZERO_TIME, ZERO_TIME, None, 0)

  ghost predicate ValidKeySet(keys: KeySet) {
    keys != map[] && forall id | id in keys :: Text.TrimSpace(id) != "" && keys[id] != []
  }

  ghost function Validated(loaded: Result<KeySet, string>): Result<KeySet, LoadError> {
    match loaded
    case Err(reason) => Err(LoadFailed(reason))
    case Ok(keys) => if ValidKeySet(keys) then Ok(keys) else Err(InvalidKeySet)
  }

  /** The locked check before a load: other callers may have refreshed, or refreshing may have to wait. */
  datatype Check = Superseded | CoolingDown(error: Option<LoadError>) | MayLoad

  function CheckRefresh(c: Cache, observed: nat, now: Time): Check {
    if c.generation != observed then Superseded
    else if now < c.nextRefreshAt then CoolingDown(c.lastError)
    else MayLoad
  }

  function Commit(c: Cache, cfg: Config, keys: KeySet, now: Time): Cache {
    Cache(keys, now + cfg.ttl, now + cfg.cooldown, None, c.generation + 1)
  }

  function RecordError(c: Cache, cfg: Config, error: LoadError, now: Time): Cache {
    c.(lastError := Some(error), nextRefreshAt := now + cfg.cooldown)
  }

  /** Between successful refreshes the next one is allowed before the keys expire. */
  predicate RefreshableInTime(c: Cache) {
    c.lastError.None? ==> c.nextRefreshAt <= c.expiresAt
  }

  method ValidateAndClone(loaded: KeySet) returns (keys: Option<KeySet>)
    ensures keys == if ValidKeySet(loaded) then Some(loaded) else None
  {
    if |loaded| == 0 {
      return None;
    }
    var result: KeySet := map[];
    var rest := loaded.Keys;
    while rest != {}
      invariant rest <= loaded.Keys && result.Keys == loaded.Keys - rest
      invariant forall id | id in result :: result[id] == loaded[id] && Text.TrimSpace(id) != "" && loaded[id] != []
      decreases |rest|
    {
      var id :| id in rest;
      if Text.TrimSpace(id) == "" || |loaded[id]| == 0 {
        return None;
      }
      result := result[id := loaded[id]];
      rest := rest - {id};
    }
    assert result == loaded;
    keys := Some(result);
  }

  /** One flight that nobody disturbs, and the error it ends with. */
  ghost function AfterRefresh(c: Cache, cfg: Config, observed: nat, loaded: Result<KeySet, string>, checkedAt: Time, endedAt: Time)
    : (Cache, Option<LoadError>)
  {
    match CheckRefresh(c, observed, checkedAt)
    case Superseded => (c, None)
    case CoolingDown(error) => (c, error)
    case MayLoad =>
      match Validated(loaded)
      case Ok(keys) => (Commit(c, cfg, keys, endedAt), None)
      case Err(e) => (RecordError(c, cfg, e, endedAt), Some(e))
  }

  datatype Error = BlankKeyId | RefreshFailed(error: LoadError) | KeyNotFound

  /** The answer of an undisturbed call for a key that is not blank, and the cache it leaves. */
  ghost predicate Resolves(before: Cache, cfg: Config, keyId: string, loaded: Result<KeySet, string>,
                           beganAt: Time, checkedAt: Time, endedAt: Time, key: Result<Bytes, Error>, after: Cache) {
    var hit := keyId in before.keys && beganAt < before.expiresAt;
    var refresh := AfterRefresh(before, cfg, before.generation, loaded, checkedAt, endedAt);
    if hit then key == Ok(before.keys[keyId]) && after == before
    else
      && after == refresh.0
      && match refresh.1
         case Some(e) => key == Err(RefreshFailed(e))
         case None => key == if keyId in after.keys then Ok(after.keys[keyId]) else Err(KeyNotFound)
  }

  class JWKSCache {
    const config: Config
    var keys: KeySet
    var expiresAt: Time
    var nextRefreshAt: Time
    var lastRefreshErr: Option<LoadError>
    var generation: nat

    function State(): Cache
      reads this
    {
      Cache(keys, expiresAt, nextRefreshAt, lastRefreshErr, generation)
    }

    ghost predicate Valid()
      reads this
    {
      config.Valid() && RefreshableInTime(State())
    }

    constructor (config: Config)
      requires config.Valid()
      ensures Valid() && State() == EMPTY_CACHE && this.config == config
    {
      this.config := config;
      keys, expiresAt, nextRefreshAt, lastRefreshErr, generation := map[], ZERO_TIME, ZERO_TIME, None, 0;
    }

    method Lookup(keyId: string, now: Time) returns (key: Option<Bytes>, unexpired: bool, observed: nat)
      ensures key == if keyId in keys then Some(keys[keyId]) else None
      ensures unexpired == (now < expiresAt) && observed == generation
    {
      key := if keyId in keys then Some(keys[keyId]) else None;
      unexpired := now < expiresAt;
      observed := generation;
    }

    method RecordRefreshError(error: LoadError, now: Time)
      modifies `lastRefreshErr, `nextRefreshAt
      ensures State() == RecordError(old(State()), config, error, now)
    {
      lastRefreshErr := Some(error);
      nextRefreshAt := now + config.cooldown;
    }

    /** One flight: `loaded` is what the loader answers if it is asked, `checkedAt` and `endedAt` what the clock says. */
    method Refresh(observed: nat, loaded: Result<KeySet, string>, checkedAt: Time, endedAt: Time)
      returns (err: Option<LoadError>, asked: bool)
      requires Valid()
      modifies this
      ensures Valid() && asked == CheckRefresh(old(State()), observed, checkedAt).MayLoad?
      ensures (State(), err) == AfterRefresh(old(State()), config, observed, loaded, checkedAt, endedAt)
    {
      if generation != observed {
        return None, false;
      }
      if checkedAt < nextRefreshAt {
        return lastRefreshErr, false;
      }
      asked := true;
      match loaded
      case Err(reason) =>
        err := Some(LoadFailed(reason));
        RecordRefreshError(LoadFailed(reason), endedAt);
      case Ok(set_) =>
        var valid := ValidateAndClone(set_);
        if valid.None? {
          err := Some(InvalidKeySet);
          RecordRefreshError(InvalidKeySet, endedAt);
          return;
        }
        keys := valid.value;
        expiresAt := endedAt + config.ttl;
        nextRefreshAt := endedAt + config.cooldown;
        lastRefreshErr := None;
        generation := generation + 1;
        err := None;
    }

    /**
     * A call with nobody else around, its clock readings in order. A key it returns comes from a set that had not expired
     * when the call began; the loader is asked exactly when the key is missing or stale and no refresh is held back; and there
     * is a key exactly when the set in place has it and is unexpired, or the loader is asked and answers with a valid set that
     * has it.
     */
    method ResolvePublicKey(keyId: string, loaded: Result<KeySet, string>, beganAt: Time, checkedAt: Time, endedAt: Time)
      returns (key: Result<Bytes, Error>, asked: bool)
      requires Valid() && beganAt <= checkedAt <= endedAt
      modifies this
      ensures Valid()
      ensures asked <==> Text.TrimSpace(keyId) != "" && !(keyId in old(keys) && beganAt < old(expiresAt)) && old(nextRefreshAt) <= checkedAt
      ensures key.Ok? ==> keyId in keys && key.value == keys[keyId] && beganAt < expiresAt
      ensures if Text.TrimSpace(keyId) == "" then State() == old(State())
        else Resolves(old(State()), config, keyId, loaded, beganAt, checkedAt, endedAt, key, State())
      ensures key.Ok? && asked ==> Validated(loaded) == Ok(keys)
      ensures Text.TrimSpace(keyId) != "" ==>
        (key.Ok? <==> (keyId in old(keys) && beganAt < old(expiresAt))
                      || (asked && Validated(loaded).Ok? && keyId in Validated(loaded).value))
      ensures key.Err? && key.error.RefreshFailed? ==>
        if asked then Validated(loaded) == Err(key.error.error) else old(lastRefreshErr) == Some(key.error.error)
      ensures key == Err(KeyNotFound) ==> keyId !in keys && (asked || checkedAt < nextRefreshAt)
      ensures key == Err(BlankKeyId) <==> Text.TrimSpace(keyId) == ""
      ensures keys == old(keys) || (asked && Validated(loaded) == Ok(keys) && generation == old(generation) + 1)
    {
      if Text.TrimSpace(keyId) == "" {
        return Err(BlankKeyId), false;
      }
      var found, unexpired, observed := Lookup(keyId, beganAt);
      if found.Some? && unexpired {
        return Ok(found.value), false;
      }
      var err;
      err, asked := Refresh(observed, loaded, checkedAt, endedAt);
      if err.Some? {
        return Err(RefreshFailed(err.value)), asked;
      }
      found, unexpired, observed := Lookup(keyId, endedAt);
      if found.None? {
        return Err(KeyNotFound), asked;
      }
      key := Ok(found.value);
    }
  }
}
