/** A caller that runs alone: the interleaved steps add up to the sequential call. */
module JwksSolo {
  import opened Common
  import opened Jwks
  import opened JwksInterleaving
  import Text

  /** What a caller outside sees of an answer. */
  function Seen(answer: Answer): Result<Bytes, Error>
    requires !answer.Cancelled?
  {
    match answer
    case Key(value, _, _) => Ok(value)
    case NotFound(_) => Err(KeyNotFound)
    case Refused(e) => Err(RefreshFailed(e))
  }

  /** Nobody is in flight, and this caller has not entered. */
  predicate Quiet(w: World, i: nat) {
    w.flight.None? && i !in w.callers
  }

  predicate CallerIs(w: World, i: nat, c: Caller) {
    i in w.callers && w.callers[i] == c
  }

  /** The caller enters, misses and starts a flight that reads the clock. */
  lemma SoloMiss(cfg: Config, v: World, i: nat, keyId: string, checkedAt: Time) returns (actions: seq<Action>, w: World)
    requires Quiet(v, i) && Text.TrimSpace(keyId) != "" && v.clock <= checkedAt
    requires !(keyId in v.cache.keys && v.clock < v.cache.expiresAt)
    ensures LeadsFrom(cfg, v, actions, w) && CallerIs(w, i, Caller(keyId, v.clock, Waiting(true)))
    ensures w.clock == checkedAt && w.cache == v.cache
    ensures w.flight == Some(Flight(i, Timed(v.cache.generation, checkedAt)))
  {
    actions, w := Then(cfg, v, [], v, Enter(i, keyId));
    actions, w := Then(cfg, v, actions, w, LookUp(i));
    assert CallerIs(w, i, Caller(keyId, v.clock, Missed(v.cache.generation))) && w.flight.None?;
    actions, w := Then(cfg, v, actions, w, Board(i));
    actions, w := Then(cfg, v, actions, w, Tick(checkedAt - v.clock));
    actions, w := Then(cfg, v, actions, w, ReadClock);
  }

  /** The flight that may load does, and what it brings is written. */
  lemma SoloLoad(cfg: Config, v: World, before: seq<Action>, u: World, i: nat, loaded: Result<KeySet, string>, endedAt: Time)
    returns (actions: seq<Action>, w: World)
    requires LeadsFrom(cfg, v, before, u) && i in u.callers && u.clock <= endedAt && u.loads != []
    requires u.flight == Some(Flight(i, Loading))
    ensures LeadsFrom(cfg, v, actions, w) && w.callers == u.callers
    ensures match Validated(loaded)
      case Ok(keys) => w.cache == Commit(u.cache, cfg, keys, endedAt) && w.flight == Some(Flight(i, Landed(Refreshed(endedAt))))
      case Err(e) => w.cache == RecordError(u.cache, cfg, e, endedAt) && w.flight == Some(Flight(i, Landed(Failed(e))))
  {
    actions, w := Then(cfg, v, before, u, Tick(endedAt - u.clock));
    actions, w := Then(cfg, v, actions, w, EndLoad(loaded));
    assert w.flight == Some(Flight(i, LoadEnded(Validated(loaded))));
    actions, w := Then(cfg, v, actions, w, Stamp);
    assert w.flight == Some(Flight(i, Stamped(Validated(loaded), endedAt))) && w.cache == u.cache && w.callers == u.callers;
    actions, w := Then(cfg, v, actions, w, Write);
  }

  /** The outcome that stands for the end of an undisturbed flight. */
  ghost predicate Stands(outcome: Outcome, err: Option<LoadError>) {
    match err
    case Some(e) => outcome == Failed(e)
    case None => !outcome.Failed?
  }

  /** From the clock reading to the landing, the flight does to the cache what an undisturbed refresh does. */
  lemma SoloFlight(cfg: Config, v: World, before: seq<Action>, u: World, i: nat, loaded: Result<KeySet, string>, endedAt: Time)
    returns (actions: seq<Action>, w: World, outcome: Outcome)
    requires LeadsFrom(cfg, v, before, u) && i in u.callers && u.clock <= endedAt
    requires u.flight == Some(Flight(i, Timed(u.cache.generation, u.clock)))
    ensures LeadsFrom(cfg, v, actions, w) && w.callers == u.callers && w.flight == Some(Flight(i, Landed(outcome)))
    ensures var (after, err) := AfterRefresh(u.cache, cfg, u.cache.generation, loaded, u.clock, endedAt);
      w.cache == after && Stands(outcome, err)
  {
    actions, w := Then(cfg, v, before, u, LockedCheck);
    if w.flight.value.pc.Loading? {
      actions, w := SoloLoad(cfg, v, actions, w, i, loaded, endedAt);
    }
    outcome := w.flight.value.pc.outcome;
  }

  /** The flight lands and the caller takes its answer. */
  lemma SoloAnswer(cfg: Config, v: World, before: seq<Action>, u: World, i: nat, outcome: Outcome)
    returns (actions: seq<Action>, w: World)
    requires LeadsFrom(cfg, v, before, u) && i in u.callers && u.callers[i].pc == Waiting(true)
    requires u.flight == Some(Flight(i, Landed(outcome)))
    ensures LeadsFrom(cfg, v, actions, w) && w.cache == u.cache && i in w.callers && w.callers[i].pc.Returned?
    ensures !w.callers[i].pc.answer.Cancelled?
    ensures Seen(w.callers[i].pc.answer)
      == if outcome.Failed? then Err(RefreshFailed(outcome.error))
         else if u.callers[i].keyId in u.cache.keys then Ok(u.cache.keys[u.callers[i].keyId]) else Err(KeyNotFound)
  {
    actions, w := Then(cfg, v, before, u, Land);
    assert w.callers[i] == u.callers[i].(pc := Told(true, outcome));
    actions, w := Then(cfg, v, actions, w, Collect(i));
  }

  /**
   * Whatever the world, if nobody is in flight a caller that then runs alone ends with the answer, and leaves the cache, that
   * the contract of the sequential call gives for the same clock readings and the same answer of the loader.
   */
  lemma SoloRunResolves(cfg: Config, v: World, i: nat, keyId: string, loaded: Result<KeySet, string>, checkedAt: Time, endedAt: Time)
    returns (actions: seq<Action>, w: World)
    requires Quiet(v, i) && Text.TrimSpace(keyId) != "" && v.clock <= checkedAt <= endedAt
    ensures LeadsFrom(cfg, v, actions, w) && i in w.callers && w.callers[i].pc.Returned? && !w.callers[i].pc.answer.Cancelled?
    ensures Resolves(v.cache, cfg, keyId, loaded, v.clock, checkedAt, endedAt, Seen(w.callers[i].pc.answer), w.cache)
  {
    if keyId in v.cache.keys && v.clock < v.cache.expiresAt {
      actions, w := Then(cfg, v, [], v, Enter(i, keyId));
      actions, w := Then(cfg, v, actions, w, LookUp(i));
    } else {
      actions, w := SoloMiss(cfg, v, i, keyId, checkedAt);
      var outcome;
      actions, w, outcome := SoloFlight(cfg, v, actions, w, i, loaded, endedAt);
      actions, w := SoloAnswer(cfg, v, actions, w, i, outcome);
    }
  }
}
