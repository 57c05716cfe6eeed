/** Every interleaving of `ResolvePublicKey` callers, at the grain of clock readings, locked sections and loads. */
module JwksInterleaving {
  import opened Common
  import opened Jwks
  import Text

  /**
   * How a flight ends: with new keys stamped at a clock reading, held back by the cooldown without an error at a clock
   * reading, overtaken by a refresh, or failed.
   */
  datatype Outcome = Refreshed(decided: Time) | Held(decided: Time) | Overtaken | Failed(error: LoadError)

  /** Between two constructors another goroutine can run; a clock reading is used later than it is taken. */
  datatype FlightPc =
    | Begun(observed: nat)
    | Timed(observed: nat, now: Time)
    | Loading
    | LoadEnded(result: Result<KeySet, LoadError>)
    | Stamped(result: Result<KeySet, LoadError>, now: Time)
    | Landed(outcome: Outcome)

  datatype Flight = Flight(leader: nat, pc: FlightPc)

  /** How a caller came by its key: from a cache hit, through the flight it started, or through one it joined. */
  datatype Path = Direct | Led(outcome: Outcome) | Joined(outcome: Outcome)

  /** `source` is the generation of the key set that was looked up last. */
  datatype Answer = Key(value: Bytes, source: nat, path: Path) | NotFound(source: nat) | Refused(error: LoadError) | Cancelled

  datatype CallerPc =
    | Entered
    | Missed(observed: nat)
    | Waiting(led: bool)
    | Told(led: bool, outcome: Outcome)
    | Returned(answer: Answer)

  /** `began` is the first clock reading of the call. */
  datatype Caller = Caller(keyId: string, began: Time, pc: CallerPc)

  datatype Load = Load(start: Time, end: Option<Time>, loaded: Result<KeySet, string>)

  /** A key set put in place at `at` with the earlier clock reading `stamp`. */
  datatype Install = Install(keys: KeySet, stamp: Time, at: Time)

  /** The cache, its flight and its callers, and the loads and key sets so far. */
  datatype World = World(clock: Time, cache: Cache, flight: Option<Flight>, callers: map<nat, Caller>,
                         loads: seq<Load>, installs: seq<Install>)

  datatype Action =
    | Tick(duration: nat)
    | Enter(i: nat, keyId: string) | LookUp(i: nat) | Board(i: nat) | Leave(i: nat) | Collect(i: nat)
    | ReadClock | LockedCheck | EndLoad(loaded: Result<KeySet, string>) | Stamp | Write | Land

  function Init(clock: Time): World {
    World(clock, EMPTY_CACHE, None, map[], [], [])
  }

  function Move(w: World, i: nat, pc: CallerPc): World
    requires i in w.callers
  {
    w.(callers := w.callers[i := w.callers[i].(pc := pc)])
  }

  function Fly(w: World, pc: FlightPc): World
    requires w.flight.Some?
  {
    w.(flight := Some(w.flight.value.(pc := pc)))
  }

  /** One atomic step, if it is enabled. */
  ghost function Next(cfg: Config, w: World, a: Action): Option<World> {
    match a
    case Tick(d) => Some(w.(clock := w.clock + d))
    case Enter(i, keyId) =>
      if i in w.callers || Text.TrimSpace(keyId) == "" then None
      else Some(w.(callers := w.callers[i := Caller(keyId, w.clock, Entered)]))
    case LookUp(i) => if i in w.callers && w.callers[i].pc.Entered? then Some(AfterLookUp(w, i)) else None
    case Board(i) => if i in w.callers && w.callers[i].pc.Missed? then Some(AfterBoard(w, i)) else None
    case Leave(i) =>
      if i in w.callers && (w.callers[i].pc.Waiting? || w.callers[i].pc.Told?) then Some(Move(w, i, Returned(Cancelled))) else None
    case Collect(i) => if i in w.callers && w.callers[i].pc.Told? then Some(AfterCollect(w, i)) else None
    case ReadClock =>
      if w.flight.Some? && w.flight.value.pc.Begun? then Some(Fly(w, Timed(w.flight.value.pc.observed, w.clock))) else None
    case LockedCheck => if w.flight.Some? && w.flight.value.pc.Timed? then Some(AfterCheck(w)) else None
    case EndLoad(loaded) =>
      if w.flight.Some? && w.flight.value.pc.Loading? && w.loads != [] then
        var n := |w.loads| - 1;
        Some(Fly(w, LoadEnded(Validated(loaded))).(loads := w.loads[n := w.loads[n].(end := Some(w.clock), loaded := loaded)]))
      else None
    case Stamp =>
      if w.flight.Some? && w.flight.value.pc.LoadEnded? then Some(Fly(w, Stamped(w.flight.value.pc.result, w.clock))) else None
    case Write => if w.flight.Some? && w.flight.value.pc.Stamped? then Some(AfterWrite(cfg, w)) else None
    case Land => if w.flight.Some? && w.flight.value.pc.Landed? then Some(AfterLand(w)) else None
  }

  function AfterLookUp(w: World, i: nat): World
    requires i in w.callers
  {
    var c := w.callers[i];
    if c.keyId in w.cache.keys && c.began < w.cache.expiresAt
    then Move(w, i, Returned(Key(w.cache.keys[c.keyId], w.cache.generation, Direct)))
    else Move(w, i, Missed(w.cache.generation))
  }

  /** Single flight: whoever finds none starts one with its own generation, the others wait for the one there is. */
  function AfterBoard(w: World, i: nat): World
    requires i in w.callers && w.callers[i].pc.Missed?
  {
    if w.flight.Some? then Move(w, i, Waiting(false))
    else Move(w, i, Waiting(true)).(flight := Some(Flight(i, Begun(w.callers[i].pc.observed))))
  }

  /** The second lookup takes a key however old its set is. */
  function AfterCollect(w: World, i: nat): World
    requires i in w.callers && w.callers[i].pc.Told?
  {
    var c := w.callers[i];
    if c.pc.outcome.Failed? then Move(w, i, Returned(Refused(c.pc.outcome.error)))
    else if c.keyId !in w.cache.keys then Move(w, i, Returned(NotFound(w.cache.generation)))
    else Move(w, i, Returned(Key(w.cache.keys[c.keyId], w.cache.generation,
                                 if c.pc.led then Led(c.pc.outcome) else Joined(c.pc.outcome))))
  }

  function StartLoad(start: Time): Load {
    Load(start, None, Err("not loaded yet"))
  }

  function AfterCheck(w: World): World
    requires w.flight.Some? && w.flight.value.pc.Timed?
  {
    match CheckRefresh(w.cache, w.flight.value.pc.observed, w.flight.value.pc.now)
    case Superseded => Fly(w, Landed(Overtaken))
    case CoolingDown(error) => Fly(w, Landed(if error.None? then Held(w.flight.value.pc.now) else Failed(error.value)))
    case MayLoad => Fly(w, Loading).(loads := w.loads + [StartLoad(w.clock)])
  }

  function AfterWrite(cfg: Config, w: World): World
    requires w.flight.Some? && w.flight.value.pc.Stamped?
  {
    var now := w.flight.value.pc.now;
    match w.flight.value.pc.result
    case Ok(keys) =>
      Fly(w, Landed(Refreshed(now))).(cache := Commit(w.cache, cfg, keys, now), installs := w.installs + [Install(keys, now, w.clock)])
    case Err(e) => Fly(w, Landed(Failed(e))).(cache := RecordError(w.cache, cfg, e, now))
  }

  function Tell(c: Caller, outcome: Outcome): Caller {
    if c.pc.Waiting? then c.(pc := Told(c.pc.led, outcome)) else c
  }

  function AfterLand(w: World): World
    requires w.flight.Some? && w.flight.value.pc.Landed?
  {
    w.(flight := None, callers := map i | i in w.callers :: Tell(w.callers[i], w.flight.value.pc.outcome))
  }

  // ---- What holds between any two steps ----

  /** The cache holds the empty initial map or the whole of the last installed set, and counts the sets. */
  ghost predicate CacheInv(cfg: Config, w: World) {
    && w.clock >= ZERO_TIME && w.cache.generation == |w.installs| && RefreshableInTime(w.cache)
    && (w.cache.lastError.None? && w.installs != [] ==> w.cache.nextRefreshAt == w.cache.expiresAt - cfg.ttl + cfg.cooldown)
    && (if w.installs == [] then w.cache.keys == map[] && w.cache.expiresAt == ZERO_TIME
        else w.cache.keys == Last(w.installs).keys && w.cache.expiresAt == Last(w.installs).stamp + cfg.ttl)
    && (forall s | s in w.installs :: ValidKeySet(s.keys) && s.stamp <= s.at <= w.clock)
  }

  ghost predicate FlightInv(cfg: Config, w: World) {
    w.flight.Some? ==>
      match w.flight.value.pc
      case Timed(_, now) => ZERO_TIME <= now <= w.clock
      case LoadEnded(result) => result.Ok? ==> ValidKeySet(result.value)
      case Stamped(result, now) =>
        ZERO_TIME <= now <= w.clock && (result.Ok? ==> ValidKeySet(result.value)) && (w.installs != [] ==> Last(w.installs).stamp <= now)
      case Landed(outcome) => Sound(cfg, w, outcome)
      case _ => true
  }

  predicate InLoad(w: World) {
    w.flight.Some? && w.flight.value.pc.Loading?
  }

  /** The last load is over but not yet written. */
  predicate Unwritten(w: World) {
    w.flight.Some? && (w.flight.value.pc.LoadEnded? || w.flight.value.pc.Stamped?)
  }

  /** The load after this one starts when this one has ended and the cooldown has passed. */
  predicate Apart(cfg: Config, loads: seq<Load>, i: nat)
    requires i + 1 < |loads|
  {
    loads[i].end.Some? && loads[i].start <= loads[i].end.value && loads[i + 1].start >= loads[i].end.value + cfg.cooldown
  }

  ghost predicate Spaced(cfg: Config, loads: seq<Load>) {
    forall i | 0 <= i < |loads| - 1 :: Apart(cfg, loads, i)
  }

  ghost predicate LoadsInv(cfg: Config, w: World) {
    && Spaced(cfg, w.loads)
    && (InLoad(w) || Unwritten(w) ==> w.loads != [])
    && (w.loads != [] ==>
          var last := Last(w.loads);
          && last.start <= w.clock && (last.end.None? <==> InLoad(w))
          && (last.end.Some? ==> last.start <= last.end.value <= w.clock)
          && (Unwritten(w) && w.flight.value.pc.Stamped? ==> last.end.value <= w.flight.value.pc.now)
          && (!InLoad(w) && !Unwritten(w) ==> last.end.value + cfg.cooldown <= w.cache.nextRefreshAt))
  }

  /** The valid key sets among the answers of the loader, in order. */
  ghost function Successes(loads: seq<Load>): seq<KeySet> {
    if loads == [] then []
    else
      var l := Last(loads);
      Successes(loads[..|loads| - 1]) + if l.end.Some? && Validated(l.loaded).Ok? then [Validated(l.loaded).value] else []
  }

  function KeySets(installs: seq<Install>): seq<KeySet> {
    if installs == [] then [] else KeySets(installs[..|installs| - 1]) + [Last(installs).keys]
  }

  /** A valid key set loaded but not yet in place. */
  function Pending(w: World): seq<KeySet> {
    if Unwritten(w) && w.flight.value.pc.result.Ok? then [w.flight.value.pc.result.value] else []
  }

  ghost predicate HistoryInv(w: World) {
    Successes(w.loads) == KeySets(w.installs) + Pending(w) && (InLoad(w) ==> w.loads != [] && Last(w.loads).end.None?)
  }

  /** The keys in place were installed at or after this instant. */
  predicate InstalledSince(w: World, t: Time) {
    w.installs != [] && t <= Last(w.installs).at
  }

  /**
   * The keys in place live on from the clock reading that decided the flight: a whole lifetime if the flight refreshed them,
   * what the cooldown leaves of it if the flight was held back.
   */
  predicate Sound(cfg: Config, w: World, outcome: Outcome) {
    match outcome
    case Refreshed(t) => t + cfg.ttl <= w.cache.expiresAt
    case Held(t) => t + cfg.ttl - cfg.cooldown < w.cache.expiresAt
    case _ => true
  }

  /** A flight that its leader started is decided after the leader began, or by keys put in place since. */
  predicate OwnOutcome(w: World, outcome: Outcome, began: Time) {
    match outcome
    case Refreshed(t) => began <= t
    case Held(t) => began <= t
    case Overtaken => InstalledSince(w, began)
    case Failed(_) => true
  }

  predicate ObservedFor(w: World, observed: nat, began: Time) {
    observed <= w.cache.generation && (observed < w.cache.generation ==> InstalledSince(w, began))
  }

  /** What a flight has in store for the caller that started it. */
  predicate LeaderInv(w: World, began: Time)
    requires w.flight.Some?
  {
    match w.flight.value.pc
    case Begun(observed) => ObservedFor(w, observed, began)
    case Timed(observed, now) => ObservedFor(w, observed, began) && began <= now
    case Stamped(_, now) => began <= now
    case Landed(outcome) => OwnOutcome(w, outcome, began)
    case _ => true
  }

  /** The set is stamped no earlier than the flight that led to it allows. */
  predicate StampedFor(cfg: Config, s: Install, outcome: Outcome) {
    match outcome
    case Refreshed(t) => t <= s.stamp
    case Held(t) => t < s.stamp + cfg.cooldown
    case Overtaken => true
    case Failed(_) => false
  }

  predicate KeyInv(cfg: Config, w: World, c: Caller)
    requires c.pc.Returned? && c.pc.answer.Key?
  {
    var k := c.pc.answer;
    && 1 <= k.source <= |w.installs|
    && var s := w.installs[k.source - 1];
    && c.keyId in s.keys && k.value == s.keys[c.keyId]
    && match k.path
       case Direct => c.began < s.stamp + cfg.ttl
       case Led(o) =>
         StampedFor(cfg, s, o) && (if o == Overtaken then c.began <= s.at else (o.Refreshed? || o.Held?) && c.began <= o.decided)
       case Joined(o) => StampedFor(cfg, s, o)
  }

  /** The key set of a generation has the key; generation 0 is the empty set. */
  predicate HasKey(w: World, generation: nat, keyId: string)
    requires generation <= |w.installs|
  {
    generation > 0 && keyId in w.installs[generation - 1].keys
  }

  predicate CallerInv(cfg: Config, w: World, i: nat)
    requires i in w.callers
  {
    var c := w.callers[i];
    && c.began <= w.clock
    && match c.pc
       case Entered => true
       case Missed(observed) => ObservedFor(w, observed, c.began)
       case Waiting(led) => w.flight.Some? && (led ==> LeaderInv(w, c.began))
       case Told(led, outcome) => Sound(cfg, w, outcome) && (led ==> OwnOutcome(w, outcome, c.began))
       case Returned(answer) =>
         && (answer.Key? ==> KeyInv(cfg, w, c))
         && (answer.NotFound? ==> answer.source <= |w.installs| && !HasKey(w, answer.source, c.keyId))
  }

  ghost predicate CallersInv(cfg: Config, w: World) {
    forall i | i in w.callers :: CallerInv(cfg, w, i)
  }

  ghost predicate Inv(cfg: Config, w: World) {
    CacheInv(cfg, w) && FlightInv(cfg, w) && LoadsInv(cfg, w) && HistoryInv(w) && CallersInv(cfg, w)
  }

  // ---- Every step keeps it ----

  lemma WriteKeepsCache(cfg: Config, w: World)
    requires cfg.Valid() && CacheInv(cfg, w) && FlightInv(cfg, w) && w.flight.Some? && w.flight.value.pc.Stamped?
    ensures CacheInv(cfg, AfterWrite(cfg, w)) && FlightInv(cfg, AfterWrite(cfg, w))
  {
  }

  lemma KeepsCache(cfg: Config, w: World, a: Action)
    requires cfg.Valid() && CacheInv(cfg, w) && FlightInv(cfg, w) && Next(cfg, w, a).Some?
    ensures CacheInv(cfg, Next(cfg, w, a).value) && FlightInv(cfg, Next(cfg, w, a).value)
  {
    if a.Write? {
      WriteKeepsCache(cfg, w);
    } else {
      var t := Next(cfg, w, a).value;
      assert t.cache == w.cache && t.installs == w.installs && t.clock >= w.clock;
    }
  }

  lemma SpacedAppend(cfg: Config, loads: seq<Load>, start: Time)
    requires Spaced(cfg, loads)
    requires loads != [] ==>
      Last(loads).end.Some? && Last(loads).start <= Last(loads).end.value && start >= Last(loads).end.value + cfg.cooldown
    ensures Spaced(cfg, loads + [StartLoad(start)])
  {
    var longer := loads + [StartLoad(start)];
    forall i | 0 <= i < |longer| - 1 ensures Apart(cfg, longer, i) {
      assert i + 1 < |loads| ==> Apart(cfg, loads, i);
    }
  }

  lemma SpacedEnd(cfg: Config, loads: seq<Load>, end: Time, loaded: Result<KeySet, string>)
    requires Spaced(cfg, loads) && loads != []
    ensures Spaced(cfg, loads[|loads| - 1 := Last(loads).(end := Some(end), loaded := loaded)])
  {
    var n := |loads| - 1;
    var ended := loads[n := Last(loads).(end := Some(end), loaded := loaded)];
    forall i | 0 <= i < |ended| - 1 ensures Apart(cfg, ended, i) {
      assert Apart(cfg, loads, i);
    }
  }

  lemma CheckKeepsLoads(cfg: Config, w: World)
    requires FlightInv(cfg, w) && LoadsInv(cfg, w) && w.flight.Some? && w.flight.value.pc.Timed?
    ensures LoadsInv(cfg, AfterCheck(w))
  {
    var t := AfterCheck(w);
    assert !Unwritten(t) && (InLoad(t) || t.loads == w.loads);
    if InLoad(t) {
      SpacedAppend(cfg, w.loads, w.clock);
      assert Last(t.loads) == StartLoad(w.clock);
    }
  }

  lemma EndKeepsLoads(cfg: Config, w: World, loaded: Result<KeySet, string>)
    requires LoadsInv(cfg, w) && InLoad(w)
    ensures LoadsInv(cfg, Next(cfg, w, EndLoad(loaded)).value)
  {
    var t := Next(cfg, w, EndLoad(loaded)).value;
    SpacedEnd(cfg, w.loads, w.clock, loaded);
    var ended := Last(w.loads).(end := Some(w.clock), loaded := loaded);
    assert t.loads == w.loads[|w.loads| - 1 := ended] && Last(t.loads) == ended;
  }

  lemma WriteKeepsLoads(cfg: Config, w: World)
    requires cfg.Valid() && LoadsInv(cfg, w) && w.flight.Some? && w.flight.value.pc.Stamped?
    ensures LoadsInv(cfg, AfterWrite(cfg, w))
  {
  }

  /** Steps that leave the loads and the cooldown alone, and the flight as far from a load as it was. */
  lemma OthersKeepLoads(cfg: Config, w: World, t: World)
    requires LoadsInv(cfg, w) && t.loads == w.loads && t.cache == w.cache && t.clock >= w.clock
    requires InLoad(t) == InLoad(w) && Unwritten(t) == Unwritten(w)
    requires Unwritten(t) && t.flight.value.pc.Stamped? ==> t.flight.value.pc.now == w.clock || t.flight == w.flight
    ensures LoadsInv(cfg, t)
  {
  }

  lemma KeepsLoads(cfg: Config, w: World, a: Action)
    requires cfg.Valid() && FlightInv(cfg, w) && LoadsInv(cfg, w) && Next(cfg, w, a).Some?
    ensures LoadsInv(cfg, Next(cfg, w, a).value)
  {
    match a
    case LockedCheck => CheckKeepsLoads(cfg, w);
    case EndLoad(loaded) => EndKeepsLoads(cfg, w, loaded);
    case Write => WriteKeepsLoads(cfg, w);
    case _ => OthersKeepLoads(cfg, w, Next(cfg, w, a).value);
  }

  lemma SuccessesAppend(loads: seq<Load>, l: Load)
    ensures Successes(loads + [l])
            == Successes(loads) + if l.end.Some? && Validated(l.loaded).Ok? then [Validated(l.loaded).value] else []
  {
    assert (loads + [l])[..|loads|] == loads;
  }

  lemma SuccessesEnd(loads: seq<Load>, end: Time, loaded: Result<KeySet, string>)
    requires loads != [] && Last(loads).end.None?
    ensures Successes(loads[|loads| - 1 := Last(loads).(end := Some(end), loaded := loaded)])
            == Successes(loads) + if Validated(loaded).Ok? then [Validated(loaded).value] else []
  {
    var n := |loads| - 1;
    var ended := Last(loads).(end := Some(end), loaded := loaded);
    SuccessesAppend(loads[..n], Last(loads));
    SuccessesAppend(loads[..n], ended);
    assert loads == loads[..n] + [Last(loads)] && loads[n := ended] == loads[..n] + [ended];
  }

  lemma CheckKeepsHistory(w: World)
    requires HistoryInv(w) && w.flight.Some? && w.flight.value.pc.Timed?
    ensures HistoryInv(AfterCheck(w))
  {
    SuccessesAppend(w.loads, StartLoad(w.clock));
  }

  lemma EndKeepsHistory(cfg: Config, w: World, loaded: Result<KeySet, string>)
    requires HistoryInv(w) && InLoad(w)
    ensures HistoryInv(Next(cfg, w, EndLoad(loaded)).value)
  {
    var t := Next(cfg, w, EndLoad(loaded)).value;
    SuccessesEnd(w.loads, w.clock, loaded);
    assert t.loads == w.loads[|w.loads| - 1 := Last(w.loads).(end := Some(w.clock), loaded := loaded)];
    assert t.installs == w.installs && Pending(w) == [];
    assert Pending(t) == if Validated(loaded).Ok? then [Validated(loaded).value] else [];
  }

  lemma WriteKeepsHistory(cfg: Config, w: World)
    requires HistoryInv(w) && w.flight.Some? && w.flight.value.pc.Stamped?
    ensures HistoryInv(AfterWrite(cfg, w))
  {
    var t := AfterWrite(cfg, w);
    assert w.flight.value.pc.result.Ok? ==> t.installs[..|w.installs|] == w.installs;
  }

  lemma OthersKeepHistory(w: World, t: World)
    requires HistoryInv(w) && t.loads == w.loads && t.installs == w.installs
    requires InLoad(t) == InLoad(w) && Pending(t) == Pending(w)
    ensures HistoryInv(t)
  {
  }

  lemma KeepsHistory(cfg: Config, w: World, a: Action)
    requires HistoryInv(w) && Next(cfg, w, a).Some?
    ensures HistoryInv(Next(cfg, w, a).value)
  {
    match a
    case LockedCheck => CheckKeepsHistory(w);
    case EndLoad(loaded) => EndKeepsHistory(cfg, w, loaded);
    case Write => WriteKeepsHistory(cfg, w);
    case _ => OthersKeepHistory(w, Next(cfg, w, a).value);
  }

  /** What is good for a caller stays so while time passes and the flight does not move. */
  lemma WaitKeepsCaller(cfg: Config, w: World, t: World, i: nat)
    requires i in w.callers && CallerInv(cfg, w, i) && i in t.callers && t.callers[i] == w.callers[i]
    requires t.cache == w.cache && t.installs == w.installs && t.clock >= w.clock
    requires w.flight.Some? ==> t.flight == w.flight
    ensures CallerInv(cfg, t, i)
  {
  }

  lemma LookUpKeepsCaller(cfg: Config, w: World, i: nat)
    requires CacheInv(cfg, w) && i in w.callers && CallerInv(cfg, w, i) && w.callers[i].pc.Entered?
    ensures CallerInv(cfg, AfterLookUp(w, i), i)
  {
  }

  lemma BoardKeepsCaller(cfg: Config, w: World, i: nat)
    requires i in w.callers && CallerInv(cfg, w, i) && w.callers[i].pc.Missed?
    ensures CallerInv(cfg, AfterBoard(w, i), i)
  {
  }

  lemma CollectKeepsCaller(cfg: Config, w: World, i: nat)
    requires CacheInv(cfg, w) && i in w.callers && CallerInv(cfg, w, i) && w.callers[i].pc.Told?
    ensures CallerInv(cfg, AfterCollect(w, i), i)
  {
  }

  lemma OwnStepKeepsCaller(cfg: Config, w: World, a: Action, i: nat)
    requires CacheInv(cfg, w) && i in w.callers && CallerInv(cfg, w, i) && Next(cfg, w, a).Some?
    requires a in {LookUp(i), Board(i), Leave(i), Collect(i)}
    ensures i in Next(cfg, w, a).value.callers && CallerInv(cfg, Next(cfg, w, a).value, i)
  {
    match a
    case LookUp(_) => LookUpKeepsCaller(cfg, w, i);
    case Board(_) => BoardKeepsCaller(cfg, w, i);
    case Collect(_) => CollectKeepsCaller(cfg, w, i);
    case Leave(_) =>
  }

  /** A step of the flight matters to nobody but the caller that started it. */
  lemma FlightKeepsCaller(cfg: Config, w: World, t: World, i: nat)
    requires i in w.callers && CallerInv(cfg, w, i) && w.flight.Some? && t.flight.Some?
    requires t == w.(flight := t.flight, loads := t.loads)
    requires w.callers[i].pc == Waiting(true) ==> LeaderInv(t, w.callers[i].began)
    ensures CallerInv(cfg, t, i)
  {
  }

  /** The check that lets the flight end without a load leaves the keys good for its leader. */
  lemma CheckKeepsLeader(cfg: Config, w: World, began: Time)
    requires cfg.Valid() && CacheInv(cfg, w) && w.flight.Some? && w.flight.value.pc.Timed? && LeaderInv(w, began)
    ensures LeaderInv(AfterCheck(w), began)
  {
  }

  lemma WriteKeepsCaller(cfg: Config, w: World, i: nat)
    requires cfg.Valid() && CacheInv(cfg, w) && FlightInv(cfg, w) && i in w.callers && CallerInv(cfg, w, i)
    requires w.flight.Some? && w.flight.value.pc.Stamped?
    ensures i in AfterWrite(cfg, w).callers && CallerInv(cfg, AfterWrite(cfg, w), i)
  {
    var t := AfterWrite(cfg, w);
    assert w.cache.expiresAt <= t.cache.expiresAt;
    assert w.installs != [] ==> Last(w.installs).at <= Last(t.installs).at;
    assert forall k | 0 <= k < |w.installs| :: t.installs[k] == w.installs[k];
  }

  lemma LandKeepsCaller(cfg: Config, w: World, i: nat)
    requires FlightInv(cfg, w) && CallersInv(cfg, w) && i in w.callers && w.flight.Some? && w.flight.value.pc.Landed?
    ensures i in AfterLand(w).callers && CallerInv(cfg, AfterLand(w), i)
  {
  }

  /** A step of the clock or of a caller. */
  lemma CallersKeepCaller(cfg: Config, w: World, a: Action, i: nat)
    requires cfg.Valid() && CacheInv(cfg, w) && CallerInvAt(cfg, w, i) && Next(cfg, w, a).Some?
    requires a.Tick? || a.Enter? || a.LookUp? || a.Board? || a.Leave? || a.Collect?
    ensures CallerInvAt(cfg, Next(cfg, w, a).value, i)
  {
    if a in {LookUp(i), Board(i), Leave(i), Collect(i)} {
      OwnStepKeepsCaller(cfg, w, a, i);
    } else {
      WaitKeepsCaller(cfg, w, Next(cfg, w, a).value, i);
    }
  }

  predicate CallerInvAt(cfg: Config, w: World, i: nat) {
    i in w.callers && CallerInv(cfg, w, i)
  }

  lemma KeepsCaller(cfg: Config, w: World, a: Action, i: nat)
    requires cfg.Valid() && CacheInv(cfg, w) && FlightInv(cfg, w) && CallersInv(cfg, w) && i in w.callers && Next(cfg, w, a).Some?
    ensures CallerInvAt(cfg, Next(cfg, w, a).value, i)
  {
    match a
    case Write => WriteKeepsCaller(cfg, w, i);
    case Land => LandKeepsCaller(cfg, w, i);
    case LockedCheck =>
      if w.callers[i].pc == Waiting(true) {
        CheckKeepsLeader(cfg, w, w.callers[i].began);
      }
      FlightKeepsCaller(cfg, w, AfterCheck(w), i);
    case ReadClock => FlightKeepsCaller(cfg, w, Next(cfg, w, a).value, i);
    case EndLoad(_) => FlightKeepsCaller(cfg, w, Next(cfg, w, a).value, i);
    case Stamp => FlightKeepsCaller(cfg, w, Next(cfg, w, a).value, i);
    case _ => CallersKeepCaller(cfg, w, a, i);
  }

  /** Only entering adds a caller, and a new caller has nothing to keep yet. */
  lemma NewCaller(cfg: Config, w: World, a: Action, i: nat)
    requires Next(cfg, w, a).Some? && i in Next(cfg, w, a).value.callers && i !in w.callers
    ensures CallerInv(cfg, Next(cfg, w, a).value, i)
  {
  }

  lemma StepPreserves(cfg: Config, w: World, a: Action)
    requires cfg.Valid() && Inv(cfg, w) && Next(cfg, w, a).Some?
    ensures Inv(cfg, Next(cfg, w, a).value)
  {
    KeepsCache(cfg, w, a);
    KeepsLoads(cfg, w, a);
    KeepsHistory(cfg, w, a);
    var t := Next(cfg, w, a).value;
    forall i | i in t.callers
      ensures CallerInv(cfg, t, i)
    {
      if i in w.callers {
        KeepsCaller(cfg, w, a, i);
      } else {
        NewCaller(cfg, w, a, i);
      }
    }
  }

  // ---- Runs ----

  ghost function Run(cfg: Config, w: World, actions: seq<Action>): Option<World> {
    if actions == [] then Some(w)
    else
      match Run(cfg, w, actions[..|actions| - 1])
      case None => None
      case Some(u) => Next(cfg, u, actions[|actions| - 1])
  }

  ghost predicate Reachable(cfg: Config, w: World) {
    exists clock: Time, actions: seq<Action> :: clock >= ZERO_TIME && Run(cfg, Init(clock), actions) == Some(w)
  }

  lemma {:induction false} RunPreserves(cfg: Config, w: World, actions: seq<Action>)
    requires cfg.Valid() && Inv(cfg, w) && Run(cfg, w, actions).Some?
    ensures Inv(cfg, Run(cfg, w, actions).value)
  {
    if actions != [] {
      var init := actions[..|actions| - 1];
      RunPreserves(cfg, w, init);
      StepPreserves(cfg, Run(cfg, w, init).value, actions[|actions| - 1]);
    }
  }

  lemma ReachableInv(cfg: Config, w: World)
    requires cfg.Valid() && Reachable(cfg, w)
    ensures Inv(cfg, w)
  {
    var clock: Time, actions: seq<Action> :| clock >= ZERO_TIME && Run(cfg, Init(clock), actions) == Some(w);
    RunPreserves(cfg, Init(clock), actions);
  }

  // ---- The main results, for every interleaving ----

  lemma {:induction false} LoadsApart(cfg: Config, loads: seq<Load>, i: nat, j: nat)
    requires cfg.Valid() && Spaced(cfg, loads) && i < j < |loads|
    ensures loads[i].end.Some? && loads[j].start >= loads[i].end.value + cfg.cooldown
  {
    assert Apart(cfg, loads, j - 1);
    if i < j - 1 {
      LoadsApart(cfg, loads, i, j - 1);
    }
  }

  /** At most one load runs, and each starts at least the cooldown after every earlier one ended, well or badly. */
  lemma OneLoadAtATime(cfg: Config, w: World, i: nat, j: nat)
    requires cfg.Valid() && Reachable(cfg, w) && i < j < |w.loads|
    ensures w.loads[i].end.Some? && w.loads[j].start >= w.loads[i].end.value + cfg.cooldown
  {
    ReachableInv(cfg, w);
    LoadsApart(cfg, w.loads, i, j);
  }

  /**
   * The keys are the empty initial map or the whole of one valid answer, the last one put in place; the generation counts
   * them; and nothing is put in place but the valid answers, each once and in order.
   */
  lemma KeysAreWholeLoads(cfg: Config, w: World)
    requires cfg.Valid() && Reachable(cfg, w)
    ensures w.cache.generation == |w.installs| && Successes(w.loads) == KeySets(w.installs) + Pending(w)
    ensures w.cache.keys == if w.installs == [] then map[] else Last(w.installs).keys
    ensures w.installs != [] ==> ValidKeySet(w.cache.keys)
    ensures w.cache.lastError.None? ==> w.cache.nextRefreshAt <= w.cache.expiresAt
  {
    ReachableInv(cfg, w);
  }

  /** A remark on `Next`: only the write of a valid key set changes keys, expiry or generation; a failed refresh leaves them alone. */
  lemma FailureKeepsKeys(cfg: Config, w: World, a: Action)
    requires Next(cfg, w, a).Some?
    ensures var t := Next(cfg, w, a).value;
      (t.cache.keys == w.cache.keys && t.cache.expiresAt == w.cache.expiresAt && t.cache.generation == w.cache.generation)
      || (a == Write && w.flight.value.pc.result == Ok(t.cache.keys) && t.cache.generation == w.cache.generation + 1)
  {
  }

  /** A caller that waits has a flight to wait for. */
  lemma NobodyWaitsForNothing(cfg: Config, w: World, i: nat)
    requires cfg.Valid() && Reachable(cfg, w) && i in w.callers && w.callers[i].pc.Waiting?
    ensures w.flight.Some?
  {
    ReachableInv(cfg, w);
    assert CallerInv(cfg, w, i);
  }

  /** A key set that had not expired when the call began. */
  predicate Live(cfg: Config, c: Caller, s: Install) {
    c.began < s.stamp + cfg.ttl
  }

  /**
   * Whatever the others do, and whether a caller started its flight or joined it: after a flight that refreshed the keys at a
   * clock reading, the key is live for every call that began within a lifetime of that reading, and if the set is the flight's
   * own, for no other; after a flight that was held back, for every call within what the cooldown leaves of a lifetime.
   */
  lemma KeysOutliveTheDecision(cfg: Config, w: World, i: nat)
    requires cfg.Valid() && Reachable(cfg, w) && i in w.callers
    requires w.callers[i].pc.Returned? && w.callers[i].pc.answer.Key?
    ensures var c, k := w.callers[i], w.callers[i].pc.answer;
      && 1 <= k.source <= |w.installs|
      && var s := w.installs[k.source - 1];
      && c.keyId in s.keys && k.value == s.keys[c.keyId]
      && (k.path.Direct? ==> Live(cfg, c, s))
      && (!k.path.Direct? && k.path.outcome.Refreshed? ==>
            var t := k.path.outcome.decided;
            t <= s.stamp && (c.began < t + cfg.ttl ==> Live(cfg, c, s)) && (s.stamp == t ==> (Live(cfg, c, s) <==> c.began < t + cfg.ttl)))
      && (!k.path.Direct? && k.path.outcome.Held? ==>
            var t := k.path.outcome.decided;
            t < s.stamp + cfg.cooldown && (c.began <= t + cfg.ttl - cfg.cooldown ==> Live(cfg, c, s)))
  {
    ReachableInv(cfg, w);
    assert CallerInv(cfg, w, i);
  }

  /**
   * A leader always began by that reading, so its key is live. The one exception is a leader overtaken by a set that was put
   * in place during the call, but only after that set's own expiry.
   */
  lemma LeadersGetLiveKeys(cfg: Config, w: World, i: nat)
    requires cfg.Valid() && Reachable(cfg, w) && i in w.callers
    requires w.callers[i].pc.Returned? && w.callers[i].pc.answer.Key? && !w.callers[i].pc.answer.path.Joined?
    ensures var c, k := w.callers[i], w.callers[i].pc.answer;
      && 1 <= k.source <= |w.installs|
      && var s := w.installs[k.source - 1];
      Live(cfg, c, s) || (k.path == Led(Overtaken) && c.began <= s.at && s.stamp + cfg.ttl <= s.at)
  {
    ReachableInv(cfg, w);
    assert CallerInv(cfg, w, i);
  }

  /** A lookup answers at once exactly if the set in place has the key and is unexpired, and with that set's value. */
  lemma LookUpAnswersExactly(cfg: Config, w: World, i: nat)
    requires cfg.Valid() && Reachable(cfg, w) && i in w.callers && w.callers[i].pc.Entered?
    ensures w.cache.generation == |w.installs| && Next(cfg, w, LookUp(i)).Some?
    ensures var c, g := w.callers[i], |w.installs|;
      Next(cfg, w, LookUp(i)).value.callers[i].pc
      == if HasKey(w, g, c.keyId) && c.began < Last(w.installs).stamp + cfg.ttl
         then Returned(Key(Last(w.installs).keys[c.keyId], g, Direct)) else Missed(g)
  {
    ReachableInv(cfg, w);
  }

  /**
   * Whoever has been told that a flight did not fail gets the value of the set in place if that set has the key, and is told
   * that it was not found exactly if that set has not; whoever has been told of a failure gets its error.
   */
  lemma CollectAnswersExactly(cfg: Config, w: World, i: nat)
    requires cfg.Valid() && Reachable(cfg, w) && i in w.callers && w.callers[i].pc.Told?
    ensures w.cache.generation == |w.installs| && Next(cfg, w, Collect(i)).Some?
    ensures var c, g, outcome := w.callers[i], |w.installs|, w.callers[i].pc.outcome;
      Next(cfg, w, Collect(i)).value.callers[i].pc
      == Returned(
        if outcome.Failed? then Refused(outcome.error)
        else if HasKey(w, g, c.keyId) then Key(Last(w.installs).keys[c.keyId], g, if c.pc.led then Led(outcome) else Joined(outcome))
        else NotFound(g))
  {
    ReachableInv(cfg, w);
  }

  /** Over all histories: a key that was not found is not in the set that was looked up. */
  lemma NotFoundIsTrue(cfg: Config, w: World, i: nat)
    requires cfg.Valid() && Reachable(cfg, w) && i in w.callers
    requires w.callers[i].pc.Returned? && w.callers[i].pc.answer.NotFound?
    ensures var g := w.callers[i].pc.answer.source; g <= |w.installs| && !HasKey(w, g, w.callers[i].keyId)
  {
    ReachableInv(cfg, w);
    assert CallerInv(cfg, w, i);
  }

  /** A flight that lands tells its outcome to all who wait for it, and disturbs nobody else. */
  lemma LandTellsAllWhoWait(cfg: Config, w: World, i: nat)
    requires w.flight.Some? && w.flight.value.pc.Landed? && i in w.callers
    ensures var t := Next(cfg, w, Land).value;
      && t.flight.None? && t.callers.Keys == w.callers.Keys
      && (w.callers[i].pc.Waiting? ==> t.callers[i] == w.callers[i].(pc := Told(w.callers[i].pc.led, w.flight.value.pc.outcome)))
      && (!w.callers[i].pc.Waiting? ==> t.callers[i] == w.callers[i])
  {
  }

  /** A caller can give up while it waits or before it takes its answer, and nobody else notices: the flight goes on. */
  lemma LeavingDisturbsNobody(cfg: Config, w: World, i: nat)
    requires i in w.callers
    ensures Next(cfg, w, Leave(i)).Some? <==> w.callers[i].pc.Waiting? || w.callers[i].pc.Told?
    ensures Next(cfg, w, Leave(i)).Some? ==>
      var t := Next(cfg, w, Leave(i)).value;
      && t.callers[i].pc == Returned(Cancelled) && t.flight == w.flight && t.cache == w.cache && t.loads == w.loads
      && t.callers.Keys == w.callers.Keys && forall j | j in w.callers && j != i :: t.callers[j] == w.callers[j]
  {
  }

  // ---- The limits of that result are real ----

  /** A run from a given world. */
  ghost predicate LeadsFrom(cfg: Config, v: World, actions: seq<Action>, w: World) {
    Run(cfg, v, actions) == Some(w)
  }

  lemma Then(cfg: Config, v: World, before: seq<Action>, w: World, a: Action) returns (actions: seq<Action>, t: World)
    requires LeadsFrom(cfg, v, before, w) && Next(cfg, w, a).Some?
    ensures LeadsFrom(cfg, v, actions, t) && t == Next(cfg, w, a).value
  {
    actions, t := before + [a], Next(cfg, w, a).value;
    assert actions[..|actions| - 1] == before;
  }

  /** A run from the start, and the world it reaches. */
  ghost predicate Leads(cfg: Config, actions: seq<Action>, w: World) {
    Run(cfg, Init(1), actions) == Some(w)
  }

  lemma Do(cfg: Config, before: seq<Action>, w: World, a: Action) returns (actions: seq<Action>, t: World)
    requires Leads(cfg, before, w) && Next(cfg, w, a).Some?
    ensures Leads(cfg, actions, t) && t == Next(cfg, w, a).value
  {
    actions, t := Then(cfg, Init(1), before, w, a);
  }

  const SOME_KEYS: KeySet := map["k" := [1]]

  lemma SomeKeysAreValid()
    ensures ValidKeySet(SOME_KEYS) && Text.TrimSpace("k") != ""
  {
    assert Text.TrimSpace("k") == "k";
    assert "k" in SOME_KEYS && forall id | id in SOME_KEYS :: id == "k" && SOME_KEYS[id] == [1];
  }

  /** Caller 0 misses and starts a flight that asks the loader. */
  lemma FlightUpToItsLoad(cfg: Config) returns (actions: seq<Action>, w: World)
    ensures Leads(cfg, actions, w)
    ensures w == World(1, EMPTY_CACHE, Some(Flight(0, Loading)), map[0 := Caller("k", 1, Waiting(true))], [StartLoad(1)], [])
  {
    SomeKeysAreValid();
    actions, w := Do(cfg, [], Init(1), Enter(0, "k"));
    actions, w := Do(cfg, actions, w, LookUp(0));
    assert w.callers == map[0 := Caller("k", 1, Missed(0))];
    actions, w := Do(cfg, actions, w, Board(0));
    assert w.callers == map[0 := Caller("k", 1, Waiting(true))];
    actions, w := Do(cfg, actions, w, ReadClock);
    actions, w := Do(cfg, actions, w, LockedCheck);
  }

  /** The loader answers, and the clock is read for its answer at time 1. */
  lemma FlightUpToItsStamp(cfg: Config) returns (actions: seq<Action>, w: World)
    ensures Leads(cfg, actions, w)
    ensures w.clock == 1 && w.cache == EMPTY_CACHE && w.installs == []
    ensures w.callers == map[0 := Caller("k", 1, Waiting(true))]
    ensures w.flight == Some(Flight(0, Stamped(Ok(SOME_KEYS), 1)))
  {
    actions, w := FlightUpToItsLoad(cfg);
    SomeKeysAreValid();
    actions, w := Do(cfg, actions, w, EndLoad(Ok(SOME_KEYS)));
    actions, w := Do(cfg, actions, w, Stamp);
  }

  /** Caller 1 misses the keys in place because they have expired, and joins a flight that has already landed. */
  lemma LateJoiner(cfg: Config, before: seq<Action>, v: World) returns (actions: seq<Action>, w: World)
    requires Leads(cfg, before, v) && 1 !in v.callers && v.flight.Some? && "k" in v.cache.keys && v.cache.expiresAt <= v.clock
    ensures Leads(cfg, actions, w) && w == v.(callers := v.callers[1 := Caller("k", v.clock, Waiting(false))])
  {
    SomeKeysAreValid();
    actions, w := Do(cfg, before, v, Enter(1, "k"));
    actions, w := Do(cfg, actions, w, LookUp(1));
    assert w.callers == v.callers[1 := Caller("k", v.clock, Missed(v.cache.generation))];
    actions, w := Do(cfg, actions, w, Board(1));
    assert w.callers == v.callers[1 := Caller("k", v.clock, Waiting(false))];
  }

  /** It is told of the flight and takes the keys in place. */
  lemma JoinerCollects(cfg: Config, before: seq<Action>, v: World) returns (actions: seq<Action>, w: World)
    requires Leads(cfg, before, v) && 1 in v.callers && v.callers[1].pc == Waiting(false) && v.callers[1].keyId in v.cache.keys
    requires v.flight.Some? && v.flight.value.pc == Landed(Refreshed(1))
    ensures Leads(cfg, actions, w) && w.installs == v.installs && 1 in w.callers && w.callers[1].began == v.callers[1].began
    ensures w.callers[1].pc == Returned(Key(v.cache.keys[v.callers[1].keyId], v.cache.generation, Joined(Refreshed(1))))
  {
    actions, w := Do(cfg, before, v, Land);
    assert w.callers[1].pc == Told(false, Refreshed(1));
    actions, w := Do(cfg, actions, w, Collect(1));
  }

  /** A caller that joins a flight after it has written its keys can be told of them when they have long expired. */
  lemma JoinersCanGetExpiredKeys(cfg: Config) returns (actions: seq<Action>, w: World)
    requires cfg.Valid()
    ensures Leads(cfg, actions, w)
    ensures 1 in w.callers && w.callers[1].pc == Returned(Key([1], 1, Joined(Refreshed(1))))
    ensures |w.installs| == 1 && w.installs[0].stamp + cfg.ttl <= w.callers[1].began
  {
    actions, w := FlightUpToItsStamp(cfg);
    actions, w := Do(cfg, actions, w, Write);
    actions, w := Do(cfg, actions, w, Tick(cfg.ttl));
    actions, w := LateJoiner(cfg, actions, w);
    actions, w := JoinerCollects(cfg, actions, w);
  }

  /** A leader can be overtaken by keys that were stamped so long before they were written that they are already expired. */
  lemma LeadersCanBeOvertakenByExpiredKeys(cfg: Config) returns (actions: seq<Action>, w: World)
    requires cfg.Valid()
    ensures Leads(cfg, actions, w)
    ensures 1 in w.callers && w.callers[1].pc == Returned(Key([1], 1, Led(Overtaken)))
    ensures |w.installs| == 1 && w.installs[0].stamp + cfg.ttl <= w.callers[1].began
  {
    actions, w := FlightUpToItsStamp(cfg);
    SomeKeysAreValid();
    actions, w := Do(cfg, actions, w, Tick(cfg.ttl));
    actions, w := Do(cfg, actions, w, Enter(1, "k"));
    actions, w := Do(cfg, actions, w, LookUp(1));
    assert w.callers[1] == Caller("k", 1 + cfg.ttl, Missed(0));
    actions, w := Do(cfg, actions, w, Write);
    actions, w := Do(cfg, actions, w, Land);
    assert w.callers[1] == Caller("k", 1 + cfg.ttl, Missed(0)) && w.cache.generation == 1;
    actions, w := LateBoarder(cfg, actions, w);
  }

  /** Caller 1 starts a flight after a refresh it has not seen. */
  lemma LateBoarder(cfg: Config, before: seq<Action>, v: World) returns (actions: seq<Action>, w: World)
    requires Leads(cfg, before, v) && v.flight.None? && 1 in v.callers && v.callers[1].pc == Missed(0)
    requires v.cache.generation == 1 && v.callers[1].keyId in v.cache.keys
    ensures Leads(cfg, actions, w) && w.installs == v.installs && 1 in w.callers && w.callers[1].began == v.callers[1].began
    ensures w.callers[1].pc == Returned(Key(v.cache.keys[v.callers[1].keyId], 1, Led(Overtaken)))
  {
    actions, w := Do(cfg, before, v, Board(1));
    actions, w := Do(cfg, actions, w, ReadClock);
    actions, w := Do(cfg, actions, w, LockedCheck);
    assert w.flight == Some(Flight(1, Landed(Overtaken)));
    actions, w := Do(cfg, actions, w, Land);
    assert w.callers[1].pc == Told(true, Overtaken);
    actions, w := Do(cfg, actions, w, Collect(1));
  }

  /** Caller 2 looks up before the first refresh and starts its flight when the keys of that refresh have expired. */
  lemma StaleLeader(cfg: Config) returns (actions: seq<Action>, w: World)
    requires cfg.Valid()
    ensures Leads(cfg, actions, w) && w.flight == Some(Flight(2, Begun(0))) && w.clock == 1 + cfg.ttl && 1 !in w.callers
    ensures w.cache == Commit(EMPTY_CACHE, cfg, SOME_KEYS, 1) && w.installs == [Install(SOME_KEYS, 1, 1)]
  {
    actions, w := FlightUpToItsStamp(cfg);
    SomeKeysAreValid();
    actions, w := Do(cfg, actions, w, Enter(2, "k"));
    actions, w := Do(cfg, actions, w, LookUp(2));
    assert w.callers[2] == Caller("k", 1, Missed(0)) && w.callers.Keys == {0, 2};
    actions, w := WrittenLandedAndExpired(cfg, actions, w);
    actions, w := Do(cfg, actions, w, Board(2));
  }

  lemma WrittenLandedAndExpired(cfg: Config, before: seq<Action>, v: World) returns (actions: seq<Action>, w: World)
    requires cfg.Valid() && Leads(cfg, before, v) && v.clock == 1 && v.flight == Some(Flight(0, Stamped(Ok(SOME_KEYS), 1)))
    requires v.cache == EMPTY_CACHE && v.installs == [] && v.callers.Keys == {0, 2} && v.callers[2].pc == Missed(0)
    ensures Leads(cfg, actions, w) && w.flight == None && w.clock == 1 + cfg.ttl
    ensures w.callers.Keys == {0, 2} && w.callers[2] == v.callers[2]
    ensures w.cache == Commit(EMPTY_CACHE, cfg, SOME_KEYS, 1) && w.installs == [Install(SOME_KEYS, 1, 1)]
  {
    actions, w := Do(cfg, before, v, Write);
    assert w.installs == [Install(SOME_KEYS, 1, 1)];
    actions, w := Do(cfg, actions, w, Land);
    actions, w := Do(cfg, actions, w, Tick(cfg.ttl));
  }

  /** The flight is overtaken by the refresh its leader has not seen, and its joiner takes the expired keys. */
  lemma JoinersOfOvertakenFlightsCanGetExpiredKeys(cfg: Config) returns (actions: seq<Action>, w: World)
    requires cfg.Valid()
    ensures Leads(cfg, actions, w)
    ensures 1 in w.callers && w.callers[1].pc == Returned(Key([1], 1, Joined(Overtaken)))
    ensures |w.installs| == 1 && w.installs[0].stamp + cfg.ttl <= w.callers[1].began
  {
    actions, w := StaleLeader(cfg);
    actions, w := LateJoiner(cfg, actions, w);
    actions, w := OvertakenJoiner(cfg, actions, w);
  }

  lemma OvertakenJoiner(cfg: Config, before: seq<Action>, v: World) returns (actions: seq<Action>, w: World)
    requires Leads(cfg, before, v) && v.flight == Some(Flight(2, Begun(0))) && v.cache.generation == 1
    requires 1 in v.callers && v.callers[1].pc == Waiting(false) && v.callers[1].keyId in v.cache.keys
    ensures Leads(cfg, actions, w) && w.installs == v.installs && 1 in w.callers && w.callers[1].began == v.callers[1].began
    ensures w.callers[1].pc == Returned(Key(v.cache.keys[v.callers[1].keyId], 1, Joined(Overtaken)))
  {
    actions, w := Do(cfg, before, v, ReadClock);
    actions, w := Do(cfg, actions, w, LockedCheck);
    assert w.flight == Some(Flight(2, Landed(Overtaken)));
    actions, w := Do(cfg, actions, w, Land);
    assert w.callers[1].pc == Told(false, Overtaken);
    actions, w := Do(cfg, actions, w, Collect(1));
  }
}
