/**
 * From the outbox over one partition to the inbox: producers, outbox workers and consumer sessions as interleaved steps,
 * with crashes, redelivery, zombie sessions and commits that report failure after taking effect.
 */
module Delivery {
  import opened Common

  /** A message, by its event identifier. */
  type Message = Uuid

  /** A session handles the record at `pos`; `inserted` tells whether its open transaction holds a new inbox row. */
  datatype Phase = Idle | Handling(inserted: bool)

  datatype Session = Session(pos: nat, marked: nat, phase: Phase)

  /**
   * Durable: the outbox rows and the ones marked published, the partition, the committed offset, the inbox and the effects
   * of the handlers. Volatile: what each worker was acknowledged, and the sessions.
   */
  datatype World = World(
    stored: seq<Message>, published: set<Message>, log: seq<Message>, committed: nat, inbox: set<Message>, effects: seq<Message>,
    acked: map<nat, set<Message>>, sessions: map<nat, Session>)

  const START := World([], {}, [], 0, {}, [], map[], map[])

  /** The broker can take a record without acknowledging it. */
  datatype Receipt = Acknowledged | Unacknowledged | Lost

  /** How the transaction of a delivery ends. */
  datatype End = Succeeded | FailedAfterCommit | RolledBack

  datatype Action =
    | Store(m: Message)
    | Publish(worker: nat, m: Message, receipt: Receipt)
    | MarkPublished(worker: nat)
    | CrashWorker(worker: nat)
    | Join(s: nat)
    | Insert(s: nat)
    | Finish(s: nat, end: End, cancelled: bool)
    | CommitOffset(s: nat)
    | CrashSession(s: nat)

  function AckedBy(w: World, worker: nat): set<Message> {
    if worker in w.acked then w.acked[worker] else {}
  }

  /** Another session has an uncommitted inbox row for this message; a second insert waits for it. */
  predicate Contended(w: World, s: nat, m: Message) {
    exists t | t in w.sessions :: t != s && Inserting(w, t) == Some(m)
  }

  /** The message whose new inbox row is in the session's open transaction. */
  function Inserting(w: World, s: nat): Option<Message>
    requires s in w.sessions
  {
    var x := w.sessions[s];
    if x.phase == Handling(true) && x.pos < |w.log| then Some(w.log[x.pos]) else None
  }

  function Next(w: World, a: Action): Option<World> {
    match a
    case Store(m) => if m in w.stored then None else Some(w.(stored := w.stored + [m]))
    case Publish(worker, m, receipt) => if m in w.stored then Some(AfterPublish(w, worker, m, receipt)) else None
    case MarkPublished(worker) => Some(w.(published := w.published + AckedBy(w, worker), acked := w.acked - {worker}))
    case CrashWorker(worker) => Some(w.(acked := w.acked - {worker}))
    case Join(s) =>
      if s in w.sessions then None else Some(w.(sessions := w.sessions[s := Session(w.committed, w.committed, Idle)]))
    case Insert(s) =>
      if s in w.sessions && w.sessions[s].phase.Idle? && w.sessions[s].pos < |w.log| && !Contended(w, s, w.log[w.sessions[s].pos])
      then Some(w.(sessions := w.sessions[s := w.sessions[s].(phase := Handling(w.log[w.sessions[s].pos] !in w.inbox))]))
      else None
    case Finish(s, end, cancelled) =>
      if s in w.sessions && w.sessions[s].phase.Handling? then Some(AfterFinish(w, s, end, cancelled)) else None
    case CommitOffset(s) =>
      if s in w.sessions then Some(w.(committed := Max(w.committed, w.sessions[s].marked))) else None
    case CrashSession(s) => Some(w.(sessions := w.sessions - {s}))
  }

  function AfterPublish(w: World, worker: nat, m: Message, receipt: Receipt): World {
    var log := if receipt == Lost then w.log else w.log + [m];
    var acked := if receipt == Acknowledged then w.acked[worker := AckedBy(w, worker) + {m}] else w.acked;
    w.(log := log, acked := acked)
  }

  /**
   * The inbox row and the effect are committed together or not at all. Only a success in a live session moves on and
   * marks the record; every other end is the end of the session.
   */
  function AfterFinish(w: World, s: nat, end: End, cancelled: bool): World
    requires s in w.sessions
  {
    var x := w.sessions[s];
    var m := Inserting(w, s);
    var db := if m.None? || end == RolledBack then w
      else w.(inbox := w.inbox + {m.value}, effects := w.effects + [m.value]);
    if end == Succeeded && !cancelled then db.(sessions := w.sessions[s := Session(x.pos + 1, x.pos + 1, Idle)])
    else db.(sessions := w.sessions - {s})
  }

  /** A session can take up its record exactly if it is idle and no other one has a new row for the same message open. */
  lemma TakenUpExactly(w: World, s: nat)
    requires s in w.sessions && w.sessions[s].pos < |w.log|
    ensures var m := w.log[w.sessions[s].pos];
      Next(w, Insert(s)).Some? <==>
        && w.sessions[s].phase.Idle?
        && forall t | t in w.sessions && t != s && w.sessions[t].pos < |w.log| ::
             w.log[w.sessions[t].pos] == m ==> w.sessions[t].phase != Handling(true)
  {
    var m := w.log[w.sessions[s].pos];
    assert forall t | t in w.sessions ::
      Inserting(w, t) == Some(m) <==>
      w.sessions[t].phase == Handling(true) && w.sessions[t].pos < |w.log| && w.log[w.sessions[t].pos] == m;
  }

  // ---- The effects, as a function of the partition ----

  /** The messages of a log in the order in which they first occur. */
  function FirstOccurrences(log: seq<Message>): (firsts: seq<Message>)
    ensures forall m :: m in firsts <==> m in log
  {
    if log == [] then []
    else
      var init, last := log[..|log| - 1], log[|log| - 1];
      if last in init then FirstOccurrences(init) else FirstOccurrences(init) + [last]
  }

  lemma {:induction false} FirstOccurrencesDistinct(log: seq<Message>)
    ensures Distinct(FirstOccurrences(log))
  {
    if log != [] {
      var init, last := log[..|log| - 1], log[|log| - 1];
      FirstOccurrencesDistinct(init);
      if last !in init {
        DistinctAppend(FirstOccurrences(init), last);
      }
    }
  }

  /** Records already seen add nothing. */
  lemma {:induction false} FirstOccurrencesSettled(log: seq<Message>, n: nat)
    requires n <= |log| && forall m | m in log :: m in log[..n]
    ensures FirstOccurrences(log) == FirstOccurrences(log[..n])
    decreases |log|
  {
    if n == |log| {
      assert log[..n] == log;
    } else {
      var init := log[..|log| - 1];
      assert init[..n] == log[..n];
      assert log[|log| - 1] in init[..n];
      FirstOccurrencesSettled(init, n);
    }
  }

  lemma FirstOccurrencesNext(log: seq<Message>, n: nat)
    requires n < |log|
    ensures FirstOccurrences(log[..n + 1])
            == if log[n] in log[..n] then FirstOccurrences(log[..n]) else FirstOccurrences(log[..n]) + [log[n]]
  {
    assert log[..n + 1][..n] == log[..n];
  }

  // ---- What holds between any two steps ----

  /** The effects are those of a prefix of the partition, in its order, each message once. */
  ghost predicate InOrder(w: World, reached: nat) {
    reached <= |w.log| && w.effects == FirstOccurrences(w.log[..reached])
  }

  /** The first `n` records have had their effect. */
  ghost predicate Done(w: World, n: nat) {
    n <= |w.log| && forall i | 0 <= i < n :: w.log[i] in w.inbox
  }

  ghost predicate SourcesInv(w: World) {
    && Distinct(w.stored)
    && (forall m | m in w.log :: m in w.stored)
    && (forall m | m in w.published :: m in w.log)
    && (forall k | k in w.acked :: w.acked[k] <= Elements(w.log))
  }

  function Elements(s: seq<Message>): set<Message> {
    set m | m in s
  }

  ghost predicate SessionInv(w: World, s: nat)
    requires s in w.sessions
  {
    var x := w.sessions[s];
    && x.marked <= x.pos && Done(w, x.pos)
    && (x.phase.Handling? ==> x.pos < |w.log|)
    && (x.phase == Handling(true) ==> w.log[x.pos] !in w.inbox)
    && (x.phase == Handling(false) ==> w.log[x.pos] in w.inbox)
  }

  /** No two open transactions hold the same new inbox row. */
  ghost predicate NoClash(w: World) {
    forall s, t | s in w.sessions && t in w.sessions && s != t ::
      Inserting(w, s).Some? && Inserting(w, t).Some? ==> Inserting(w, s) != Inserting(w, t)
  }

  ghost predicate EffectsInv(w: World) {
    w.inbox == Elements(w.effects) && exists reached: nat :: InOrder(w, reached)
  }

  ghost predicate SessionsInv(w: World) {
    && Done(w, w.committed)
    && (forall s | s in w.sessions :: SessionInv(w, s))
    && NoClash(w)
  }

  ghost predicate Inv(w: World) {
    SourcesInv(w) && EffectsInv(w) && SessionsInv(w)
  }

  lemma KeepsSources(w: World, a: Action)
    requires SourcesInv(w) && Next(w, a).Some?
    ensures SourcesInv(Next(w, a).value)
  {
    if a.Store? {
      DistinctAppend(w.stored, a.m);
    }
  }

  /** Steps that neither read nor write the inbox leave the effects where they are, however the partition grows. */
  lemma EffectsStay(w: World, t: World)
    requires EffectsInv(w) && w.log <= t.log && t.inbox == w.inbox && t.effects == w.effects
    ensures EffectsInv(t)
  {
    var reached: nat :| InOrder(w, reached);
    assert t.log[..reached] == w.log[..reached];
    assert InOrder(t, reached);
  }

  /** What lies before a record without effect, but behind the prefix that gave the effects, repeats that prefix. */
  lemma SeenBefore(w: World, reached: nat, pos: nat)
    requires w.inbox == Elements(w.effects) && InOrder(w, reached) && Done(w, pos) && pos < |w.log| && w.log[pos] !in w.inbox
    ensures reached <= pos && forall m | m in w.log[..pos] :: m in w.log[..reached]
  {
    assert forall m :: m in w.effects <==> m in w.log[..reached];
  }

  /** The heart of it: a delivery that commits a new row extends the effects by the next message not yet seen. */
  lemma EffectIsNextInOrder(w: World, pos: nat)
    requires EffectsInv(w) && Done(w, pos) && pos < |w.log| && w.log[pos] !in w.inbox
    ensures FirstOccurrences(w.log[..pos + 1]) == w.effects + [w.log[pos]]
  {
    var reached: nat :| InOrder(w, reached);
    SeenBefore(w, reached, pos);
    assert w.log[..pos][..reached] == w.log[..reached];
    FirstOccurrencesSettled(w.log[..pos], reached);
    FirstOccurrencesNext(w.log, pos);
  }

  lemma FinishKeepsEffects(w: World, s: nat, end: End, cancelled: bool)
    requires EffectsInv(w) && s in w.sessions && w.sessions[s].phase.Handling? && SessionInv(w, s)
    ensures EffectsInv(AfterFinish(w, s, end, cancelled))
  {
    var t, pos := AfterFinish(w, s, end, cancelled), w.sessions[s].pos;
    if Inserting(w, s).None? || end == RolledBack {
      EffectsStay(w, t);
    } else {
      EffectIsNextInOrder(w, pos);
      assert InOrder(t, pos + 1);
    }
  }

  lemma KeepsEffects(w: World, a: Action)
    requires EffectsInv(w) && SessionsInv(w) && Next(w, a).Some?
    ensures EffectsInv(Next(w, a).value)
  {
    if a.Finish? {
      FinishKeepsEffects(w, a.s, a.end, a.cancelled);
    } else {
      EffectsStay(w, Next(w, a).value);
    }
  }

  /** What a session relies on outlives a longer partition and more inbox rows, but for the row it is inserting itself. */
  lemma SessionStays(w: World, t: World, s: nat)
    requires s in w.sessions && s in t.sessions && t.sessions[s] == w.sessions[s] && SessionInv(w, s)
    requires w.log <= t.log && w.inbox <= t.inbox
    requires forall m | m in t.inbox && m !in w.inbox :: Inserting(w, s) != Some(m)
    ensures SessionInv(t, s) && Inserting(t, s) == Inserting(w, s)
  {
  }

  /** All sessions stay as they are, or go. */
  lemma SessionsStay(w: World, t: World)
    requires SessionsInv(w) && w.log <= t.log && t.inbox == w.inbox && t.committed == w.committed
    requires forall s | s in t.sessions :: s in w.sessions && t.sessions[s] == w.sessions[s]
    ensures SessionsInv(t)
  {
    forall s | s in t.sessions ensures SessionInv(t, s) && Inserting(t, s) == Inserting(w, s) {
      SessionStays(w, t, s);
    }
  }

  lemma JoinKeepsSessions(w: World, s: nat)
    requires SessionsInv(w) && s !in w.sessions
    ensures SessionsInv(Next(w, Join(s)).value)
  {
    var t := Next(w, Join(s)).value;
    assert SessionInv(t, s) && Inserting(t, s).None?;
    forall k | k in w.sessions ensures SessionInv(t, k) && Inserting(t, k) == Inserting(w, k) {
      SessionStays(w, t, k);
    }
  }

  lemma InsertKeepsSessions(w: World, s: nat)
    requires SessionsInv(w) && Next(w, Insert(s)).Some?
    ensures SessionsInv(Next(w, Insert(s)).value)
  {
    var t, m := Next(w, Insert(s)).value, w.log[w.sessions[s].pos];
    assert SessionInv(w, s) && SessionInv(t, s);
    forall k | k in w.sessions && k != s
      ensures SessionInv(t, k) && Inserting(t, k) == Inserting(w, k) && Inserting(w, k) != Some(m)
    {
      SessionStays(w, t, k);
    }
    assert Inserting(t, s).Some? ==> Inserting(t, s) == Some(m);
  }

  lemma FinishKeepsSessions(w: World, s: nat, end: End, cancelled: bool)
    requires SessionsInv(w) && s in w.sessions && w.sessions[s].phase.Handling?
    ensures SessionsInv(AfterFinish(w, s, end, cancelled))
  {
    var t := AfterFinish(w, s, end, cancelled);
    assert SessionInv(w, s);
    assert w.inbox <= t.inbox && forall m | m in t.inbox && m !in w.inbox :: Inserting(w, s) == Some(m);
    forall k | k in t.sessions && k != s ensures SessionInv(t, k) && Inserting(t, k) == Inserting(w, k) {
      SessionStays(w, t, k);
    }
    if s in t.sessions {
      assert w.log[w.sessions[s].pos] in t.inbox;
      assert SessionInv(t, s) && Inserting(t, s).None?;
    }
  }

  lemma CommitKeepsSessions(w: World, s: nat)
    requires SessionsInv(w) && s in w.sessions
    ensures SessionsInv(Next(w, CommitOffset(s)).value)
  {
    var t := Next(w, CommitOffset(s)).value;
    assert SessionInv(w, s);
    forall k | k in w.sessions ensures SessionInv(t, k) && Inserting(t, k) == Inserting(w, k) {
      SessionStays(w, t, k);
    }
  }

  lemma KeepsSessions(w: World, a: Action)
    requires SessionsInv(w) && Next(w, a).Some?
    ensures SessionsInv(Next(w, a).value)
  {
    match a
    case Insert(s) => InsertKeepsSessions(w, s);
    case Finish(s, end, cancelled) => FinishKeepsSessions(w, s, end, cancelled);
    case Join(s) => JoinKeepsSessions(w, s);
    case CommitOffset(s) => CommitKeepsSessions(w, s);
    case _ => SessionsStay(w, Next(w, a).value);
  }

  // ---- Runs ----

  function Run(w: World, actions: seq<Action>): Option<World> {
    if actions == [] then Some(w)
    else
      match Run(w, actions[..|actions| - 1])
      case None => None
      case Some(u) => Next(u, actions[|actions| - 1])
  }

  ghost predicate Reachable(w: World) {
    exists actions: seq<Action> :: Run(START, actions) == Some(w)
  }

  lemma {:induction false} RunPreserves(w: World, actions: seq<Action>)
    requires Inv(w) && Run(w, actions).Some?
    ensures Inv(Run(w, actions).value)
  {
    if actions != [] {
      var init, last := actions[..|actions| - 1], actions[|actions| - 1];
      RunPreserves(w, init);
      KeepsSources(Run(w, init).value, last);
      KeepsEffects(Run(w, init).value, last);
      KeepsSessions(Run(w, init).value, last);
    }
  }

  lemma ReachableInv(w: World)
    requires Reachable(w)
    ensures Inv(w)
  {
    assert InOrder(START, 0);
    var actions: seq<Action> :| Run(START, actions) == Some(w);
    RunPreserves(START, actions);
  }

  // ---- The main results ----

  function Count(effects: seq<Message>, m: Message): nat {
    multiset(effects)[m]
  }

  lemma {:induction false} DistinctCounts(s: seq<Message>, m: Message)
    requires Distinct(s)
    ensures Count(s, m) == if m in s then 1 else 0
  {
    if s != [] {
      var init, last := s[..|s| - 1], s[|s| - 1];
      assert s == init + [last];
      DistinctCounts(init, m);
    }
  }

  lemma EffectsAreDistinct(w: World)
    requires EffectsInv(w)
    ensures Distinct(w.effects) && forall m | m in w.effects :: m in w.log
  {
    var reached: nat :| InOrder(w, reached);
    FirstOccurrencesDistinct(w.log[..reached]);
    assert forall m | m in w.effects :: m in w.log[..reached];
  }

  /**
   * Exactly once: every record below the committed offset has had its effect exactly once, no message ever twice, and
   * nothing has an effect that was not stored in the outbox.
   */
  lemma ExactlyOnce(w: World)
    requires Reachable(w)
    ensures w.committed <= |w.log| && forall i | 0 <= i < w.committed :: Count(w.effects, w.log[i]) == 1
    ensures forall m :: Count(w.effects, m) <= 1
    ensures forall m | m in w.effects :: m in w.log && m in w.stored
  {
    ReachableInv(w);
    EffectsAreDistinct(w);
    forall m: Message ensures Count(w.effects, m) == if m in w.effects then 1 else 0 {
      DistinctCounts(w.effects, m);
    }
  }

  /** In order: the effects are the distinct messages of a prefix of the partition, in the order they first occur there. */
  lemma EffectsFollowThePartition(w: World) returns (reached: nat)
    requires Reachable(w)
    ensures reached <= |w.log| && w.effects == FirstOccurrences(w.log[..reached])
  {
    ReachableInv(w);
    var n: nat :| InOrder(w, n);
    reached := n;
  }

  /** Nothing is marked published that did not reach the partition. */
  lemma PublishedIsInTheLog(w: World)
    requires Reachable(w)
    ensures forall m | m in w.published :: m in w.log
  {
    ReachableInv(w);
  }

  /** Once everything stored is published and everything in the partition is committed, each stored message took effect once. */
  lemma QuietMeansComplete(w: World)
    requires Reachable(w) && (forall m | m in w.stored :: m in w.published) && w.committed == |w.log|
    ensures multiset(w.effects) == multiset(w.stored)
  {
    ReachableInv(w);
    EffectsAreDistinct(w);
    forall m: Message ensures multiset(w.effects)[m] == multiset(w.stored)[m] {
      DistinctCounts(w.effects, m);
      DistinctCounts(w.stored, m);
    }
  }
}
