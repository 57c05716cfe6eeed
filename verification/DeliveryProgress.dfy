/** Claims of the consumer as runs of the delivery protocol, and why no reachable state is stuck. */
module DeliveryProgress {
  import opened Common
  import opened Consumer
  import opened Delivery
  import opened OutboxWorker

  ghost predicate Leads(w: World, actions: seq<Action>, t: World) {
    Run(w, actions) == Some(t)
  }

  lemma Do(w: World, before: seq<Action>, u: World, a: Action) returns (actions: seq<Action>, t: World)
    requires Leads(w, before, u) && Next(u, a).Some?
    ensures Leads(w, actions, t) && t == Next(u, a).value
  {
    actions, t := before + [a], Next(u, a).value;
    assert actions[..|actions| - 1] == before;
  }

  lemma {:induction false} Concatenate(w: World, first: seq<Action>, u: World, second: seq<Action>, t: World)
    requires Leads(w, first, u) && Leads(u, second, t)
    ensures Leads(w, first + second, t)
  {
    if second == [] {
      assert first + second == first;
    } else {
      var init := second[..|second| - 1];
      Concatenate(w, first, u, init, Run(u, init).value);
      assert (first + second)[..|first + second| - 1] == first + init;
    }
  }

  // ---- A claim is a run ----

  datatype Handled = Handled(end: End, cancelled: bool)

  /** What the consumer sees of a delivery: every end but a success is an error. */
  function AttemptOf(h: Handled): Attempt<End> {
    Attempt(if h.end == Succeeded then None else Some(h.end), h.cancelled)
  }

  function AttemptsOf(ends: seq<Handled>): (attempts: seq<Attempt<End>>)
    ensures |attempts| == |ends| && forall i | 0 <= i < |ends| :: attempts[i] == AttemptOf(ends[i])
  {
    if ends == [] then [] else [AttemptOf(ends[0])] + AttemptsOf(ends[1..])
  }

  /** The only session of the partition, about to receive a record. */
  predicate Alone(w: World, s: nat, pos: nat) {
    && w.sessions.Keys == {s} && w.sessions[s].pos == pos && w.sessions[s].phase.Idle?
  }

  lemma HandleOne(w: World, s: nat, pos: nat, h: Handled) returns (actions: seq<Action>, t: World)
    requires Alone(w, s, pos) && pos < |w.log|
    ensures Leads(w, actions, t) && t.log == w.log && t.committed == w.committed
    ensures if GoesOn(AttemptOf(h)) then t.sessions == map[s := Session(pos + 1, pos + 1, Idle)] else t.sessions == map[]
    ensures t == w.(inbox := t.inbox, effects := t.effects, sessions := t.sessions)
  {
    actions, t := Do(w, [], w, Insert(s));
    actions, t := Do(w, actions, t, Finish(s, h.end, h.cancelled));
    assert GoesOn(AttemptOf(h)) <==> h.end == Succeeded && !h.cancelled;
    assert s in t.sessions ==> t.sessions == map[s := Session(pos + 1, pos + 1, Idle)];
    assert s !in t.sessions ==> t.sessions == map[];
  }

  /** The records a claim marks are those the protocol marks; a claim that ends early ends its session. */
  lemma {:induction false} ClaimIsARun(w: World, s: nat, pos: nat, ends: seq<Handled>) returns (actions: seq<Action>, t: World)
    requires Alone(w, s, pos) && pos + |ends| <= |w.log|
    ensures Leads(w, actions, t) && t == w.(inbox := t.inbox, effects := t.effects, sessions := t.sessions)
    ensures var n := Claim(AttemptsOf(ends)).0;
      && n <= |ends|
      && (ends == [] ==> t == w)
      && (n == |ends| > 0 ==> t.sessions == map[s := Session(pos + n, pos + n, Idle)])
      && (n < |ends| ==> t.sessions == map[])
    decreases |ends|
  {
    if ends == [] {
      actions, t := [], w;
    } else {
      actions, t := HandleOne(w, s, pos, ends[0]);
      assert AttemptsOf(ends)[1..] == AttemptsOf(ends[1..]);
      if GoesOn(AttemptOf(ends[0])) {
        var rest, u := ClaimIsARun(t, s, pos + 1, ends[1..]);
        Concatenate(w, actions, t, rest, u);
        actions, t := actions + rest, u;
      }
    }
  }

  // ---- A batch is a run ----

  /** How the broker received an entry: unacknowledged, it may have been taken or lost. */
  function ReceiptOf(trial: Trial, taken: bool): Receipt {
    if trial.published then Receipt.Acknowledged else if taken then Unacknowledged else Lost
  }

  /** The entries of a batch that reach the partition, in order. */
  function Taken(entries: seq<Message>, trials: seq<Trial>, taken: seq<bool>): seq<Message>
    requires |entries| == |trials| == |taken|
  {
    if entries == [] then []
    else
      var n := |entries| - 1;
      Taken(entries[..n], trials[..n], taken[..n]) + if ReceiptOf(trials[n], taken[n]) == Lost then [] else [entries[n]]
  }

  /** Publishing a batch is a run of the protocol, after which the worker holds exactly what `Process` collects. */
  lemma {:induction false} BatchIsARun(w: World, worker: nat, entries: seq<Message>, trials: seq<Trial>, taken: seq<bool>)
    returns (actions: seq<Action>, t: World)
    requires |entries| == |trials| == |taken| && (forall m | m in entries :: m in w.stored) && AckedBy(w, worker) == {}
    ensures Leads(w, actions, t) && t == w.(log := t.log, acked := t.acked)
    ensures t.log == w.log + Taken(entries, trials, taken)
    ensures AckedBy(t, worker) == Elements(OutboxWorker.Acknowledged(entries, trials))
    ensures forall other | other != worker :: AckedBy(t, other) == AckedBy(w, other)
    decreases |entries|
  {
    if entries == [] {
      actions, t := [], w;
    } else {
      var n := |entries| - 1;
      actions, t := BatchIsARun(w, worker, entries[..n], trials[..n], taken[..n]);
      var u := t;
      assert entries[n] in entries;
      actions, t := Do(w, actions, u, Publish(worker, entries[n], ReceiptOf(trials[n], taken[n])));
      assert AckedBy(t, worker) == AckedBy(u, worker) + if trials[n].published then {entries[n]} else {};
    }
  }

  /**
   * A batch that nothing stops ends by marking exactly its acknowledged entries, if the marking takes effect. One that is
   * stopped is the run of its entries up to there, and what it had collected is lost like in a crash.
   */
  lemma ProcessIsARun(w: World, worker: nat, entries: seq<Message>, trials: seq<Trial>, taken: seq<bool>, marks: bool)
    returns (actions: seq<Action>, t: World)
    requires |entries| == |trials| == |taken| && (forall m | m in entries :: m in w.stored) && AckedBy(w, worker) == {}
    ensures Leads(w, actions, t) && t.log == w.log + Taken(entries, trials, taken) && AckedBy(t, worker) == {}
    ensures t.published == w.published + if marks then Elements(OutboxWorker.Acknowledged(entries, trials)) else {}
    ensures t == w.(log := t.log, acked := t.acked, published := t.published)
  {
    actions, t := BatchIsARun(w, worker, entries, trials, taken);
    actions, t := Do(w, actions, t, if marks then Action.MarkPublished(worker) else CrashWorker(worker));
  }

  // ---- No reachable state is stuck ----

  lemma {:induction false} CrashAll(w: World) returns (actions: seq<Action>, t: World)
    ensures Leads(w, actions, t) && t == w.(sessions := map[])
    decreases |w.sessions|
  {
    if w.sessions == map[] {
      actions, t := [], w;
    } else {
      var s :| s in w.sessions;
      actions, t := Do(w, [], w, CrashSession(s));
      assert t.sessions.Keys == w.sessions.Keys - {s};
      assert |t.sessions.Keys| < |w.sessions.Keys|;
      var rest, u := CrashAll(t);
      Concatenate(w, actions, t, rest, u);
      actions, t := actions + rest, u;
    }
  }

  /** One worker publishes the first `n` stored messages, acknowledged every one. */
  lemma {:induction false} PublishFirst(w: World, n: nat) returns (actions: seq<Action>, t: World)
    requires n <= |w.stored|
    ensures Leads(w, actions, t) && t == w.(log := t.log, acked := t.acked)
    ensures forall i | 0 <= i < n :: w.stored[i] in AckedBy(t, 0)
    decreases n
  {
    if n == 0 {
      actions, t := [], w;
    } else {
      actions, t := PublishFirst(w, n - 1);
      actions, t := Do(w, actions, t, Publish(0, w.stored[n - 1], Receipt.Acknowledged));
    }
  }

  /** A lone session that succeeds with every record commits the whole partition. */
  lemma CatchUp(w: World) returns (actions: seq<Action>, t: World)
    requires w.sessions == map[] && w.committed <= |w.log|
    ensures Leads(w, actions, t) && t == w.(inbox := t.inbox, effects := t.effects, sessions := t.sessions, committed := |w.log|)
  {
    actions, t := Do(w, [], w, Join(0));
    var n := |w.log| - w.committed;
    var ends := seq(n, _ => Handled(Succeeded, false));
    MarkedPrefix(AttemptsOf(ends));
    assert forall i | 0 <= i < n :: ends[i] == Handled(Succeeded, false) && GoesOn(AttemptsOf(ends)[i]);
    assert t.sessions == map[0 := Session(w.committed, w.committed, Idle)];
    var rest, u := ClaimIsARun(t, 0, w.committed, ends);
    Concatenate(w, actions, t, rest, u);
    actions, t := Do(w, actions + rest, u, CommitOffset(0));
  }

  /** Whatever distinct messages are stored, in whatever order: a run stores them, and nothing else has happened. */
  lemma {:induction false} AnyBacklogIsReachable(messages: seq<Message>) returns (actions: seq<Action>)
    requires Distinct(messages)
    ensures Run(START, actions) == Some(START.(stored := messages))
  {
    actions := [];
    if messages != [] {
      var n := |messages| - 1;
      actions := AnyBacklogIsReachable(messages[..n]);
      var longer := actions + [Store(messages[n])];
      assert longer[..|longer| - 1] == actions && messages[..n] + [messages[n]] == messages;
      actions := longer;
    }
  }

  /**
   * Whatever crashed, was lost or was delivered again before: from every reachable state the protocol can still bring each
   * stored message to exactly one effect.
   */
  lemma CanAlwaysComplete(w: World) returns (actions: seq<Action>, t: World)
    requires Reachable(w)
    ensures Leads(w, actions, t) && t.stored == w.stored && multiset(t.effects) == multiset(w.stored)
  {
    ReachableInv(w);
    actions, t := PublishFirst(w, |w.stored|);
    actions, t := Do(w, actions, t, MarkPublished(0));
    var rest, u := CrashAll(t);
    Concatenate(w, actions, t, rest, u);
    actions, t := actions + rest, u;
    StaysReachable(w, actions, t);
    ExactlyOnce(t);
    rest, u := CatchUp(t);
    Concatenate(w, actions, t, rest, u);
    actions, t := actions + rest, u;
    StaysReachable(w, actions, t);
    QuietMeansComplete(t);
  }

  lemma StaysReachable(w: World, actions: seq<Action>, t: World)
    requires Reachable(w) && Leads(w, actions, t)
    ensures Reachable(t)
  {
    var before: seq<Action> :| Run(START, before) == Some(w);
    Concatenate(START, before, w, actions, t);
    assert Run(START, before + actions) == Some(t);
  }
}
