/** The protocol's end of a delivery is what the inbox and the transaction manager make of it. */
module DeliveryRefinement {
  import TransactionManager
  import Inbox
  import opened Delivery

  type Row = Inbox.Row<Message, Message>

  type Attempt = Inbox.Attempt<Message, Message>

  function ReceivedIn(rows: seq<Row>): set<Message> {
    set r | r in rows && r.Received? :: r.message
  }

  function EffectsIn(rows: seq<Row>): seq<Message> {
    if rows == [] then []
    else
      var init, last := rows[..|rows| - 1], rows[|rows| - 1];
      EffectsIn(init) + if last.Effect? then [last.effect] else []
  }

  /** The inbox rows and effects of a world, as the tables hold them. */
  ghost predicate Represents(rows: seq<Row>, w: World) {
    ReceivedIn(rows) == w.inbox && EffectsIn(rows) == w.effects
  }

  /** The handler of a message writes its effect, and can then still end in any way. */
  predicate HandlesMessage(a: Attempt, m: Message) {
    && a.message == m && a.handler.Write? && a.handler.write == Inbox.Effect(m)
    && TransactionManager.Eval(a.handler.next, []).0 == []
  }

  function EndOf(rows: seq<Row>, a: Attempt): End {
    var (after, status) := Inbox.Deliver(rows, a);
    if status == TransactionManager.Succeeded then Succeeded else if after != rows then FailedAfterCommit else RolledBack
  }

  lemma RowsAppend(rows: seq<Row>, m: Message)
    ensures var longer := rows + [Inbox.Received(m), Inbox.Effect(m)];
      ReceivedIn(longer) == ReceivedIn(rows) + {m} && EffectsIn(longer) == EffectsIn(rows) + [m]
  {
    var one := rows + [Inbox.Received(m)];
    var longer := rows + [Inbox.Received(m), Inbox.Effect(m)];
    assert longer == one + [Inbox.Effect(m)];
    assert longer[..|longer| - 1] == one && one[..|one| - 1] == rows;
    assert forall r | r in longer :: r in rows || r == Inbox.Received(m) || r == Inbox.Effect(m);
    assert forall r | r in rows :: r in longer;
    assert Inbox.Received(m) in longer;
  }

  /** A delivery leaves the rows as they were, or adds the row of a new message and its effect. */
  lemma DeliveredRows(rows: seq<Row>, a: Attempt, m: Message)
    requires HandlesMessage(a, m)
    ensures var after := Inbox.Deliver(rows, a).0;
      after == rows || (m !in ReceivedIn(rows) && ReceivedIn(after) == ReceivedIn(rows) + {m} && EffectsIn(after) == EffectsIn(rows) + [m])
    ensures m in ReceivedIn(rows) ==> Inbox.Deliver(rows, a).0 == rows
    ensures EndOf(rows, a) == RolledBack ==> Inbox.Deliver(rows, a).0 == rows
    ensures Inbox.Deliver(rows, a).0 == rows && m !in ReceivedIn(rows) ==> EndOf(rows, a) == RolledBack
  {
    assert Inbox.Received(m) in rows <==> m in ReceivedIn(rows);
    Inbox.OneDelivery(rows, a);
    TransactionManager.EvalAppends(a.handler.next, [] + [a.handler.write]);
    assert Inbox.Handled(a) == [Inbox.Received(m), Inbox.Effect(m)];
    RowsAppend(rows, m);
  }

  /** Whatever the handler, the transaction and the driver do, the tables and the protocol stay in step. */
  lemma DeliveryEndsAsInTheProtocol(rows: seq<Row>, w: World, s: nat, a: Attempt, cancelled: bool)
    requires s in w.sessions && w.sessions[s].phase.Handling? && SessionInv(w, s) && Represents(rows, w)
    requires HandlesMessage(a, w.log[w.sessions[s].pos])
    ensures Represents(Inbox.Deliver(rows, a).0, AfterFinish(w, s, EndOf(rows, a), cancelled))
  {
    DeliveredRows(rows, a, a.message);
  }

  /** With a sound driver the protocol's success is there to be had: always at a record seen before, else if the handler succeeds. */
  lemma SoundDeliverySucceeds(rows: seq<Row>, w: World, s: nat, a: Attempt)
    requires s in w.sessions && w.sessions[s].phase.Handling? && SessionInv(w, s) && Represents(rows, w)
    requires a.message == w.log[w.sessions[s].pos]
    requires a.driver == TransactionManager.Driver(true, TransactionManager.Committed) && !a.insertFails
    ensures w.sessions[s].phase == Handling(false) ==> EndOf(rows, a) == Succeeded
    ensures w.sessions[s].phase == Handling(true) ==>
      (EndOf(rows, a) == Succeeded <==> TransactionManager.Eval(a.handler, []).1 == TransactionManager.Succeeded)
  {
    var m := a.message;
    assert Inbox.Received(m) in rows <==> m in ReceivedIn(rows);
    Inbox.DeliveredExactly(rows, a);
  }
}
