/** The inbox: the row that says a message was received and the effects of its handler share one transaction. */
module Inbox {
  import opened Common
  import opened TransactionManager

  datatype Row<M, E> = Received(message: M) | Effect(effect: E)

  /** The callback of `WithInbox`, given the rows its insert can see. */
  function Callback<M(==), E(==)>(visible: seq<Row<M, E>>, message: M, insertFails: bool, handler: Program<Row<M, E>>): Program<Row<M, E>> {
    if insertFails then Fail
    else if Received(message) in visible then Succeed
    else Write(Received(message), handler)
  }

  class Inbox<M(==), E(==)> {
    const manager: Manager<Row<M, E>>

    constructor (manager: Manager<Row<M, E>>)
      ensures this.manager == manager
    {
      this.manager := manager;
    }

    /** What an insert sees: what is committed, and the rows of its own transaction. */
    function Visible(): seq<Row<M, E>>
      reads this, manager
    {
      manager.committed + if manager.tx.Some? then manager.tx.value else []
    }

    /** Outside a transaction the rows afterwards are those of one delivery; inside one, the callback's writes join it. */
    method WithInbox(message: M, handler: Option<Program<Row<M, E>>>, insertFails: bool, d: Driver) returns (status: Status)
      modifies manager
      ensures handler.None? ==>
        status == Failed && manager.tx == old(manager.tx)
        && manager.committed == old(manager.committed) && manager.events == old(manager.events)
      ensures handler.Some? && old(manager.tx).None? ==>
        manager.tx.None?
        && (manager.committed, status) == Deliver(old(manager.committed), Attempt(message, handler.value, insertFails, d))
      ensures handler.Some? && old(manager.tx).Some? ==>
        manager.committed == old(manager.committed) && manager.tx.Some?
        && (manager.tx.value, status) == Eval(Callback(old(Visible()), message, insertFails, handler.value), old(manager.tx.value))
    {
      if handler.None? {
        return Failed;
      }
      assert manager.tx.None? ==> Visible() == manager.committed;
      status := manager.Do(Callback(Visible(), message, insertFails, handler.value), d);
    }
  }

  /** One delivery of a message, with everything that can go wrong in it. */
  datatype Attempt<M, E> = Attempt(message: M, handler: Program<Row<M, E>>, insertFails: bool, driver: Driver)

  function Deliver<M(==), E(==)>(rows: seq<Row<M, E>>, a: Attempt<M, E>): (seq<Row<M, E>>, Status) {
    Outcome(rows, Callback(rows, a.message, a.insertFails, a.handler), a.driver)
  }

  /** What a handled message leaves behind: its row, then the writes of its handler. */
  function Handled<M, E>(a: Attempt<M, E>): seq<Row<M, E>> {
    [Received(a.message)] + Eval(a.handler, []).0
  }

  lemma OneDelivery<M, E>(rows: seq<Row<M, E>>, a: Attempt<M, E>)
    ensures var (after, status) := Deliver(rows, a);
      && (after == rows || (Received(a.message) !in rows && after == rows + Handled(a) && Eval(a.handler, []).1 == Succeeded))
      && (status == Succeeded ==> Received(a.message) in after)
  {
    EvalAppends(a.handler, [] + [Received(a.message)]);
    if Received(a.message) !in rows && Deliver(rows, a).0 != rows {
      assert Deliver(rows, a).0 == rows + Handled(a);
      assert (rows + Handled(a))[|rows|] == Received(a.message);
    }
  }

  /**
   * A delivery succeeds exactly if its transaction and its insert do, the commit is reported, and the message was received
   * before or its handler succeeds now: a redelivery of a handled message is a success.
   */
  lemma DeliveredExactly<M, E>(rows: seq<Row<M, E>>, a: Attempt<M, E>)
    ensures Deliver(rows, a).1 == Succeeded
            <==> && a.driver.begins && !a.insertFails && a.driver.commit == Committed
                 && (Received(a.message) in rows || Eval(a.handler, []).1 == Succeeded)
  {
    EvalAppends(a.handler, [] + [Received(a.message)]);
  }

  /** A delivery leaves something behind exactly if the message is new, its handler succeeds and the commit takes effect. */
  lemma HandledExactly<M, E>(rows: seq<Row<M, E>>, a: Attempt<M, E>)
    ensures Deliver(rows, a).0 == rows + Handled(a)
            <==> && a.driver.begins && !a.insertFails && a.driver.commit != CommitLost
                 && Received(a.message) !in rows && Eval(a.handler, []).1 == Succeeded
  {
    EvalAppends(a.handler, [] + [Received(a.message)]);
    assert |rows + Handled(a)| > |rows|;
  }

  function DeliverAll<M(==), E(==)>(rows: seq<Row<M, E>>, attempts: seq<Attempt<M, E>>): seq<Row<M, E>> {
    if attempts == [] then rows else Deliver(DeliverAll(rows, attempts[..|attempts| - 1]), attempts[|attempts| - 1]).0
  }

  /**
   * However often a message is delivered, whatever its handlers do and however their transactions end, at most one delivery
   * leaves anything behind, and it leaves the row together with all of its handler's writes.
   */
  lemma {:induction false} RedeliveryIsHarmless<M, E>(rows: seq<Row<M, E>>, message: M, attempts: seq<Attempt<M, E>>)
    requires forall a | a in attempts :: a.message == message
    ensures var after := DeliverAll(rows, attempts);
      after == rows
      || (Received(message) !in rows
          && exists a | a in attempts :: after == rows + Handled(a) && Eval(a.handler, []).1 == Succeeded)
  {
    if attempts != [] {
      var init, last := attempts[..|attempts| - 1], attempts[|attempts| - 1];
      RedeliveryIsHarmless(rows, message, init);
      var before := DeliverAll(rows, init);
      OneDelivery(before, last);
      if before != rows {
        var a :| a in init && before == rows + Handled(a) && Eval(a.handler, []).1 == Succeeded;
        assert before[|rows|] == Received(message);
        assert a in attempts;
      }
    }
  }

  /** Once a delivery has reported success, the message has been handled, and later deliveries change nothing. */
  lemma {:induction false} SuccessIsFinal<M, E>(rows: seq<Row<M, E>>, a: Attempt<M, E>, later: seq<Attempt<M, E>>)
    requires Deliver(rows, a).1 == Succeeded && forall b | b in later :: b.message == a.message
    ensures DeliverAll(Deliver(rows, a).0, later) == Deliver(rows, a).0 && Received(a.message) in Deliver(rows, a).0
  {
    OneDelivery(rows, a);
    if later != [] {
      var init, last := later[..|later| - 1], later[|later| - 1];
      SuccessIsFinal(rows, a, init);
      OneDelivery(Deliver(rows, a).0, last);
    }
  }
}
