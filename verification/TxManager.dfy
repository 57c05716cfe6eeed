/** The transaction manager: the outermost call owns the transaction, nested calls join it. */
module TransactionManager {
  import opened Common

  /** What a callback does with the database `W` writes to; a nested `Do` is followed by what its caller makes of its error. */
  datatype Program<W> =
    | Succeed
    | Fail
    | Panic
    | Write(write: W, next: Program<W>)
    | Nested(inner: Program<W>, onError: Program<W>, onSuccess: Program<W>)

  datatype Status = Succeeded | Failed | Panicked

  /** The writes of a callback, nested ones included, and how it ends. A nested error undoes nothing. */
  function Eval<W>(p: Program<W>, work: seq<W>): (seq<W>, Status) {
    match p
    case Succeed => (work, Succeeded)
    case Fail => (work, Failed)
    case Panic => (work, Panicked)
    case Write(w, next) => Eval(next, work + [w])
    case Nested(inner, onError, onSuccess) =>
      var (after, status) := Eval(inner, work);
      match status
      case Succeeded => Eval(onSuccess, after)
      case Failed => Eval(onError, after)
      case Panicked => (after, Panicked)
  }

  /** Writes only accumulate, and do not depend on those before. */
  lemma {:induction false} EvalAppends<W>(p: Program<W>, work: seq<W>)
    ensures Eval(p, work).0 == work + Eval(p, []).0 && Eval(p, work).1 == Eval(p, []).1
  {
    match p
    case Succeed =>
    case Fail =>
    case Panic =>
    case Write(w, next) =>
      EvalAppends(next, work + [w]);
      EvalAppends(next, [] + [w]);
      assert Eval(p, work) == Eval(next, work + [w]) && Eval(p, []) == Eval(next, [] + [w]);
      assert work + [w] + Eval(next, []).0 == work + ([] + [w] + Eval(next, []).0);
    case Nested(inner, onError, onSuccess) =>
      EvalAppends(inner, work);
      var (after, status) := Eval(inner, []);
      if status == Succeeded {
        EvalAppends(onSuccess, work + after);
        EvalAppends(onSuccess, after);
        assert work + after + Eval(onSuccess, []).0 == work + (after + Eval(onSuccess, []).0);
      } else if status == Failed {
        EvalAppends(onError, work + after);
        EvalAppends(onError, after);
        assert work + after + Eval(onError, []).0 == work + (after + Eval(onError, []).0);
      }
  }

  /** What the driver answers: a commit that reports failure may have taken effect. */
  datatype Driver = Driver(begins: bool, commit: CommitOutcome)

  datatype CommitOutcome = Committed | CommittedUnreported | CommitLost

  datatype TxEvent = Begin | Commit | Rollback

  /** What a call leaves in the database, and how it ends for its caller. */
  function Outcome<W>(committed: seq<W>, p: Program<W>, d: Driver): (seq<W>, Status) {
    if !d.begins then (committed, Failed)
    else
      var (writes, status) := Eval(p, []);
      if status != Succeeded then (committed, status)
      else if d.commit == CommitLost then (committed, Failed)
      else (committed + writes, if d.commit == Committed then Succeeded else Failed)
  }

  class Manager<W> {
    var committed: seq<W>
    var tx: Option<seq<W>>
    var events: seq<TxEvent>

    constructor ()
      ensures committed == [] && tx == None && events == []
    {
      committed, tx, events := [], None, [];
    }

    /** Runs a callback against the transaction of its context. */
    method Execute(p: Program<W>, d: Driver) returns (status: Status)
      requires tx.Some?
      modifies this
      ensures tx == Some(Eval(p, old(tx.value)).0) && status == Eval(p, old(tx.value)).1
      ensures committed == old(committed) && events == old(events)
      decreases p, 0
    {
      match p
      case Succeed => status := Succeeded;
      case Fail => status := Failed;
      case Panic => status := Panicked;
      case Write(w, next) =>
        tx := Some(tx.value + [w]);
        status := Execute(next, d);
      case Nested(inner, onError, onSuccess) =>
        status := Do(inner, d);
        match status
        case Succeeded => status := Execute(onSuccess, d);
        case Failed => status := Execute(onError, d);
        case Panicked =>
    }

    /**
     * A call without a transaction in its context begins one and ends it exactly once, whatever its callback nests; a call
     * with one neither begins, commits nor rolls back.
     */
    method Do(p: Program<W>, d: Driver) returns (status: Status)
      modifies this
      ensures old(tx).Some? ==>
        tx == Some(Eval(p, old(tx.value)).0) && status == Eval(p, old(tx.value)).1
        && committed == old(committed) && events == old(events)
      ensures old(tx).None? ==> tx == None && (committed, status) == Outcome(old(committed), p, d)
      ensures old(tx).None? ==>
        events == old(events) + if !d.begins then [] else if Eval(p, []).1 == Succeeded then [Begin, Commit] else [Begin, Rollback]
      decreases p, 1
    {
      if tx.Some? {
        status := Execute(p, d);
        return;
      }
      if !d.begins {
        return Failed;
      }
      events := events + [Begin];
      tx := Some([]);
      status := Execute(p, d);
      if status == Panicked || status == Failed {
        events := events + [Rollback];
        tx := None;
        return;
      }
      events := events + [Commit];
      if d.commit != CommitLost {
        committed := committed + tx.value;
      }
      tx := None;
      if d.commit != Committed {
        status := Failed;
      }
    }
  }

  // ---- Joining, by the text of the program ----

  /** A program followed by another one where it succeeds, and by a third where it fails. */
  function Splice<W>(p: Program<W>, onError: Program<W>, onSuccess: Program<W>): Program<W> {
    match p
    case Succeed => onSuccess
    case Fail => onError
    case Panic => Panic
    case Write(w, next) => Write(w, Splice(next, onError, onSuccess))
    case Nested(inner, e, s) => Nested(inner, Splice(e, onError, onSuccess), Splice(s, onError, onSuccess))
  }

  /** The program with its nested calls replaced by their callbacks. */
  function Inline<W>(p: Program<W>): Program<W> {
    match p
    case Write(w, next) => Write(w, Inline(next))
    case Nested(inner, onError, onSuccess) => Splice(Inline(inner), Inline(onError), Inline(onSuccess))
    case _ => p
  }

  predicate IsFlat<W>(p: Program<W>) {
    match p
    case Write(_, next) => IsFlat(next)
    case Nested(_, _, _) => false
    case _ => true
  }

  lemma {:induction false} SpliceFlat<W>(p: Program<W>, onError: Program<W>, onSuccess: Program<W>, work: seq<W>)
    requires IsFlat(p) && IsFlat(onError) && IsFlat(onSuccess)
    ensures IsFlat(Splice(p, onError, onSuccess))
    ensures var (after, status) := Eval(p, work);
      Eval(Splice(p, onError, onSuccess), work)
      == if status == Succeeded then Eval(onSuccess, after) else if status == Failed then Eval(onError, after) else (after, Panicked)
  {
    match p
    case Write(w, next) => SpliceFlat(next, onError, onSuccess, work + [w]);
    case Succeed =>
    case Fail =>
    case Panic =>
  }

  /** A nested call is as good as its callback written in its place: joining adds nothing and hides nothing. */
  lemma {:induction false} InliningKeepsMeaning<W>(p: Program<W>, work: seq<W>)
    ensures IsFlat(Inline(p)) && Eval(Inline(p), work) == Eval(p, work)
  {
    match p
    case Write(w, next) => InliningKeepsMeaning(next, work + [w]);
    case Nested(inner, onError, onSuccess) =>
      InliningKeepsMeaning(inner, work);
      var after := Eval(inner, work).0;
      InliningKeepsMeaning(onError, after);
      InliningKeepsMeaning(onSuccess, after);
      SpliceFlat(Inline(inner), Inline(onError), Inline(onSuccess), work);
    case Succeed =>
    case Fail =>
    case Panic =>
  }

  /** The writes of a flat program, in order, and its end. */
  function Flattened<W>(writes: seq<W>, end: Status): Program<W> {
    if writes != [] then Write(writes[0], Flattened(writes[1..], end))
    else match end case Succeeded => Succeed case Failed => Fail case Panicked => Panic
  }

  /** A program that makes these writes and ends like this leaves all of them exactly if it succeeds and the commit takes effect. */
  lemma {:induction false} FlatOutcome<W>(committed: seq<W>, writes: seq<W>, end: Status, d: Driver)
    ensures Eval(Flattened(writes, end), []) == (writes, end)
    ensures Outcome(committed, Flattened(writes, end), d).0
            == if d.begins && end == Succeeded && d.commit != CommitLost then committed + writes else committed
    ensures Outcome(committed, Flattened(writes, end), d).1 == Succeeded
            <==> d.begins && end == Succeeded && d.commit == Committed
    ensures Outcome(committed, Flattened(writes, end), d).1 == Panicked <==> d.begins && end == Panicked
  {
    EvalFlattened(writes, end, []);
    assert [] + writes == writes;
  }

  lemma {:induction false} EvalFlattened<W>(writes: seq<W>, end: Status, work: seq<W>)
    ensures Eval(Flattened(writes, end), work) == (work + writes, end)
  {
    if writes != [] {
      EvalFlattened(writes[1..], end, work + [writes[0]]);
      assert work + [writes[0]] + writes[1..] == work + writes;
    } else {
      assert work + writes == work;
    }
  }

  /**
   * A nested call is not atomic by itself: when it fails, its writes stay exactly if the outermost call commits after
   * all, because the caller of the nested one went on.
   */
  lemma NestedWritesFollowTheOutermost<W>(committed: seq<W>, inner: Program<W>, onError: Program<W>, onSuccess: Program<W>, d: Driver)
    requires d.begins && Eval(inner, []).1 == Failed
    ensures var after := Outcome(committed, Nested(inner, onError, onSuccess), d).0;
      if Eval(onError, []).1 == Succeeded && d.commit != CommitLost
      then after == committed + Eval(inner, []).0 + Eval(onError, []).0
      else after == committed
  {
    EvalAppends(onError, Eval(inner, []).0);
  }
}
