/** The consumer: it marks a record only after its handler succeeded, and stops at the first one that did not. */
module Consumer {
  import opened Common

  /** What handling one record brings: an error of the handler, and whether the session is cancelled by then. */
  datatype Attempt<+E> = Attempt(error: Option<E>, cancelled: bool)

  /** The number of records a claim marks before it ends, and the error it ends with. */
  function Claim<E>(attempts: seq<Attempt<E>>): (nat, Option<E>) {
    if attempts == [] then (0, None)
    else if attempts[0].error.Some? then (0, if attempts[0].cancelled then None else attempts[0].error)
    else if attempts[0].cancelled then (0, None)
    else (Claim(attempts[1..]).0 + 1, Claim(attempts[1..]).1)
  }

  /** A record whose handling lets the claim go on. */
  predicate GoesOn<E>(a: Attempt<E>) {
    a.error.None? && !a.cancelled
  }

  /** Exactly the longest run of successes is marked; an error is reported if and only if it is what ended it in a live session. */
  lemma {:induction false} MarkedPrefix<E>(attempts: seq<Attempt<E>>)
    ensures var (n, err) := Claim(attempts);
      && n <= |attempts| && (forall i | 0 <= i < n :: GoesOn(attempts[i])) && (n < |attempts| ==> !GoesOn(attempts[n]))
      && err == (if n < |attempts| && !attempts[n].cancelled then attempts[n].error else None)
  {
    if attempts != [] && GoesOn(attempts[0]) {
      MarkedPrefix(attempts[1..]);
      assert forall i | 0 <= i < |attempts| - 1 :: attempts[1..][i] == attempts[i + 1];
    }
  }

  /** What one call of `Consume` brings: the claims in the order in which they end, its own error, and the state afterwards. */
  datatype Round<+E> = Round(claims: seq<seq<Attempt<E>>>, consumeError: Option<ConsumeError>, closed: bool, cancelled: bool)

  datatype ConsumeError = GroupClosed | Broken

  datatype StartError<+E> = NilContext | ConsumerClosed | AlreadyStarted | HandlerError(error: E) | ConsumeFailed

  function FirstError<E>(claims: seq<seq<Attempt<E>>>): Option<E> {
    if claims == [] then None
    else if Claim(claims[0]).1.Some? then Claim(claims[0]).1
    else FirstError(claims[1..])
  }

  /** Whether `Start` ends with this round, and how. */
  function Verdict<E>(r: Round<E>): Option<Option<StartError<E>>> {
    if FirstError(r.claims).Some? then Some(Some(HandlerError(FirstError(r.claims).value)))
    else if r.closed || r.cancelled then Some(None)
    else
      match r.consumeError
      case None => None
      case Some(GroupClosed) => Some(None)
      case Some(Broken) => Some(Some(ConsumeFailed))
  }

  class ConsumerGroupHandler<E> {
    var firstErr: Option<E>

    constructor ()
      ensures firstErr == None
    {
      firstErr := None;
    }

    method Reset()
      modifies this
      ensures firstErr == None
    {
      firstErr := None;
    }

    method SetErr(err: E)
      modifies this
      ensures firstErr == if old(firstErr).None? then Some(err) else old(firstErr)
    {
      if firstErr.None? {
        firstErr := Some(err);
      }
    }

    /** `attempts` are the records delivered until the session is cancelled or the channel closed. */
    method ConsumeClaim(attempts: seq<Attempt<E>>) returns (marked: nat, err: Option<E>)
      modifies this
      ensures (marked, err) == Claim(attempts)
      ensures firstErr == if old(firstErr).None? then err else old(firstErr)
    {
      marked := 0;
      while marked < |attempts|
        invariant marked <= |attempts| && firstErr == old(firstErr)
        invariant Claim(attempts) == (Claim(attempts[marked..]).0 + marked, Claim(attempts[marked..]).1)
      {
        var attempt := attempts[marked];
        assert attempts[marked..][0] == attempt && attempts[marked..][1..] == attempts[marked + 1..];
        if attempt.error.Some? {
          if attempt.cancelled {
            return marked, None;
          }
          SetErr(attempt.error.value);
          return marked, attempt.error;
        }
        if attempt.cancelled {
          return marked, None;
        }
        marked := marked + 1;
      }
      err := None;
    }

    method ConsumeRound(claims: seq<seq<Attempt<E>>>)
      modifies this
      ensures firstErr == if old(firstErr).Some? then old(firstErr) else FirstError(claims)
    {
      for i := 0 to |claims|
        invariant (if old(firstErr).Some? then old(firstErr) else FirstError(claims))
               == (if firstErr.Some? then firstErr else FirstError(claims[i..]))
      {
        assert claims[i..][0] == claims[i] && claims[i..][1..] == claims[i + 1..];
        var _, _ := ConsumeClaim(claims[i]);
      }
      assert claims[|claims|..] == [];
    }
  }

  class Consumer<E> {
    const handler: ConsumerGroupHandler<E>
    var started: bool
    var closed: bool

    constructor ()
      ensures !started && !closed && fresh(handler)
    {
      handler := new ConsumerGroupHandler();
      started, closed := false, false;
    }

    /** What keeps `Start` from starting, checked in this order. */
    function Refusal(hasContext: bool): Option<StartError<E>>
      reads this
    {
      if !hasContext then Some(NilContext)
      else if closed then Some(ConsumerClosed)
      else if started then Some(AlreadyStarted)
      else None
    }

    /**
     * Runs the rounds until one of them is the last; `ended` is none when all of them go on, and the consumer is running.
     * A refused start plays no round and changes nothing; one that ends can be followed by another unless it was closed.
     */
    method Start(hasContext: bool, rounds: seq<Round<E>>) returns (ended: Option<Option<StartError<E>>>, played: nat)
      modifies this, handler
      ensures old(Refusal(hasContext)).Some? ==>
        ended == Some(old(Refusal(hasContext))) && played == 0 && started == old(started) && closed == old(closed)
        && handler.firstErr == old(handler.firstErr)
      ensures old(Refusal(hasContext)).None? ==>
        && played <= |rounds| && (forall i | 0 <= i < played :: Verdict(rounds[i]).None?)
        && (ended.None? ==> played == |rounds| && started)
        && (ended.Some? ==> played < |rounds| && Verdict(rounds[played]) == ended && !started)
        && (closed <==> ended.Some? && rounds[played].closed)
    {
      played := 0;
      if !hasContext {
        return Some(Some(NilContext)), 0;
      }
      if closed {
        return Some(Some(ConsumerClosed)), 0;
      }
      if started {
        return Some(Some(AlreadyStarted)), 0;
      }
      started := true;
      ended := None;
      while played < |rounds| && ended.None?
        invariant played <= |rounds| && forall i | 0 <= i < played :: Verdict(rounds[i]).None?
        invariant ended.Some? ==> played < |rounds| && Verdict(rounds[played]) == ended
        invariant started && (closed <==> ended.Some? && rounds[played].closed)
        decreases |rounds| - played, ended.None?
      {
        var round := rounds[played];
        handler.Reset();
        handler.ConsumeRound(round.claims);
        closed := round.closed;
        if handler.firstErr.Some? {
          ended := Some(Some(HandlerError(handler.firstErr.value)));
        } else if closed || round.cancelled {
          ended := Some(None);
        } else {
          match round.consumeError
          case None => played := played + 1;
          case Some(GroupClosed) => ended := Some(None);
          case Some(Broken) => ended := Some(Some(ConsumeFailed));
        }
      }
      started := ended.None?;
    }
  }

  /** A handler error in a live session always stops the consumer, with the first such error. */
  lemma {:induction false} HandlerErrorStops<E>(claims: seq<seq<Attempt<E>>>, i: nat)
    requires i < |claims| && Claim(claims[i]).1.Some?
    ensures FirstError(claims).Some?
    ensures exists j | 0 <= j <= i :: FirstError(claims) == Claim(claims[j]).1
  {
    if Claim(claims[0]).1.None? {
      HandlerErrorStops(claims[1..], i - 1);
      var j :| 0 <= j <= i - 1 && FirstError(claims[1..]) == Claim(claims[1..][j]).1;
      assert claims[1..][j] == claims[j + 1];
    }
  }

  /** And only a handler error does that: without one the round has no first error. */
  lemma {:induction false} NoFirstErrorWithoutOne<E>(claims: seq<seq<Attempt<E>>>)
    ensures FirstError(claims).None? <==> forall i | 0 <= i < |claims| :: Claim(claims[i]).1.None?
  {
    if claims != [] {
      NoFirstErrorWithoutOne(claims[1..]);
      assert forall i | 1 <= i < |claims| :: claims[i] == claims[1..][i - 1];
      if Claim(claims[0]).1.None? && FirstError(claims[1..]).Some? {
        var i :| 0 <= i < |claims[1..]| && Claim(claims[1..][i]).1.Some?;
        assert claims[i + 1] == claims[1..][i];
      }
    }
  }

  /** What `Start` reports after a round: a handler error before all else, nothing wrong on the way down, and a broken group. */
  lemma ReportedAfter<E>(r: Round<E>)
    ensures var handled := forall i | 0 <= i < |r.claims| :: Claim(r.claims[i]).1.None?;
      var ending := r.closed || r.cancelled;
      && (Verdict(r).Some? && Verdict(r).value.Some? && Verdict(r).value.value.HandlerError? <==> !handled)
      && (Verdict(r) == Some(Some(ConsumeFailed)) <==> handled && !ending && r.consumeError == Some(Broken))
      && (Verdict(r) == Some(None) <==> handled && (ending || r.consumeError == Some(GroupClosed)))
      && (Verdict(r) == None <==> handled && !ending && r.consumeError == None)
  {
    NoFirstErrorWithoutOne(r.claims);
  }

  /** What `Start` refuses: no context before all else, then a closed consumer, then a second start. */
  lemma RefusedExactly<E>(c: Consumer<E>, hasContext: bool)
    ensures c.Refusal(hasContext) == Some(NilContext) <==> !hasContext
    ensures c.Refusal(hasContext) == Some(ConsumerClosed) <==> hasContext && c.closed
    ensures c.Refusal(hasContext) == Some(AlreadyStarted) <==> hasContext && !c.closed && c.started
    ensures c.Refusal(hasContext) == None <==> hasContext && !c.closed && !c.started
  {
  }
}
