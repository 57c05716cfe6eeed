/** The outbox worker: it publishes a claimed batch entry by entry and marks as published exactly what was acknowledged. */
module OutboxWorker {
  import opened Common

  /** What an entry meets: a context cancelled before it, the answer of the broker, and that of marking it failed. */
  datatype Trial = Trial(cancelledBefore: bool, published: bool, cancelledAfter: bool, markedFailed: bool, cancelledThen: bool)
  {
    /** The batch ends here, because the context is cancelled where the worker looks. */
    predicate Stops() {
      cancelledBefore || (!published && (cancelledAfter || (!markedFailed && cancelledThen)))
    }
  }

  /** The entries acknowledged by the broker, in order. */
  function Acknowledged<M>(entries: seq<M>, trials: seq<Trial>): seq<M>
    requires |entries| == |trials|
  {
    if entries == [] then []
    else
      var n := |entries| - 1;
      Acknowledged(entries[..n], trials[..n]) + if trials[n].published then [entries[n]] else []
  }

  predicate AnyStops(trials: seq<Trial>) {
    exists i | 0 <= i < |trials| :: trials[i].Stops()
  }

  /** Every entry that could not be published has been marked failed. */
  predicate AllFinalized(trials: seq<Trial>) {
    forall i | 0 <= i < |trials| :: trials[i].published || trials[i].markedFailed
  }

  /**
   * `claim` is what the repository hands out. `marked` is the one list passed to `MarkPublished`, if it is called: all that
   * was acknowledged and nothing else. The batch counts as full only if nothing is left undone.
   */
  method Process<M>(batchSize: nat, claim: Option<seq<M>>, trials: seq<Trial>, markPublished: bool)
    returns (full: bool, marked: Option<seq<M>>)
    requires claim.Some? ==> |claim.value| == |trials|
    ensures claim.None? ==> !full && marked.None?
    ensures claim.Some? && AnyStops(trials) ==> !full && marked.None?
    ensures claim.Some? && !AnyStops(trials) ==>
      var acknowledged := Acknowledged(claim.value, trials);
      && marked == (if acknowledged == [] then None else Some(acknowledged))
      && full == (claim.value != [] && AllFinalized(trials) && |claim.value| == batchSize && (marked.Some? ==> markPublished))
  {
    if claim.None? {
      return false, None;
    }
    var entries := claim.value;
    if |entries| == 0 {
      return false, None;
    }
    var published := [];
    var finalized := true;
    for i := 0 to |entries|
      invariant !AnyStops(trials[..i])
      invariant published == Acknowledged(entries[..i], trials[..i])
      invariant finalized == AllFinalized(trials[..i])
    {
      assert entries[..i + 1][..i] == entries[..i] && trials[..i + 1][..i] == trials[..i];
      assert forall j | 0 <= j < i :: trials[..i + 1][j] == trials[..i][j];
      var trial := trials[i];
      if trial.cancelledBefore {
        assert trial.Stops();
        return false, None;
      }
      if !trial.published {
        if trial.cancelledAfter {
          assert trial.Stops();
          return false, None;
        }
        if !trial.markedFailed {
          if trial.cancelledThen {
            assert trial.Stops();
            return false, None;
          }
          finalized := false;
          assert !(trials[..i + 1][i].published || trials[..i + 1][i].markedFailed);
        }
      } else {
        published := published + [entries[i]];
      }
    }
    assert entries[..|entries|] == entries && trials[..|trials|] == trials;
    if |published| > 0 {
      if !markPublished {
        return false, Some(published);
      }
      return finalized && |entries| == batchSize, Some(published);
    }
    return finalized && |entries| == batchSize, None;
  }

  /** An entry is passed on as published exactly when the broker acknowledged it. */
  lemma {:induction false} AcknowledgedExactly<M>(entries: seq<M>, trials: seq<Trial>, m: M)
    requires |entries| == |trials|
    ensures m in Acknowledged(entries, trials) <==> exists i | 0 <= i < |entries| :: entries[i] == m && trials[i].published
  {
    if entries != [] {
      var n := |entries| - 1;
      AcknowledgedExactly(entries[..n], trials[..n], m);
      if m in Acknowledged(entries[..n], trials[..n]) {
        var i :| 0 <= i < n && entries[..n][i] == m && trials[..n][i].published;
        assert entries[i] == m && trials[i].published;
      }
      if i :| 0 <= i < n && entries[i] == m && trials[i].published {
        assert entries[..n][i] == m && trials[..n][i].published;
      }
    }
  }

  // ---- Every entry of a finished batch ends in one of three ways ----

  datatype Ending = Acked | MarkedAsFailed | Undone

  function EndingOf(t: Trial): Ending {
    if t.published then Acked else if t.markedFailed then MarkedAsFailed else Undone
  }

  /** How many entries end in this way. */
  function Tally(trials: seq<Trial>, ending: Ending): nat {
    if trials == [] then 0
    else
      var n := |trials| - 1;
      Tally(trials[..n], ending) + if EndingOf(trials[n]) == ending then 1 else 0
  }

  /** The acknowledged entries stand in the order of the batch: each behind as many as were acknowledged before it. */
  lemma {:induction false} AcknowledgedInOrder<M>(entries: seq<M>, trials: seq<Trial>, i: nat)
    requires |entries| == |trials| && i < |entries| && trials[i].published
    ensures var k := Tally(trials[..i], Acked);
      k < |Acknowledged(entries, trials)| && Acknowledged(entries, trials)[k] == entries[i]
  {
    var n := |entries| - 1;
    AcknowledgedCount(entries, trials);
    AcknowledgedCount(entries[..n], trials[..n]);
    if i < n {
      assert trials[..n][..i] == trials[..i];
      AcknowledgedInOrder(entries[..n], trials[..n], i);
    }
  }

  lemma {:induction false} AcknowledgedCount<M>(entries: seq<M>, trials: seq<Trial>)
    requires |entries| == |trials|
    ensures |Acknowledged(entries, trials)| == Tally(trials, Acked)
  {
    if entries != [] {
      var n := |entries| - 1;
      AcknowledgedCount(entries[..n], trials[..n]);
    }
  }

  /** Nothing is left undone exactly if the entries acknowledged and those marked failed add up to the batch. */
  lemma {:induction false} FinalizedExactly<M>(entries: seq<M>, trials: seq<Trial>)
    requires |entries| == |trials|
    ensures AllFinalized(trials) <==> |Acknowledged(entries, trials)| + Tally(trials, MarkedAsFailed) == |trials|
    ensures |Acknowledged(entries, trials)| + Tally(trials, MarkedAsFailed) <= |trials|
  {
    if entries != [] {
      var n := |entries| - 1;
      FinalizedExactly(entries[..n], trials[..n]);
      assert AllFinalized(trials) <==> AllFinalized(trials[..n]) && EndingOf(trials[n]) != Undone by {
        assert forall i | 0 <= i < n :: trials[i] == trials[..n][i];
      }
    }
  }

  /** What the worker sees each time it looks at its context: before an entry, after a failure, and after a failure to mark it. */
  function Looks(t: Trial): seq<bool> {
    [t.cancelledBefore] + (if t.published then [] else [t.cancelledAfter] + if t.markedFailed then [] else [t.cancelledThen])
  }

  /** A batch is given up exactly if some look finds the context cancelled: what happens between the looks goes unnoticed. */
  lemma StopsExactlyWhenSeen(trials: seq<Trial>)
    ensures AnyStops(trials) <==> exists t <- trials :: true in Looks(t)
  {
    assert forall t <- trials :: t.Stops() <==> true in Looks(t);
    if t :| t in trials && true in Looks(t) {
      var i :| 0 <= i < |trials| && trials[i] == t;
      assert trials[i].Stops();
    }
  }
}
