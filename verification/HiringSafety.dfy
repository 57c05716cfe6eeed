/** What every run of the hiring use cases keeps, with any number of applications, offers and failed transactions. */
module HiringSafety {
  import opened Common
  import opened HiringModel

  // ---- The outbox, per aggregate ----

  /** The versions announced for one aggregate, in order. */
  function Versions(outbox: seq<Event>, aggregate: Aggregate): seq<int> {
    if outbox == [] then []
    else
      var n := |outbox| - 1;
      Versions(outbox[..n], aggregate) + if outbox[n].aggregate == aggregate then [outbox[n].version] else []
  }

  lemma VersionsAppend(outbox: seq<Event>, e: Event, aggregate: Aggregate)
    ensures Versions(outbox + [e], aggregate)
            == Versions(outbox, aggregate) + if e.aggregate == aggregate then [e.version] else []
  {
    assert (outbox + [e])[..|outbox|] == outbox;
  }

  ghost predicate CountsTo(versions: seq<int>, n: int) {
    |versions| == n && forall i | 0 <= i < |versions| :: versions[i] == i + 1
  }

  ghost predicate IncreasesUpTo(versions: seq<int>, n: int) {
    && (forall i, j :: 0 <= i < j < |versions| ==> versions[i] < versions[j])
    && (forall i | 0 <= i < |versions| :: 1 <= versions[i] <= n)
  }

  predicate Known(s: Store, aggregate: Aggregate) {
    match aggregate
    case OfferRef(id) => id in s.offers
    case ApplicationRef(id) => id in s.apps
  }

  lemma {:induction false} UnknownHasNoVersions(outbox: seq<Event>, aggregate: Aggregate)
    requires forall e | e in outbox :: e.aggregate != aggregate
    ensures Versions(outbox, aggregate) == []
  {
    if outbox != [] {
      UnknownHasNoVersions(outbox[..|outbox| - 1], aggregate);
    }
  }

  // ---- The invariant ----

  /** Where an accepted offer leaves its application, and what it can only be followed by. */
  predicate Settled(stage: Stage) {
    stage in {Stage.OfferAccepted, Hired, Rejected, Withdrawn}
  }

  ghost predicate Keyed(s: Store) {
    && (forall id | id in s.apps :: s.apps[id].id == id)
    && (forall id | id in s.offers :: s.offers[id].id == id && s.offers[id].applicationId in s.apps)
    && (forall e | e in s.outbox :: Known(s, e.aggregate))
  }

  ghost predicate HistoriesLegal(s: Store) {
    forall id | id in s.apps :: LegalHistory(s.apps[id])
  }

  ghost predicate AcceptedSettled(s: Store)
    requires Keyed(s)
  {
    forall id | id in s.offers :: s.offers[id].status == Accepted ==> Settled(s.apps[s.offers[id].applicationId].stage)
  }

  /** Where an application can be once it has been made an offer. */
  predicate Offered(stage: Stage) {
    stage in {Interview, OfferPending} || Settled(stage)
  }

  ghost predicate OffersOffered(s: Store)
    requires Keyed(s)
  {
    forall id | id in s.offers :: Offered(s.apps[s.offers[id].applicationId].stage)
  }

  ghost predicate OneAccepted(s: Store) {
    forall a, b | a in s.offers && b in s.offers && a != b ::
      s.offers[a].status == Accepted && s.offers[b].status == Accepted ==> s.offers[a].applicationId != s.offers[b].applicationId
  }

  ghost predicate OneActive(s: Store) {
    forall a, b | a in s.apps && b in s.apps && a != b :: !s.apps[a].stage.IsTerminal() && !s.apps[b].stage.IsTerminal() ==>
      s.apps[a].candidateId != s.apps[b].candidateId || s.apps[a].vacancyId != s.apps[b].vacancyId
  }

  ghost predicate OfferEvents(s: Store) {
    forall id | id in s.offers :: CountsTo(Versions(s.outbox, OfferRef(id)), s.offers[id].version)
  }

  ghost predicate AppEvents(s: Store) {
    forall id | id in s.apps :: IncreasesUpTo(Versions(s.outbox, ApplicationRef(id)), s.apps[id].version)
  }

  ghost predicate Inv(s: Store) {
    && Keyed(s) && HistoriesLegal(s) && AcceptedSettled(s) && OffersOffered(s)
    && OneAccepted(s) && OneActive(s) && OfferEvents(s) && AppEvents(s)
  }

  const EMPTY_STORE := Store(map[], map[], [])

  // ---- What use cases write ----

  ghost predicate LegalApp(s: Store, a: Application) {
    if a.id in s.apps then Successor(s.apps[a.id], a)
    else LegalHistory(a) && a.version == 1 && !HasActive(s, a.candidateId, a.vacancyId)
  }

  ghost predicate LegalOffer(s: Store, o: Offer, app: Option<Application>) {
    && o.applicationId in s.apps
    && (if o.id in s.offers
        then var old_ := s.offers[o.id]; old_.applicationId == o.applicationId && o.version == old_.version + 1 && !old_.status.IsTerminal()
        else o.version == 1 && o.status == Draft && Offered(s.apps[o.applicationId].stage))
    && (o.status == Accepted ==>
          app.Some? && app.value.id == o.applicationId && app.value.stage == Stage.OfferAccepted
          && s.apps[o.applicationId].stage == OfferPending)
  }

  /** One legal step of an application, an offer, or both, announced by one event under the version it writes. */
  ghost predicate Legal(s: Store, c: Change) {
    c.Change? ==>
      && (c.app.Some? ==> LegalApp(s, c.app.value))
      && (c.offer.Some? ==>
            LegalOffer(s, c.offer.value, c.app) && c.event.aggregate == OfferRef(c.offer.value.id) && c.event.version == c.offer.value.version)
      && (c.offer.None? ==>
            c.app.Some? && c.event.aggregate == ApplicationRef(c.app.value.id) && c.event.version == c.app.value.version)
      && (c.app.Some? && c.offer.Some? ==> c.app.value.id in s.apps)
  }

  /** A recorded move of a stored application, alone, is legal. */
  lemma MoveIsLegal(s: Store, id: Uuid, target: Stage, actor: Uuid, now: Time, kind: EventKind)
    requires Keyed(s) && id in s.apps && MoveTo(s.apps[id], target, actor, now).Ok?
    ensures Legal(s, Announce(MoveTo(s.apps[id], target, actor, now).value, kind))
  {
    MovesAreRecorded(s.apps[id], target, actor, now);
  }

  lemma ApplyIsLegal(s: Store, c: Command, now: Time)
    requires Keyed(s) && c.Apply? && AttemptApply(s, c, now).Ok? && KeyIsFree(s, c)
    ensures Legal(s, AttemptApply(s, c, now).value)
  {
  }

  lemma CreateIsLegal(s: Store, c: Command, now: Time)
    requires Keyed(s) && c.CreateOffer? && AttemptCreate(s, c, now).Ok? && KeyIsFree(s, c)
    ensures Legal(s, AttemptCreate(s, c, now).value)
  {
    if s.apps[c.appId].stage == Interview {
      MovesAreRecorded(s.apps[c.appId], OfferPending, c.actor, now);
    }
  }

  lemma SendAndExpireAreLegal(s: Store, c: Command, now: Time)
    requires Keyed(s)
    ensures c.SendOffer? && AttemptSend(s, c, now).Ok? ==> Legal(s, AttemptSend(s, c, now).value)
    ensures c.ExpireOffer? && AttemptExpire(s, c, now).Ok? ==> Legal(s, AttemptExpire(s, c, now).value)
  {
  }

  lemma AcceptIsLegal(s: Store, c: Command, now: Time)
    requires Keyed(s) && c.AcceptOffer? && AttemptAccept(s, c, now).Ok?
    ensures Legal(s, AttemptAccept(s, c, now).value)
  {
    MovesAreRecorded(s.apps[s.offers[c.offerId].applicationId], Stage.OfferAccepted, c.actor, now);
  }

  lemma BackIsLegal(s: Store, offerId: Uuid, actor: Uuid, allowed: bool, status: OfferStatus, now: Time)
    requires Keyed(s) && status in {Declined, Revoked} && AttemptBack(s, offerId, actor, allowed, status, now).Ok?
    ensures Legal(s, AttemptBack(s, offerId, actor, allowed, status, now).value)
  {
    MovesAreRecorded(s.apps[s.offers[offerId].applicationId], Interview, actor, now);
  }

  lemma AttemptIsLegal(s: Store, c: Command, now: Time)
    requires Keyed(s) && Attempt(s, c, now).Ok? && KeyIsFree(s, c)
    ensures Legal(s, Attempt(s, c, now).value)
  {
    match c
    case Apply(_, _, _, _, _) => ApplyIsLegal(s, c, now);
    case ChangeStage(id, target, actor, _, _) => MoveIsLegal(s, id, target, actor, now, StageChanged);
    case AssessmentResult(id, passed, actor) =>
      if s.apps[id].stage == TechAssessment {
        MoveIsLegal(s, id, if passed then Interview else Rejected, actor, now, if passed then StageChanged else ApplicationRejected);
      }
    case Reject(id, _, _, actor, _) => MoveIsLegal(s, id, Rejected, actor, now, ApplicationRejected);
    case Withdraw(id, actor, _) => MoveIsLegal(s, id, Withdrawn, actor, now, ApplicationWithdrawn);
    case CreateOffer(_, _, _, _, _, _, _, _) => CreateIsLegal(s, c, now);
    case SendOffer(_, _) => SendAndExpireAreLegal(s, c, now);
    case AcceptOffer(_, _, _) => AcceptIsLegal(s, c, now);
    case DeclineOffer(id, actor, allowed) => BackIsLegal(s, id, actor, allowed, Declined, now);
    case RevokeOffer(id, actor, allowed) => BackIsLegal(s, id, actor, allowed, Revoked, now);
    case ExpireOffer(_) => SendAndExpireAreLegal(s, c, now);
  }

  // ---- Every part is kept ----

  lemma KeepsKeys(s: Store, c: Change)
    requires Keyed(s) && Legal(s, c)
    ensures Keyed(Write(s, c))
  {
  }

  lemma KeepsHistories(s: Store, c: Change)
    requires HistoriesLegal(s) && Legal(s, c)
    ensures HistoriesLegal(Write(s, c))
  {
    if c.Change? && c.app.Some? && c.app.value.id in s.apps {
      SuccessorHistory(s.apps[c.app.value.id], c.app.value);
    }
  }

  /** Stages only change where the change says so; a settled one stays settled, and one made an offer never goes further back. */
  lemma StagesAfter(s: Store, c: Change, id: Uuid)
    requires Keyed(s) && Legal(s, c) && id in s.apps
    ensures var t := Write(s, c);
      && id in t.apps && (Settled(s.apps[id].stage) ==> Settled(t.apps[id].stage))
      && (Offered(s.apps[id].stage) ==> Offered(t.apps[id].stage))
      && (c.Change? && c.app.Some? && c.app.value.id == id ==> t.apps[id] == c.app.value)
  {
  }

  lemma KeepsAcceptedSettled(s: Store, c: Change)
    requires Keyed(s) && AcceptedSettled(s) && Legal(s, c)
    ensures Keyed(Write(s, c)) && AcceptedSettled(Write(s, c))
  {
    KeepsKeys(s, c);
    var t := Write(s, c);
    forall id | id in t.offers && t.offers[id].status == Accepted
      ensures Settled(t.apps[t.offers[id].applicationId].stage)
    {
      StagesAfter(s, c, t.offers[id].applicationId);
    }
  }

  lemma KeepsOffersOffered(s: Store, c: Change)
    requires Keyed(s) && OffersOffered(s) && Legal(s, c)
    ensures Keyed(Write(s, c)) && OffersOffered(Write(s, c))
  {
    KeepsKeys(s, c);
    var t := Write(s, c);
    forall id | id in t.offers ensures Offered(t.apps[t.offers[id].applicationId].stage) {
      StagesAfter(s, c, t.offers[id].applicationId);
    }
  }

  lemma KeepsOneAccepted(s: Store, c: Change)
    requires Keyed(s) && AcceptedSettled(s) && OneAccepted(s) && Legal(s, c)
    ensures OneAccepted(Write(s, c))
  {
    if c.Change? && c.offer.Some? && c.offer.value.status == Accepted {
      var o := c.offer.value;
      assert forall id | id in s.offers && s.offers[id].status == Accepted :: s.offers[id].applicationId != o.applicationId;
    }
  }

  lemma KeepsOneActive(s: Store, c: Change)
    requires Keyed(s) && OneActive(s) && Legal(s, c)
    ensures OneActive(Write(s, c))
  {
    if c.Change? && c.app.Some? && c.app.value.id !in s.apps {
      forall id | id in s.apps ensures !IsActive(s.apps[id], c.app.value.candidateId, c.app.value.vacancyId) {
      }
    }
  }

  lemma KeepsOfferEvents(s: Store, c: Change)
    requires Keyed(s) && OfferEvents(s) && Legal(s, c)
    ensures OfferEvents(Write(s, c))
  {
    if c.Change? {
      forall id | id in Write(s, c).offers
        ensures CountsTo(Versions(s.outbox + [c.event], OfferRef(id)), Write(s, c).offers[id].version)
      {
        VersionsAppend(s.outbox, c.event, OfferRef(id));
        if id !in s.offers {
          UnknownHasNoVersions(s.outbox, OfferRef(id));
        }
      }
    }
  }

  lemma IncreasesAppend(versions: seq<int>, n: int, m: int)
    requires IncreasesUpTo(versions, n) && 0 <= n < m
    ensures IncreasesUpTo(versions, m) && IncreasesUpTo(versions + [m], m)
  {
  }

  lemma KeepsAppEvents(s: Store, c: Change)
    requires Keyed(s) && HistoriesLegal(s) && AppEvents(s) && Legal(s, c)
    ensures AppEvents(Write(s, c))
  {
    if c.Change? {
      forall id | id in Write(s, c).apps
        ensures IncreasesUpTo(Versions(s.outbox + [c.event], ApplicationRef(id)), Write(s, c).apps[id].version)
      {
        VersionsAppend(s.outbox, c.event, ApplicationRef(id));
        if id !in s.apps {
          UnknownHasNoVersions(s.outbox, ApplicationRef(id));
        } else if c.app.Some? && c.app.value.id == id {
          IncreasesAppend(Versions(s.outbox, ApplicationRef(id)), s.apps[id].version, c.app.value.version);
        }
      }
    }
  }

  lemma StepPreserves(s: Store, c: Command, now: Time, tx: TxOutcome)
    requires Inv(s)
    ensures Inv(Step(s, c, now, tx))
  {
    if Attempt(s, c, now).Ok? && KeyIsFree(s, c) {
      var change := Attempt(s, c, now).value;
      AttemptIsLegal(s, c, now);
      KeepsKeys(s, change);
      KeepsHistories(s, change);
      KeepsAcceptedSettled(s, change);
      KeepsOffersOffered(s, change);
      KeepsOneAccepted(s, change);
      KeepsOneActive(s, change);
      KeepsOfferEvents(s, change);
      KeepsAppEvents(s, change);
    }
  }

  // ---- Runs ----

  datatype Call = Call(command: Command, now: Time, tx: TxOutcome)

  function Run(s: Store, calls: seq<Call>): Store {
    if calls == [] then s
    else
      var last := calls[|calls| - 1];
      Step(Run(s, calls[..|calls| - 1]), last.command, last.now, last.tx)
  }

  lemma {:induction false} RunPreserves(s: Store, calls: seq<Call>)
    requires Inv(s)
    ensures Inv(Run(s, calls))
  {
    if calls != [] {
      var init, last := calls[..|calls| - 1], calls[|calls| - 1];
      RunPreserves(s, init);
      StepPreserves(Run(s, init), last.command, last.now, last.tx);
    }
  }

  /** Records stay, a terminal offer or application stays as it is, and histories and the outbox only grow. */
  ghost predicate Extends(s: Store, t: Store) {
    && s.outbox <= t.outbox
    && (forall id | id in s.offers :: id in t.offers && t.offers[id].applicationId == s.offers[id].applicationId
          && s.offers[id].version <= t.offers[id].version && (s.offers[id].status.IsTerminal() ==> t.offers[id] == s.offers[id]))
    && (forall id | id in s.apps :: id in t.apps && s.apps[id].history <= t.apps[id].history
          && (s.apps[id].stage.IsTerminal() ==> t.apps[id] == s.apps[id]))
  }

  lemma LegalExtends(s: Store, c: Change)
    requires Keyed(s) && Legal(s, c)
    ensures Extends(s, Write(s, c))
  {
  }

  lemma StepExtends(s: Store, c: Command, now: Time, tx: TxOutcome)
    requires Inv(s)
    ensures Extends(s, Step(s, c, now, tx))
  {
    if Attempt(s, c, now).Ok? && KeyIsFree(s, c) {
      AttemptIsLegal(s, c, now);
      LegalExtends(s, Attempt(s, c, now).value);
    }
  }

  lemma {:induction false} RunExtends(s: Store, calls: seq<Call>)
    requires Inv(s)
    ensures Extends(s, Run(s, calls))
  {
    if calls != [] {
      var init, last := calls[..|calls| - 1], calls[|calls| - 1];
      RunExtends(s, init);
      RunPreserves(s, init);
      StepExtends(Run(s, init), last.command, last.now, last.tx);
      ExtendsTransitive(s, Run(s, init), Run(s, calls));
    }
  }

  lemma ExtendsTransitive(s: Store, t: Store, u: Store)
    requires Extends(s, t) && Extends(t, u)
    ensures Extends(s, u)
  {
  }

  // ---- The main results, over all runs from the empty store ----

  ghost predicate Reachable(s: Store) {
    exists calls: seq<Call> :: Run(EMPTY_STORE, calls) == s
  }

  lemma ReachableInv(s: Store)
    requires Reachable(s)
    ensures Inv(s)
  {
    var calls: seq<Call> :| Run(EMPTY_STORE, calls) == s;
    RunPreserves(EMPTY_STORE, calls);
  }

  /** No application ever has two accepted offers, and its stage stays past the acceptance whatever happens later. */
  lemma AcceptedOnceAndForever(s: Store, calls: seq<Call>, offer: Uuid)
    requires Reachable(s) && offer in s.offers && s.offers[offer].status == Accepted
    ensures var t, app := Run(s, calls), s.offers[offer].applicationId;
      && offer in t.offers && t.offers[offer] == s.offers[offer]
      && app in t.apps && Settled(t.apps[app].stage)
      && forall other | other in t.offers && other != offer && t.offers[other].applicationId == app :: t.offers[other].status != Accepted
  {
    ReachableInv(s);
    RunPreserves(s, calls);
    RunExtends(s, calls);
  }

  /** Every reachable application carries its whole legal path, and a hired one went all the way. */
  lemma ReachableHistory(s: Store, id: Uuid)
    requires Reachable(s) && id in s.apps
    ensures LegalHistory(s.apps[id])
    ensures forall i: nat | i < |s.apps[id].history| - 1 :: !s.apps[id].history[i].toStage.IsTerminal()
    ensures s.apps[id].stage == Hired ==>
      exists places :: Visits(s.apps[id].history, [Applied, Screening, Interview, OfferPending, Stage.OfferAccepted, Hired], places)
  {
    ReachableInv(s);
    var a := s.apps[id];
    forall i: nat | i < |a.history| - 1 ensures !a.history[i].toStage.IsTerminal() {
      TerminalOnlyAtTheEnd(a, i);
    }
    if a.stage == Hired {
      var places := HiredTheWholeWay(a);
    }
  }

  /** A candidate has at most one application to a vacancy that is still going on. */
  lemma OneActiveApplication(s: Store, a: Uuid, b: Uuid)
    requires Reachable(s) && a in s.apps && b in s.apps
    requires IsActive(s.apps[a], s.apps[b].candidateId, s.apps[b].vacancyId) && !s.apps[b].stage.IsTerminal()
    ensures a == b
  {
    ReachableInv(s);
  }

  /**
   * The outbox conserves versions: an offer's events carry 1 to its version, none missing, doubled or out of order, although
   * expired copies are changed and then dropped; an application's are strictly increasing and within its version.
   */
  lemma OutboxConservesVersions(s: Store)
    requires Reachable(s)
    ensures forall id | id in s.offers :: CountsTo(Versions(s.outbox, OfferRef(id)), s.offers[id].version)
    ensures forall id | id in s.apps :: IncreasesUpTo(Versions(s.outbox, ApplicationRef(id)), s.apps[id].version)
    ensures forall e | e in s.outbox :: Known(s, e.aggregate)
  {
    ReachableInv(s);
  }
}
