/** When an offer can still be answered, and how one comes to be stranded. */
module HiringOffers {
  import opened Common
  import opened HiringModel
  import opened HiringSafety
  import Text

  /** Who may answer, and names an offer to answer. */
  predicate MayAnswer(offer: Uuid, actor: Uuid, allowed: bool) {
    offer != NIL_UUID && actor != NIL_UUID && allowed
  }

  predicate AtStage(s: Store, offer: Uuid, stage: Stage)
    requires offer in s.offers && s.offers[offer].applicationId in s.apps
  {
    s.apps[s.offers[offer].applicationId].stage == stage
  }

  /** The application of an offer is never before its interviews. */
  lemma ReachableOffer(s: Store, offer: Uuid)
    requires Reachable(s) && offer in s.offers
    ensures s.offers[offer].applicationId in s.apps && Offered(s.apps[s.offers[offer].applicationId].stage)
  {
    ReachableInv(s);
  }

  lemma BackExactly(s: Store, offer: Uuid, actor: Uuid, allowed: bool, status: OfferStatus, now: Time)
    requires offer in s.offers && s.offers[offer].applicationId in s.apps && status in {Declined, Revoked}
    requires Offered(s.apps[s.offers[offer].applicationId].stage)
    ensures AttemptBack(s, offer, actor, allowed, status, now).Ok?
            <==> MayAnswer(offer, actor, allowed) && AtStage(s, offer, OfferPending)
                 && (s.offers[offer].status == Sent || (status == Revoked && s.offers[offer].status == Draft))
  {
  }

  /**
   * An offer can be answered exactly while it is sent and its application stands at the pending offer: accepted until it is
   * due, declined at any time; and exactly then, or as a draft, it can be revoked.
   */
  lemma AnswerableExactly(s: Store, offer: Uuid, actor: Uuid, allowed: bool, now: Time)
    requires Reachable(s) && offer in s.offers
    ensures s.offers[offer].applicationId in s.apps
    ensures var o := s.offers[offer];
      var open := MayAnswer(offer, actor, allowed) && AtStage(s, offer, OfferPending);
      && (Attempt(s, AcceptOffer(offer, actor, allowed), now).Ok? <==> open && o.status == Sent && !o.IsExpired(now))
      && (Attempt(s, DeclineOffer(offer, actor, allowed), now).Ok? <==> open && o.status == Sent)
      && (Attempt(s, RevokeOffer(offer, actor, allowed), now).Ok? <==> open && o.status in {Draft, Sent})
      && (Attempt(s, ExpireOffer(offer), now).Ok? <==> offer != NIL_UUID && o.status == Sent && o.IsExpired(now))
  {
    ReachableOffer(s, offer);
    BackExactly(s, offer, actor, allowed, Declined, now);
    BackExactly(s, offer, actor, allowed, Revoked, now);
    AcceptExactly(s, offer, actor, allowed, now);
  }

  lemma AcceptExactly(s: Store, offer: Uuid, actor: Uuid, allowed: bool, now: Time)
    requires offer in s.offers && s.offers[offer].applicationId in s.apps
    ensures AttemptAccept(s, AcceptOffer(offer, actor, allowed), now).Ok?
            <==> MayAnswer(offer, actor, allowed) && AtStage(s, offer, OfferPending)
                 && s.offers[offer].status == Sent && !s.offers[offer].IsExpired(now)
  {
  }

  /** Sent, but beyond any answer: at every stage but that of the pending offer. */
  ghost predicate Stranded(s: Store, offer: Uuid) {
    && offer in s.offers && s.offers[offer].status == Sent && s.offers[offer].applicationId in s.apps
    && !AtStage(s, offer, OfferPending)
  }

  /** Whoever tries, and whenever: a stranded offer can only expire. */
  lemma StrandedOffer(s: Store, offer: Uuid, actor: Uuid, allowed: bool, now: Time)
    requires Reachable(s) && Stranded(s, offer)
    ensures Attempt(s, AcceptOffer(offer, actor, allowed), now).Err?
    ensures Attempt(s, DeclineOffer(offer, actor, allowed), now).Err?
    ensures Attempt(s, RevokeOffer(offer, actor, allowed), now).Err?
  {
    AnswerableExactly(s, offer, actor, allowed, now);
  }

  /** An answered offer takes its application away from the pending offer; the other offers stay as they are. */
  lemma AfterAnswer(s: Store, change: Change, offer: Uuid, other: Uuid)
    requires Keyed(s) && Legal(s, change) && change.Change? && change.offer.Some? && change.offer.value.id == offer
    requires change.app.Some? && change.app.value.id == change.offer.value.applicationId && change.app.value.stage != OfferPending
    requires other in s.offers && other != offer && s.offers[other].status == Sent
    requires s.offers[other].applicationId == change.offer.value.applicationId
    ensures Stranded(Write(s, change), other)
  {
  }

  lemma AcceptanceStrands(s: Store, c: Command, other: Uuid, now: Time)
    requires Keyed(s) && c.AcceptOffer? && AttemptAccept(s, c, now).Ok?
    requires other in s.offers && other != c.offerId && s.offers[other].status == Sent
    requires s.offers[c.offerId].applicationId == s.offers[other].applicationId
    ensures Stranded(Write(s, AttemptAccept(s, c, now).value), other)
  {
    AcceptIsLegal(s, c, now);
    AfterAnswer(s, AttemptAccept(s, c, now).value, c.offerId, other);
  }

  lemma WayBackStrands(s: Store, offer: Uuid, actor: Uuid, allowed: bool, status: OfferStatus, other: Uuid, now: Time)
    requires Keyed(s) && status in {Declined, Revoked} && AttemptBack(s, offer, actor, allowed, status, now).Ok?
    requires other in s.offers && other != offer && s.offers[other].status == Sent
    requires s.offers[offer].applicationId == s.offers[other].applicationId
    ensures Stranded(Write(s, AttemptBack(s, offer, actor, allowed, status, now).value), other)
  {
    BackIsLegal(s, offer, actor, allowed, status, now);
    AfterAnswer(s, AttemptBack(s, offer, actor, allowed, status, now).value, offer, other);
  }

  /** Answering one of two sent offers, or revoking it, strands the other. */
  lemma AnsweringStrandsTheOther(s: Store, c: Command, other: Uuid, now: Time)
    requires c.AcceptOffer? || c.DeclineOffer? || c.RevokeOffer?
    requires Reachable(s) && Attempt(s, c, now).Ok? && other in s.offers && other != c.offerId && s.offers[other].status == Sent
    requires c.offerId in s.offers && s.offers[c.offerId].applicationId == s.offers[other].applicationId
    ensures Reachable(Step(s, c, now, Committed)) && Stranded(Step(s, c, now, Committed), other)
  {
    ReachableInv(s);
    StepIsReachable(s, c, now);
    match c
    case AcceptOffer(_, _, _) => AcceptanceStrands(s, c, other, now);
    case DeclineOffer(offer, actor, allowed) => WayBackStrands(s, offer, actor, allowed, Declined, other, now);
    case RevokeOffer(offer, actor, allowed) => WayBackStrands(s, offer, actor, allowed, Revoked, other, now);
  }

  lemma StepIsReachable(s: Store, c: Command, now: Time)
    requires Reachable(s)
    ensures Reachable(Step(s, c, now, Committed))
  {
    var calls: seq<Call> :| Run(EMPTY_STORE, calls) == s;
    var longer := calls + [Call(c, now, Committed)];
    assert longer[..|calls|] == calls;
    assert Run(EMPTY_STORE, longer) == Step(s, c, now, Committed);
  }

  /** One more use case that commits. */
  lemma Do(s: Store, c: Command) returns (t: Store)
    requires Reachable(s)
    ensures Reachable(t) && t == Step(s, c, 0, Committed)
  {
    t := Step(s, c, 0, Committed);
    StepIsReachable(s, c, 0);
  }

  /** The one application of the run, at this stage. */
  predicate OnlyApplication(s: Store, stage: Stage) {
    s.apps.Keys == {1} && s.apps[1].id == 1 && s.apps[1].stage == stage
  }

  lemma ApplyOnce() returns (s: Store)
    ensures Reachable(s) && OnlyApplication(s, Applied) && s.offers == map[]
  {
    assert Run(EMPTY_STORE, []) == EMPTY_STORE;
    s := Do(EMPTY_STORE, Apply(1, 1, 1, 1, true));
  }

  lemma MoveOnce(s: Store, stage: Stage, target: Stage) returns (t: Store)
    requires Reachable(s) && OnlyApplication(s, stage) && CanTransition(stage, target) && target != OfferPending
    ensures Reachable(t) && OnlyApplication(t, target) && t.offers == s.offers
  {
    t := Do(s, ChangeStage(1, target, 1, true, false));
  }

  lemma CreateOnce(s: Store, stage: Stage, offer: Uuid) returns (t: Store)
    requires Reachable(s) && stage in {Interview, OfferPending} && OnlyApplication(s, stage)
    requires offer !in s.offers && offer != NIL_UUID
    ensures Reachable(t) && OnlyApplication(t, OfferPending)
    ensures offer in t.offers && t.offers == s.offers[offer := t.offers[offer]]
    ensures t.offers[offer] == Offer(offer, 1, 1, "RUB", "A", Draft, MIN_OFFER_DURATION, 1, 0, 0)
  {
    assert Text.TrimSpace("A") == "A";
    t := Do(s, CreateOffer(offer, 1, 1, "RUB", "A", MIN_OFFER_DURATION, 1, true));
  }

  lemma SendOnce(s: Store, offer: Uuid) returns (t: Store)
    requires Reachable(s) && offer in s.offers && offer != NIL_UUID && s.offers[offer].id == offer
    requires s.offers[offer].status == Draft && !s.offers[offer].IsExpired(0)
    ensures Reachable(t) && t.apps == s.apps && t.offers == s.offers[offer := s.offers[offer].Become(Sent, 0)]
  {
    t := Do(s, SendOffer(offer, true));
  }

  /** From the empty store: two offers are sent, one is declined, and the other is stranded. */
  lemma StrandingIsReachable() returns (s: Store)
    ensures Reachable(s) && Stranded(s, 2)
  {
    s := ApplyOnce();
    s := MoveOnce(s, Applied, Screening);
    s := MoveOnce(s, Screening, Interview);
    s := CreateOnce(s, Interview, 1);
    s := CreateOnce(s, OfferPending, 2);
    s := SendOnce(s, 1);
    s := SendOnce(s, 2);
    AnswerableExactly(s, 1, 1, true, 0);
    AnsweringStrandsTheOther(s, DeclineOffer(1, 1, true), 2, 0);
    s := Step(s, DeclineOffer(1, 1, true), 0, Committed);
  }
}
