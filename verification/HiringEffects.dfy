/** What each hiring use case needs, and what it achieves in the store when its transaction commits. */
module HiringEffects {
  import opened Common
  import opened HiringModel
  import opened HiringSafety
  import Text

  /** The pipeline: one way forward, a choice after the screening, a way back from the offer, and a way out everywhere. */
  const PIPELINE: set<(Stage, Stage)> := {
    (Applied, Screening), (Screening, TechAssessment), (Screening, Interview), (TechAssessment, Interview),
    (Interview, OfferPending), (OfferPending, Interview), (OfferPending, Stage.OfferAccepted), (Stage.OfferAccepted, Hired)}

  lemma PipelineExactly(s: Stage, target: Stage)
    ensures CanTransition(s, target)
            <==> (s, target) in PIPELINE || (s.Valid() && !s.IsTerminal() && target in {Rejected, Withdrawn})
  {
  }

  // ---- Effects, in the words of the store ----

  /** One application makes one recorded move; the others stay. */
  ghost predicate AppMoves(s: Store, t: Store, id: Uuid, stage: Stage, actor: Uuid, now: Time) {
    && id in s.apps && t.apps.Keys == s.apps.Keys && (forall k | k in s.apps && k != id :: t.apps[k] == s.apps[k])
    && var a, b := s.apps[id], t.apps[id];
    && b.stage == stage && b.version == a.version + 1 && b.updatedAt == now
    && b.history == a.history + [StageTransition(a.stage, stage, actor, now)]
    && b.id == a.id && b.vacancyId == a.vacancyId && b.candidateId == a.candidateId && b.createdAt == a.createdAt
  }

  /** One offer takes a status under its next version; its terms and the other offers stay. */
  ghost predicate OfferBecomes(s: Store, t: Store, id: Uuid, status: OfferStatus, now: Time) {
    && id in s.offers && t.offers.Keys == s.offers.Keys && (forall k | k in s.offers && k != id :: t.offers[k] == s.offers[k])
    && var o, p := s.offers[id], t.offers[id];
    && p.status == status && p.version == o.version + 1 && p.updatedAt == now && p.createdAt == o.createdAt && p.id == o.id
    && p.applicationId == o.applicationId && p.compensation == o.compensation && p.currency == o.currency
    && p.grade == o.grade && p.expiresAt == o.expiresAt
  }

  predicate Announces(s: Store, t: Store, kind: EventKind, aggregate: Aggregate, version: int) {
    t.outbox == s.outbox + [Event(kind, aggregate, version)]
  }

  /** An application moves, is announced under its new version, and nothing else happens. */
  ghost predicate AppMovesAlone(s: Store, t: Store, id: Uuid, stage: Stage, actor: Uuid, now: Time, kind: EventKind) {
    AppMoves(s, t, id, stage, actor, now) && t.offers == s.offers && Announces(s, t, kind, ApplicationRef(id), s.apps[id].version + 1)
  }

  ghost predicate OfferBecomesAlone(s: Store, t: Store, id: Uuid, status: OfferStatus, now: Time, kind: EventKind) {
    OfferBecomes(s, t, id, status, now) && t.apps == s.apps && Announces(s, t, kind, OfferRef(id), s.offers[id].version + 1)
  }

  /** Offer and application move together; the event is the offer's. */
  ghost predicate Answers(s: Store, t: Store, offer: Uuid, status: OfferStatus, stage: Stage, actor: Uuid, now: Time, kind: EventKind) {
    && OfferBecomes(s, t, offer, status, now) && AppMoves(s, t, s.offers[offer].applicationId, stage, actor, now)
    && Announces(s, t, kind, OfferRef(offer), s.offers[offer].version + 1)
  }

  // ---- Applications ----

  lemma MovesInStore(s: Store, id: Uuid, target: Stage, actor: Uuid, now: Time, kind: EventKind)
    requires Keyed(s) && id in s.apps && actor != NIL_UUID && CanTransition(s.apps[id].stage, target)
    ensures MoveTo(s.apps[id], target, actor, now).Ok?
    ensures AppMovesAlone(s, Write(s, Announce(MoveTo(s.apps[id], target, actor, now).value, kind)), id, target, actor, now, kind)
  {
  }

  /** A passed assessment leads to the interview and a failed one to rejection; at any other stage it changes nothing. */
  lemma AssessmentAchieves(s: Store, id: Uuid, passed: bool, actor: Uuid, now: Time)
    requires Keyed(s)
    ensures var t := Step(s, AssessmentResult(id, passed, actor), now, Committed);
      if id != NIL_UUID && id in s.apps && s.apps[id].stage == TechAssessment && actor != NIL_UUID
      then AppMovesAlone(s, t, id, if passed then Interview else Rejected, actor, now, if passed then StageChanged else ApplicationRejected)
      else t == s
    ensures id != NIL_UUID && id in s.apps && s.apps[id].stage != TechAssessment ==>
      ReportedError(s, AssessmentResult(id, passed, actor), now, Committed).None?
  {
    if id in s.apps && s.apps[id].stage == TechAssessment && actor != NIL_UUID {
      MovesInStore(s, id, if passed then Interview else Rejected, actor, now, if passed then StageChanged else ApplicationRejected);
    }
  }

  lemma RejectAchieves(s: Store, id: Uuid, knownCode: bool, comment: string, actor: Uuid, allowed: bool, now: Time)
    requires Keyed(s)
    ensures var t := Step(s, Reject(id, knownCode, comment, actor, allowed), now, Committed);
      if id != NIL_UUID && actor != NIL_UUID && allowed && id in s.apps && s.apps[id].stage.Valid() && !s.apps[id].stage.IsTerminal()
         && (knownCode || Text.TrimSpace(comment) != "")
      then AppMovesAlone(s, t, id, Rejected, actor, now, ApplicationRejected)
      else t == s
  {
    if id in s.apps && actor != NIL_UUID && s.apps[id].stage.Valid() && !s.apps[id].stage.IsTerminal() {
      MovesInStore(s, id, Rejected, actor, now, ApplicationRejected);
    }
  }

  /** The candidate may withdraw the application, and so may whoever is allowed to manage it. */
  lemma WithdrawAchieves(s: Store, id: Uuid, actor: Uuid, allowed: bool, now: Time)
    requires Keyed(s)
    ensures var t := Step(s, Withdraw(id, actor, allowed), now, Committed);
      if id != NIL_UUID && actor != NIL_UUID && id in s.apps && s.apps[id].stage.Valid() && !s.apps[id].stage.IsTerminal()
         && (s.apps[id].candidateId == actor || allowed)
      then AppMovesAlone(s, t, id, Withdrawn, actor, now, ApplicationWithdrawn)
      else t == s
  {
    if id in s.apps && actor != NIL_UUID && s.apps[id].stage.Valid() && !s.apps[id].stage.IsTerminal() {
      MovesInStore(s, id, Withdrawn, actor, now, ApplicationWithdrawn);
    }
  }

  /** Any move of the pipeline, but a pending offer only after a completed interview. */
  lemma ChangeStageAchieves(s: Store, id: Uuid, target: Stage, actor: Uuid, allowed: bool, interviewed: bool, now: Time)
    requires Keyed(s)
    ensures var t := Step(s, ChangeStage(id, target, actor, allowed, interviewed), now, Committed);
      if id != NIL_UUID && actor != NIL_UUID && allowed && id in s.apps && CanTransition(s.apps[id].stage, target)
         && (target == OfferPending ==> interviewed)
      then AppMovesAlone(s, t, id, target, actor, now, StageChanged)
      else t == s
  {
    if id in s.apps && actor != NIL_UUID && CanTransition(s.apps[id].stage, target) {
      MovesInStore(s, id, target, actor, now, StageChanged);
    }
  }

  /** A new application begins applied, unless one of the candidate for the vacancy is still going on. */
  lemma ApplyAchieves(s: Store, id: Uuid, vacancy: Uuid, candidate: Uuid, actor: Uuid, allowed: bool, now: Time)
    requires Keyed(s)
    ensures var t := Step(s, Apply(id, vacancy, candidate, actor, allowed), now, Committed);
      if NIL_UUID !in {id, vacancy, candidate, actor} && allowed && id !in s.apps
         && (forall k | k in s.apps && s.apps[k].candidateId == candidate && s.apps[k].vacancyId == vacancy :: s.apps[k].stage.IsTerminal())
      then t == Store(
             s.apps[id := Application(id, vacancy, candidate, Applied, 1, [StageTransition(NoStage(""), Applied, actor, now)], now, now)],
             s.offers, s.outbox + [Event(ApplicationApplied, ApplicationRef(id), 1)])
      else t == s
  {
    assert HasActive(s, candidate, vacancy) <==>
      exists k | k in s.apps :: s.apps[k].candidateId == candidate && s.apps[k].vacancyId == vacancy && !s.apps[k].stage.IsTerminal() by {
      if k :| k in s.apps && s.apps[k].candidateId == candidate && s.apps[k].vacancyId == vacancy && !s.apps[k].stage.IsTerminal() {
        assert IsActive(s.apps[k], candidate, vacancy);
      }
    }
  }

  // ---- Offers ----

  /** The terms of an offer are in order. */
  predicate GoodTerms(compensation: int, currency: string, grade: string, expiresAt: Time, now: Time) {
    && compensation > 0 && |currency| == 3 && (forall i | 0 <= i < 3 :: 'A' <= currency[i] <= 'Z')
    && Text.TrimSpace(grade) != "" && expiresAt - now >= MIN_OFFER_DURATION
  }

  /** A draft with these terms is added for an application in its interviews or with a pending offer, and the former moves on. */
  lemma CreateAchieves(s: Store, offer: Uuid, id: Uuid, compensation: int, currency: string, grade: string, expiresAt: Time,
                       actor: Uuid, allowed: bool, now: Time)
    requires Keyed(s)
    ensures var t := Step(s, CreateOffer(offer, id, compensation, currency, grade, expiresAt, actor, allowed), now, Committed);
      if NIL_UUID !in {offer, id, actor} && allowed && offer !in s.offers && id in s.apps
         && s.apps[id].stage in {Interview, OfferPending} && GoodTerms(compensation, currency, grade, expiresAt, now)
      then
        && t.offers == s.offers[offer :=
             Offer(offer, id, compensation, currency, Text.TrimSpace(grade), Draft, expiresAt, 1, now, now)]
        && Announces(s, t, OfferCreated, OfferRef(offer), 1)
        && (if s.apps[id].stage == Interview then AppMoves(s, t, id, OfferPending, actor, now) else t.apps == s.apps)
      else t == s
  {
  }

  lemma SendAchieves(s: Store, offer: Uuid, allowed: bool, now: Time)
    requires Keyed(s)
    ensures var t := Step(s, SendOffer(offer, allowed), now, Committed);
      if offer != NIL_UUID && allowed && offer in s.offers && s.offers[offer].status == Draft && now < s.offers[offer].expiresAt
      then OfferBecomesAlone(s, t, offer, Sent, now, OfferSent)
      else t == s
  {
  }

  lemma ExpireAchieves(s: Store, offer: Uuid, now: Time)
    requires Keyed(s)
    ensures var t := Step(s, ExpireOffer(offer), now, Committed);
      if offer != NIL_UUID && offer in s.offers && s.offers[offer].status == Sent && now >= s.offers[offer].expiresAt
      then OfferBecomesAlone(s, t, offer, Expired, now, OfferWasExpired)
      else t == s
  {
  }

  lemma AcceptAchieves(s: Store, offer: Uuid, actor: Uuid, allowed: bool, now: Time)
    requires Keyed(s)
    ensures var t := Step(s, AcceptOffer(offer, actor, allowed), now, Committed);
      if offer != NIL_UUID && actor != NIL_UUID && allowed && offer in s.offers && s.offers[offer].status == Sent
         && now < s.offers[offer].expiresAt && s.apps[s.offers[offer].applicationId].stage == OfferPending
      then Answers(s, t, offer, Accepted, Stage.OfferAccepted, actor, now, OfferWasAccepted)
      else t == s
  {
  }

  lemma BackAchieves(s: Store, offer: Uuid, actor: Uuid, allowed: bool, status: OfferStatus, now: Time)
    requires Keyed(s) && status in {Declined, Revoked}
    ensures var r := AttemptBack(s, offer, actor, allowed, status, now);
      if offer != NIL_UUID && actor != NIL_UUID && allowed && offer in s.offers
         && (s.offers[offer].status == Sent || (status == Revoked && s.offers[offer].status == Draft))
         && CanTransition(s.apps[s.offers[offer].applicationId].stage, Interview)
      then r.Ok? && Answers(s, Write(s, r.value), offer, status, Interview, actor, now,
                            if status == Declined then OfferDeclined else OfferRevoked)
      else r.Err?
  {
  }

  lemma OfferedCanGoBack(s: Store, offer: Uuid)
    requires Reachable(s) && offer in s.offers
    ensures Keyed(s)
    ensures var stage := s.apps[s.offers[offer].applicationId].stage; CanTransition(stage, Interview) <==> stage == OfferPending
  {
    ReachableInv(s);
    assert Offered(s.apps[s.offers[offer].applicationId].stage);
  }

  /** A declined offer takes its application back to the interviews. */
  lemma DeclineAchieves(s: Store, offer: Uuid, actor: Uuid, allowed: bool, now: Time)
    requires Reachable(s) && offer in s.offers
    ensures s.offers[offer].applicationId in s.apps
    ensures var o, t := s.offers[offer], Step(s, DeclineOffer(offer, actor, allowed), now, Committed);
      if offer != NIL_UUID && actor != NIL_UUID && allowed && o.status == Sent && s.apps[o.applicationId].stage == OfferPending
      then Answers(s, t, offer, Declined, Interview, actor, now, OfferDeclined)
      else t == s
  {
    OfferedCanGoBack(s, offer);
    BackAchieves(s, offer, actor, allowed, Declined, now);
  }

  /** So does a revoked one, sent or not. */
  lemma RevokeAchieves(s: Store, offer: Uuid, actor: Uuid, allowed: bool, now: Time)
    requires Reachable(s) && offer in s.offers
    ensures s.offers[offer].applicationId in s.apps
    ensures var o, t := s.offers[offer], Step(s, RevokeOffer(offer, actor, allowed), now, Committed);
      if offer != NIL_UUID && actor != NIL_UUID && allowed && o.status in {Draft, Sent} && s.apps[o.applicationId].stage == OfferPending
      then Answers(s, t, offer, Revoked, Interview, actor, now, OfferRevoked)
      else t == s
  {
    OfferedCanGoBack(s, offer);
    BackAchieves(s, offer, actor, allowed, Revoked, now);
  }

  // ---- Transactions and errors ----

  /** A commit that is not reported does what a reported one does; a transaction rolled back does nothing. */
  lemma OtherOutcomes(s: Store, c: Command, now: Time)
    ensures Step(s, c, now, CommittedUnreported) == Step(s, c, now, Committed) && Step(s, c, now, RolledBack) == s
    ensures Step(s, c, now, Committed) != s ==>
      && ReportedError(s, c, now, Committed) == None
      && ReportedError(s, c, now, CommittedUnreported) == ReportedError(s, c, now, RolledBack) == Some(TransactionFailed)
  {
  }

  /** What a command is about, and whether its actor may do it. */
  function Target(c: Command): Option<Aggregate> {
    match c
    case Apply(_, _, _, _, _) => None
    case ChangeStage(id, _, _, _, _) => Some(ApplicationRef(id))
    case AssessmentResult(id, _, _) => Some(ApplicationRef(id))
    case Reject(id, _, _, _, _) => Some(ApplicationRef(id))
    case Withdraw(id, _, _) => Some(ApplicationRef(id))
    case CreateOffer(_, id, _, _, _, _, _, _) => Some(ApplicationRef(id))
    case SendOffer(id, _) => Some(OfferRef(id))
    case AcceptOffer(id, _, _) => Some(OfferRef(id))
    case DeclineOffer(id, _, _) => Some(OfferRef(id))
    case RevokeOffer(id, _, _) => Some(OfferRef(id))
    case ExpireOffer(id) => Some(OfferRef(id))
  }

  predicate Allowed(c: Command) {
    match c
    case Apply(_, _, _, _, allowed) => allowed
    case ChangeStage(_, _, _, allowed, _) => allowed
    case AssessmentResult(_, _, _) => true
    case Reject(_, _, _, _, allowed) => allowed
    case Withdraw(_, _, allowed) => allowed
    case CreateOffer(_, _, _, _, _, _, _, allowed) => allowed
    case SendOffer(_, allowed) => allowed
    case AcceptOffer(_, _, allowed) => allowed
    case DeclineOffer(_, _, allowed) => allowed
    case RevokeOffer(_, _, allowed) => allowed
    case ExpireOffer(_) => true
  }

  /** Access is refused only to those who are not allowed, and nothing is reported missing that is there. */
  lemma RefusalsAreTrue(s: Store, c: Command, now: Time)
    requires Keyed(s)
    ensures Attempt(s, c, now) == Err(AccessDenied) ==> !Allowed(c)
    ensures Attempt(s, c, now) in {Err(NotFound), Err(Unmapped(ApplicationMissing))} ==> Target(c).Some? && !Known(s, Target(c).value)
    ensures Attempt(s, c, now) == Err(Conflict) && Target(c).Some? ==> Known(s, Target(c).value)
  {
    match c
    case Apply(_, _, _, _, _) =>
    case ChangeStage(_, _, _, _, _) =>
    case AssessmentResult(_, _, _) =>
    case Reject(_, _, _, _, _) =>
    case Withdraw(_, _, _) =>
    case CreateOffer(_, _, _, _, _, _, _, _) =>
    case SendOffer(_, _) =>
    case AcceptOffer(_, _, _) =>
    case DeclineOffer(_, _, _) =>
    case RevokeOffer(_, _, _) =>
    case ExpireOffer(_) =>
  }
}
