/** The hiring use cases: they load copies, change them in place and save what changed in one transaction. */
module Hiring {
  import opened Common
  import opened HiringModel
  import Text

  class JobApplication {
    const id: Uuid
    const vacancyId: Uuid
    const candidateId: Uuid
    var currentStage: Stage
    var version: int
    var history: seq<StageTransition>
    const createdAt: Time
    var updatedAt: Time

    function State(): Application
      reads this
    {
      Application(id, vacancyId, candidateId, currentStage, version, history, createdAt, updatedAt)
    }

    /** A copy of a stored application. */
    constructor (a: Application)
      ensures State() == a
    {
      id, vacancyId, candidateId, currentStage := a.id, a.vacancyId, a.candidateId, a.stage;
      version, history, createdAt, updatedAt := a.version, a.history, a.createdAt, a.updatedAt;
    }

    method AddTransition(to: Stage, actor: Uuid, now: Time)
      modifies this
      ensures State() == HiringModel.AddTransition(old(State()), to, actor, now)
    {
      match NewStageTransition(currentStage, to, actor, now)
      case Err(_) => return;
      case Ok(t) =>
        history := history + [t];
        currentStage := to;
        version := version + 1;
        updatedAt := now;
    }

    method ChangeStage(target: Stage, actor: Uuid, now: Time) returns (err: Option<DomainError>)
      modifies this
      ensures Moved(err, old(State()), State(), MoveTo(old(State()), target, actor, now))
      ensures err.None? ==> Successor(old(State()), State())
    {
      if actor == NIL_UUID {
        return Some(EmptyActor);
      }
      if !CanTransition(currentStage, target) {
        return Some(InvalidStageTransition);
      }
      ghost var before := State();
      AddTransition(target, actor, now);
      MovesAreRecorded(before, target, actor, now);
      err := None;
    }

    method AdvanceFromAssessment(actor: Uuid, now: Time) returns (err: Option<DomainError>)
      modifies this
      ensures Moved(err, old(State()), State(), Advance(old(State()), actor, now))
    {
      if currentStage != TechAssessment {
        return Some(InvalidStageTransition);
      }
      err := ChangeStage(Interview, actor, now);
    }

    method Reject(actor: Uuid, now: Time) returns (err: Option<DomainError>)
      modifies this
      ensures Moved(err, old(State()), State(), Leave(old(State()), Rejected, actor, now))
    {
      if currentStage.IsTerminal() {
        return Some(TerminalStage);
      }
      err := ChangeStage(Rejected, actor, now);
    }

    method Withdraw(actor: Uuid, now: Time) returns (err: Option<DomainError>)
      modifies this
      ensures Moved(err, old(State()), State(), Leave(old(State()), Withdrawn, actor, now))
    {
      if currentStage.IsTerminal() {
        return Some(TerminalStage);
      }
      err := ChangeStage(Withdrawn, actor, now);
    }
  }

  /** The new state, or the error and no change. */
  ghost predicate Moved<T>(err: Option<DomainError>, before: T, after: T, outcome: Result<T, DomainError>) {
    match outcome
    case Ok(t) => err == None && after == t
    case Err(e) => err == Some(e) && after == before
  }

  class JobOffer {
    const id: Uuid
    const applicationId: Uuid
    const compensation: int
    const currency: string
    const grade: string
    var status: OfferStatus
    const expiresAt: Time
    var version: int
    const createdAt: Time
    var updatedAt: Time

    function State(): Offer
      reads this
    {
      Offer(id, applicationId, compensation, currency, grade, status, expiresAt, version, createdAt, updatedAt)
    }

    /** A copy of a stored offer. */
    constructor (o: Offer)
      ensures State() == o
    {
      id, applicationId, compensation, currency, grade := o.id, o.applicationId, o.compensation, o.currency, o.grade;
      status, expiresAt, version, createdAt, updatedAt := o.status, o.expiresAt, o.version, o.createdAt, o.updatedAt;
    }

    predicate IsExpired(now: Time) {
      now > expiresAt || now == expiresAt
    }

    /** An expired draft is left changed in memory although sending it fails. */
    method Send(now: Time) returns (err: Option<DomainError>)
      modifies this
      ensures (State(), err) == Proceed(old(State()), Draft, Sent, now)
    {
      if status != Draft {
        return Some(InvalidStatus);
      }
      if IsExpired(now) {
        status, version, updatedAt := Expired, version + 1, now;
        return Some(OfferExpired);
      }
      status, version, updatedAt := Sent, version + 1, now;
      err := None;
    }

    method Accept(now: Time) returns (err: Option<DomainError>)
      modifies this
      ensures (State(), err) == Proceed(old(State()), Sent, Accepted, now)
    {
      if status != Sent {
        return Some(InvalidStatus);
      }
      if IsExpired(now) {
        status, version, updatedAt := Expired, version + 1, now;
        return Some(OfferExpired);
      }
      status, version, updatedAt := Accepted, version + 1, now;
      err := None;
    }

    method Decline(now: Time) returns (err: Option<DomainError>)
      modifies this
      ensures Moved(err, old(State()), State(), HiringModel.Decline(old(State()), now))
    {
      if status != Sent {
        return Some(InvalidStatus);
      }
      status, version, updatedAt := Declined, version + 1, now;
      err := None;
    }

    method Revoke(now: Time) returns (err: Option<DomainError>)
      modifies this
      ensures Moved(err, old(State()), State(), HiringModel.Revoke(old(State()), now))
    {
      if status != Draft && status != Sent {
        return Some(InvalidStatus);
      }
      status, version, updatedAt := Revoked, version + 1, now;
      err := None;
    }

    method Expire(now: Time) returns (err: Option<DomainError>)
      modifies this
      ensures Moved(err, old(State()), State(), HiringModel.Expire(old(State()), now))
    {
      if status != Sent {
        return Some(InvalidStatus);
      }
      if !IsExpired(now) {
        return Some(OfferNotExpired);
      }
      status, version, updatedAt := Expired, version + 1, now;
      err := None;
    }
  }

  /** The repositories and the use cases on them. `tx` says how the transaction of a call ends. */
  class HiringService {
    var store: Store

    constructor ()
      ensures store == Store(map[], map[], [])
    {
      store := Store(map[], map[], []);
    }

    /** The writes of one transaction, all or none; a new record needs a free key. */
    method Save(app: Option<Application>, offer: Option<Offer>, event: Event, inserted: bool, tx: TxOutcome)
      returns (err: Option<Error>)
      modifies this
      ensures var free := !inserted || (
          if offer.Some? then offer.value.id !in old(store).offers
          else app.Some? ==> app.value.id !in old(store).apps);
        && store == (if tx == RolledBack || !free then old(store) else Write(old(store), Change(app, offer, event)))
        && err == if tx == Committed && free then None else Some(TransactionFailed)
    {
      var draft := store;
      var failed := false;
      if offer.Some? {
        failed := inserted && offer.value.id in draft.offers;
        draft := draft.(offers := draft.offers[offer.value.id := offer.value]);
      }
      if app.Some? {
        failed := failed || (inserted && offer.None? && app.value.id in draft.apps);
        draft := draft.(apps := draft.apps[app.value.id := app.value]);
      }
      draft := draft.(outbox := draft.outbox + [event]);
      if tx == RolledBack || failed {
        return Some(TransactionFailed);
      }
      store := draft;
      err := if tx == Committed then None else Some(TransactionFailed);
    }

    ghost predicate Steps(err: Option<Error>, before: Store, after: Store, c: Command, now: Time, tx: TxOutcome) {
      after == Step(before, c, now, tx) && err == ReportedError(before, c, now, tx)
    }

    method ApplyVacancy(appId: Uuid, vacancyId: Uuid, candidateId: Uuid, actor: Uuid, allowed: bool, now: Time, tx: TxOutcome)
      returns (err: Option<Error>)
      modifies this
      ensures Steps(err, old(store), store, Apply(appId, vacancyId, candidateId, actor, allowed), now, tx)
    {
      if vacancyId == NIL_UUID || candidateId == NIL_UUID || actor == NIL_UUID {
        return Some(InvalidArgument);
      }
      if !allowed {
        return Some(AccessDenied);
      }
      if HasActive(store, candidateId, vacancyId) {
        return Some(Conflict);
      }
      match NewApplication(appId, vacancyId, candidateId, actor, now)
      case Err(e) => err := Some(Unmapped(e));
      case Ok(app) =>
        err := Save(Some(app), None, Event(ApplicationApplied, ApplicationRef(appId), app.version), true, tx);
    }

    method ChangeStage(appId: Uuid, target: Stage, actor: Uuid, allowed: bool, interviewed: bool, now: Time, tx: TxOutcome)
      returns (err: Option<Error>)
      modifies this
      ensures Steps(err, old(store), store, Command.ChangeStage(appId, target, actor, allowed, interviewed), now, tx)
    {
      if appId == NIL_UUID || !target.Valid() || actor == NIL_UUID {
        return Some(InvalidArgument);
      }
      if !allowed {
        return Some(AccessDenied);
      }
      if appId !in store.apps {
        return Some(NotFound);
      }
      var app := new JobApplication(store.apps[appId]);
      if target == OfferPending && (app.currentStage != Interview || !interviewed) {
        return Some(Conflict);
      }
      var moved := app.ChangeStage(target, actor, now);
      if moved.Some? {
        return Some(Conflict);
      }
      err := Save(Some(app.State()), None, Event(StageChanged, ApplicationRef(app.id), app.version), false, tx);
    }

    method HandleAssessmentResult(appId: Uuid, passed: bool, actor: Uuid, now: Time, tx: TxOutcome) returns (err: Option<Error>)
      modifies this
      ensures Steps(err, old(store), store, AssessmentResult(appId, passed, actor), now, tx)
    {
      if appId == NIL_UUID {
        return Some(InvalidArgument);
      }
      if appId !in store.apps {
        return Some(Unmapped(ApplicationMissing));
      }
      var app := new JobApplication(store.apps[appId]);
      if app.currentStage != TechAssessment {
        return None;
      }
      var moved;
      if passed {
        moved := app.AdvanceFromAssessment(actor, now);
      } else {
        moved := app.Reject(actor, now);
      }
      match moved
      case Some(InvalidStageTransition) => return Some(Conflict);
      case Some(TerminalStage) => return Some(Conflict);
      case Some(e) => return Some(Unmapped(e));
      case None =>
      var kind := if passed then StageChanged else ApplicationRejected;
      err := Save(Some(app.State()), None, Event(kind, ApplicationRef(app.id), app.version), false, tx);
    }

    method RejectApplication(appId: Uuid, knownCode: bool, comment: string, actor: Uuid, allowed: bool, now: Time, tx: TxOutcome)
      returns (err: Option<Error>)
      modifies this
      ensures Steps(err, old(store), store, Command.Reject(appId, knownCode, comment, actor, allowed), now, tx)
    {
      if appId == NIL_UUID || actor == NIL_UUID {
        return Some(InvalidArgument);
      }
      if !allowed {
        return Some(AccessDenied);
      }
      if appId !in store.apps {
        return Some(NotFound);
      }
      var app := new JobApplication(store.apps[appId]);
      if !knownCode && Text.TrimSpace(comment) == "" {
        return Some(InvalidArgument);
      }
      var moved := app.Reject(actor, now);
      if moved.Some? {
        return Some(Conflict);
      }
      err := Save(Some(app.State()), None, Event(ApplicationRejected, ApplicationRef(app.id), app.version), false, tx);
    }

    method WithdrawApplication(appId: Uuid, actor: Uuid, allowed: bool, now: Time, tx: TxOutcome) returns (err: Option<Error>)
      modifies this
      ensures Steps(err, old(store), store, Command.Withdraw(appId, actor, allowed), now, tx)
    {
      if appId == NIL_UUID || actor == NIL_UUID {
        return Some(InvalidArgument);
      }
      if appId !in store.apps {
        return Some(NotFound);
      }
      var app := new JobApplication(store.apps[appId]);
      if app.candidateId != actor && !allowed {
        return Some(AccessDenied);
      }
      var moved := app.Withdraw(actor, now);
      if moved.Some? {
        return Some(Conflict);
      }
      err := Save(Some(app.State()), None, Event(ApplicationWithdrawn, ApplicationRef(app.id), app.version), false, tx);
    }

    method CreateOffer(offerId: Uuid, appId: Uuid, compensation: int, currency: string, grade: string, expiresAt: Time,
                       actor: Uuid, allowed: bool, now: Time, tx: TxOutcome) returns (err: Option<Error>)
      modifies this
      ensures Steps(err, old(store), store,
                    Command.CreateOffer(offerId, appId, compensation, currency, grade, expiresAt, actor, allowed), now, tx)
    {
      if appId == NIL_UUID || actor == NIL_UUID {
        return Some(InvalidArgument);
      }
      if !allowed {
        return Some(AccessDenied);
      }
      if appId !in store.apps {
        return Some(NotFound);
      }
      var app := new JobApplication(store.apps[appId]);
      var needStageUpdate := false;
      if app.currentStage == Interview {
        var moved := app.ChangeStage(OfferPending, actor, now);
        if moved.Some? {
          assert false;
        }
        needStageUpdate := true;
      } else if app.currentStage != OfferPending {
        return Some(Conflict);
      }
      match NewOffer(offerId, appId, compensation, currency, grade, expiresAt, now)
      case Err(_) => err := Some(InvalidArgument);
      case Ok(offer) =>
        var moved := if needStageUpdate then Some(app.State()) else None;
        err := Save(moved, Some(offer), Event(OfferCreated, OfferRef(offerId), offer.version), true, tx);
    }

    method SendOffer(offerId: Uuid, allowed: bool, now: Time, tx: TxOutcome) returns (err: Option<Error>)
      modifies this
      ensures Steps(err, old(store), store, Command.SendOffer(offerId, allowed), now, tx)
    {
      if offerId == NIL_UUID {
        return Some(InvalidArgument);
      }
      if offerId !in store.offers {
        return Some(NotFound);
      }
      var offer := new JobOffer(store.offers[offerId]);
      if !allowed {
        return Some(AccessDenied);
      }
      var failed := offer.Send(now);
      if failed.Some? {
        return Some(Conflict);
      }
      err := Save(None, Some(offer.State()), Event(OfferSent, OfferRef(offer.id), offer.version), false, tx);
    }

    method AcceptOffer(offerId: Uuid, actor: Uuid, allowed: bool, now: Time, tx: TxOutcome) returns (err: Option<Error>)
      modifies this
      ensures Steps(err, old(store), store, Command.AcceptOffer(offerId, actor, allowed), now, tx)
    {
      if offerId == NIL_UUID {
        return Some(InvalidArgument);
      }
      if offerId !in store.offers {
        return Some(NotFound);
      }
      var offer := new JobOffer(store.offers[offerId]);
      if !allowed {
        return Some(AccessDenied);
      }
      if offer.applicationId !in store.apps {
        return Some(NotFound);
      }
      var app := new JobApplication(store.apps[offer.applicationId]);
      var failed := offer.Accept(now);
      if failed.Some? {
        return Some(Conflict);
      }
      failed := app.ChangeStage(Stage.OfferAccepted, actor, now);
      if failed.Some? {
        return Some(Conflict);
      }
      err := Save(Some(app.State()), Some(offer.State()), Event(OfferWasAccepted, OfferRef(offer.id), offer.version), false, tx);
    }

    method DeclineOffer(offerId: Uuid, actor: Uuid, allowed: bool, now: Time, tx: TxOutcome) returns (err: Option<Error>)
      modifies this
      ensures Steps(err, old(store), store, Command.DeclineOffer(offerId, actor, allowed), now, tx)
    {
      if offerId == NIL_UUID {
        return Some(InvalidArgument);
      }
      if offerId !in store.offers {
        return Some(NotFound);
      }
      var offer := new JobOffer(store.offers[offerId]);
      if !allowed {
        return Some(AccessDenied);
      }
      if offer.applicationId !in store.apps {
        return Some(NotFound);
      }
      var app := new JobApplication(store.apps[offer.applicationId]);
      var failed := offer.Decline(now);
      if failed.Some? {
        return Some(Conflict);
      }
      failed := app.ChangeStage(Interview, actor, now);
      if failed.Some? {
        return Some(Conflict);
      }
      err := Save(Some(app.State()), Some(offer.State()), Event(OfferDeclined, OfferRef(offer.id), offer.version), false, tx);
    }

    method RevokeOffer(offerId: Uuid, actor: Uuid, allowed: bool, now: Time, tx: TxOutcome) returns (err: Option<Error>)
      modifies this
      ensures Steps(err, old(store), store, Command.RevokeOffer(offerId, actor, allowed), now, tx)
    {
      if offerId == NIL_UUID {
        return Some(InvalidArgument);
      }
      if offerId !in store.offers {
        return Some(NotFound);
      }
      var offer := new JobOffer(store.offers[offerId]);
      if !allowed {
        return Some(AccessDenied);
      }
      if offer.applicationId !in store.apps {
        return Some(NotFound);
      }
      var app := new JobApplication(store.apps[offer.applicationId]);
      var failed := offer.Revoke(now);
      if failed.Some? {
        return Some(Conflict);
      }
      failed := app.ChangeStage(Interview, actor, now);
      if failed.Some? {
        return Some(Conflict);
      }
      err := Save(Some(app.State()), Some(offer.State()), Event(OfferRevoked, OfferRef(offer.id), offer.version), false, tx);
    }

    method ExpireOffer(offerId: Uuid, now: Time, tx: TxOutcome) returns (err: Option<Error>)
      modifies this
      ensures Steps(err, old(store), store, Command.ExpireOffer(offerId), now, tx)
    {
      if offerId == NIL_UUID {
        return Some(InvalidArgument);
      }
      if offerId !in store.offers {
        return Some(NotFound);
      }
      var offer := new JobOffer(store.offers[offerId]);
      var failed := offer.Expire(now);
      if failed.Some? {
        return Some(Conflict);
      }
      err := Save(None, Some(offer.State()), Event(OfferWasExpired, OfferRef(offer.id), offer.version), false, tx);
    }
  }
}
