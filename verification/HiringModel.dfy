/** Job applications, offers and their outbox as values: one use case is one atomic step on the store. */
module HiringModel {
  import opened Common
  import Text

  // ---- The application and its pipeline ----

  /** Any other text, such as the empty stage an application comes from, is no stage of the pipeline. */
  datatype Stage =
    | Applied | Screening | TechAssessment | Interview | OfferPending | OfferAccepted | Hired | Rejected | Withdrawn
    | NoStage(text: string)
  {
    predicate Valid() {
      !NoStage?
    }

    predicate IsTerminal() {
      Hired? || Rejected? || Withdrawn?
    }
  }

  predicate CanTransition(s: Stage, target: Stage) {
    if !s.Valid() || !target.Valid() || s == target || s.IsTerminal() then false
    else if target == Rejected || target == Withdrawn then true
    else
      match s
      case Applied => target == Screening
      case Screening => target == TechAssessment || target == Interview
      case TechAssessment => target == Interview
      case Interview => target == OfferPending
      case OfferPending => target == OfferAccepted || target == Interview
      case OfferAccepted => target == Hired
      case _ => false
  }

  datatype DomainError =
    | EmptyId | EmptyActor | InvalidActor | InvalidStage | InvalidStageTransition | TerminalStage
    | InvalidCompensation | InvalidCurrency | EmptyGrade | InvalidExpiration | InvalidStatus | OfferExpired | OfferNotExpired
    | ApplicationMissing

  datatype StageTransition = StageTransition(fromStage: Stage, toStage: Stage, changedBy: Uuid, changedAt: Time)

  function NewStageTransition(fromStage: Stage, toStage: Stage, changedBy: Uuid, now: Time): Result<StageTransition, DomainError> {
    if changedBy == NIL_UUID then Err(InvalidActor)
    else if !toStage.Valid() then Err(InvalidStage)
    else Ok(StageTransition(fromStage, toStage, changedBy, now))
  }

  datatype Application = Application(
    id: Uuid, vacancyId: Uuid, candidateId: Uuid, stage: Stage, version: int, history: seq<StageTransition>,
    createdAt: Time, updatedAt: Time)

  function NewApplication(id: Uuid, vacancyId: Uuid, candidateId: Uuid, actor: Uuid, now: Time): Result<Application, DomainError> {
    if id == NIL_UUID || vacancyId == NIL_UUID || candidateId == NIL_UUID then Err(EmptyId)
    else if actor == NIL_UUID then Err(EmptyActor)
    else
      match NewStageTransition(NoStage(""), Applied, actor, now)
      case Err(e) => Err(e)
      case Ok(t) => Ok(Application(id, vacancyId, candidateId, Applied, 1, [t], now, now))
  }

  /** A transition that cannot be built is dropped without a word. */
  function AddTransition(a: Application, to: Stage, actor: Uuid, now: Time): Application {
    match NewStageTransition(a.stage, to, actor, now)
    case Err(_) => a
    case Ok(t) => a.(history := a.history + [t], stage := to, version := a.version + 1, updatedAt := now)
  }

  function MoveTo(a: Application, target: Stage, actor: Uuid, now: Time): Result<Application, DomainError> {
    if actor == NIL_UUID then Err(EmptyActor)
    else if !CanTransition(a.stage, target) then Err(InvalidStageTransition)
    else Ok(AddTransition(a, target, actor, now))
  }

  function Advance(a: Application, actor: Uuid, now: Time): Result<Application, DomainError> {
    if a.stage != TechAssessment then Err(InvalidStageTransition) else MoveTo(a, Interview, actor, now)
  }

  /** `Reject` and `Withdraw`. */
  function Leave(a: Application, target: Stage, actor: Uuid, now: Time): Result<Application, DomainError> {
    if a.stage.IsTerminal() then Err(TerminalStage) else MoveTo(a, target, actor, now)
  }

  /** `b` is `a` one legal, recorded step later. */
  predicate Successor(a: Application, b: Application) {
    && b.id == a.id && b.vacancyId == a.vacancyId && b.candidateId == a.candidateId
    && CanTransition(a.stage, b.stage) && b.version == a.version + 1 && |b.history| == |a.history| + 1
    && b.history[..|a.history|] == a.history
    && var t := b.history[|a.history|]; t.fromStage == a.stage && t.toStage == b.stage && t.changedBy != NIL_UUID
  }

  /** The error that `addTransition` swallows cannot occur: every move that is allowed is recorded. */
  lemma MovesAreRecorded(a: Application, target: Stage, actor: Uuid, now: Time)
    requires MoveTo(a, target, actor, now).Ok?
    ensures var b := MoveTo(a, target, actor, now).value; b.stage == target && b.updatedAt == now && Successor(a, b)
  {
  }

  // ---- The history of an application ----

  /** From the initial transition on, each transition starts where the one before it ended, and is allowed. */
  ghost predicate LegalPath(path: seq<StageTransition>) {
    && |path| >= 1 && path[0].fromStage == NoStage("") && path[0].toStage == Applied
    && (forall i :: 1 <= i < |path| ==>
          path[i].fromStage == path[i - 1].toStage && CanTransition(path[i].fromStage, path[i].toStage))
    && (forall t | t in path :: t.changedBy != NIL_UUID)
  }

  /** A legal path to the current stage, counted by the version. */
  ghost predicate LegalHistory(a: Application) {
    LegalPath(a.history) && a.version == |a.history| && a.history[|a.history| - 1].toStage == a.stage
  }

  lemma SuccessorHistory(a: Application, b: Application)
    requires LegalHistory(a) && Successor(a, b)
    ensures LegalHistory(b)
  {
    var n := |a.history|;
    assert forall i | 0 <= i < n :: b.history[i] == a.history[i];
    forall t | t in b.history ensures t.changedBy != NIL_UUID {
      if t != b.history[n] {
        assert t in b.history[..n];
      }
    }
  }

  lemma TerminalOnlyAtTheEnd(a: Application, i: nat)
    requires LegalHistory(a) && i < |a.history|
    ensures a.history[i].toStage.IsTerminal() ==> i == |a.history| - 1 && a.stage.IsTerminal()
  {
    if i + 1 < |a.history| {
      assert CanTransition(a.history[i + 1].fromStage, a.history[i + 1].toStage);
    }
  }

  /** The stages no path to this one can avoid, in order. */
  function Milestones(s: Stage): seq<Stage> {
    match s
    case Applied => [Applied]
    case Screening => [Applied, Screening]
    case TechAssessment => [Applied, Screening, TechAssessment]
    case Interview => [Applied, Screening, Interview]
    case OfferPending => [Applied, Screening, Interview, OfferPending]
    case OfferAccepted => [Applied, Screening, Interview, OfferPending, OfferAccepted]
    case Hired => [Applied, Screening, Interview, OfferPending, OfferAccepted, Hired]
    case Rejected => [Applied, Rejected]
    case Withdrawn => [Applied, Withdrawn]
    case NoStage(_) => []
  }

  /** The history visits the wanted stages at these ever later places. */
  ghost predicate Visits(history: seq<StageTransition>, wanted: seq<Stage>, places: seq<nat>) {
    && |places| == |wanted|
    && (forall k | 0 <= k < |places| :: places[k] < |history| && history[places[k]].toStage == wanted[k])
    && (forall j, k :: 0 <= j < k < |places| ==> places[j] < places[k])
  }

  /** All but the last milestone of a stage have been passed by whoever moves into it. */
  lemma MilestonesGrow(p: Stage, s: Stage)
    requires CanTransition(p, s)
    ensures var m := |Milestones(s)| - 1; 0 <= m <= |Milestones(p)| && Milestones(s)[m] == s
    ensures forall k | 0 <= k < |Milestones(s)| - 1 :: Milestones(s)[k] == Milestones(p)[k]
  {
  }

  lemma {:induction false} MilestonesOfPath(path: seq<StageTransition>) returns (places: seq<nat>)
    requires LegalPath(path)
    ensures Visits(path, Milestones(path[|path| - 1].toStage), places)
  {
    var n := |path| - 1;
    if n == 0 {
      places := [0];
    } else {
      var init := path[..n];
      var before := MilestonesOfPath(init);
      assert init + [path[n]] == path && path[n - 1] == init[n - 1];
      places := NextPlace(init, path[n], before, init[n - 1].toStage);
    }
  }

  lemma NextPlace(path: seq<StageTransition>, t: StageTransition, before: seq<nat>, p: Stage) returns (places: seq<nat>)
    requires Visits(path, Milestones(p), before) && CanTransition(p, t.toStage)
    ensures Visits(path + [t], Milestones(t.toStage), places)
  {
    MilestonesGrow(p, t.toStage);
    var wanted, passed := Milestones(t.toStage), Milestones(p);
    var m := |wanted| - 1;
    assert forall k | 0 <= k < m :: wanted[k] == passed[k] && before[k] < |path| && path[before[k]].toStage == passed[k];
    places := before[..m] + [|path|];
  }

  /** Nobody is hired without screening, an interview, a pending offer and an accepted offer, in that order. */
  lemma HiredTheWholeWay(a: Application) returns (places: seq<nat>)
    requires LegalHistory(a) && a.stage == Hired
    ensures Visits(a.history, [Applied, Screening, Interview, OfferPending, OfferAccepted, Hired], places)
  {
    places := MilestonesOfPath(a.history);
  }

  /** The pipeline is a cycle between interview and pending offer: histories have no greatest length. */
  lemma {:induction false} HistoriesAreUnbounded(a: Application, rounds: nat) returns (b: Application)
    requires LegalHistory(a) && a.stage == Interview
    ensures LegalHistory(b) && b.stage == Interview && b.version == a.version + 2 * rounds && b.id == a.id
  {
    b := a;
    if rounds > 0 {
      var c := HistoriesAreUnbounded(a, rounds - 1);
      MovesAreRecorded(c, OfferPending, 1, 0);
      var d := MoveTo(c, OfferPending, 1, 0).value;
      SuccessorHistory(c, d);
      MovesAreRecorded(d, Interview, 1, 0);
      b := MoveTo(d, Interview, 1, 0).value;
      SuccessorHistory(d, b);
    }
  }

  // ---- The offer ----

  datatype OfferStatus = Draft | Sent | Accepted | Declined | Expired | Revoked
  {
    predicate IsTerminal() {
      this in {Accepted, Declined, Expired, Revoked}
    }
  }

  datatype Offer = Offer(
    id: Uuid, applicationId: Uuid, compensation: int, currency: string, grade: string,
    status: OfferStatus, expiresAt: Time, version: int, createdAt: Time, updatedAt: Time)
  {
    predicate IsExpired(now: Time) {
      expiresAt <= now
    }

    function Become(status: OfferStatus, now: Time): Offer {
      this.(status := status, version := version + 1, updatedAt := now)
    }
  }

  /** 24 hours in nanoseconds. */
  const MIN_OFFER_DURATION := 86_400_000_000_000

  predicate ValidCurrency(c: string) {
    |c| == 3 && forall i | 0 <= i < 3 :: 'A' <= c[i] <= 'Z'
  }

  function NewOffer(id: Uuid, applicationId: Uuid, compensation: int, currency: string, grade: string,
                    expiresAt: Time, now: Time): Result<Offer, DomainError> {
    if id == NIL_UUID || applicationId == NIL_UUID then Err(EmptyId)
    else if compensation <= 0 then Err(InvalidCompensation)
    else if !ValidCurrency(currency) then Err(InvalidCurrency)
    else if Text.TrimSpace(grade) == "" then Err(EmptyGrade)
    else if expiresAt < now + MIN_OFFER_DURATION then Err(InvalidExpiration)
    else Ok(Offer(id, applicationId, compensation, currency, Text.TrimSpace(grade), Draft, expiresAt, 1, now, now))
  }

  /**
   * `Send` and `Accept`: the offer afterwards, and the error if there is one. An expired offer changes in memory
   * although the operation fails.
   */
  function Proceed(o: Offer, needed: OfferStatus, target: OfferStatus, now: Time): (Offer, Option<DomainError>) {
    if o.status != needed then (o, Some(InvalidStatus))
    else if o.IsExpired(now) then (o.Become(Expired, now), Some(DomainError.OfferExpired))
    else (o.Become(target, now), None)
  }

  function Decline(o: Offer, now: Time): Result<Offer, DomainError> {
    if o.status != Sent then Err(InvalidStatus) else Ok(o.Become(Declined, now))
  }

  function Revoke(o: Offer, now: Time): Result<Offer, DomainError> {
    if o.status != Draft && o.status != Sent then Err(InvalidStatus) else Ok(o.Become(Revoked, now))
  }

  function Expire(o: Offer, now: Time): Result<Offer, DomainError> {
    if o.status != Sent then Err(InvalidStatus)
    else if !o.IsExpired(now) then Err(OfferNotExpired)
    else Ok(o.Become(Expired, now))
  }

  // ---- The store and the use cases ----

  datatype Aggregate = OfferRef(id: Uuid) | ApplicationRef(id: Uuid)

  datatype EventKind =
    | ApplicationApplied | StageChanged | ApplicationRejected | ApplicationWithdrawn
    | OfferCreated | OfferSent | OfferWasAccepted | OfferDeclined | OfferRevoked | OfferWasExpired

  datatype Event = Event(kind: EventKind, aggregate: Aggregate, version: int)

  datatype Store = Store(apps: map<Uuid, Application>, offers: map<Uuid, Offer>, outbox: seq<Event>)

  datatype Error = InvalidArgument | AccessDenied | NotFound | Conflict | Unmapped(domainError: DomainError) | TransactionFailed

  /** What a use case writes in its transaction; a use case can also succeed without writing. */
  datatype Change = Nothing | Change(app: Option<Application>, offer: Option<Offer>, event: Event)

  /** `allowed` is the answer of the authorization port, `interviewed` that a completed interview has feedback. */
  datatype Command =
    | Apply(appId: Uuid, vacancyId: Uuid, candidateId: Uuid, actor: Uuid, allowed: bool)
    | ChangeStage(appId: Uuid, target: Stage, actor: Uuid, allowed: bool, interviewed: bool)
    | AssessmentResult(appId: Uuid, passed: bool, actor: Uuid)
    | Reject(appId: Uuid, knownCode: bool, comment: string, actor: Uuid, allowed: bool)
    | Withdraw(appId: Uuid, actor: Uuid, allowed: bool)
    | CreateOffer(offerId: Uuid, appId: Uuid, compensation: int, currency: string, grade: string, expiresAt: Time,
                  actor: Uuid, allowed: bool)
    | SendOffer(offerId: Uuid, allowed: bool)
    | AcceptOffer(offerId: Uuid, actor: Uuid, allowed: bool)
    | DeclineOffer(offerId: Uuid, actor: Uuid, allowed: bool)
    | RevokeOffer(offerId: Uuid, actor: Uuid, allowed: bool)
    | ExpireOffer(offerId: Uuid)

  /** A candidate's application to a vacancy that is still going on. */
  predicate IsActive(a: Application, candidateId: Uuid, vacancyId: Uuid) {
    a.candidateId == candidateId && a.vacancyId == vacancyId && !a.stage.IsTerminal()
  }

  predicate HasActive(s: Store, candidateId: Uuid, vacancyId: Uuid) {
    exists id | id in s.apps :: IsActive(s.apps[id], candidateId, vacancyId)
  }

  function Attempt(s: Store, c: Command, now: Time): Result<Change, Error> {
    match c
    case Apply(_, _, _, _, _) => AttemptApply(s, c, now)
    case ChangeStage(_, _, _, _, _) => AttemptChangeStage(s, c, now)
    case AssessmentResult(_, _, _) => AttemptAssessment(s, c, now)
    case Reject(_, _, _, _, _) => AttemptReject(s, c, now)
    case Withdraw(_, _, _) => AttemptWithdraw(s, c, now)
    case CreateOffer(_, _, _, _, _, _, _, _) => AttemptCreate(s, c, now)
    case SendOffer(_, _) => AttemptSend(s, c, now)
    case AcceptOffer(_, _, _) => AttemptAccept(s, c, now)
    case DeclineOffer(_, _, _) => AttemptBack(s, c.offerId, c.actor, c.allowed, Declined, now)
    case RevokeOffer(_, _, _) => AttemptBack(s, c.offerId, c.actor, c.allowed, Revoked, now)
    case ExpireOffer(_) => AttemptExpire(s, c, now)
  }

  function AttemptApply(s: Store, c: Command, now: Time): Result<Change, Error>
    requires c.Apply?
  {
    if c.vacancyId == NIL_UUID || c.candidateId == NIL_UUID || c.actor == NIL_UUID then Err(InvalidArgument)
    else if !c.allowed then Err(AccessDenied)
    else if HasActive(s, c.candidateId, c.vacancyId) then Err(Conflict)
    else
      match NewApplication(c.appId, c.vacancyId, c.candidateId, c.actor, now)
      case Err(e) => Err(Unmapped(e))
      case Ok(a) => Ok(Change(Some(a), None, Event(ApplicationApplied, ApplicationRef(c.appId), a.version)))
  }

  /** An application moved and announced under its new version. */
  function Announce(a: Application, kind: EventKind): Change {
    Change(Some(a), None, Event(kind, ApplicationRef(a.id), a.version))
  }

  function AttemptChangeStage(s: Store, c: Command, now: Time): Result<Change, Error>
    requires c.ChangeStage?
  {
    if c.appId == NIL_UUID || !c.target.Valid() || c.actor == NIL_UUID then Err(InvalidArgument)
    else if !c.allowed then Err(AccessDenied)
    else if c.appId !in s.apps then Err(NotFound)
    else if c.target == OfferPending && (s.apps[c.appId].stage != Interview || !c.interviewed) then Err(Conflict)
    else
      match MoveTo(s.apps[c.appId], c.target, c.actor, now)
      case Err(_) => Err(Conflict)
      case Ok(a) => Ok(Announce(a, StageChanged))
  }

  function AttemptAssessment(s: Store, c: Command, now: Time): Result<Change, Error>
    requires c.AssessmentResult?
  {
    if c.appId == NIL_UUID then Err(InvalidArgument)
    else if c.appId !in s.apps then Err(Unmapped(ApplicationMissing))
    else if s.apps[c.appId].stage != TechAssessment then Ok(Nothing)
    else
      var moved := if c.passed then Advance(s.apps[c.appId], c.actor, now) else Leave(s.apps[c.appId], Rejected, c.actor, now);
      match moved
      case Err(InvalidStageTransition) => Err(Conflict)
      case Err(TerminalStage) => Err(Conflict)
      case Err(e) => Err(Unmapped(e))
      case Ok(a) => Ok(Announce(a, if c.passed then StageChanged else ApplicationRejected))
  }

  function AttemptReject(s: Store, c: Command, now: Time): Result<Change, Error>
    requires c.Reject?
  {
    if c.appId == NIL_UUID || c.actor == NIL_UUID then Err(InvalidArgument)
    else if !c.allowed then Err(AccessDenied)
    else if c.appId !in s.apps then Err(NotFound)
    else if !c.knownCode && Text.TrimSpace(c.comment) == "" then Err(InvalidArgument)
    else
      match Leave(s.apps[c.appId], Rejected, c.actor, now)
      case Err(_) => Err(Conflict)
      case Ok(a) => Ok(Announce(a, ApplicationRejected))
  }

  function AttemptWithdraw(s: Store, c: Command, now: Time): Result<Change, Error>
    requires c.Withdraw?
  {
    if c.appId == NIL_UUID || c.actor == NIL_UUID then Err(InvalidArgument)
    else if c.appId !in s.apps then Err(NotFound)
    else if s.apps[c.appId].candidateId != c.actor && !c.allowed then Err(AccessDenied)
    else
      match Leave(s.apps[c.appId], Withdrawn, c.actor, now)
      case Err(_) => Err(Conflict)
      case Ok(a) => Ok(Announce(a, ApplicationWithdrawn))
  }

  function AttemptCreate(s: Store, c: Command, now: Time): Result<Change, Error>
    requires c.CreateOffer?
  {
    if c.appId == NIL_UUID || c.actor == NIL_UUID then Err(InvalidArgument)
    else if !c.allowed then Err(AccessDenied)
    else if c.appId !in s.apps then Err(NotFound)
    else if s.apps[c.appId].stage != Interview && s.apps[c.appId].stage != OfferPending then Err(Conflict)
    else
      match NewOffer(c.offerId, c.appId, c.compensation, c.currency, c.grade, c.expiresAt, now)
      case Err(_) => Err(InvalidArgument)
      case Ok(o) =>
        var moved := if s.apps[c.appId].stage == Interview
          then Some(AddTransition(s.apps[c.appId], OfferPending, c.actor, now)) else None;
        Ok(Change(moved, Some(o), Event(OfferCreated, OfferRef(c.offerId), o.version)))
  }

  function AttemptSend(s: Store, c: Command, now: Time): Result<Change, Error>
    requires c.SendOffer?
  {
    if c.offerId == NIL_UUID then Err(InvalidArgument)
    else if c.offerId !in s.offers then Err(NotFound)
    else if !c.allowed then Err(AccessDenied)
    else
      var (o, err) := Proceed(s.offers[c.offerId], Draft, Sent, now);
      if err.Some? then Err(Conflict) else Ok(Change(None, Some(o), Event(OfferSent, OfferRef(o.id), o.version)))
  }

  function AttemptAccept(s: Store, c: Command, now: Time): Result<Change, Error>
    requires c.AcceptOffer?
  {
    if c.offerId == NIL_UUID then Err(InvalidArgument)
    else if c.offerId !in s.offers then Err(NotFound)
    else if !c.allowed then Err(AccessDenied)
    else if s.offers[c.offerId].applicationId !in s.apps then Err(NotFound)
    else
      var (o, err) := Proceed(s.offers[c.offerId], Sent, Accepted, now);
      if err.Some? then Err(Conflict)
      else
        match MoveTo(s.apps[o.applicationId], Stage.OfferAccepted, c.actor, now)
        case Err(_) => Err(Conflict)
        case Ok(a) => Ok(Change(Some(a), Some(o), Event(OfferWasAccepted, OfferRef(o.id), o.version)))
  }

  /** `DeclineOffer` and `RevokeOffer`: the application goes back to its interviews. */
  function AttemptBack(s: Store, offerId: Uuid, actor: Uuid, allowed: bool, status: OfferStatus, now: Time): Result<Change, Error>
    requires status in {Declined, Revoked}
  {
    if offerId == NIL_UUID then Err(InvalidArgument)
    else if offerId !in s.offers then Err(NotFound)
    else if !allowed then Err(AccessDenied)
    else if s.offers[offerId].applicationId !in s.apps then Err(NotFound)
    else
      var ended := if status == Declined then Decline(s.offers[offerId], now) else Revoke(s.offers[offerId], now);
      match ended
      case Err(_) => Err(Conflict)
      case Ok(o) =>
        match MoveTo(s.apps[o.applicationId], Interview, actor, now)
        case Err(_) => Err(Conflict)
        case Ok(a) => Ok(Change(Some(a), Some(o),
                                Event(if status == Declined then OfferDeclined else OfferRevoked, OfferRef(o.id), o.version)))
  }

  function AttemptExpire(s: Store, c: Command, now: Time): Result<Change, Error>
    requires c.ExpireOffer?
  {
    if c.offerId == NIL_UUID then Err(InvalidArgument)
    else if c.offerId !in s.offers then Err(NotFound)
    else
      match Expire(s.offers[c.offerId], now)
      case Err(_) => Err(Conflict)
      case Ok(o) => Ok(Change(None, Some(o), Event(OfferWasExpired, OfferRef(o.id), o.version)))
  }

  /** How the transaction ends: a commit can take effect and still be reported as failed. */
  datatype TxOutcome = Committed | CommittedUnreported | RolledBack

  /** A new record under a key that is taken cannot be inserted. */
  predicate KeyIsFree(s: Store, c: Command) {
    match c
    case Apply(appId, _, _, _, _) => appId !in s.apps
    case CreateOffer(offerId, _, _, _, _, _, _, _) => offerId !in s.offers
    case _ => true
  }

  function Write(s: Store, change: Change): Store {
    match change
    case Nothing => s
    case Change(app, offer, event) =>
      Store(if app.Some? then s.apps[app.value.id := app.value] else s.apps,
            if offer.Some? then s.offers[offer.value.id := offer.value] else s.offers,
            s.outbox + [event])
  }

  function Step(s: Store, c: Command, now: Time, tx: TxOutcome): Store {
    match Attempt(s, c, now)
    case Err(_) => s
    case Ok(change) => if tx == RolledBack || !KeyIsFree(s, c) then s else Write(s, change)
  }

  function ReportedError(s: Store, c: Command, now: Time, tx: TxOutcome): Option<Error> {
    match Attempt(s, c, now)
    case Err(e) => Some(e)
    case Ok(Nothing) => None
    case Ok(_) => if tx == Committed && KeyIsFree(s, c) then None else Some(TransactionFailed)
  }
}
