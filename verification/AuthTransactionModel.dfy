/** The authorization transaction as a value: section 4.1 of RFC 6749 from the request to the issued code. */
module AuthTransactionModel {
  import opened Common
  import opened Authentication

  datatype Status = Pending | ReadyToComplete | Completed | Denied

  datatype Source = UserConsent | RememberedGrant | TrustedClient

  datatype Channel = Email | Phone

  datatype Reference = Reference(channel: Channel, contactId: Uuid, challengeId: Uuid, expiresAt: Time)

  datatype Pkce = Pkce(challenge: string, method_: string)

  datatype Error =
    | InvalidArgument | PkceRequired | InvalidTime | Expired | InvalidStatus | InvalidStep | InvalidIdentity
    | InvalidMethod | IdentityMismatch | DuplicateMethod | UnresolvedLevel | ReferenceMissing | WrongChannel
    | VerificationExpired | AlreadyBound | InvalidReference | NoScope | DuplicateScope | ScopeNotRequested | SnapshotMissing

  datatype Transaction = Transaction(
    id: Uuid, clientId: Uuid, redirectUri: string, requestedScopes: seq<string>,
    state: Option<string>, nonce: Option<string>, pkce: Option<Pkce>,
    status: Status, step: Step,
    identityId: Option<Uuid>, level: Option<Level>, methods: seq<Method>,
    grantedScopes: seq<string>, source: Option<Source>, verification: Option<Reference>,
    authenticatedAt: Option<Time>, expiresAt: Time)

  datatype Op =
    | CompletePrimary(identityId: Uuid, method_: Method, next: Step)
    | CompleteMfa(identityId: Uuid, method_: Method)
    | BeginPasswordRegistration(identityId: Uuid, next: Step)
    | CompletePasswordChange(next: Step)
    | CompleteVerification(channel: Channel, next: Step)
    | BindVerification(channel: Channel, contactId: Uuid, challengeId: Uuid, challengeExpiresAt: Time)
    | SkipMfaEnrollment
    | AuthorizeScopes(scopes: seq<string>, source: Source)
    | Complete
    | Deny

  function New(id: Uuid, clientId: Uuid, redirectUri: string, requestedScopes: seq<string>, state: Option<string>,
               nonce: Option<string>, requirePkce: bool, pkce: Option<Pkce>, expiresAt: Time, now: Time): Result<Transaction, Error>
  {
    if requirePkce && pkce.None? then Err(PkceRequired)
    else if id == NIL_UUID || clientId == NIL_UUID then Err(InvalidArgument)
    else if !Distinct(requestedScopes) then Err(DuplicateScope)
    else if now == ZERO_TIME || expiresAt <= now then Err(InvalidTime)
    else Ok(Transaction(id, clientId, redirectUri, requestedScopes, state, nonce, pkce, Pending, Choose,
                        None, None, [], [], None, None, None, expiresAt))
  }

  function ChangeError(t: Transaction, now: Time): Option<Error> {
    if now == ZERO_TIME then Some(InvalidTime) else if now >= t.expiresAt then Some(Expired) else None
  }

  function StepOf(ch: Channel): Step {
    if ch == Email then EmailVerification else PhoneVerification
  }

  /** The effect of one operation: a whole new transaction, or an error and no change at all. */
  function Apply(t: Transaction, op: Op, now: Time): Result<Transaction, Error> {
    match op
    case CompletePrimary(identityId, m, next) => Authenticate(t, Choose, identityId, m, next, now)
    case CompleteMfa(identityId, m) => Authenticate(t, Mfa, identityId, m, Consent, now)
    case BeginPasswordRegistration(identityId, next) => ApplyBeginRegistration(t, identityId, next, now)
    case CompletePasswordChange(next) => CompleteRequired(t, PasswordChange, next, now)
    case CompleteVerification(ch, next) => ApplyCompleteVerification(t, ch, next, now)
    case BindVerification(ch, contactId, challengeId, challengeExpiresAt) =>
      ApplyBind(t, Reference(ch, contactId, challengeId, challengeExpiresAt), now)
    case SkipMfaEnrollment => CompleteRequired(t, MfaEnrollment, Consent, now)
    case AuthorizeScopes(scopes, source) => ApplyAuthorize(t, scopes, source, now)
    case Complete => ApplyComplete(t, now)
    case Deny =>
      if ChangeError(t, now).Some? then Err(ChangeError(t, now).value)
      else if t.status != Pending then Err(InvalidStatus)
      else Ok(t.(status := Denied, step := NoStep, verification := None))
  }

  /** Arriving at consent freezes the level that the methods add up to, and the time. */
  function Arrive(t: Transaction, methods: seq<Method>, next: Step, now: Time): Result<Transaction, Error> {
    if next == Consent && LevelOf(methods).None? then Err(UnresolvedLevel)
    else if t.status != Pending then Err(InvalidStatus)
    else if !CanTransition(t.step, next) then Err(InvalidStep)
    else if next == Consent then Ok(t.(step := next, methods := methods, level := LevelOf(methods), authenticatedAt := Some(now)))
    else Ok(t.(step := next, methods := methods))
  }

  /** What stops an authentication before its level is looked at. */
  function AuthenticationError(t: Transaction, current: Step, identityId: Uuid, m: Method, now: Time): Option<Error> {
    if ChangeError(t, now).Some? then ChangeError(t, now)
    else if t.status != Pending then Some(InvalidStatus)
    else if t.step != current || t.level.Some? then Some(InvalidStep)
    else if identityId == NIL_UUID then Some(InvalidIdentity)
    else if !m.IsValid() then Some(InvalidMethod)
    else if t.identityId.Some? && t.identityId.value != identityId then Some(IdentityMismatch)
    else if m in t.methods then Some(DuplicateMethod)
    else None
  }

  function Authenticate(t: Transaction, current: Step, identityId: Uuid, m: Method, next: Step, now: Time): Result<Transaction, Error> {
    if AuthenticationError(t, current, identityId, m, now).Some? then Err(AuthenticationError(t, current, identityId, m, now).value)
    else
      match Arrive(t, t.methods + [m], next, now)
      case Err(e) => Err(e)
      case Ok(u) => Ok(u.(identityId := Some(identityId)))
  }

  function CompleteRequired(t: Transaction, current: Step, next: Step, now: Time): Result<Transaction, Error> {
    if ChangeError(t, now).Some? then Err(ChangeError(t, now).value)
    else if t.status != Pending then Err(InvalidStatus)
    else if t.step != current || t.level.Some? || t.identityId.None? then Err(InvalidStep)
    else Arrive(t, t.methods, next, now)
  }

  function ApplyBeginRegistration(t: Transaction, identityId: Uuid, next: Step, now: Time): Result<Transaction, Error> {
    if ChangeError(t, now).Some? then Err(ChangeError(t, now).value)
    else if t.status != Pending then Err(InvalidStatus)
    else if t.step != Choose || t.identityId.Some? || t.methods != [] then Err(InvalidStep)
    else if identityId == NIL_UUID then Err(InvalidIdentity)
    else if next != EmailVerification && next != PhoneVerification then Err(InvalidStep)
    else Ok(t.(step := next, identityId := Some(identityId), methods := [Password]))
  }

  function VerificationError(t: Transaction, ch: Channel, now: Time): Option<Error> {
    match t.verification
    case None => Some(ReferenceMissing)
    case Some(r) =>
      if r.channel != ch then Some(WrongChannel)
      else if now >= r.expiresAt then Some(VerificationExpired)
      else None
  }

  function ApplyCompleteVerification(t: Transaction, ch: Channel, next: Step, now: Time): Result<Transaction, Error> {
    if t.step != StepOf(ch) || !CanTransition(t.step, next) then Err(InvalidStep)
    else if VerificationError(t, ch, now).Some? then Err(VerificationError(t, ch, now).value)
    else
      match CompleteRequired(t, StepOf(ch), next, now)
      case Err(e) => Err(e)
      case Ok(u) => Ok(u.(verification := None))
  }

  function ApplyBind(t: Transaction, r: Reference, now: Time): Result<Transaction, Error> {
    if ChangeError(t, now).Some? then Err(ChangeError(t, now).value)
    else if t.status != Pending || t.step != StepOf(r.channel) then Err(InvalidStep)
    else if t.verification.Some? then Err(AlreadyBound)
    else if r.expiresAt <= now then Err(VerificationExpired)
    else if r.contactId == NIL_UUID || r.challengeId == NIL_UUID || r.expiresAt == ZERO_TIME then Err(InvalidReference)
    else Ok(t.(verification := Some(r)))
  }

  predicate AllRequested(scopes: seq<string>, requested: seq<string>) {
    forall i | 0 <= i < |scopes| :: scopes[i] in requested
  }

  function ApplyAuthorize(t: Transaction, scopes: seq<string>, source: Source, now: Time): Result<Transaction, Error> {
    if ChangeError(t, now).Some? then Err(ChangeError(t, now).value)
    else if t.status != Pending || t.step != Consent || t.level.None? then Err(InvalidStatus)
    else if scopes == [] then Err(NoScope)
    else if !Distinct(scopes) then Err(DuplicateScope)
    else if !AllRequested(scopes, t.requestedScopes) then Err(ScopeNotRequested)
    else Ok(t.(step := Ready, status := ReadyToComplete, grantedScopes := scopes, source := Some(source)))
  }

  function ApplyComplete(t: Transaction, now: Time): Result<Transaction, Error> {
    if ChangeError(t, now).Some? then Err(ChangeError(t, now).value)
    else if t.status != ReadyToComplete || t.step != Ready then Err(InvalidStatus)
    else if t.identityId.None? || t.level.None? || t.authenticatedAt.None? then Err(SnapshotMissing)
    else Ok(t.(status := Completed, step := NoStep, verification := None))
  }

  // ---- What holds in every reachable transaction ----

  /** Who authenticated, how, to which level and when: all known together, and the level is what the methods add up to. */
  ghost predicate Authenticated(t: Transaction) {
    && t.identityId.Some? && t.level.Some? && t.level == LevelOf(t.methods)
    && t.authenticatedAt.Some? && t.authenticatedAt.value != ZERO_TIME
  }

  ghost predicate MethodsSound(t: Transaction) {
    && Distinct(t.methods) && AllValid(t.methods)
    && (t.methods == [] <==> t.identityId.None?)
    && (t.identityId.Some? ==> t.identityId.value != NIL_UUID)
  }

  /** The granted scopes are a non-empty, duplicate-free part of the requested ones. */
  predicate ScopesSound(t: Transaction) {
    t.grantedScopes != [] && Distinct(t.grantedScopes) && AllRequested(t.grantedScopes, t.requestedScopes)
  }

  ghost predicate Inv(t: Transaction) {
    && t.clientId != NIL_UUID && MethodsSound(t)
    && (t.status == Pending <==> t.step !in {Ready, NoStep})
    && (t.status == ReadyToComplete <==> t.step == Ready)
    && (t.status == Pending ==> (t.step == Choose <==> t.identityId.None?))
    && (t.status == Pending ==> (t.step == Consent <==> t.level.Some?))
    && (t.level.Some? <==> t.authenticatedAt.Some?)
    && (t.level.Some? ==> Authenticated(t))
    && (t.verification.Some? ==> t.status == Pending && t.step == StepOf(t.verification.value.channel))
    && (t.status in {ReadyToComplete, Completed} ==> Authenticated(t) && ScopesSound(t))
  }

  lemma NewSatisfiesInv(id: Uuid, clientId: Uuid, redirectUri: string, requestedScopes: seq<string>, state: Option<string>,
                        nonce: Option<string>, requirePkce: bool, pkce: Option<Pkce>, expiresAt: Time, now: Time)
    ensures var r := New(id, clientId, redirectUri, requestedScopes, state, nonce, requirePkce, pkce, expiresAt, now);
      r.Ok? ==> Inv(r.value) && r.value.step == Choose && Distinct(r.value.requestedScopes)
  {
  }

  lemma ExtendedMethods(methods: seq<Method>, m: Method)
    requires Distinct(methods) && AllValid(methods) && m !in methods && m.IsValid()
    ensures Distinct(methods + [m]) && AllValid(methods + [m]) && LevelOf(methods + [m]).Some?
  {
    DistinctAppend(methods, m);
  }

  lemma StepPreserves(t: Transaction, op: Op, now: Time)
    requires Inv(t) && Apply(t, op, now).Ok?
    ensures Inv(Apply(t, op, now).value)
  {
    match op
    case CompletePrimary(_, m, _) => ExtendedMethods(t.methods, m);
    case CompleteMfa(_, m) => ExtendedMethods(t.methods, m);
    case _ =>
  }

  // ---- Runs ----

  datatype Call = Call(op: Op, now: Time)

  function Run(t: Transaction, calls: seq<Call>): Transaction {
    if calls == [] then t
    else
      var before, last := Run(t, calls[..|calls| - 1]), calls[|calls| - 1];
      match Apply(before, last.op, last.now)
      case Ok(after) => after
      case Err(_) => before
  }

  lemma {:induction false} RunPreserves(t: Transaction, calls: seq<Call>)
    requires Inv(t)
    ensures Inv(Run(t, calls))
  {
    if calls != [] {
      RunPreserves(t, calls[..|calls| - 1]);
      var before, last := Run(t, calls[..|calls| - 1]), calls[|calls| - 1];
      if Apply(before, last.op, last.now).Ok? {
        StepPreserves(before, last.op, last.now);
      }
    }
  }

  /** The promises about a transaction in its own words, after any run of calls on it, failed ones included. */
  lemma ReachableTransaction(id: Uuid, clientId: Uuid, redirectUri: string, requestedScopes: seq<string>, state: Option<string>,
                             nonce: Option<string>, requirePkce: bool, pkce: Option<Pkce>, expiresAt: Time, now: Time, calls: seq<Call>)
    requires New(id, clientId, redirectUri, requestedScopes, state, nonce, requirePkce, pkce, expiresAt, now).Ok?
    ensures var u := Run(New(id, clientId, redirectUri, requestedScopes, state, nonce, requirePkce, pkce, expiresAt, now).value, calls);
      && (u.status == Pending ==> (u.step == Consent <==> u.level.Some? && u.authenticatedAt.Some?))
      && (u.level.Some? ==> u.level == LevelOf(u.methods) && u.identityId.Some?)
      && (u.verification.Some? ==> u.status == Pending && u.step == StepOf(u.verification.value.channel))
      && (u.status in {ReadyToComplete, Completed} ==>
            u.grantedScopes != [] && Distinct(u.grantedScopes) && AllRequested(u.grantedScopes, u.requestedScopes))
      && (u.status == ReadyToComplete ==> u.step == Ready) && (u.status in {Completed, Denied} ==> u.step == NoStep)
  {
    var t := New(id, clientId, redirectUri, requestedScopes, state, nonce, requirePkce, pkce, expiresAt, now).value;
    NewSatisfiesInv(id, clientId, redirectUri, requestedScopes, state, nonce, requirePkce, pkce, expiresAt, now);
    RunPreserves(t, calls);
  }

  /** Completing a ready transaction in time always succeeds: the authentication snapshot cannot be missing. */
  lemma ReadyCompletes(t: Transaction, now: Time)
    requires Inv(t) && t.status == ReadyToComplete
    ensures Apply(t, Complete, now).Ok? <==> ChangeError(t, now).None?
    ensures Apply(t, Complete, now) != Err(SnapshotMissing)
  {
  }

  /** Level resolution never stands in the way: whatever moves a sound transaction to consent finds its methods resolvable. */
  lemma LevelAlwaysResolves(t: Transaction, op: Op, now: Time)
    requires Inv(t)
    ensures Apply(t, op, now) != Err(UnresolvedLevel)
  {
    if op.CompletePrimary? || op.CompleteMfa? {
      if op.method_.IsValid() && op.method_ !in t.methods {
        ExtendedMethods(t.methods, op.method_);
      }
    }
  }

  // ---- Termination ----

  /** How many verification bindings can still follow. */
  function BindingsLeft(t: Transaction): nat {
    match t.step
    case Choose => 2
    case PasswordChange => 2
    case EmailVerification => if t.verification.None? then 2 else 1
    case PhoneVerification => if t.verification.None? then 1 else 0
    case _ => 0
  }

  predicate Succeeds(t: Transaction, call: Call) {
    Apply(t, call.op, call.now).Ok?
  }

  /** The calls of a run that succeeded and were bindings, or were not. */
  function Count(t: Transaction, calls: seq<Call>, bindings: bool): nat {
    if calls == [] then 0
    else
      var init, last := calls[..|calls| - 1], calls[|calls| - 1];
      Count(t, init, bindings) + if Succeeds(Run(t, init), last) && last.op.BindVerification? == bindings then 1 else 0
  }

  lemma StepDescends(t: Transaction, op: Op, now: Time)
    requires Inv(t) && Apply(t, op, now).Ok?
    ensures var u := Apply(t, op, now).value;
      if op.BindVerification? then u.step == t.step && BindingsLeft(u) < BindingsLeft(t)
      else Rank(u.step) < Rank(t.step) && BindingsLeft(u) <= BindingsLeft(t)
  {
    var u := Apply(t, op, now).value;
    if CanTransition(t.step, u.step) {
      TransitionsDescend(t.step, u.step);
    }
  }

  lemma {:induction false} WorkLeft(t: Transaction, calls: seq<Call>)
    requires Inv(t)
    ensures Count(t, calls, false) + Rank(Run(t, calls).step) <= Rank(t.step)
    ensures Count(t, calls, true) + BindingsLeft(Run(t, calls)) <= BindingsLeft(t)
  {
    if calls != [] {
      var init, last := calls[..|calls| - 1], calls[|calls| - 1];
      WorkLeft(t, init);
      RunPreserves(t, init);
      if Succeeds(Run(t, init), last) {
        StepDescends(Run(t, init), last.op, last.now);
      }
    }
  }

  /** No run moves a transaction more than seven times or binds more than two verifications. */
  lemma AtMostSevenMovesTwoBindings(t: Transaction, calls: seq<Call>)
    requires Inv(t)
    ensures Count(t, calls, false) <= 7 && Count(t, calls, true) <= 2
  {
    WorkLeft(t, calls);
  }

  /** Nothing succeeds on a completed or denied transaction, whatever is tried for however long. */
  lemma {:induction false} FinishedIsFinal(t: Transaction, calls: seq<Call>)
    requires Inv(t) && t.status in {Completed, Denied}
    ensures Run(t, calls) == t && Count(t, calls, false) == 0 && Count(t, calls, true) == 0
  {
    if calls != [] {
      FinishedIsFinal(t, calls[..|calls| - 1]);
    }
  }

  lemma OneMore(t: Transaction, calls: seq<Call>, call: Call, bindings: bool)
    requires Succeeds(Run(t, calls), call)
    ensures Run(t, calls + [call]) == Apply(Run(t, calls), call.op, call.now).value
    ensures Count(t, calls + [call], bindings)
            == Count(t, calls, bindings) + if call.op.BindVerification? == bindings then 1 else 0
  {
    assert (calls + [call])[..|calls|] == calls;
  }

  lemma OneMoreCall(t: Transaction, calls: seq<Call>, op: Op, now: Time) returns (longer: seq<Call>)
    requires Apply(Run(t, calls), op, now).Ok?
    ensures longer == calls + [Call(op, now)]
    ensures Run(t, longer) == Apply(Run(t, calls), op, now).value
    ensures Count(t, longer, false) == Count(t, calls, false) + if op.BindVerification? then 0 else 1
    ensures Count(t, longer, true) == Count(t, calls, true) + if op.BindVerification? then 1 else 0
  {
    longer := calls + [Call(op, now)];
    OneMore(t, calls, Call(op, now), false);
    OneMore(t, calls, Call(op, now), true);
  }

  /** Nothing has happened to the transaction yet, and there is time. */
  predicate IsFresh(t: Transaction, now: Time) {
    && t.status == Pending && t.step == Choose && t.identityId.None? && t.methods == [] && t.level.None? && t.verification.None?
    && ZERO_TIME < now < t.expiresAt
  }

  lemma FreshAtTheChoice(t: Transaction, now: Time)
    requires Inv(t) && t.step == Choose && ZERO_TIME < now < t.expiresAt
    ensures IsFresh(t, now)
  {
  }

  /** The first call of a run, with any method, to any step but consent. */
  lemma PrimaryCall(t: Transaction, m: Method, next: Step, now: Time) returns (calls: seq<Call>)
    requires IsFresh(t, now) && m.IsValid() && CanTransition(Choose, next) && next != Consent
    ensures calls == [Call(CompletePrimary(1, m, next), now)]
    ensures Run(t, calls) == t.(step := next, identityId := Some(1), methods := [m])
    ensures Count(t, calls, false) == 1 && Count(t, calls, true) == 0
  {
    PrimaryStep(t, m, next, now);
    assert Run(t, []) == t && Count(t, [], false) == Count(t, [], true) == 0;
    calls := OneMoreCall(t, [], CompletePrimary(1, m, next), now);
  }

  lemma PrimaryStep(t: Transaction, m: Method, next: Step, now: Time)
    requires IsFresh(t, now) && m.IsValid() && CanTransition(Choose, next) && next != Consent
    ensures Apply(t, CompletePrimary(1, m, next), now) == Ok(t.(step := next, identityId := Some(1), methods := [m]))
  {
    assert t.methods + [m] == [m];
    assert AuthenticationError(t, Choose, 1, m, now).None?;
  }

  /** A second factor after the first one. */
  lemma MfaCall(t: Transaction, calls: seq<Call>, first: Method, m: Method, now: Time) returns (longer: seq<Call>)
    requires var u := Run(t, calls);
      && ChangeError(u, now).None? && u.status == Pending && u.step == Mfa && u.level.None?
      && u.identityId == Some(1) && u.methods == [first]
    requires first.IsValid() && m.IsValid() && first != m
    ensures longer == calls + [Call(CompleteMfa(1, m), now)]
    ensures Run(t, longer) == Run(t, calls).(
      step := Consent, methods := [first, m], level := LevelOf([first, m]), authenticatedAt := Some(now))
    ensures Count(t, longer, false) == Count(t, calls, false) + 1 && Count(t, longer, true) == Count(t, calls, true)
    ensures LevelOf([first, m]).Some?
  {
    ExtendedMethods([first], m);
    assert [first] + [m] == [first, m];
    longer := OneMoreCall(t, calls, CompleteMfa(1, m), now);
  }

  /** One verification: its challenge is bound, then completed. */
  lemma VerificationRound(t: Transaction, calls: seq<Call>, ch: Channel, next: Step, now: Time) returns (longer: seq<Call>)
    requires var u := Run(t, calls);
      && ChangeError(u, now).None? && u.status == Pending && u.step == StepOf(ch) && u.verification.None?
      && u.level.None? && u.identityId.Some?
    requires CanTransition(StepOf(ch), next) && next != Consent && now > ZERO_TIME
    ensures Run(t, longer) == Run(t, calls).(step := next)
    ensures Count(t, longer, false) == Count(t, calls, false) + 1 && Count(t, longer, true) == Count(t, calls, true) + 1
  {
    longer := OneMoreCall(t, calls, BindVerification(ch, 1, 1, now + 1), now);
    longer := OneMoreCall(t, longer, CompleteVerification(ch, next), now);
  }

  /** From the second factor on, to completion. */
  lemma LastSteps(t: Transaction, calls: seq<Call>, now: Time) returns (longer: seq<Call>)
    requires var u := Run(t, calls);
      && ChangeError(u, now).None? && u.status == Pending && u.step == Mfa && u.level.None? && u.requestedScopes != []
      && u.identityId == Some(1) && u.methods == [Password]
    ensures Run(t, longer).status == Completed
    ensures Count(t, longer, false) == Count(t, calls, false) + 3 && Count(t, longer, true) == Count(t, calls, true)
  {
    longer := MfaCall(t, calls, Password, Totp, now);
    longer := OneMoreCall(t, longer, AuthorizeScopes([Run(t, calls).requestedScopes[0]], UserConsent), now);
    longer := OneMoreCall(t, longer, Complete, now);
  }

  /** A forced password change after the first call. */
  lemma PasswordChangeCall(t: Transaction, calls: seq<Call>, next: Step, now: Time) returns (longer: seq<Call>)
    requires var u := Run(t, calls);
      && ChangeError(u, now).None? && u.status == Pending && u.step == PasswordChange && u.level.None? && u.identityId.Some?
    requires CanTransition(PasswordChange, next) && next != Consent
    ensures Run(t, longer) == Run(t, calls).(step := next)
    ensures Count(t, longer, false) == Count(t, calls, false) + 1 && Count(t, longer, true) == Count(t, calls, true)
  {
    longer := OneMoreCall(t, calls, Op.CompletePasswordChange(next), now);
  }

  /** The bounds are met: a password change, both verifications and MFA use all seven moves and both bindings. */
  lemma BoundsAreReached(t: Transaction, now: Time) returns (calls: seq<Call>)
    requires Inv(t) && t.step == Choose && t.requestedScopes != [] && ZERO_TIME < now < t.expiresAt
    ensures Count(t, calls, false) == 7 && Count(t, calls, true) == 2
    ensures Run(t, calls).status == Completed
  {
    FreshAtTheChoice(t, now);
    calls := PrimaryCall(t, Password, PasswordChange, now);
    calls := PasswordChangeCall(t, calls, EmailVerification, now);
    calls := VerificationRound(t, calls, Email, PhoneVerification, now);
    calls := VerificationRound(t, calls, Phone, Mfa, now);
    calls := LastSteps(t, calls, now);
  }
}
