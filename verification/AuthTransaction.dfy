/** The authorization transaction changing in place. */
module AuthTransaction {
  import opened Common
  import opened Authentication
  import opened AuthTransactionModel

  /** A call either reports success and reaches exactly the new state, or reports its error and changes nothing. */
  ghost predicate Settles(err: Option<Error>, before: Transaction, after: Transaction, outcome: Result<Transaction, Error>) {
    match outcome
    case Ok(t) => err == None && after == t
    case Err(e) => err == Some(e) && after == before
  }

  /** The level to record on the way to consent; on the way to any other step there is nothing to resolve. */
  method ResolveCompletion(methods: seq<Method>, next: Step) returns (level: Option<Level>, err: Option<Error>)
    ensures next != Consent ==> level == None && err == None
    ensures next == Consent ==> level == LevelOf(methods) && err == if level.None? then Some(UnresolvedLevel) else None
  {
    if next != Consent {
      return None, None;
    }
    level := ResolveLevel(methods);
    err := if level.None? then Some(UnresolvedLevel) else None;
  }

  class AuthorizationTransaction {
    const id: Uuid
    const clientId: Uuid
    const redirectUri: string
    const requestedScopes: seq<string>
    const state: Option<string>
    const nonce: Option<string>
    const pkce: Option<Pkce>
    var status: Status
    var nextStep: Step
    var identityId: Option<Uuid>
    var level: Option<Level>
    var methods: seq<Method>
    var grantedScopes: seq<string>
    var source: Option<Source>
    var verification: Option<Reference>
    var authenticatedAt: Option<Time>
    const expiresAt: Time

    function State(): Transaction
      reads this
    {
      Transaction(id, clientId, redirectUri, requestedScopes, state, nonce, pkce, status, nextStep,
                  identityId, level, methods, grantedScopes, source, verification, authenticatedAt, expiresAt)
    }

    ghost predicate Valid()
      reads this
    {
      Inv(State())
    }

    constructor (id: Uuid, clientId: Uuid, redirectUri: string, requestedScopes: seq<string>, state: Option<string>,
                 nonce: Option<string>, requirePkce: bool, pkce: Option<Pkce>, expiresAt: Time, now: Time)
      requires New(id, clientId, redirectUri, requestedScopes, state, nonce, requirePkce, pkce, expiresAt, now).Ok?
      ensures Valid()
      ensures New(id, clientId, redirectUri, requestedScopes, state, nonce, requirePkce, pkce, expiresAt, now) == Ok(State())
    {
      this.id, this.clientId, this.redirectUri, this.requestedScopes := id, clientId, redirectUri, requestedScopes;
      this.state, this.nonce, this.pkce, this.expiresAt := state, nonce, pkce, expiresAt;
      status, nextStep := Pending, Choose;
      identityId, level, methods, grantedScopes := None, None, [], [];
      source, verification, authenticatedAt := None, None, None;
    }

    method EnsureChangeAllowed(now: Time) returns (err: Option<Error>)
      ensures err == ChangeError(State(), now)
    {
      if now == ZERO_TIME {
        return Some(InvalidTime);
      }
      if expiresAt <= now {
        return Some(Expired);
      }
      err := None;
    }

    method TransitionTo(step: Step) returns (err: Option<Error>)
      modifies `nextStep
      ensures err == if status != Pending then Some(InvalidStatus)
                     else if !CanTransition(old(nextStep), step) then Some(InvalidStep) else None
      ensures State() == if err.None? then old(State()).(step := step) else old(State())
    {
      if status != Pending {
        return Some(InvalidStatus);
      }
      if !CanTransition(nextStep, step) {
        return Some(InvalidStep);
      }
      nextStep := step;
      err := None;
    }

    method RecordLevel(resolved: Option<Level>, now: Time)
      modifies `level, `authenticatedAt
      ensures State() == if resolved.Some? then old(State()).(level := resolved, authenticatedAt := Some(now)) else old(State())
    {
      if resolved.None? {
        return;
      }
      level := resolved;
      authenticatedAt := Some(now);
    }

    /** What a passed authentication and a completed step have in common: resolve, transition, record. */
    method MoveOn(methods: seq<Method>, next: Step, now: Time) returns (err: Option<Error>)
      modifies `nextStep, `methods, `level, `authenticatedAt
      ensures Settles(err, old(State()), State(), Arrive(old(State()), methods, next, now))
    {
      var resolved;
      resolved, err := ResolveCompletion(methods, next);
      if err.Some? {
        return;
      }
      err := TransitionTo(next);
      if err.Some? {
        return;
      }
      this.methods := methods;
      RecordLevel(resolved, now);
    }

    /** The guards of `ApplyAuthentication`. */
    method EnsureAuthenticationAllowed(current: Step, identityId: Uuid, m: Method, now: Time) returns (err: Option<Error>)
      ensures err == AuthenticationError(State(), current, identityId, m, now)
    {
      err := EnsureChangeAllowed(now);
      if err.Some? {
        return;
      }
      if status != Pending {
        return Some(InvalidStatus);
      }
      if nextStep != current || level.Some? {
        return Some(InvalidStep);
      }
      if identityId == NIL_UUID {
        return Some(InvalidIdentity);
      }
      if !m.IsValid() {
        return Some(InvalidMethod);
      }
      if this.identityId.Some? && this.identityId.value != identityId {
        return Some(IdentityMismatch);
      }
      if m in methods {
        return Some(DuplicateMethod);
      }
    }

    method ApplyAuthentication(current: Step, identityId: Uuid, m: Method, next: Step, now: Time) returns (err: Option<Error>)
      modifies this
      ensures Settles(err, old(State()), State(), Authenticate(old(State()), current, identityId, m, next, now))
    {
      err := EnsureAuthenticationAllowed(current, identityId, m, now);
      if err.Some? {
        return;
      }
      err := MoveOn(methods + [m], next, now);
      if err.Some? {
        return;
      }
      this.identityId := Some(identityId);
    }

    method CompletePrimaryAuthentication(identityId: Uuid, m: Method, next: Step, now: Time) returns (err: Option<Error>)
      requires Valid()
      modifies this
      ensures Valid() && Settles(err, old(State()), State(), Apply(old(State()), CompletePrimary(identityId, m, next), now))
    {
      ghost var before := State();
      err := ApplyAuthentication(Choose, identityId, m, next, now);
      Kept(before, CompletePrimary(identityId, m, next), now);
    }

    method CompleteMFA(identityId: Uuid, m: Method, now: Time) returns (err: Option<Error>)
      requires Valid()
      modifies this
      ensures Valid() && Settles(err, old(State()), State(), Apply(old(State()), CompleteMfa(identityId, m), now))
    {
      ghost var before := State();
      err := ApplyAuthentication(Step.Mfa, identityId, m, Consent, now);
      Kept(before, CompleteMfa(identityId, m), now);
    }

    method BeginPasswordRegistration(identityId: Uuid, step: Step, now: Time) returns (err: Option<Error>)
      requires Valid()
      modifies this
      ensures Valid()
      ensures Settles(err, old(State()), State(), Apply(old(State()), Op.BeginPasswordRegistration(identityId, step), now))
    {
      ghost var before := State();
      Kept(before, Op.BeginPasswordRegistration(identityId, step), now);
      err := EnsureChangeAllowed(now);
      if err.Some? {
        return;
      }
      if status != Pending {
        return Some(InvalidStatus);
      }
      if nextStep != Choose || this.identityId.Some? || methods != [] {
        return Some(InvalidStep);
      }
      if identityId == NIL_UUID {
        return Some(InvalidIdentity);
      }
      if step != EmailVerification && step != PhoneVerification {
        return Some(InvalidStep);
      }
      err := TransitionTo(step);
      if err.Some? {
        assert false;
      }
      this.identityId := Some(identityId);
      methods := [Password];
    }

    method CompleteRequiredStep(current: Step, next: Step, now: Time) returns (err: Option<Error>)
      modifies this
      ensures Settles(err, old(State()), State(), CompleteRequired(old(State()), current, next, now))
    {
      err := EnsureChangeAllowed(now);
      if err.Some? {
        return;
      }
      if status != Pending {
        return Some(InvalidStatus);
      }
      if nextStep != current || level.Some? || identityId.None? {
        return Some(InvalidStep);
      }
      err := MoveOn(methods, next, now);
    }

    method CompletePasswordChange(next: Step, now: Time) returns (err: Option<Error>)
      requires Valid()
      modifies this
      ensures Valid() && Settles(err, old(State()), State(), Apply(old(State()), Op.CompletePasswordChange(next), now))
    {
      ghost var before := State();
      err := CompleteRequiredStep(PasswordChange, next, now);
      Kept(before, Op.CompletePasswordChange(next), now);
    }

    method SkipMFAEnrollment(now: Time) returns (err: Option<Error>)
      requires Valid()
      modifies this
      ensures Valid() && Settles(err, old(State()), State(), Apply(old(State()), SkipMfaEnrollment, now))
    {
      ghost var before := State();
      err := CompleteRequiredStep(MfaEnrollment, Consent, now);
      Kept(before, SkipMfaEnrollment, now);
    }

    method EnsureVerificationReference(channel: Channel, now: Time) returns (err: Option<Error>)
      ensures err == VerificationError(State(), channel, now)
    {
      if verification.None? {
        return Some(ReferenceMissing);
      }
      if verification.value.channel != channel {
        return Some(WrongChannel);
      }
      if verification.value.expiresAt <= now {
        return Some(VerificationExpired);
      }
      err := None;
    }

    /** `CompleteEmailVerification` and `CompletePhoneVerification`. */
    method CompleteVerification(channel: Channel, next: Step, now: Time) returns (err: Option<Error>)
      requires Valid()
      modifies this
      ensures Valid() && Settles(err, old(State()), State(), Apply(old(State()), Op.CompleteVerification(channel, next), now))
    {
      ghost var before := State();
      Kept(before, Op.CompleteVerification(channel, next), now);
      if nextStep != StepOf(channel) || !CanTransition(nextStep, next) {
        return Some(InvalidStep);
      }
      err := EnsureVerificationReference(channel, now);
      if err.Some? {
        return;
      }
      err := CompleteRequiredStep(StepOf(channel), next, now);
      if err.Some? {
        return;
      }
      verification := None;
    }

    /** `BindEmailVerification` and `BindPhoneVerification`. */
    method BindVerification(channel: Channel, contactId: Uuid, challengeId: Uuid, challengeExpiresAt: Time, now: Time)
      returns (err: Option<Error>)
      requires Valid()
      modifies this
      ensures Valid()
      ensures Settles(err, old(State()), State(),
                      Apply(old(State()), Op.BindVerification(channel, contactId, challengeId, challengeExpiresAt), now))
    {
      ghost var before := State();
      Kept(before, Op.BindVerification(channel, contactId, challengeId, challengeExpiresAt), now);
      err := EnsureChangeAllowed(now);
      if err.Some? {
        return;
      }
      if status != Pending || nextStep != StepOf(channel) {
        return Some(InvalidStep);
      }
      if verification.Some? {
        return Some(AlreadyBound);
      }
      if challengeExpiresAt <= now {
        return Some(VerificationExpired);
      }
      if contactId == NIL_UUID || challengeId == NIL_UUID || challengeExpiresAt == ZERO_TIME {
        return Some(InvalidReference);
      }
      verification := Some(Reference(channel, contactId, challengeId, challengeExpiresAt));
    }

    method EnsureGrantedScopesAllowed(granted: seq<string>) returns (err: Option<Error>)
      ensures err == if !Distinct(granted) then Some(DuplicateScope)
                     else if !AllRequested(granted, requestedScopes) then Some(ScopeNotRequested) else None
    {
      var duplicated := HasDuplicates(granted);
      if duplicated {
        return Some(DuplicateScope);
      }
      var requested: set<string> := {};
      for i := 0 to |requestedScopes|
        invariant forall x :: x in requested <==> x in requestedScopes[..i]
      {
        requested := requested + {requestedScopes[i]};
      }
      for i := 0 to |granted|
        invariant AllRequested(granted[..i], requestedScopes)
      {
        if granted[i] !in requested {
          return Some(ScopeNotRequested);
        }
      }
      err := None;
    }

    method AuthorizeScopes(granted: seq<string>, source: Source, now: Time) returns (err: Option<Error>)
      requires Valid()
      modifies this
      ensures Valid() && Settles(err, old(State()), State(), Apply(old(State()), Op.AuthorizeScopes(granted, source), now))
    {
      ghost var before := State();
      Kept(before, Op.AuthorizeScopes(granted, source), now);
      err := EnsureChangeAllowed(now);
      if err.Some? {
        return;
      }
      if status != Pending || nextStep != Consent || level.None? {
        return Some(InvalidStatus);
      }
      if |granted| == 0 {
        return Some(NoScope);
      }
      err := EnsureGrantedScopesAllowed(granted);
      if err.Some? {
        return;
      }
      err := TransitionTo(Ready);
      if err.Some? {
        assert false;
      }
      grantedScopes := granted;
      this.source := Some(source);
      status := ReadyToComplete;
    }

    method Finish(status: Status)
      modifies `status, `nextStep, `verification
      ensures this.status == status && nextStep == NoStep && verification == None
    {
      this.status := status;
      nextStep := NoStep;
      verification := None;
    }

    method Complete(now: Time) returns (err: Option<Error>)
      requires Valid()
      modifies this
      ensures Valid() && Settles(err, old(State()), State(), Apply(old(State()), Op.Complete, now))
      ensures err != Some(SnapshotMissing)
    {
      ghost var before := State();
      Kept(before, Op.Complete, now);
      err := EnsureChangeAllowed(now);
      if err.Some? {
        return;
      }
      if status != ReadyToComplete || nextStep != Ready {
        return Some(InvalidStatus);
      }
      if identityId.None? || level.None? || authenticatedAt.None? {
        assert false;
      }
      Finish(Completed);
    }

    method Deny(now: Time) returns (err: Option<Error>)
      requires Valid()
      modifies this
      ensures Valid() && Settles(err, old(State()), State(), Apply(old(State()), Op.Deny, now))
    {
      ghost var before := State();
      Kept(before, Op.Deny, now);
      err := EnsureChangeAllowed(now);
      if err.Some? {
        return;
      }
      if status != Pending {
        return Some(InvalidStatus);
      }
      Finish(Denied);
    }
  }

  /** A step that succeeds keeps what holds of every transaction. */
  lemma Kept(before: Transaction, op: Op, now: Time)
    requires Inv(before)
    ensures Apply(before, op, now).Ok? ==> Inv(Apply(before, op, now).value)
  {
    if Apply(before, op, now).Ok? {
      StepPreserves(before, op, now);
    }
  }
}
