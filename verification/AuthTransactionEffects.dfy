/** When a step of an authorization transaction succeeds, what it achieves, and what no later step takes back. */
module AuthTransactionEffects {
  import opened Common
  import opened Authentication
  import opened AuthTransactionModel

  predicate InTime(t: Transaction, now: Time) {
    now != ZERO_TIME && now < t.expiresAt
  }

  /** Pending at this step, in time, and not yet at consent. */
  predicate OpenAt(t: Transaction, step: Step, now: Time) {
    InTime(t, now) && t.status == Pending && t.step == step && t.level.None?
  }

  /** Arrived at consent the level of the methods and the time are recorded, elsewhere neither. */
  ghost predicate Recorded(t: Transaction, u: Transaction, now: Time) {
    if u.step == Consent then u.level == LevelOf(u.methods) && u.level.Some? && u.authenticatedAt == Some(now)
    else u.level == t.level && u.authenticatedAt == t.authenticatedAt
  }

  /** Apart from these fields nothing has changed. */
  predicate Only(t: Transaction, u: Transaction) {
    u == t.(step := u.step, identityId := u.identityId, methods := u.methods, level := u.level, authenticatedAt := u.authenticatedAt)
  }

  predicate MayAuthenticate(t: Transaction, identityId: Uuid, m: Method) {
    identityId != NIL_UUID && m.IsValid() && m !in t.methods && (t.identityId.Some? ==> t.identityId == Some(identityId))
  }

  lemma GuardsOfAuthentication(t: Transaction, current: Step, identityId: Uuid, m: Method, now: Time)
    ensures AuthenticationError(t, current, identityId, m, now).None?
            <==> OpenAt(t, current, now) && MayAuthenticate(t, identityId, m)
  {
  }

  lemma AuthenticationAchieves(t: Transaction, current: Step, identityId: Uuid, m: Method, next: Step, now: Time)
    requires Inv(t)
    ensures var r := Authenticate(t, current, identityId, m, next, now);
      && (r.Ok? <==> OpenAt(t, current, now) && MayAuthenticate(t, identityId, m) && CanTransition(current, next))
      && (r.Ok? ==>
            && Only(t, r.value) && Recorded(t, r.value, now) && r.value.step == next
            && r.value.identityId == Some(identityId) && r.value.methods == t.methods + [m])
  {
    GuardsOfAuthentication(t, current, identityId, m, now);
    if OpenAt(t, current, now) && MayAuthenticate(t, identityId, m) {
      ExtendedMethods(t.methods, m);
      ArrivalAchieves(t, t.methods + [m], next, now);
    }
  }

  lemma ArrivalAchieves(t: Transaction, methods: seq<Method>, next: Step, now: Time)
    requires t.status == Pending && t.level.None? && LevelOf(methods).Some?
    ensures var r := Arrive(t, methods, next, now);
      && (r.Ok? <==> CanTransition(t.step, next))
      && (r.Ok? ==> Only(t, r.value) && Recorded(t, r.value, now) && r.value.step == next
                    && r.value.identityId == t.identityId && r.value.methods == methods)
  {
  }

  /** The first factor, from the choice of a method to the step that is asked for. */
  lemma PrimaryAchieves(t: Transaction, identityId: Uuid, m: Method, next: Step, now: Time)
    requires Inv(t)
    ensures var r := Apply(t, CompletePrimary(identityId, m, next), now);
      && (r.Ok? <==> OpenAt(t, Choose, now) && MayAuthenticate(t, identityId, m) && CanTransition(Choose, next))
      && (r.Ok? ==>
            && Only(t, r.value) && Recorded(t, r.value, now) && r.value.step == next
            && r.value.identityId == Some(identityId) && r.value.methods == t.methods + [m])
  {
    AuthenticationAchieves(t, Choose, identityId, m, next, now);
  }

  /** The second factor, of the same identity and with another method, always to consent. */
  lemma MfaAchieves(t: Transaction, identityId: Uuid, m: Method, now: Time)
    requires Inv(t)
    ensures var r := Apply(t, CompleteMfa(identityId, m), now);
      && (r.Ok? <==> OpenAt(t, Mfa, now) && t.identityId == Some(identityId) && m.IsValid() && m !in t.methods)
      && (r.Ok? ==>
            && Only(t, r.value) && Recorded(t, r.value, now) && r.value.step == Consent
            && r.value.identityId == t.identityId && r.value.methods == t.methods + [m])
  {
    AuthenticationAchieves(t, Mfa, identityId, m, Consent, now);
  }

  /** The steps that add no method. */
  lemma RequiredAchieves(t: Transaction, current: Step, next: Step, now: Time)
    requires Inv(t) && current !in {Choose, NoStep}
    ensures var r := CompleteRequired(t, current, next, now);
      && (r.Ok? <==> OpenAt(t, current, now) && CanTransition(current, next))
      && (r.Ok? ==>
            && Only(t, r.value) && Recorded(t, r.value, now) && r.value.step == next
            && r.value.identityId == t.identityId && r.value.methods == t.methods)
  {
    if t.methods != [] {
      assert Distinct(t.methods) && AllValid(t.methods);
    }
  }

  lemma PasswordChangeAndSkipAchieve(t: Transaction, next: Step, now: Time)
    requires Inv(t)
    ensures var r := Apply(t, CompletePasswordChange(next), now);
      && (r.Ok? <==> OpenAt(t, PasswordChange, now) && CanTransition(PasswordChange, next))
      && (r.Ok? ==> Only(t, r.value) && Recorded(t, r.value, now) && r.value.step == next && r.value.methods == t.methods)
    ensures var r := Apply(t, SkipMfaEnrollment, now);
      && (r.Ok? <==> OpenAt(t, MfaEnrollment, now))
      && (r.Ok? ==> Only(t, r.value) && Recorded(t, r.value, now) && r.value.step == Consent && r.value.methods == t.methods)
  {
    RequiredAchieves(t, PasswordChange, next, now);
    RequiredAchieves(t, MfaEnrollment, Consent, now);
  }

  /** A registration begins with the password at the verification of a contact. */
  lemma RegistrationAchieves(t: Transaction, identityId: Uuid, step: Step, now: Time)
    requires Inv(t)
    ensures var r := Apply(t, BeginPasswordRegistration(identityId, step), now);
      && (r.Ok? <==> OpenAt(t, Choose, now) && identityId != NIL_UUID && step in {EmailVerification, PhoneVerification})
      && (r.Ok? ==> r.value == t.(step := step, identityId := Some(identityId), methods := [Password]))
  {
  }

  /** A challenge is bound once, at the step of its channel, and lives longer than now. */
  lemma BindingAchieves(t: Transaction, ch: Channel, contact: Uuid, challenge: Uuid, expiresAt: Time, now: Time)
    requires Inv(t)
    ensures var r := Apply(t, BindVerification(ch, contact, challenge, expiresAt), now);
      && (r.Ok? <==> OpenAt(t, StepOf(ch), now) && t.verification.None?
                     && expiresAt > now && NIL_UUID !in {contact, challenge} && expiresAt != ZERO_TIME)
      && (r.Ok? ==> r.value == t.(verification := Some(Reference(ch, contact, challenge, expiresAt))))
  {
  }

  /** A verification needs a bound challenge that has not expired, and uses it up. */
  lemma VerificationAchieves(t: Transaction, ch: Channel, next: Step, now: Time)
    requires Inv(t)
    ensures var r := Apply(t, CompleteVerification(ch, next), now);
      && (r.Ok? <==> OpenAt(t, StepOf(ch), now) && CanTransition(StepOf(ch), next)
                     && t.verification.Some? && now < t.verification.value.expiresAt)
      && (r.Ok? ==>
            && Only(t.(verification := None), r.value) && Recorded(t, r.value, now)
            && r.value.step == next && r.value.methods == t.methods && r.value.identityId == t.identityId)
  {
    RequiredAchieves(t, StepOf(ch), next, now);
  }

  /** What is refused first is the step, whatever is bound. */
  lemma VerificationChecksTheStepFirst(t: Transaction, ch: Channel, next: Step, now: Time)
    ensures t.step != StepOf(ch) || !CanTransition(t.step, next) ==> Apply(t, CompleteVerification(ch, next), now) == Err(InvalidStep)
  {
  }

  /** Scopes are granted at consent: some, each once, and only requested ones. */
  lemma ScopesAchieve(t: Transaction, scopes: seq<string>, source: Source, now: Time)
    requires Inv(t)
    ensures var r := Apply(t, AuthorizeScopes(scopes, source), now);
      && (r.Ok? <==> InTime(t, now) && t.status == Pending && t.step == Consent
                     && scopes != [] && Distinct(scopes) && forall s <- scopes :: s in t.requestedScopes)
      && (r.Ok? ==> r.value == t.(step := Ready, status := ReadyToComplete, grantedScopes := scopes, source := Some(source)))
  {
    assert AllRequested(scopes, t.requestedScopes) <==> forall s <- scopes :: s in t.requestedScopes;
  }

  /** A ready transaction completes, and a pending one can be denied, while there is time; both drop what was bound. */
  lemma EndsAchieve(t: Transaction, now: Time)
    requires Inv(t)
    ensures Apply(t, Complete, now).Ok? <==> InTime(t, now) && t.status == ReadyToComplete
    ensures Apply(t, Complete, now).Ok? ==> Apply(t, Complete, now).value == t.(status := Completed, step := NoStep)
    ensures Apply(t, Deny, now).Ok? <==> InTime(t, now) && t.status == Pending
    ensures Apply(t, Deny, now).Ok? ==> Apply(t, Deny, now).value == t.(status := Denied, step := NoStep, verification := None)
  {
  }

  /** A transaction is created exactly for a client, with distinct scopes, in time, and with a challenge where one is required. */
  lemma CreatedExactly(id: Uuid, clientId: Uuid, redirectUri: string, requestedScopes: seq<string>, state: Option<string>,
                       nonce: Option<string>, requirePkce: bool, pkce: Option<Pkce>, expiresAt: Time, now: Time)
    ensures var r := New(id, clientId, redirectUri, requestedScopes, state, nonce, requirePkce, pkce, expiresAt, now);
      && (r.Ok? <==> NIL_UUID !in {id, clientId} && Distinct(requestedScopes) && now != ZERO_TIME && now < expiresAt
                     && (requirePkce ==> pkce.Some?))
      && (r.Ok? ==>
            && r.value.status == Pending && r.value.step == Choose && r.value.identityId.None? && r.value.methods == []
            && r.value.level.None? && r.value.verification.None?
            && r.value.id == id && r.value.clientId == clientId && r.value.redirectUri == redirectUri
            && r.value.requestedScopes == requestedScopes && r.value.state == state && r.value.nonce == nonce
            && r.value.pkce == pkce && r.value.expiresAt == expiresAt
            && r.value.grantedScopes == [] && r.value.source.None? && r.value.authenticatedAt.None?)
  {
  }

  // ---- What no later step takes back ----

  /** The identity stays, methods are only added, and once recorded the level, its time and the methods stay. */
  ghost predicate KeepsSnapshot(t: Transaction, u: Transaction) {
    && (t.identityId.Some? ==> u.identityId == t.identityId)
    && t.methods <= u.methods
    && (t.level.Some? ==> u.level == t.level && u.authenticatedAt == t.authenticatedAt && u.methods == t.methods)
    && (t.source.Some? ==> u.source == t.source && u.grantedScopes == t.grantedScopes)
  }

  lemma StepKeepsSnapshot(t: Transaction, op: Op, now: Time)
    requires Inv(t) && (t.source.Some? ==> t.step in {Ready, NoStep}) && Apply(t, op, now).Ok?
    ensures KeepsSnapshot(t, Apply(t, op, now).value)
    ensures Apply(t, op, now).value.source.Some? ==> Apply(t, op, now).value.step in {Ready, NoStep}
  {
    match op
    case CompletePrimary(identityId, m, next) => PrimaryAchieves(t, identityId, m, next, now);
    case CompleteMfa(identityId, m) => MfaAchieves(t, identityId, m, now);
    case BeginPasswordRegistration(identityId, step) => RegistrationAchieves(t, identityId, step, now);
    case CompletePasswordChange(next) => PasswordChangeAndSkipAchieve(t, next, now);
    case SkipMfaEnrollment => PasswordChangeAndSkipAchieve(t, Consent, now);
    case CompleteVerification(ch, next) => VerificationAchieves(t, ch, next, now);
    case BindVerification(ch, contact, challenge, expiresAt) => BindingAchieves(t, ch, contact, challenge, expiresAt, now);
    case AuthorizeScopes(scopes, source) => ScopesAchieve(t, scopes, source, now);
    case Complete => EndsAchieve(t, now);
    case Deny => EndsAchieve(t, now);
  }

  /** Over every run, whoever authenticated first stays the one the transaction is about. */
  lemma {:induction false} SnapshotIsKept(t: Transaction, calls: seq<Call>)
    requires Inv(t) && (t.source.Some? ==> t.step in {Ready, NoStep})
    ensures KeepsSnapshot(t, Run(t, calls))
    ensures Run(t, calls).source.Some? ==> Run(t, calls).step in {Ready, NoStep}
  {
    if calls != [] {
      var init, last := calls[..|calls| - 1], Last(calls);
      SnapshotIsKept(t, init);
      RunPreserves(t, init);
      if Apply(Run(t, init), last.op, last.now).Ok? {
        StepKeepsSnapshot(Run(t, init), last.op, last.now);
      }
    }
  }
}
