/** The policy that picks the steps of an authorization transaction. */
module AuthenticationFlow {
  import opened Common
  import opened Authentication
  import opened AuthTransactionModel

  datatype ContactVerification = NotRequired | EmailRequired | PhoneRequired | UnknownRequirement(text: string)

  datatype Requirements = Requirements(passwordChangeRequired: bool, contactVerification: ContactVerification)
  {
    predicate IsValid() {
      !contactVerification.UnknownRequirement?
    }
  }

  datatype ConsentMode = Required | Remember | Trusted | UnknownMode(text: string)

  datatype Facts = Facts(mfaMethods: seq<Method>, consentMode: ConsentMode, rememberedGrantCovers: bool)

  datatype Decision = Decision(next: Step, source: Option<Source>)

  datatype FlowError = InvalidRequirements | FactsRequired | NoNextStep | InvalidConsentMode

  ghost predicate SoundFacts(facts: Facts) {
    && !facts.consentMode.UnknownMode?
    && Distinct(facts.mfaMethods) && (forall m | m in facts.mfaMethods :: m.IsValid() && m != Password)
    && (facts.rememberedGrantCovers ==> facts.consentMode == Remember)
  }

  method NewFacts(mfaMethods: seq<Method>, consentMode: ConsentMode, rememberedGrantCovers: bool) returns (facts: Option<Facts>)
    ensures facts.Some? <==> SoundFacts(Facts(mfaMethods, consentMode, rememberedGrantCovers))
    ensures facts.Some? ==> facts.value == Facts(mfaMethods, consentMode, rememberedGrantCovers)
  {
    if consentMode.UnknownMode? {
      return None;
    }
    var seen: set<Method> := {};
    for i := 0 to |mfaMethods|
      invariant forall m :: m in seen <==> m in mfaMethods[..i]
      invariant Distinct(mfaMethods[..i]) && forall m | m in mfaMethods[..i] :: m.IsValid() && m != Password
    {
      var m := mfaMethods[i];
      if !m.IsValid() || m == Password {
        assert m in mfaMethods;
        return None;
      }
      if m in seen {
        assert exists j | 0 <= j < i :: mfaMethods[j] == m;
        return None;
      }
      seen := seen + {m};
      DistinctAppend(mfaMethods[..i], m);
      assert mfaMethods[..i + 1] == mfaMethods[..i] + [m];
    }
    assert mfaMethods[..|mfaMethods|] == mfaMethods;
    if rememberedGrantCovers && consentMode != Remember {
      return None;
    }
    facts := Some(Facts(mfaMethods, consentMode, rememberedGrantCovers));
  }

  function VerificationNextStep(requirement: ContactVerification): Step {
    match requirement
    case EmailRequired => EmailVerification
    case PhoneRequired => PhoneVerification
    case _ => NoStep
  }

  function ResolveNextStep(current: Step, requirements: Requirements, facts: Option<Facts>): Result<Decision, FlowError> {
    var verification := VerificationNextStep(requirements.contactVerification);
    if !requirements.IsValid() then Err(InvalidRequirements)
    else if requirements.passwordChangeRequired && CanTransition(current, PasswordChange) then Ok(Decision(PasswordChange, None))
    else if verification != NoStep && CanTransition(current, verification) then Ok(Decision(verification, None))
    else if facts.None? then Err(FactsRequired)
    else
      var mfaStep := if |facts.value.mfaMethods| > 0 then Mfa else MfaEnrollment;
      if CanTransition(current, mfaStep) then Ok(Decision(mfaStep, None))
      else if !CanTransition(current, Consent) then Err(NoNextStep)
      else
        match facts.value.consentMode
        case Required => Ok(Decision(Consent, None))
        case Remember => Ok(Decision(Consent, if facts.value.rememberedGrantCovers then Some(RememberedGrant) else None))
        case Trusted => Ok(Decision(Consent, Some(TrustedClient)))
        case UnknownMode(_) => Err(InvalidConsentMode)
  }

  // ---- Policy and transaction agree ----

  /** Whatever the policy decides, the transaction accepts as a move; it authorizes scopes by itself only at consent. */
  lemma DecisionIsAccepted(current: Step, requirements: Requirements, facts: Option<Facts>)
    requires ResolveNextStep(current, requirements, facts).Ok?
    ensures var d := ResolveNextStep(current, requirements, facts).value;
      CanTransition(current, d.next) && (d.source.Some? ==> d.next == Consent && current in {Mfa, MfaEnrollment})
  {
  }

  /** A required password change comes first, where it can still come. */
  predicate ForcesChange(current: Step, r: Requirements) {
    r.passwordChangeRequired && current == Choose
  }

  /** Then the required verification, unless its step is passed or the other channel's later step is. */
  predicate ForcesVerification(current: Step, r: Requirements) {
    && !ForcesChange(current, r)
    && ((r.contactVerification == EmailRequired && current in {Choose, PasswordChange})
        || (r.contactVerification == PhoneRequired && current in {Choose, PasswordChange, EmailVerification}))
  }

  /**
   * What the policy decides, exactly. After what is forced, whoever lists a usable method goes to MFA and whoever lists none to
   * its enrollment; after that comes consent, given by a covering remembered grant exactly in remember mode, by a trusted client
   * exactly in trusted mode, and otherwise left to the user.
   */
  lemma DecidedExactly(current: Step, r: Requirements, facts: Facts)
    requires r.IsValid() && SoundFacts(facts) && current !in {Consent, Ready, NoStep}
    ensures ResolveNextStep(current, r, Some(facts)).Ok?
    ensures var d := ResolveNextStep(current, r, Some(facts)).value;
      && (d.next == PasswordChange <==> ForcesChange(current, r))
      && (d.next == EmailVerification <==> ForcesVerification(current, r) && r.contactVerification == EmailRequired)
      && (d.next == PhoneVerification <==> ForcesVerification(current, r) && r.contactVerification == PhoneRequired)
      && (d.next == Consent <==> current in {Mfa, MfaEnrollment})
      && (d.next in {Mfa, MfaEnrollment} ==> (d.next == Mfa <==> facts.mfaMethods != []))
      && (d.source == Some(RememberedGrant) <==> d.next == Consent && facts.consentMode == Remember && facts.rememberedGrantCovers)
      && (d.source == Some(TrustedClient) <==> d.next == Consent && facts.consentMode == Trusted)
      && d.source != Some(UserConsent) && d.next !in {Ready, NoStep, Choose}
  {
  }

  /** What the policy refuses, exactly, and that it needs no facts for what is forced. */
  lemma RefusedExactly(current: Step, r: Requirements, facts: Option<Facts>)
    requires facts.Some? ==> SoundFacts(facts.value)
    ensures ResolveNextStep(current, r, facts) == Err(InvalidRequirements) <==> !r.IsValid()
    ensures ResolveNextStep(current, r, facts) == Err(FactsRequired)
            <==> r.IsValid() && facts.None? && !ForcesChange(current, r) && !ForcesVerification(current, r)
    ensures ResolveNextStep(current, r, facts) == Err(NoNextStep)
            <==> r.IsValid() && facts.Some? && current in {Consent, Ready, NoStep}
    ensures ResolveNextStep(current, r, facts) != Err(InvalidConsentMode)
  {
  }

  ghost predicate Decides(current: Step, requirements: Requirements, facts: Facts, next: Step) {
    && requirements.IsValid() && SoundFacts(facts)
    && ResolveNextStep(current, requirements, Some(facts)).Ok?
    && ResolveNextStep(current, requirements, Some(facts)).value.next == next
  }

  /** The moves the policy can make: those of the transaction, but consent only after MFA or its enrollment. */
  predicate PolicyMove(current: Step, next: Step) {
    CanTransition(current, next) && next != Ready && (next == Consent ==> current in {Mfa, MfaEnrollment})
  }

  lemma PolicyMovesExactly(current: Step, next: Step)
    ensures PolicyMove(current, next) <==> exists requirements, facts :: Decides(current, requirements, facts, next)
  {
    if PolicyMove(current, next) {
      var requirements := Requirements(next == PasswordChange,
        if next == EmailVerification then EmailRequired else if next == PhoneVerification then PhoneRequired else NotRequired);
      var facts := Facts(if next == Mfa then [Totp] else [], Required, false);
      assert SoundFacts(facts);
      assert Decides(current, requirements, facts, next);
    }
  }

  // ---- From the choice of a method to consent ----

  datatype Answer = Answer(requirements: Requirements, facts: Facts)

  ghost predicate SoundAnswers(answers: seq<Answer>) {
    forall i | 0 <= i < |answers| :: answers[i].requirements.IsValid() && SoundFacts(answers[i].facts)
  }

  /** The steps decided one after the other, each with its own requirements and facts, until consent. */
  function Path(current: Step, answers: seq<Answer>): (path: seq<Step>)
    ensures |path| >= 1 && path[0] == current
    decreases |answers|
  {
    if current == Consent || answers == [] then [current]
    else
      match ResolveNextStep(current, answers[0].requirements, Some(answers[0].facts))
      case Err(_) => [current]
      case Ok(d) => [current] + Path(d.next, answers[1..])
  }

  function CountMfa(path: seq<Step>): nat {
    if path == [] then 0 else CountMfa(path[1..]) + if path[0] in {Mfa, MfaEnrollment} then 1 else 0
  }

  lemma {:induction false} PathReachesConsent(current: Step, answers: seq<Answer>)
    requires SoundAnswers(answers) && current !in {Ready, NoStep} && |answers| >= Rank(current) - 2
    ensures var path := Path(current, answers);
      && path[|path| - 1] == Consent && |path| <= Rank(current) - 1
      && CountMfa(path) == if current == Consent then 0 else 1
    decreases Rank(current)
  {
    var path := Path(current, answers);
    if current != Consent {
      var d := ResolveNextStep(current, answers[0].requirements, Some(answers[0].facts));
      assert d.Ok?;
      TransitionsDescend(current, d.value.next);
      PathReachesConsent(d.value.next, answers[1..]);
      assert path[1..] == Path(d.value.next, answers[1..]);
    } else {
      assert path[1..] == [];
    }
  }

  /** Five decisions always suffice, and each way to consent passes through exactly one of MFA and its enrollment, once. */
  lemma ConsentWithinFiveDecisions(answers: seq<Answer>)
    requires SoundAnswers(answers) && |answers| == 5
    ensures var path := Path(Choose, answers);
      path[|path| - 1] == Consent && |path| <= 6 && CountMfa(path) == 1
  {
    PathReachesConsent(Choose, answers);
  }

  /** The step after each decision is MFA or its enrollment by the facts of that decision. */
  ghost predicate ChosenByFacts(path: seq<Step>, answers: seq<Answer>) {
    forall k | 0 <= k < |path| - 1 && k < |answers| && path[k + 1] in {Mfa, MfaEnrollment} ::
      path[k + 1] == Mfa <==> answers[k].facts.mfaMethods != []
  }

  lemma {:induction false} PathChoosesByFacts(current: Step, answers: seq<Answer>)
    requires SoundAnswers(answers) && current !in {Ready, NoStep}
    ensures ChosenByFacts(Path(current, answers), answers) && |Path(current, answers)| <= |answers| + 1
    decreases |answers|
  {
    if current != Consent && answers != [] {
      DecidedExactly(current, answers[0].requirements, answers[0].facts);
      var d := ResolveNextStep(current, answers[0].requirements, Some(answers[0].facts)).value;
      PathChoosesByFacts(d.next, answers[1..]);
      var path, rest := Path(current, answers), Path(d.next, answers[1..]);
      forall k | 0 <= k < |path| - 1 && k < |answers| && path[k + 1] in {Mfa, MfaEnrollment}
        ensures path[k + 1] == Mfa <==> answers[k].facts.mfaMethods != []
      {
        if k > 0 {
          assert path[k + 1] == rest[k - 1 + 1] && answers[k] == answers[1..][k - 1];
        }
      }
    }
  }

  /** On the way to consent, MFA is visited exactly if the decision that takes the way there lists a usable method. */
  lemma MfaVisitedExactlyWithMethods(answers: seq<Answer>) returns (k: nat)
    requires SoundAnswers(answers) && |answers| == 5
    ensures var path := Path(Choose, answers);
      && k < 5 && k + 1 < |path| && path[k + 1] in {Mfa, MfaEnrollment}
      && (Mfa in path <==> answers[k].facts.mfaMethods != []) && (MfaEnrollment in path <==> answers[k].facts.mfaMethods == [])
  {
    ConsentWithinFiveDecisions(answers);
    PathChoosesByFacts(Choose, answers);
    var path := Path(Choose, answers);
    var i := OnlyOne(path);
    k := i - 1;
  }

  /** A path that counts one of the two steps has it at exactly one place. */
  lemma {:induction false} OnlyOne(path: seq<Step>) returns (i: nat)
    requires CountMfa(path) == 1
    ensures i < |path| && path[i] in {Mfa, MfaEnrollment}
    ensures forall j | 0 <= j < |path| && j != i :: path[j] !in {Mfa, MfaEnrollment}
  {
    if path[0] in {Mfa, MfaEnrollment} {
      i := 0;
      NoneLeft(path[1..]);
      assert forall j | 1 <= j < |path| :: path[j] == path[1..][j - 1];
    } else {
      var rest := OnlyOne(path[1..]);
      i := rest + 1;
      assert forall j | 1 <= j < |path| :: path[j] == path[1..][j - 1];
    }
  }

  lemma {:induction false} NoneLeft(path: seq<Step>)
    requires CountMfa(path) == 0
    ensures forall j | 0 <= j < |path| :: path[j] !in {Mfa, MfaEnrollment}
  {
    if path != [] {
      NoneLeft(path[1..]);
      assert forall j | 1 <= j < |path| :: path[j] == path[1..][j - 1];
    }
  }

  /** Five is needed: changing requirements can lead through every step. */
  lemma FiveDecisionsAreNeeded() returns (answers: seq<Answer>)
    ensures SoundAnswers(answers) && Path(Choose, answers) == [Choose, PasswordChange, EmailVerification, PhoneVerification, Mfa, Consent]
  {
    var facts := Facts([Totp], Required, false);
    var none := Answer(Requirements(false, NotRequired), facts);
    assert SoundFacts(facts);
    answers := [
      Answer(Requirements(true, NotRequired), facts), Answer(Requirements(false, EmailRequired), facts),
      Answer(Requirements(false, PhoneRequired), facts), none, none];
    assert Path(Mfa, answers[1..][1..][1..][1..]) == [Mfa, Consent];
    assert Path(PhoneVerification, answers[1..][1..][1..]) == [PhoneVerification, Mfa, Consent];
    assert Path(EmailVerification, answers[1..][1..]) == [EmailVerification, PhoneVerification, Mfa, Consent];
    assert Path(PasswordChange, answers[1..]) == [PasswordChange, EmailVerification, PhoneVerification, Mfa, Consent];
  }

  // ---- Transactions driven by the policy ----

  predicate Visited(t: Transaction, calls: seq<Call>, step: Step) {
    Run(t, calls).step == step || (calls != [] && Visited(t, calls[..|calls| - 1], step))
  }

  /** Every move to a step before authorization is one the policy can decide; a registration begins at its verification. */
  predicate Driven(t: Transaction, calls: seq<Call>) {
    calls == [] ||
    var init, last := calls[..|calls| - 1], calls[|calls| - 1];
    && Driven(t, init)
    && var before, after := Run(t, init).step, Run(t, calls).step;
    (after == before || after in {Ready, NoStep} || last.op.BeginPasswordRegistration? || PolicyMove(before, after))
  }

  /** How many methods there are and which steps were passed, at each point of a driven run. */
  ghost predicate Progress(t: Transaction, calls: seq<Call>) {
    var u, mfa, enrollment := Run(t, calls), Visited(t, calls, Mfa), Visited(t, calls, MfaEnrollment);
    && (u.status == Pending && u.level.None? ==>
          && |u.methods| == (if u.step == Choose then 0 else 1)
          && (mfa <==> u.step == Mfa) && (enrollment <==> u.step == MfaEnrollment))
    && (u.level.Some? ==> mfa != enrollment && |u.methods| == if mfa then 2 else 1)
  }

  lemma {:induction false} DrivenProgress(t: Transaction, calls: seq<Call>)
    requires Inv(t) && t.step == Choose && Driven(t, calls)
    ensures Progress(t, calls)
  {
    if calls != [] {
      var init, last := calls[..|calls| - 1], calls[|calls| - 1];
      DrivenProgress(t, init);
      RunPreserves(t, init);
      var before := Run(t, init);
      if Apply(before, last.op, last.now).Ok? {
        DrivenStep(t, init, last);
      }
    }
  }

  lemma DrivenStep(t: Transaction, init: seq<Call>, last: Call)
    requires Inv(Run(t, init)) && Progress(t, init) && Apply(Run(t, init), last.op, last.now).Ok?
    requires Driven(t, init + [last])
    ensures Progress(t, init + [last])
  {
    var calls := init + [last];
    assert calls[..|calls| - 1] == init && calls[|calls| - 1] == last;
    StepShape(Run(t, init), last.op, last.now);
  }

  /** How a successful step changes the methods, and when it records the level. */
  lemma StepShape(t: Transaction, op: Op, now: Time)
    requires Inv(t) && Apply(t, op, now).Ok?
    ensures var u := Apply(t, op, now).value;
      && (t.status != Pending || t.level.Some? || u.status != Pending ==>
            u.methods == t.methods && u.level == t.level && u.step in {Ready, NoStep})
      && (t.status == Pending && t.level.None? && u.status == Pending ==>
            && |u.methods| == |t.methods| + (if t.step in {Choose, Mfa} then 1 else 0)
            && (u.level.Some? <==> u.step == Consent)
            && (u.step == t.step ==> op.BindVerification?) && (t.step == Mfa ==> u.step == Consent)
            && (op.BeginPasswordRegistration? ==> u.step in {EmailVerification, PhoneVerification}))
  {
  }

  lemma LevelOfUpToTwo(methods: seq<Method>)
    requires Distinct(methods) && AllValid(methods) && 1 <= |methods| <= 2
    ensures LevelOf(methods) == Some(if |methods| == 2 && Password in methods then MultiFactor else SingleFactor)
  {
    if |methods| == 2 && Password in methods {
      var i := if methods[0] == Password then 1 else 0;
      assert methods[i] != Password && FactorClassOf(methods[i]) == Some(Possession);
    }
  }

  /** A driven transaction that has its level is multi-factor exactly when it went through MFA and one of its methods is the password. */
  lemma MultiFactorExactly(t: Transaction, calls: seq<Call>)
    requires Inv(t) && t.step == Choose && Driven(t, calls) && Run(t, calls).level.Some?
    ensures Run(t, calls).level == Some(MultiFactor) <==> Visited(t, calls, Mfa) && Password in Run(t, calls).methods
    ensures Visited(t, calls, Mfa) != Visited(t, calls, MfaEnrollment)
  {
    DrivenProgress(t, calls);
    RunPreserves(t, calls);
    LevelOfUpToTwo(Run(t, calls).methods);
  }

  /** So one that began with a password is multi-factor exactly when it went through MFA, and otherwise skipped the enrollment. */
  lemma MultiFactorExactlyThroughMfa(t: Transaction, calls: seq<Call>)
    requires Inv(t) && t.step == Choose && Driven(t, calls)
    requires Run(t, calls).level.Some? && [Password] <= Run(t, calls).methods
    ensures Run(t, calls).level == Some(MultiFactor) <==> Visited(t, calls, Mfa)
    ensures Run(t, calls).level == Some(SingleFactor) <==> Visited(t, calls, MfaEnrollment)
  {
    MultiFactorExactly(t, calls);
    var methods, level := Run(t, calls).methods, Run(t, calls).level.value;
    assert methods[0] == [Password][0] && Password in methods;
    assert level == SingleFactor || level == MultiFactor;
  }

  /** Driven, move by move, by the decisions on these answers. */
  ghost predicate DrivenWith(t: Transaction, calls: seq<Call>, answers: seq<Answer>)
    requires |calls| == |answers|
  {
    calls == [] ||
    var n := |calls| - 1;
    && DrivenWith(t, calls[..n], answers[..n])
    && var before, after := Run(t, calls[..n]).step, Run(t, calls).step;
    (after == before || after in {Ready, NoStep} || calls[n].op.BeginPasswordRegistration?
     || Decides(before, answers[n].requirements, answers[n].facts, after))
  }

  /** Every answer lists a usable method, or every answer lists none. */
  ghost predicate Listing(answers: seq<Answer>, usable: bool) {
    forall i | 0 <= i < |answers| :: (answers[i].facts.mfaMethods != []) == usable
  }

  lemma {:induction false} FactsDrive(t: Transaction, calls: seq<Call>, answers: seq<Answer>, usable: bool)
    requires Inv(t) && t.step == Choose && |calls| == |answers| && DrivenWith(t, calls, answers) && Listing(answers, usable)
    ensures Driven(t, calls) && !Visited(t, calls, if usable then MfaEnrollment else Mfa)
  {
    if calls != [] {
      var n := |calls| - 1;
      FactsDrive(t, calls[..n], answers[..n], usable);
      RunPreserves(t, calls[..n]);
      FactsDriveOne(t, calls[..n], calls[n], answers[n]);
      assert calls[..n] + [calls[n]] == calls;
    }
  }

  /** One call of such a run makes a move of the policy, to MFA or its enrollment only by its facts. */
  lemma FactsDriveOne(t: Transaction, init: seq<Call>, last: Call, answer: Answer)
    requires Inv(Run(t, init))
    requires var before, after := Run(t, init).step, Run(t, init + [last]).step;
      || after == before || after in {Ready, NoStep} || last.op.BeginPasswordRegistration?
      || Decides(before, answer.requirements, answer.facts, after)
    ensures var before, after := Run(t, init).step, Run(t, init + [last]).step;
      && (after == before || after in {Ready, NoStep} || last.op.BeginPasswordRegistration? || PolicyMove(before, after))
      && (after != before && after == Mfa ==> answer.facts.mfaMethods != [])
      && (after != before && after == MfaEnrollment ==> answer.facts.mfaMethods == [])
  {
    assert (init + [last])[..|init|] == init;
    var before, after := Run(t, init).step, Run(t, init + [last]).step;
    if Decides(before, answer.requirements, answer.facts, after) {
      PolicyMovesExactly(before, after);
      if before !in {Consent, Ready, NoStep} {
        DecidedExactly(before, answer.requirements, answer.facts);
      }
    } else if after != before && last.op.BeginPasswordRegistration? {
      StepShape(Run(t, init), last.op, last.now);
    }
  }

  /**
   * From facts to level: a driven transaction that began with a password ends multi-factor if all facts it met list a usable
   * method, and single-factor if none does.
   */
  lemma MethodsDecideTheLevel(t: Transaction, calls: seq<Call>, answers: seq<Answer>, usable: bool)
    requires Inv(t) && t.step == Choose && |calls| == |answers| && DrivenWith(t, calls, answers) && Listing(answers, usable)
    requires Run(t, calls).level.Some? && [Password] <= Run(t, calls).methods
    ensures Run(t, calls).level == Some(if usable then MultiFactor else SingleFactor)
  {
    FactsDrive(t, calls, answers, usable);
    MultiFactorExactlyThroughMfa(t, calls);
    OneOfTwoLevels(Run(t, calls).level, usable);
  }

  lemma OneOfTwoLevels(level: Option<Level>, usable: bool)
    requires level.Some? && level != Some(if usable then SingleFactor else MultiFactor)
    ensures level == Some(if usable then MultiFactor else SingleFactor)
  {
    match level.value case SingleFactor => case MultiFactor =>
  }

  lemma OneMoreDriven(t: Transaction, calls: seq<Call>, call: Call)
    requires Driven(t, calls) && PolicyMove(Run(t, calls).step, Run(t, calls + [call]).step)
    ensures Driven(t, calls + [call])
    ensures forall s: Step :: Visited(t, calls + [call], s) <==> Run(t, calls + [call]).step == s || Visited(t, calls, s)
  {
    assert (calls + [call])[..|calls|] == calls;
  }

  /** The password is needed for that: a passkey followed by a one-time code proves possession twice and stays single-factor. */
  lemma TwoPossessionsAreOneFactor(t: Transaction, now: Time) returns (calls: seq<Call>)
    requires Inv(t) && t.step == Choose && ZERO_TIME < now < t.expiresAt
    ensures Driven(t, calls) && Visited(t, calls, Mfa) && Run(t, calls).step == Consent
    ensures Run(t, calls).level == Some(SingleFactor)
  {
    FreshAtTheChoice(t, now);
    calls := PasskeyThenCode(t, now);
  }

  lemma PasskeyThenCode(t: Transaction, now: Time) returns (calls: seq<Call>)
    requires IsFresh(t, now)
    ensures Driven(t, calls) && Visited(t, calls, Mfa) && Run(t, calls).step == Consent
    ensures Run(t, calls).level == Some(SingleFactor)
  {
    var first := PrimaryCall(t, WebAuthn, Mfa, now);
    assert first == [] + first;
    OneMoreDriven(t, [], first[0]);
    calls := MfaCall(t, first, WebAuthn, Totp, now);
    OneMoreDriven(t, first, Call(CompleteMfa(1, Totp), now));
    LevelOfUpToTwo([WebAuthn, Totp]);
  }
}
