/** The MFA configuration of an identity as a value: its operations, its invariant and its replay counters. */
module MfaModel {
  import opened Common
  import opened Text

  datatype Error =
    | InvalidArgument | InvalidTime | FactorNotFound | FactorExists | FactorDisabled | FactorNotConfirmed
    | WrongFactorType | EnabledTotpExists | CredentialExists | InvalidTimeStep | TotpReplay
    | InvalidSignCount | CounterRollback | InvalidBackupState

  datatype TotpState = TotpState(
    secret: string, keyRef: string, algorithm: string, digits: int, periodSeconds: int,
    lastUsedTimeStep: Option<int>, updatedAt: Time)

  datatype CredentialState = CredentialState(
    credentialId: string, publicKey: string, aaguid: Option<Uuid>, transports: seq<string>,
    signCount: int, backupEligible: bool, backupState: bool, createdAt: Time, lastUsedAt: Option<Time>)
  {
    function LatestChange(): Time {
      if lastUsedAt.Some? && lastUsedAt.value > createdAt then lastUsedAt.value else createdAt
    }
  }

  /** What the factor is: `Type` together with the one of its two pointers that is set. */
  datatype Kind = Totp(totp: TotpState) | WebAuthn(credential: CredentialState)

  datatype FactorState = FactorState(
    id: Uuid, kind: Kind, name: Option<string>, isPrimary: bool, createdAt: Time, updatedAt: Time,
    confirmedAt: Option<Time>, lastUsedAt: Option<Time>, disabledAt: Option<Time>)
  {
    predicate IsEnabled() {
      disabledAt.None?
    }

    predicate IsConfirmed() {
      confirmedAt.Some?
    }

    predicate IsEnabledTotp() {
      kind.Totp? && IsEnabled()
    }

    predicate HasCredential(id: string) {
      kind.WebAuthn? && kind.credential.credentialId == id
    }
  }

  type Factors = seq<FactorState>

  datatype Op =
    | Rename(id: Uuid, name: Option<string>)
    | Confirm(id: Uuid)
    | SetPrimary(id: Uuid)
    | Disable(id: Uuid)
    | Enable(id: Uuid)
    | EnrollTotp(id: Uuid, name: Option<string>, secret: string, keyRef: string, algorithm: string, digits: int, periodSeconds: int)
    | RecordTotpUse(id: Uuid, timeStep: int)
    | EnrollWebAuthn(id: Uuid, name: Option<string>, credentialId: string, publicKey: string, signCount: int,
                     aaguid: Option<Uuid>, transports: seq<string>, backupEligible: bool, backupState: bool)
    | RecordWebAuthnUse(id: Uuid, signCount: int, backupState: bool)

  function FactorIndex(fs: Factors, id: Uuid, from: nat := 0): (index: int)
    requires from <= |fs|
    ensures index == -1 || (from <= index < |fs| && fs[index].id == id)
    ensures index == -1 ==> forall i | from <= i < |fs| :: fs[i].id != id
    decreases |fs| - from
  {
    if from == |fs| then -1 else if fs[from].id == id then from else FactorIndex(fs, id, from + 1)
  }

  predicate SomePrimary(fs: Factors) {
    exists i | 0 <= i < |fs| :: fs[i].isPrimary
  }

  predicate SomeEnabledTotp(fs: Factors) {
    exists i | 0 <= i < |fs| :: fs[i].IsEnabledTotp()
  }

  predicate SomeCredential(fs: Factors, id: string) {
    exists i | 0 <= i < |fs| :: fs[i].HasCredential(id)
  }

  predicate SomeLaterThan(fs: Factors, now: Time) {
    exists i | 0 <= i < |fs| :: now < fs[i].updatedAt
  }

  function NewFactor(id: Uuid, m: Kind, name: Option<string>, now: Time): Result<FactorState, Error> {
    if id == NIL_UUID || now == ZERO_TIME then Err(InvalidArgument)
    else Ok(FactorState(id, m, NormalizeOptionalText(name), false, now, now, None, None, None))
  }

  function NewTotpFactor(op: Op, now: Time): Result<FactorState, Error>
    requires op.EnrollTotp?
  {
    var totp := TotpState(op.secret, op.keyRef, op.algorithm, op.digits, op.periodSeconds, None, now);
    if (op.digits != 6 && op.digits != 8) || op.periodSeconds <= 0 then Err(InvalidArgument)
    else NewFactor(op.id, Totp(totp), op.name, now)
  }

  function NewWebAuthnFactor(op: Op, now: Time): Result<FactorState, Error>
    requires op.EnrollWebAuthn?
  {
    var credential := CredentialState(op.credentialId, op.publicKey, op.aaguid, op.transports, op.signCount,
      op.backupEligible, op.backupState, now, None);
    if op.signCount < 0 || op.aaguid == Some(NIL_UUID) || !Distinct(op.transports) || (op.backupState && !op.backupEligible)
    then Err(InvalidArgument)
    else NewFactor(op.id, WebAuthn(credential), op.name, now)
  }

  function ChangeError(fs: Factors, now: Time): Option<Error> {
    if now <= ZERO_TIME || SomeLaterThan(fs, now) then Some(InvalidTime) else None
  }

  /** The effect of one operation: a whole new list of factors, or an error and no change at all. */
  function Apply(fs: Factors, op: Op, now: Time): Result<Factors, Error> {
    if ChangeError(fs, now).Some? then Err(ChangeError(fs, now).value)
    else if op.EnrollTotp? then ApplyEnrollTotp(fs, op, now)
    else if op.EnrollWebAuthn? then ApplyEnrollWebAuthn(fs, op, now)
    else
      var i := FactorIndex(fs, op.id);
      if i < 0 then Err(FactorNotFound)
      else if op.SetPrimary? then ApplySetPrimary(fs, i, now)
      else match ChangeFactor(fs, i, op, now)
        case Err(e) => Err(e)
        case Ok(f) => Ok(fs[i := f])
  }

  function ApplyEnrollTotp(fs: Factors, op: Op, now: Time): Result<Factors, Error>
    requires op.EnrollTotp?
  {
    match NewTotpFactor(op, now)
    case Err(e) => Err(e)
    case Ok(f) =>
      if FactorIndex(fs, op.id) >= 0 then Err(FactorExists)
      else if SomeEnabledTotp(fs) then Err(EnabledTotpExists)
      else Ok(fs + [f])
  }

  function ApplyEnrollWebAuthn(fs: Factors, op: Op, now: Time): Result<Factors, Error>
    requires op.EnrollWebAuthn?
  {
    match NewWebAuthnFactor(op, now)
    case Err(e) => Err(e)
    case Ok(f) =>
      if FactorIndex(fs, op.id) >= 0 then Err(FactorExists)
      else if SomeCredential(fs, op.credentialId) then Err(CredentialExists)
      else Ok(fs + [f])
  }

  function Demoted(f: FactorState, now: Time): FactorState {
    if f.isPrimary then f.(isPrimary := false, updatedAt := now) else f
  }

  function OnlyPrimary(fs: Factors, index: nat, now: Time): (r: Factors)
    requires index < |fs|
    ensures |r| == |fs|
  {
    seq(|fs|, i requires 0 <= i < |fs| => if i == index then fs[i].(isPrimary := true, updatedAt := now) else Demoted(fs[i], now))
  }

  function ApplySetPrimary(fs: Factors, i: nat, now: Time): Result<Factors, Error>
    requires i < |fs|
  {
    if !fs[i].IsEnabled() then Err(FactorDisabled)
    else if !fs[i].IsConfirmed() then Err(FactorNotConfirmed)
    else if fs[i].isPrimary then Ok(fs)
    else Ok(OnlyPrimary(fs, i, now))
  }

  /** The operations that change one factor and depend on the others at most through what they already show. */
  function ChangeFactor(fs: Factors, i: nat, op: Op, now: Time): Result<FactorState, Error>
    requires i < |fs| && !op.SetPrimary? && !op.EnrollTotp? && !op.EnrollWebAuthn?
  {
    var f := fs[i];
    match op
    case Rename(_, name) =>
      Ok(if f.name == NormalizeOptionalText(name) then f else f.(name := NormalizeOptionalText(name), updatedAt := now))
    case Confirm(_) =>
      if !f.IsEnabled() then Err(FactorDisabled)
      else if f.IsConfirmed() then Ok(f)
      else Ok(f.(confirmedAt := Some(now), isPrimary := !SomePrimary(fs), updatedAt := now))
    case Disable(_) =>
      if !f.IsEnabled() then Err(FactorDisabled)
      else Ok(f.(isPrimary := false, disabledAt := Some(now), updatedAt := now))
    case Enable(_) =>
      if f.IsEnabled() then Ok(f)
      else if f.kind.Totp? && SomeEnabledTotp(fs) then Err(EnabledTotpExists)
      else Ok(f.(disabledAt := None, updatedAt := now))
    case RecordTotpUse(_, _) => RecordUse(f, op, now)
    case RecordWebAuthnUse(_, _, _) => RecordUse(f, op, now)
  }

  function RecordUse(f: FactorState, op: Op, now: Time): Result<FactorState, Error>
    requires op.RecordTotpUse? || op.RecordWebAuthnUse?
  {
    if op.RecordTotpUse? != f.kind.Totp? then Err(WrongFactorType)
    else if !f.IsEnabled() then Err(FactorDisabled)
    else if !f.IsConfirmed() then Err(FactorNotConfirmed)
    else if op.RecordTotpUse? then
      match NextTotp(f.kind.totp, op.timeStep, now)
      case Err(e) => Err(e)
      case Ok(t) => Ok(f.(kind := Totp(t), lastUsedAt := Some(now), updatedAt := now))
    else
      match NextCredential(f.kind.credential, op.signCount, op.backupState, now)
      case Err(e) => Err(e)
      case Ok(c) => Ok(f.(kind := WebAuthn(c), lastUsedAt := Some(now), updatedAt := now))
  }

  /** Section 5.2 of RFC 6238: a time step is accepted once, and none before it any more. */
  function NextTotp(t: TotpState, timeStep: int, now: Time): Result<TotpState, Error> {
    if timeStep < 0 then Err(InvalidTimeStep)
    else if t.lastUsedTimeStep.Some? && timeStep <= t.lastUsedTimeStep.value then Err(TotpReplay)
    else Ok(t.(lastUsedTimeStep := Some(timeStep), updatedAt := now))
  }

  /** Section 6.1.1 of Web Authentication Level 2: once a counter is not zero it must grow. */
  function NextCredential(c: CredentialState, signCount: int, backupState: bool, now: Time): Result<CredentialState, Error> {
    if signCount < 0 then Err(InvalidSignCount)
    else if c.signCount > 0 && signCount <= c.signCount then Err(CounterRollback)
    else if backupState && !c.backupEligible then Err(InvalidBackupState)
    else Ok(c.(signCount := Max(signCount, c.signCount), backupState := backupState, lastUsedAt := Some(now)))
  }

  // ---- What holds in every reachable configuration ----

  ghost predicate OnePrimary(fs: Factors) {
    && (forall i | 0 <= i < |fs| :: fs[i].isPrimary ==> fs[i].IsEnabled() && fs[i].IsConfirmed())
    && (forall i, j | 0 <= i < j < |fs| :: !(fs[i].isPrimary && fs[j].isPrimary))
  }

  ghost predicate OneEnabledTotp(fs: Factors) {
    forall i, j | 0 <= i < j < |fs| :: !(fs[i].IsEnabledTotp() && fs[j].IsEnabledTotp())
  }

  ghost predicate IdsDistinct(fs: Factors) {
    forall i, j | 0 <= i < j < |fs| :: fs[i].id != fs[j].id
  }

  ghost predicate CredentialsDistinct(fs: Factors) {
    forall i, j | 0 <= i < j < |fs| ::
      fs[i].kind.WebAuthn? && fs[j].kind.WebAuthn? ==>
        fs[i].kind.credential.credentialId != fs[j].kind.credential.credentialId
  }

  /** The part of a factor that records use is never newer than the factor itself. */
  predicate PartNotLater(f: FactorState) {
    match f.kind
    case Totp(t) => t.updatedAt <= f.updatedAt
    case WebAuthn(c) => c.LatestChange() <= f.updatedAt && c.signCount >= 0
  }

  ghost predicate PartsNotLater(fs: Factors) {
    forall i | 0 <= i < |fs| :: PartNotLater(fs[i])
  }

  ghost predicate Inv(fs: Factors) {
    OnePrimary(fs) && OneEnabledTotp(fs) && IdsDistinct(fs) && CredentialsDistinct(fs) && PartsNotLater(fs)
  }

  lemma EnrollPreserves(fs: Factors, op: Op, now: Time)
    requires Inv(fs) && (op.EnrollTotp? || op.EnrollWebAuthn?) && Apply(fs, op, now).Ok?
    ensures Inv(Apply(fs, op, now).value)
  {
    var gs := Apply(fs, op, now).value;
    assert forall i | 0 <= i < |fs| :: gs[i] == fs[i];
    assert forall i | 0 <= i < |fs| :: fs[i].id != op.id;
    if op.EnrollTotp? {
      assert forall i | 0 <= i < |fs| :: !fs[i].IsEnabledTotp();
    } else {
      assert forall i | 0 <= i < |fs| :: !fs[i].HasCredential(op.credentialId);
    }
  }

  /** A factor that keeps its identity may replace the one at its place if it does not make itself a second primary or TOTP. */
  lemma ReplacedFactor(fs: Factors, k: nat, f: FactorState)
    requires Inv(fs) && k < |fs| && PartNotLater(f)
    requires f.id == fs[k].id && f.kind.Totp? == fs[k].kind.Totp?
    requires f.kind.WebAuthn? ==> f.kind.credential.credentialId == fs[k].kind.credential.credentialId
    requires f.isPrimary ==> f.IsEnabled() && f.IsConfirmed() && (fs[k].isPrimary || !SomePrimary(fs))
    requires f.IsEnabledTotp() ==> fs[k].IsEnabledTotp() || !SomeEnabledTotp(fs)
    ensures Inv(fs[k := f])
  {
    var gs := fs[k := f];
    assert forall i | 0 <= i < |fs| :: i != k ==> gs[i] == fs[i];
    if f.isPrimary {
      assert forall i | 0 <= i < |fs| :: i != k ==> !fs[i].isPrimary;
    }
    if f.IsEnabledTotp() {
      assert forall i | 0 <= i < |fs| :: i != k ==> !fs[i].IsEnabledTotp();
    }
    assert CredentialsDistinct(gs);
  }

  lemma SetPrimaryPreserves(fs: Factors, k: nat, now: Time)
    requires Inv(fs) && !SomeLaterThan(fs, now) && k < |fs| && ApplySetPrimary(fs, k, now).Ok?
    ensures Inv(ApplySetPrimary(fs, k, now).value)
  {
    var gs := ApplySetPrimary(fs, k, now).value;
    if !fs[k].isPrimary {
      assert forall i | 0 <= i < |fs| :: gs[i].kind == fs[i].kind && gs[i].id == fs[i].id && (gs[i].isPrimary <==> i == k);
      assert forall i | 0 <= i < |fs| :: gs[i].IsEnabled() == fs[i].IsEnabled() && gs[i].updatedAt >= fs[i].updatedAt;
    }
  }

  lemma StepPreserves(fs: Factors, op: Op, now: Time)
    requires Inv(fs) && Apply(fs, op, now).Ok?
    ensures Inv(Apply(fs, op, now).value)
  {
    if op.EnrollTotp? || op.EnrollWebAuthn? {
      EnrollPreserves(fs, op, now);
    } else {
      var k := FactorIndex(fs, op.id);
      assert fs[k].updatedAt <= now && PartNotLater(fs[k]);
      if op.SetPrimary? {
        SetPrimaryPreserves(fs, k, now);
      } else {
        ReplacedFactor(fs, k, ChangeFactor(fs, k, op, now).value);
      }
    }
  }

  // ---- Runs ----

  datatype Call = Call(op: Op, now: Time)

  function Run(calls: seq<Call>): Factors {
    if calls == [] then []
    else
      var before, last := Run(calls[..|calls| - 1]), calls[|calls| - 1];
      match Apply(before, last.op, last.now)
      case Ok(after) => after
      case Err(_) => before
  }

  /** At most one primary factor, enabled and confirmed; at most one enabled TOTP; ids and credentials never repeat. */
  lemma {:induction false} ReachableMfa(calls: seq<Call>)
    ensures Inv(Run(calls))
  {
    if calls != [] {
      ReachableMfa(calls[..|calls| - 1]);
      var before, last := Run(calls[..|calls| - 1]), calls[|calls| - 1];
      if Apply(before, last.op, last.now).Ok? {
        StepPreserves(before, last.op, last.now);
      }
    }
  }

  /** The number a successful operation makes a factor accept: a time step of a TOTP, or a sign count of a credential. */
  function AcceptedBy(op: Op, id: Uuid): seq<int> {
    match op
    case RecordTotpUse(i, timeStep) => if i == id then [timeStep] else []
    case RecordWebAuthnUse(i, signCount, _) => if i == id then [signCount] else []
    case EnrollWebAuthn(i, _, _, _, signCount, _, _, _, _) => if i == id then [signCount] else []
    case _ => []
  }

  /** The numbers a factor has accepted over a run, in order. */
  function Accepted(calls: seq<Call>, id: Uuid): seq<int> {
    if calls == [] then []
    else
      var init, last := calls[..|calls| - 1], calls[|calls| - 1];
      Accepted(init, id) + if Apply(Run(init), last.op, last.now).Ok? then AcceptedBy(last.op, id) else []
  }

  ghost predicate StrictlyIncreasing(s: seq<int>) {
    forall i, j | 0 <= i < j < |s| :: s[i] < s[j]
  }

  /** Never back, and strictly forward once past zero. */
  ghost predicate IncreasingOnceNonZero(s: seq<int>) {
    forall i, j | 0 <= i < j < |s| :: 0 <= s[i] && (s[i] == 0 <= s[j] || s[i] < s[j])
  }

  /** How the stored counter of a factor sums up what was accepted. */
  ghost predicate CounterMatches(fs: Factors, id: Uuid, accepted: seq<int>) {
    var i := FactorIndex(fs, id);
    if i < 0 then accepted == []
    else match fs[i].kind
      case Totp(t) =>
        && StrictlyIncreasing(accepted) && (forall k | 0 <= k < |accepted| :: 0 <= accepted[k])
        && t.lastUsedTimeStep == if accepted == [] then None else Some(accepted[|accepted| - 1])
      case WebAuthn(c) =>
        && IncreasingOnceNonZero(accepted) && accepted != [] && c.signCount == accepted[|accepted| - 1] >= 0
  }

  lemma IndexKept(fs: Factors, gs: Factors, id: Uuid, from: nat)
    requires from <= |fs| <= |gs| && forall i | 0 <= i < |fs| :: gs[i].id == fs[i].id
    ensures FactorIndex(fs, id, from) >= 0 ==> FactorIndex(gs, id, from) == FactorIndex(fs, id, from)
    decreases |fs| - from
  {
    if from < |fs| {
      IndexKept(fs, gs, id, from + 1);
    }
  }

  /** Everything but a use or an enrolment of this very factor leaves its counter alone. */
  lemma CounterUntouched(fs: Factors, gs: Factors, id: Uuid, accepted: seq<int>)
    requires CounterMatches(fs, id, accepted) && |fs| <= |gs|
    requires forall i | 0 <= i < |fs| :: gs[i].id == fs[i].id && (fs[i].id == id ==> gs[i].kind == fs[i].kind)
    requires forall i | |fs| <= i < |gs| :: gs[i].id == id ==> gs[i].kind.Totp? && gs[i].kind.totp.lastUsedTimeStep.None?
    ensures CounterMatches(gs, id, accepted)
  {
    IndexKept(fs, gs, id, 0);
    var j := FactorIndex(gs, id);
    if FactorIndex(fs, id) < 0 && j >= 0 {
      assert j >= |fs|;
    }
  }

  lemma CounterStep(fs: Factors, op: Op, now: Time, id: Uuid, accepted: seq<int>)
    requires Apply(fs, op, now).Ok? && CounterMatches(fs, id, accepted)
    requires op.id == id && (op.RecordTotpUse? || op.RecordWebAuthnUse?)
    ensures CounterMatches(Apply(fs, op, now).value, id, accepted + [if op.RecordTotpUse? then op.timeStep else op.signCount])
  {
    var gs := Apply(fs, op, now).value;
    IndexKept(fs, gs, id, 0);
  }

  lemma EnrollStep(fs: Factors, op: Op, now: Time)
    requires Apply(fs, op, now).Ok? && op.EnrollWebAuthn? && CounterMatches(fs, op.id, [])
    ensures CounterMatches(Apply(fs, op, now).value, op.id, [op.signCount])
  {
    var gs := Apply(fs, op, now).value;
    assert forall i | 0 <= i < |fs| :: gs[i].id != op.id;
    assert gs[|fs|].id == op.id && FactorIndex(gs, op.id) == |fs|;
  }

  lemma CounterOneCall(fs: Factors, op: Op, now: Time, id: Uuid, accepted: seq<int>)
    requires Apply(fs, op, now).Ok? && CounterMatches(fs, id, accepted)
    ensures CounterMatches(Apply(fs, op, now).value, id, accepted + AcceptedBy(op, id))
  {
    if op.id == id && (op.RecordTotpUse? || op.RecordWebAuthnUse?) {
      CounterStep(fs, op, now, id, accepted);
    } else if op.id == id && op.EnrollWebAuthn? {
      assert FactorIndex(fs, id) < 0;
      EnrollStep(fs, op, now);
    } else {
      CounterUntouched(fs, Apply(fs, op, now).value, id, accepted);
      assert accepted + AcceptedBy(op, id) == accepted;
    }
  }

  lemma {:induction false} CounterOverRun(calls: seq<Call>, id: Uuid)
    ensures CounterMatches(Run(calls), id, Accepted(calls, id))
  {
    if calls != [] {
      var init, last := calls[..|calls| - 1], calls[|calls| - 1];
      CounterOverRun(init, id);
      if Apply(Run(init), last.op, last.now).Ok? {
        CounterOneCall(Run(init), last.op, last.now, id, Accepted(init, id));
      }
    }
  }

  /** Whatever happens to a TOTP factor between uses, disabling and re-enabling included, no time step is accepted twice. */
  lemma TotpStepsIncrease(calls: seq<Call>, id: Uuid)
    requires var i := FactorIndex(Run(calls), id); i >= 0 && Run(calls)[i].kind.Totp?
    ensures StrictlyIncreasing(Accepted(calls, id))
  {
    CounterOverRun(calls, id);
  }

  lemma SignCountsIncrease(calls: seq<Call>, id: Uuid)
    requires var i := FactorIndex(Run(calls), id); i >= 0 && Run(calls)[i].kind.WebAuthn?
    ensures IncreasingOnceNonZero(Accepted(calls, id))
  {
    CounterOverRun(calls, id);
  }
}
