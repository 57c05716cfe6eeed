/** When an MFA operation succeeds, what it makes of the factor it names, and where the marks of a factor come from. */
module MfaEffects {
  import opened Common
  import opened Text
  import opened MfaModel

  // ---- What an operation needs ----

  /** Time does not run backwards for any factor. */
  ghost predicate InOrder(fs: Factors, now: Time) {
    now > ZERO_TIME && forall f <- fs :: f.updatedAt <= now
  }

  predicate EnabledTotpIn(fs: Factors) {
    exists f <- fs :: f.kind.Totp? && f.disabledAt.None?
  }

  /** A use needs an enabled, confirmed factor of its type, and a number its counter has not reached. */
  predicate MayBeUsed(f: FactorState, op: Op)
    requires op.RecordTotpUse? || op.RecordWebAuthnUse?
  {
    && f.disabledAt.None? && f.confirmedAt.Some?
    && match op
       case RecordTotpUse(_, step) =>
         f.kind.Totp? && step >= 0 && (f.kind.totp.lastUsedTimeStep.Some? ==> step > f.kind.totp.lastUsedTimeStep.value)
       case RecordWebAuthnUse(_, count, backup) =>
         && f.kind.WebAuthn? && count >= 0
         && (f.kind.credential.signCount > 0 ==> count > f.kind.credential.signCount)
         && (backup ==> f.kind.credential.backupEligible)
  }

  predicate FactorMaySucceed(fs: Factors, f: FactorState, op: Op)
    requires !op.EnrollTotp? && !op.EnrollWebAuthn?
  {
    match op
    case Rename(_, _) => true
    case Confirm(_) => f.disabledAt.None?
    case SetPrimary(_) => f.disabledAt.None? && f.confirmedAt.Some?
    case Disable(_) => f.disabledAt.None?
    case Enable(_) => f.disabledAt.None? || !f.kind.Totp? || !EnabledTotpIn(fs)
    case RecordTotpUse(_, _) => MayBeUsed(f, op)
    case RecordWebAuthnUse(_, _, _) => MayBeUsed(f, op)
  }

  // ---- What it achieves ----

  /** Identity, type and enrolment data of a factor never change; a counter only by its use. */
  ghost predicate SameEnrolment(before: FactorState, after: FactorState) {
    && after.id == before.id && after.createdAt == before.createdAt && after.kind.Totp? == before.kind.Totp?
    && (before.kind.Totp? ==>
          after.kind.totp == before.kind.totp.(
            lastUsedTimeStep := after.kind.totp.lastUsedTimeStep, updatedAt := after.kind.totp.updatedAt))
    && (before.kind.WebAuthn? ==>
          after.kind.credential == before.kind.credential.(
            signCount := after.kind.credential.signCount, backupState := after.kind.credential.backupState,
            lastUsedAt := after.kind.credential.lastUsedAt))
  }

  /** The one aspect an operation is for, given whether another factor was primary; all the others stay. */
  ghost predicate FactorAchieved(op: Op, before: FactorState, after: FactorState, somePrimary: bool, now: Time)
    requires !op.EnrollTotp? && !op.EnrollWebAuthn?
  {
    && SameEnrolment(before, after)
    && (after.name == if op.Rename? then (if op.name.Some? && TrimSpace(op.name.value) != "" then Some(TrimSpace(op.name.value)) else None)
                      else before.name)
    && (after.confirmedAt == if op.Confirm? && before.confirmedAt.None? then Some(now) else before.confirmedAt)
    && (after.disabledAt == if op.Disable? then Some(now) else if op.Enable? then None else before.disabledAt)
    && (after.isPrimary
        == if op.SetPrimary? then true else if op.Disable? then false
           else if op.Confirm? && before.confirmedAt.None? then !somePrimary else before.isPrimary)
    && (after.lastUsedAt == if op.RecordTotpUse? || op.RecordWebAuthnUse? then Some(now) else before.lastUsedAt)
    && (after == before || after.updatedAt == now)
    && (if op.RecordTotpUse? then
          after.kind.Totp? && after.kind.totp.lastUsedTimeStep == Some(op.timeStep) && after.kind.totp.updatedAt == now
        else if op.RecordWebAuthnUse? then
          && after.kind.WebAuthn? && after.kind.credential.signCount == op.signCount
          && after.kind.credential.backupState == op.backupState && after.kind.credential.lastUsedAt == Some(now)
        else after.kind == before.kind)
  }

  /** The other factors stay, but for the primary mark if this one takes it. */
  ghost predicate OthersKept(op: Op, fs: Factors, gs: Factors, k: nat, now: Time) {
    && |gs| == |fs|
    && forall j | 0 <= j < |fs| && j != k ::
         if op.SetPrimary? && fs[j].isPrimary then gs[j] == fs[j].(isPrimary := false, updatedAt := now) else gs[j] == fs[j]
  }

  lemma InOrderExactly(fs: Factors, now: Time)
    ensures ChangeError(fs, now).None? <==> InOrder(fs, now)
  {
    if InOrder(fs, now) {
      assert forall i | 0 <= i < |fs| :: fs[i] in fs;
    }
  }

  /** An operation on an enrolled factor succeeds exactly if the factor is there and may, and changes exactly its one aspect. */
  lemma ChangingAFactor(fs: Factors, op: Op, now: Time)
    requires Inv(fs) && !op.EnrollTotp? && !op.EnrollWebAuthn?
    ensures Apply(fs, op, now).Ok? <==> InOrder(fs, now) && exists f :: f in fs && f.id == op.id && FactorMaySucceed(fs, f, op)
    ensures Apply(fs, op, now).Ok? ==>
      var gs := Apply(fs, op, now).value;
      exists k: nat :: k < |fs| == |gs| && fs[k].id == op.id && FactorAchieved(op, fs[k], gs[k], SomePrimary(fs), now) && OthersKept(op, fs, gs, k, now)
  {
    InOrderExactly(fs, now);
    var k := FactorIndex(fs, op.id);
    if k >= 0 {
      assert forall f | f in fs && f.id == op.id :: f == fs[k];
      OneFactor(fs, op, now, k);
    }
  }

  lemma OneFactor(fs: Factors, op: Op, now: Time, k: nat)
    requires Inv(fs) && !op.EnrollTotp? && !op.EnrollWebAuthn? && k < |fs| && FactorIndex(fs, op.id) == k
    ensures Apply(fs, op, now).Ok? <==> ChangeError(fs, now).None? && FactorMaySucceed(fs, fs[k], op)
    ensures Apply(fs, op, now).Ok? ==>
      var gs := Apply(fs, op, now).value;
      |gs| == |fs| && FactorAchieved(op, fs[k], gs[k], SomePrimary(fs), now) && OthersKept(op, fs, gs, k, now)
  {
    assert PartNotLater(fs[k]);
    assert SomeEnabledTotp(fs) <==> EnabledTotpIn(fs);
  }

  /** A new one-time code factor keeps what it is enrolled with, not confirmed, not primary and not used. */
  lemma EnrollingATotp(fs: Factors, op: Op, now: Time)
    requires op.EnrollTotp?
    ensures Apply(fs, op, now).Ok?
      <==> InOrder(fs, now) && op.id != NIL_UUID && op.digits in {6, 8} && op.periodSeconds > 0
           && (forall f <- fs :: f.id != op.id) && !EnabledTotpIn(fs)
    ensures Apply(fs, op, now).Ok? ==>
      var gs := Apply(fs, op, now).value;
      && |gs| == |fs| + 1 && fs <= gs
      && var f := Last(gs);
      && f.id == op.id && f.confirmedAt.None? && f.disabledAt.None? && f.lastUsedAt.None? && !f.isPrimary && f.createdAt == now
      && f.kind == Totp(TotpState(op.secret, op.keyRef, op.algorithm, op.digits, op.periodSeconds, None, now))
  {
    InOrderExactly(fs, now);
    assert SomeEnabledTotp(fs) <==> EnabledTotpIn(fs);
    assert FactorIndex(fs, op.id) >= 0 <==> exists f :: f in fs && f.id == op.id;
  }

  lemma EnrollingAWebAuthn(fs: Factors, op: Op, now: Time)
    requires op.EnrollWebAuthn?
    ensures Apply(fs, op, now).Ok?
      <==> InOrder(fs, now) && op.id != NIL_UUID && op.signCount >= 0 && op.aaguid != Some(NIL_UUID) && Distinct(op.transports)
           && (op.backupState ==> op.backupEligible) && (forall f <- fs :: f.id != op.id)
           && forall f <- fs :: f.kind.WebAuthn? ==> f.kind.credential.credentialId != op.credentialId
    ensures Apply(fs, op, now).Ok? ==>
      var gs := Apply(fs, op, now).value;
      && |gs| == |fs| + 1 && fs <= gs
      && var f := Last(gs);
      && f.id == op.id && f.confirmedAt.None? && f.disabledAt.None? && f.lastUsedAt.None? && !f.isPrimary && f.createdAt == now
      && f.kind == WebAuthn(CredentialState(op.credentialId, op.publicKey, op.aaguid, op.transports, op.signCount,
                                            op.backupEligible, op.backupState, now, None))
  {
    InOrderExactly(fs, now);
    assert SomeCredential(fs, op.credentialId) <==> exists f :: f in fs && f.HasCredential(op.credentialId);
    assert FactorIndex(fs, op.id) >= 0 <==> exists f :: f in fs && f.id == op.id;
  }

  // ---- Where a confirmation comes from ----

  /** Some call of the run confirmed this factor, at this time. */
  ghost predicate WasConfirmed(calls: seq<Call>, id: Uuid, v: Time) {
    calls != [] &&
    var init, last := calls[..|calls| - 1], Last(calls);
    || (last == Call(Confirm(id), v) && Apply(Run(init), last.op, v).Ok? && !HasConfirmation(Run(init), id))
    || WasConfirmed(init, id, v)
  }

  ghost predicate HasConfirmation(fs: Factors, id: Uuid) {
    exists f <- fs :: f.id == id && f.confirmedAt.Some?
  }

  ghost predicate ConfirmedAt(fs: Factors, id: Uuid, v: Time) {
    exists f <- fs :: f.id == id && f.confirmedAt == Some(v)
  }

  lemma SameConfirmations(fs: Factors, gs: Factors, id: Uuid, v: Time)
    requires |fs| <= |gs| && forall j | |fs| <= j < |gs| :: gs[j].confirmedAt.None?
    requires forall j | 0 <= j < |fs| :: gs[j].id == fs[j].id && (fs[j].id == id ==> gs[j].confirmedAt == fs[j].confirmedAt)
    ensures ConfirmedAt(gs, id, v) <==> ConfirmedAt(fs, id, v)
  {
    if f :| f in fs && f.id == id && f.confirmedAt == Some(v) {
      var j :| 0 <= j < |fs| && fs[j] == f;
      assert gs[j] in gs;
    }
  }

  /** The first confirmation of the only factor with this identifier. */
  lemma NewConfirmation(fs: Factors, gs: Factors, k: nat, id: Uuid, now: Time, v: Time)
    requires IdsDistinct(fs) && k < |fs| == |gs| && fs[k].id == gs[k].id == id
    requires fs[k].confirmedAt.None? && gs[k].confirmedAt == Some(now) && forall j | 0 <= j < |fs| && j != k :: gs[j].id == fs[j].id
    ensures (ConfirmedAt(gs, id, v) <==> now == v) && !HasConfirmation(fs, id) && !ConfirmedAt(fs, id, v)
  {
    assert forall f | f in fs && f.id == id :: f == fs[k];
    assert gs[k] in gs;
    assert forall f | f in gs && f.id == id :: f == gs[k];
  }

  lemma StepConfirms(fs: Factors, op: Op, now: Time, id: Uuid, v: Time)
    requires Inv(fs) && Apply(fs, op, now).Ok?
    ensures ConfirmedAt(Apply(fs, op, now).value, id, v)
            <==> ConfirmedAt(fs, id, v) || (op == Confirm(id) && now == v && !HasConfirmation(fs, id))
  {
    var gs := Apply(fs, op, now).value;
    if op.EnrollTotp? {
      EnrollingATotp(fs, op, now);
      SameConfirmations(fs, gs, id, v);
    } else if op.EnrollWebAuthn? {
      EnrollingAWebAuthn(fs, op, now);
      SameConfirmations(fs, gs, id, v);
    } else {
      FactorStepConfirms(fs, op, now, id, v);
    }
  }

  lemma FactorStepConfirms(fs: Factors, op: Op, now: Time, id: Uuid, v: Time)
    requires Inv(fs) && Apply(fs, op, now).Ok? && !op.EnrollTotp? && !op.EnrollWebAuthn?
    ensures ConfirmedAt(Apply(fs, op, now).value, id, v)
            <==> ConfirmedAt(fs, id, v) || (op == Confirm(id) && now == v && !HasConfirmation(fs, id))
  {
    var gs, k := Apply(fs, op, now).value, FactorIndex(fs, op.id);
    OneFactor(fs, op, now, k);
    if op == Confirm(id) && fs[k].confirmedAt.None? {
      NewConfirmation(fs, gs, k, id, now, v);
    } else {
      assert fs[k] in fs;
      SameConfirmations(fs, gs, id, v);
    }
  }

  /** A factor is confirmed since a time exactly if the first successful confirmation of the run for it was then. */
  lemma {:induction false} ConfirmedExactlyByConfirmation(calls: seq<Call>, id: Uuid, v: Time)
    ensures ConfirmedAt(Run(calls), id, v) <==> WasConfirmed(calls, id, v)
  {
    if calls != [] {
      var init, last := calls[..|calls| - 1], Last(calls);
      ConfirmedExactlyByConfirmation(init, id, v);
      ReachableMfa(init);
      if Apply(Run(init), last.op, last.now).Ok? {
        StepConfirms(Run(init), last.op, last.now, id, v);
      }
    }
  }
}
