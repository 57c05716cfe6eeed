/** The MFA aggregate and its factors, changing in place. */
module MfaAggregate {
  import opened Common
  import opened Text
  import opened MfaModel

  function TotpUseError(t: TotpState, timeStep: int, now: Time): Option<Error> {
    if now == ZERO_TIME || now < t.updatedAt then Some(InvalidTime)
    else match NextTotp(t, timeStep, now)
      case Err(e) => Some(e)
      case Ok(_) => None
  }

  class Totp {
    const initial: TotpState
    var lastUsedTimeStep: Option<int>
    var updatedAt: Time

    function State(): TotpState
      reads this
    {
      initial.(lastUsedTimeStep := lastUsedTimeStep, updatedAt := updatedAt)
    }

    constructor (t: TotpState)
      ensures State() == t
    {
      initial := t;
      lastUsedTimeStep, updatedAt := t.lastUsedTimeStep, t.updatedAt;
    }

    method RecordUse(timeStep: int, now: Time) returns (err: Option<Error>)
      modifies this
      ensures err == TotpUseError(old(State()), timeStep, now)
      ensures if err.Some? then State() == old(State()) else NextTotp(old(State()), timeStep, now) == Ok(State())
    {
      if now == ZERO_TIME || now < updatedAt {
        return Some(InvalidTime);
      }
      if timeStep < 0 {
        return Some(InvalidTimeStep);
      }
      if lastUsedTimeStep.Some? && timeStep <= lastUsedTimeStep.value {
        return Some(TotpReplay);
      }
      lastUsedTimeStep := Some(timeStep);
      updatedAt := now;
      err := None;
    }
  }

  function CredentialUseError(c: CredentialState, signCount: int, backupState: bool, now: Time): Option<Error> {
    if now == ZERO_TIME || now < c.LatestChange() then Some(InvalidTime)
    else match NextCredential(c, signCount, backupState, now)
      case Err(e) => Some(e)
      case Ok(_) => None
  }

  class WebAuthnCredential {
    const initial: CredentialState
    var signCount: int
    var backupState: bool
    var lastUsedAt: Option<Time>

    function State(): CredentialState
      reads this
    {
      initial.(signCount := signCount, backupState := backupState, lastUsedAt := lastUsedAt)
    }

    constructor (c: CredentialState)
      ensures State() == c
    {
      initial := c;
      signCount, backupState, lastUsedAt := c.signCount, c.backupState, c.lastUsedAt;
    }

    method RecordUse(count: int, backup: bool, now: Time) returns (err: Option<Error>)
      modifies this
      ensures err == CredentialUseError(old(State()), count, backup, now)
      ensures if err.Some? then State() == old(State()) else NextCredential(old(State()), count, backup, now) == Ok(State())
    {
      if now == ZERO_TIME || now < State().LatestChange() {
        return Some(InvalidTime);
      }
      if count < 0 {
        return Some(InvalidSignCount);
      }
      if signCount > 0 && count <= signCount {
        return Some(CounterRollback);
      }
      if backup && !initial.backupEligible {
        return Some(InvalidBackupState);
      }
      if count > signCount {
        signCount := count;
      }
      backupState := backup;
      lastUsedAt := Some(now);
      err := None;
    }
  }

  predicate MayChange(f: FactorState, now: Time) {
    now != ZERO_TIME && f.updatedAt <= now
  }

  class Factor {
    const id: Uuid
    const createdAt: Time
    var kind: Kind
    var name: Option<string>
    var isPrimary: bool
    var updatedAt: Time
    var confirmedAt: Option<Time>
    var lastUsedAt: Option<Time>
    var disabledAt: Option<Time>

    function State(): FactorState
      reads this
    {
      FactorState(id, kind, name, isPrimary, createdAt, updatedAt, confirmedAt, lastUsedAt, disabledAt)
    }

    constructor (f: FactorState)
      ensures State() == f
    {
      id, createdAt, kind, name, isPrimary := f.id, f.createdAt, f.kind, f.name, f.isPrimary;
      updatedAt, confirmedAt, lastUsedAt, disabledAt := f.updatedAt, f.confirmedAt, f.lastUsedAt, f.disabledAt;
    }

    method Rename(newName: Option<string>, now: Time) returns (changed: bool, err: Option<Error>)
      modifies this
      ensures err == if MayChange(old(State()), now) then None else Some(InvalidTime)
      ensures changed == (err.None? && old(name) != NormalizeOptionalText(newName))
      ensures State() == if changed then old(State()).(name := NormalizeOptionalText(newName), updatedAt := now) else old(State())
    {
      if !MayChange(State(), now) {
        return false, Some(InvalidTime);
      }
      var normalized := NormalizeOptionalText(newName);
      if name == normalized {
        return false, None;
      }
      name := normalized;
      updatedAt := now;
      changed, err := true, None;
    }

    method Confirm(primary: bool, now: Time) returns (err: Option<Error>)
      modifies this
      ensures err == if !MayChange(old(State()), now) then Some(InvalidTime)
                     else if !old(State()).IsEnabled() then Some(FactorDisabled) else None
      ensures State() == if err.Some? || old(State()).IsConfirmed() then old(State())
                         else old(State()).(confirmedAt := Some(now), isPrimary := primary, updatedAt := now)
    {
      if !MayChange(State(), now) {
        return Some(InvalidTime);
      }
      if !State().IsEnabled() {
        return Some(FactorDisabled);
      }
      if State().IsConfirmed() {
        return None;
      }
      confirmedAt := Some(now);
      isPrimary := primary;
      updatedAt := now;
      err := None;
    }

    method Promote(now: Time) returns (changed: bool, err: Option<Error>)
      modifies this
      ensures err == if !MayChange(old(State()), now) then Some(InvalidTime)
                     else if !old(State()).IsEnabled() then Some(FactorDisabled)
                     else if !old(State()).IsConfirmed() then Some(FactorNotConfirmed) else None
      ensures changed == (err.None? && !old(isPrimary))
      ensures State() == if changed then old(State()).(isPrimary := true, updatedAt := now) else old(State())
    {
      if !MayChange(State(), now) {
        return false, Some(InvalidTime);
      }
      if !State().IsEnabled() {
        return false, Some(FactorDisabled);
      }
      if !State().IsConfirmed() {
        return false, Some(FactorNotConfirmed);
      }
      if isPrimary {
        return false, None;
      }
      isPrimary := true;
      updatedAt := now;
      changed, err := true, None;
    }

    method Demote(now: Time) returns (err: Option<Error>)
      modifies this
      ensures err == if old(isPrimary) && !MayChange(old(State()), now) then Some(InvalidTime) else None
      ensures State() == if err.None? then Demoted(old(State()), now) else old(State())
    {
      if !isPrimary {
        return None;
      }
      if !MayChange(State(), now) {
        return Some(InvalidTime);
      }
      isPrimary := false;
      updatedAt := now;
      err := None;
    }

    method Disable(now: Time) returns (err: Option<Error>)
      modifies this
      ensures err == if !MayChange(old(State()), now) then Some(InvalidTime)
                     else if !old(State()).IsEnabled() then Some(FactorDisabled) else None
      ensures State() == if err.Some? then old(State())
                         else old(State()).(isPrimary := false, disabledAt := Some(now), updatedAt := now)
    {
      if !MayChange(State(), now) {
        return Some(InvalidTime);
      }
      if !State().IsEnabled() {
        return Some(FactorDisabled);
      }
      isPrimary := false;
      disabledAt := Some(now);
      updatedAt := now;
      err := None;
    }

    method Enable(now: Time) returns (err: Option<Error>)
      modifies this
      ensures err == if MayChange(old(State()), now) then None else Some(InvalidTime)
      ensures State() == if err.Some? || old(State()).IsEnabled() then old(State())
                         else old(State()).(disabledAt := None, updatedAt := now)
    {
      if !MayChange(State(), now) {
        return Some(InvalidTime);
      }
      if State().IsEnabled() {
        return None;
      }
      disabledAt := None;
      updatedAt := now;
      err := None;
    }

    /** Nothing after the part's own `RecordUse` can fail, so a refused use leaves part and factor alone. */
    method RecordTotpUse(timeStep: int, now: Time) returns (err: Option<Error>)
      requires PartNotLater(State())
      modifies this
      ensures UseSettles(err, old(State()), State(), Op.RecordTotpUse(id, timeStep), now)
    {
      if !MayChange(State(), now) {
        return Some(InvalidTime);
      }
      if !kind.Totp? {
        return Some(WrongFactorType);
      }
      if !State().IsEnabled() {
        return Some(FactorDisabled);
      }
      if !State().IsConfirmed() {
        return Some(FactorNotConfirmed);
      }
      var totp := new Totp(kind.totp);
      err := totp.RecordUse(timeStep, now);
      kind := Kind.Totp(totp.State());
      if err.Some? {
        return;
      }
      lastUsedAt := Some(now);
      updatedAt := now;
    }

    method RecordWebAuthnUse(signCount: int, backupState: bool, now: Time) returns (err: Option<Error>)
      requires PartNotLater(State())
      modifies this
      ensures UseSettles(err, old(State()), State(), Op.RecordWebAuthnUse(id, signCount, backupState), now)
    {
      if !MayChange(State(), now) {
        return Some(InvalidTime);
      }
      if !kind.WebAuthn? {
        return Some(WrongFactorType);
      }
      if !State().IsEnabled() {
        return Some(FactorDisabled);
      }
      if !State().IsConfirmed() {
        return Some(FactorNotConfirmed);
      }
      var credential := new WebAuthnCredential(kind.credential);
      err := credential.RecordUse(signCount, backupState, now);
      kind := Kind.WebAuthn(credential.State());
      if err.Some? {
        return;
      }
      lastUsedAt := Some(now);
      updatedAt := now;
    }
  }

  ghost predicate UseSettles(err: Option<Error>, before: FactorState, after: FactorState, op: Op, now: Time)
    requires op.RecordTotpUse? || op.RecordWebAuthnUse?
  {
    if !MayChange(before, now) then err == Some(InvalidTime) && after == before
    else match RecordUse(before, op, now)
      case Ok(f) => err == None && after == f
      case Err(e) => err == Some(e) && after == before
  }

  // ---- The search loops ----

  method FindFactor(fs: Factors, id: Uuid) returns (index: int)
    ensures index == FactorIndex(fs, id)
  {
    for i := 0 to |fs|
      invariant FactorIndex(fs, id) == FactorIndex(fs, id, i)
    {
      if fs[i].id == id {
        return i;
      }
    }
    index := -1;
  }

  method FindPrimary(fs: Factors) returns (index: int)
    ensures index == -1 <==> !SomePrimary(fs)
    ensures -1 <= index < |fs| && (index >= 0 ==> fs[index].isPrimary)
  {
    for i := 0 to |fs|
      invariant forall j | 0 <= j < i :: !fs[j].isPrimary
    {
      if fs[i].isPrimary {
        return i;
      }
    }
    index := -1;
  }

  method FindEnabledTotp(fs: Factors) returns (index: int)
    ensures index == -1 <==> !SomeEnabledTotp(fs)
    ensures -1 <= index < |fs| && (index >= 0 ==> fs[index].IsEnabledTotp())
  {
    for i := 0 to |fs|
      invariant forall j | 0 <= j < i :: !fs[j].IsEnabledTotp()
    {
      if fs[i].IsEnabledTotp() {
        return i;
      }
    }
    index := -1;
  }

  method UsesCredential(fs: Factors, id: string) returns (found: bool)
    ensures found == SomeCredential(fs, id)
  {
    for i := 0 to |fs|
      invariant forall j | 0 <= j < i :: !fs[j].HasCredential(id)
    {
      if fs[i].HasCredential(id) {
        return true;
      }
    }
    found := false;
  }

  method LatestUpdatedAt(fs: Factors) returns (latest: Time)
    ensures latest >= ZERO_TIME && forall j | 0 <= j < |fs| :: fs[j].updatedAt <= latest
    ensures latest == ZERO_TIME || exists j | 0 <= j < |fs| :: fs[j].updatedAt == latest
  {
    latest := ZERO_TIME;
    for i := 0 to |fs|
      invariant latest >= ZERO_TIME && forall j | 0 <= j < i :: fs[j].updatedAt <= latest
      invariant latest == ZERO_TIME || exists j | 0 <= j < i :: fs[j].updatedAt == latest
    {
      if fs[i].updatedAt > latest {
        latest := fs[i].updatedAt;
      }
    }
  }

  ghost predicate Settles(err: Option<Error>, before: Factors, after: Factors, outcome: Result<Factors, Error>) {
    match outcome
    case Ok(fs) => err == None && after == fs
    case Err(e) => err == Some(e) && after == before
  }

  class Mfa {
    const identityId: Uuid
    var factors: Factors

    ghost predicate Valid()
      reads this
    {
      Inv(factors)
    }

    constructor (identityId: Uuid)
      ensures Valid() && factors == Run([])
    {
      this.identityId := identityId;
      factors := [];
    }

    method EnsureChangeAllowed(now: Time) returns (err: Option<Error>)
      ensures err == ChangeError(factors, now)
    {
      var latest := LatestUpdatedAt(factors);
      err := if now == ZERO_TIME || now < latest then Some(InvalidTime) else None;
    }

    /** The opening both checks of every operation on a known factor. */
    method Find(id: Uuid, now: Time) returns (index: int, err: Option<Error>)
      ensures index == FactorIndex(factors, id)
      ensures err == if ChangeError(factors, now).Some? then ChangeError(factors, now)
                     else if index < 0 then Some(FactorNotFound) else None
      ensures err.None? ==> forall i | 0 <= i < |factors| :: MayChange(factors[i], now)
    {
      err := EnsureChangeAllowed(now);
      index := FindFactor(factors, id);
      if err.None? && index < 0 {
        err := Some(FactorNotFound);
      }
    }

    method RenameFactor(id: Uuid, name: Option<string>, now: Time) returns (err: Option<Error>)
      requires Valid()
      modifies this
      ensures Valid() && Settles(err, old(factors), factors, Apply(old(factors), Op.Rename(id, name), now))
    {
      var index;
      index, err := Find(id, now);
      if err.Some? {
        return;
      }
      var factor := new Factor(factors[index]);
      var changed;
      changed, err := factor.Rename(name, now);
      factors := factors[index := factor.State()];
      Commit(old(factors), Op.Rename(id, name), now);
    }

    method ConfirmFactor(id: Uuid, now: Time) returns (err: Option<Error>)
      requires Valid()
      modifies this
      ensures Valid() && Settles(err, old(factors), factors, Apply(old(factors), Op.Confirm(id), now))
    {
      var index;
      index, err := Find(id, now);
      if err.Some? {
        return;
      }
      var primary := FindPrimary(factors);
      var factor := new Factor(factors[index]);
      err := factor.Confirm(primary < 0, now);
      factors := factors[index := factor.State()];
      Commit(old(factors), Op.Confirm(id), now);
    }

    /** The demote loop cannot stop half-way: the aggregate's time check covers every factor. */
    method SetPrimaryFactor(id: Uuid, now: Time) returns (err: Option<Error>)
      requires Valid()
      modifies this
      ensures Valid() && Settles(err, old(factors), factors, Apply(old(factors), Op.SetPrimary(id), now))
    {
      var index;
      index, err := Find(id, now);
      if err.Some? {
        return;
      }
      ghost var fs := factors;
      var factor := new Factor(factors[index]);
      var changed;
      changed, err := factor.Promote(now);
      factors := factors[index := factor.State()];
      if !changed {
        assert factors == fs;
        return;
      }
      for i := 0 to |factors|
        invariant |factors| == |fs| && err == None
        invariant forall j | 0 <= j < |fs| ::
          factors[j] == if j < i || j == index then OnlyPrimary(fs, index, now)[j] else fs[j]
      {
        if i != index {
          var other := new Factor(factors[i]);
          err := other.Demote(now);
          factors := factors[i := other.State()];
          if err.Some? {
            assert false;
          }
        }
      }
      assert factors == OnlyPrimary(fs, index, now);
      Commit(fs, Op.SetPrimary(id), now);
    }

    method DisableFactor(id: Uuid, now: Time) returns (err: Option<Error>)
      requires Valid()
      modifies this
      ensures Valid() && Settles(err, old(factors), factors, Apply(old(factors), Op.Disable(id), now))
    {
      var index;
      index, err := Find(id, now);
      if err.Some? {
        return;
      }
      var factor := new Factor(factors[index]);
      err := factor.Disable(now);
      factors := factors[index := factor.State()];
      Commit(old(factors), Op.Disable(id), now);
    }

    method EnableFactor(id: Uuid, now: Time) returns (err: Option<Error>)
      requires Valid()
      modifies this
      ensures Valid() && Settles(err, old(factors), factors, Apply(old(factors), Op.Enable(id), now))
    {
      var index;
      index, err := Find(id, now);
      if err.Some? {
        return;
      }
      if factors[index].IsEnabled() {
        assert factors == factors[index := factors[index]];
        return None;
      }
      if factors[index].kind.Totp? {
        var enabled := FindEnabledTotp(factors);
        if enabled >= 0 {
          return Some(EnabledTotpExists);
        }
      }
      var factor := new Factor(factors[index]);
      err := factor.Enable(now);
      factors := factors[index := factor.State()];
      Commit(old(factors), Op.Enable(id), now);
    }

    method EnrollTotp(op: Op, now: Time) returns (err: Option<Error>)
      requires Valid() && op.EnrollTotp?
      modifies this
      ensures Valid() && Settles(err, old(factors), factors, Apply(old(factors), op, now))
    {
      err := EnsureChangeAllowed(now);
      if err.Some? {
        return;
      }
      match NewTotpFactor(op, now)
      case Err(e) => err := Some(e);
      case Ok(factor) =>
        var index := FindFactor(factors, factor.id);
        if index >= 0 {
          return Some(FactorExists);
        }
        var enabled := FindEnabledTotp(factors);
        if enabled >= 0 {
          return Some(EnabledTotpExists);
        }
        factors := factors + [factor];
        Commit(old(factors), op, now);
    }

    method EnrollWebAuthn(op: Op, now: Time) returns (err: Option<Error>)
      requires Valid() && op.EnrollWebAuthn?
      modifies this
      ensures Valid() && Settles(err, old(factors), factors, Apply(old(factors), op, now))
    {
      err := EnsureChangeAllowed(now);
      if err.Some? {
        return;
      }
      match NewWebAuthnFactor(op, now)
      case Err(e) => err := Some(e);
      case Ok(factor) =>
        var index := FindFactor(factors, factor.id);
        if index >= 0 {
          return Some(FactorExists);
        }
        var used := UsesCredential(factors, op.credentialId);
        if used {
          return Some(CredentialExists);
        }
        factors := factors + [factor];
        Commit(old(factors), op, now);
    }

    method RecordTotpUse(id: Uuid, timeStep: int, now: Time) returns (err: Option<Error>)
      requires Valid()
      modifies this
      ensures Valid() && Settles(err, old(factors), factors, Apply(old(factors), Op.RecordTotpUse(id, timeStep), now))
    {
      var index;
      index, err := Find(id, now);
      if err.Some? {
        return;
      }
      var factor := new Factor(factors[index]);
      err := factor.RecordTotpUse(timeStep, now);
      factors := factors[index := factor.State()];
      Commit(old(factors), Op.RecordTotpUse(id, timeStep), now);
    }

    method RecordWebAuthnUse(id: Uuid, signCount: int, backupState: bool, now: Time) returns (err: Option<Error>)
      requires Valid()
      modifies this
      ensures Valid() && Settles(err, old(factors), factors, Apply(old(factors), Op.RecordWebAuthnUse(id, signCount, backupState), now))
    {
      var index;
      index, err := Find(id, now);
      if err.Some? {
        return;
      }
      var factor := new Factor(factors[index]);
      err := factor.RecordWebAuthnUse(signCount, backupState, now);
      factors := factors[index := factor.State()];
      Commit(old(factors), Op.RecordWebAuthnUse(id, signCount, backupState), now);
    }
  }

  /** What an operation leaves behind satisfies the invariant, whether it succeeded or not. */
  lemma Commit(fs: Factors, op: Op, now: Time)
    requires Inv(fs)
    ensures Apply(fs, op, now).Ok? ==> Inv(Apply(fs, op, now).value)
  {
    if Apply(fs, op, now).Ok? {
      StepPreserves(fs, op, now);
    }
  }
}
