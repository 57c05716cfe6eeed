/** Authentication methods, the level they add up to, and the steps of an authorization transaction. */
module Authentication {
  import opened Common

  datatype Method = Password | Totp | WebAuthn | RecoveryCode | UnknownMethod(name: string)
  {
    predicate IsValid() {
      !UnknownMethod?
    }
  }

  datatype Level = SingleFactor | MultiFactor

  datatype FactorClass = Knowledge | Possession

  function FactorClassOf(m: Method): Option<FactorClass> {
    match m
    case Password => Some(Knowledge)
    case UnknownMethod(_) => None
    case _ => Some(Possession)
  }

  predicate AllValid(methods: seq<Method>) {
    forall i | 0 <= i < |methods| :: methods[i].IsValid()
  }

  predicate HasPossession(methods: seq<Method>) {
    exists i | 0 <= i < |methods| :: FactorClassOf(methods[i]) == Some(Possession)
  }

  /** Several known methods, none twice: two factors exactly when something known is joined by something possessed. */
  function LevelOf(methods: seq<Method>): Option<Level> {
    if methods == [] || !Distinct(methods) || !AllValid(methods) then None
    else if Password in methods && HasPossession(methods) then Some(MultiFactor)
    else Some(SingleFactor)
  }

  method ResolveLevel(methods: seq<Method>) returns (level: Option<Level>)
    ensures level == LevelOf(methods)
  {
    if |methods| == 0 {
      return None;
    }
    var classes: set<FactorClass> := {};
    var seen: set<Method> := {};
    for i := 0 to |methods|
      invariant forall m :: m in seen <==> m in methods[..i]
      invariant Distinct(methods[..i]) && AllValid(methods[..i])
      invariant Knowledge in classes <==> Password in methods[..i]
      invariant Possession in classes <==> HasPossession(methods[..i])
    {
      var m := methods[i];
      assert methods[..i + 1] == methods[..i] + [m];
      if m in seen {
        assert exists j | 0 <= j < i :: methods[j] == m;
        return None;
      }
      seen := seen + {m};
      match FactorClassOf(m)
      case None => return None;
      case Some(class_) =>
        classes := classes + {class_};
        DistinctAppend(methods[..i], m);
        assert methods[..i + 1][i] == m;
        assert forall j | 0 <= j < i :: methods[..i + 1][j] == methods[..i][j];
    }
    assert methods[..|methods|] == methods;
    ClassCount(classes);
    if |classes| > 1 {
      return Some(MultiFactor);
    }
    level := Some(SingleFactor);
  }

  lemma ClassCount(classes: set<FactorClass>)
    ensures |classes| > 1 <==> Knowledge in classes && Possession in classes
  {
    forall c | c in classes ensures c in {Knowledge, Possession} {
      match c case Knowledge => case Possession =>
    }
    if Knowledge in classes && Possession in classes {
      assert classes == {Knowledge, Possession};
    } else {
      assert classes <= {Knowledge} || classes <= {Possession};
      if classes != {} {
        var c :| c in classes;
        assert classes == {c};
      }
    }
  }

  /** `NoStep` is the empty step of a finished transaction, and any text that names no step. */
  datatype Step =
    | Choose | PasswordChange | EmailVerification | PhoneVerification | MfaEnrollment | Mfa | Consent | Ready | NoStep

  predicate CanTransition(s: Step, next: Step) {
    match s
    case Choose => next in {PasswordChange, EmailVerification, PhoneVerification, MfaEnrollment, Mfa, Consent}
    case PasswordChange => next in {EmailVerification, PhoneVerification, MfaEnrollment, Mfa, Consent}
    case EmailVerification => next in {PhoneVerification, MfaEnrollment, Mfa, Consent}
    case PhoneVerification => next in {MfaEnrollment, Mfa, Consent}
    case MfaEnrollment => next == Consent
    case Mfa => next == Consent
    case Consent => next == Ready
    case Ready => false
    case NoStep => false
  }

  /** How many moves can still follow. */
  function Rank(s: Step): nat {
    match s
    case Choose => 7
    case PasswordChange => 6
    case EmailVerification => 5
    case PhoneVerification => 4
    case MfaEnrollment => 3
    case Mfa => 3
    case Consent => 2
    case Ready => 1
    case NoStep => 0
  }

  /** The moves are exactly the descents in that order, except that only consent leads to ready, and none leads to no step. */
  lemma TransitionsDescend(s: Step, next: Step)
    ensures CanTransition(s, next) <==> Rank(next) < Rank(s) && next != NoStep && (next == Ready ==> s == Consent)
  {
  }
}
