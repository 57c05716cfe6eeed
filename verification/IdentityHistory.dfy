/** When an identity operation succeeds and what it achieves; and where the marks on contacts and accounts come from. */
module IdentityHistory {
  import opened Common
  import opened IdentityModel

  // ---- What an operation needs, and what it achieves ----

  /** The contact an identifier names: the first active one that has it. */
  ghost predicate Names(cs: seq<ContactState>, id: Uuid, i: nat) {
    && i < |cs| && cs[i].IsActive() && cs[i].id == id
    && forall j | 0 <= j < i :: !(cs[j].IsActive() && cs[j].id == id)
  }

  ghost predicate NamesAccount(accounts: seq<AccountState>, id: Uuid, i: nat) {
    && i < |accounts| && accounts[i].IsActive() && accounts[i].id == id
    && forall j | 0 <= j < i :: !(accounts[j].IsActive() && accounts[j].id == id)
  }

  /** The searches find the contact or account that is named, or say that none is. */
  lemma {:induction false} SearchFindsTheNamed(cs: seq<ContactState>, id: Uuid, from: nat)
    requires from <= |cs| && forall j | 0 <= j < from :: !(cs[j].IsActive() && cs[j].id == id)
    ensures forall i: nat :: Names(cs, id, i) <==> ContactIndex(cs, id, from) == i
    decreases |cs| - from
  {
    if from < |cs| && !(cs[from].IsActive() && cs[from].id == id) {
      SearchFindsTheNamed(cs, id, from + 1);
    }
  }

  lemma {:induction false} SearchFindsTheNamedAccount(accounts: seq<AccountState>, id: Uuid, from: nat)
    requires from <= |accounts| && forall j | 0 <= j < from :: !(accounts[j].IsActive() && accounts[j].id == id)
    ensures forall i: nat :: NamesAccount(accounts, id, i) <==> AccountIndex(accounts, id, from) == i
    decreases |accounts| - from
  {
    if from < |accounts| && !(accounts[from].IsActive() && accounts[from].id == id) {
      SearchFindsTheNamedAccount(accounts, id, from + 1);
    }
  }

  ghost predicate SomeUsable(s: IdentityState) {
    || (exists c <- s.emails :: c.IsUsable()) || (exists c <- s.phones :: c.IsUsable()) || exists a <- s.accounts :: a.IsUsable()
  }

  /** A change is in order: the identity is not deleted and time does not run backwards. */
  predicate Open(s: IdentityState, now: Time) {
    s.status != Deleted && s.deletedAt.None? && now != ZERO_TIME && now >= s.updatedAt
  }

  ghost predicate ContactMaySucceed(s: IdentityState, op: Op, i: nat)
    requires op.VerifyContact? || op.SetPrimary? || op.RemoveContact?
    requires i < |s.Contacts(op.ch)|
  {
    var cs := s.Contacts(op.ch);
    if op.VerifyContact? then cs[i].verifiedAt.None?
    else if op.SetPrimary? then cs[i].verifiedAt.Some?
    else (cs[i].isPrimary ==> !ContactActiveExcept(cs, i)) && ContactRemovable(s, op.ch, i)
  }

  ghost predicate AccountMaySucceed(s: IdentityState, op: Op, i: nat)
    requires IsAccountOp(op) && i < |s.accounts|
  {
    match op
    case RecordAuthentication(_) => s.status == Active && s.accounts[i].disabledAt.None?
    case DisableAccount(_) =>
      s.accounts[i].disabledAt.None? && (s.status == Active ==> HasUsableLoginMethodExcept(s, -1, -1, i))
    case EnableAccount(_) => s.accounts[i].disabledAt.Some?
    case UnlinkAccount(_) => LoginMethodRemovable(s, -1, -1, i)
  }

  lemma UsableAnywhere(s: IdentityState)
    ensures HasUsableLoginMethodExcept(s, -1, -1, -1) <==> SomeUsable(s)
  {
    if SomeUsable(s) {
      if c :| c in s.emails && c.IsUsable() {
        var i :| 0 <= i < |s.emails| && s.emails[i] == c;
        assert i != -1;
      } else if c :| c in s.phones && c.IsUsable() {
        var i :| 0 <= i < |s.phones| && s.phones[i] == c;
        assert i != -1;
      } else {
        var a :| a in s.accounts && a.IsUsable();
        var i :| 0 <= i < |s.accounts| && s.accounts[i] == a;
        assert i != -1;
      }
    }
  }

  /** The status operations, exactly: who may, and that nothing but the status changes. */
  lemma StatusOperations(s: IdentityState, now: Time)
    ensures Apply(s, Activate, now).Ok? <==> Open(s, now) && s.status == Pending && SomeUsable(s)
    ensures Apply(s, Enable, now).Ok? <==> Open(s, now) && s.status == Disabled && SomeUsable(s)
    ensures Apply(s, Disable, now).Ok? <==> Open(s, now) && s.status in {Pending, Active}
    ensures Apply(s, Delete, now).Ok? <==> Open(s, now)
    ensures forall op | op in {Activate, Enable} && Apply(s, op, now).Ok? ::
      Apply(s, op, now).value == s.(status := Active, updatedAt := now)
    ensures Apply(s, Disable, now).Ok? ==> Apply(s, Disable, now).value == s.(status := Disabled, updatedAt := now)
    ensures Apply(s, Delete, now).Ok? ==>
      Apply(s, Delete, now).value == s.(status := Deleted, deletedAt := Some(now), updatedAt := now)
  {
    UsableAnywhere(s);
  }

  /** Only the contacts of this channel change, and the time. */
  predicate OnlyContacts(s: IdentityState, t: IdentityState, ch: Channel, now: Time) {
    t == if ch == Email then s.(emails := t.emails, updatedAt := now) else s.(phones := t.phones, updatedAt := now)
  }

  /** A new address is added at the end, active, not verified, and primary exactly if it is the only active contact. */
  lemma AddingAContact(s: IdentityState, ch: Channel, id: Uuid, address: string, now: Time)
    ensures var r := Apply(s, AddContact(ch, id, address), now);
      && (r.Ok? <==> Open(s, now) && id != NIL_UUID && forall c <- s.Contacts(ch) :: c.address != address)
      && (r.Ok? ==>
            && OnlyContacts(s, r.value, ch, now) && |r.value.Contacts(ch)| == |s.Contacts(ch)| + 1
            && s.Contacts(ch) <= r.value.Contacts(ch)
            && var c := Last(r.value.Contacts(ch));
            && c.id == id && c.address == address && c.IsActive() && c.verifiedAt.None? && c.createdAt == c.updatedAt == now
            && (c.isPrimary <==> forall d <- s.Contacts(ch) :: !d.IsActive()))
  {
    var cs := s.Contacts(ch);
    assert HasAddress(cs, address) <==> exists c <- cs :: c.address == address;
    assert ContactActiveExcept(cs, -1) <==> exists d <- cs :: d.IsActive() by {
      if d :| d in cs && d.IsActive() {
        var i :| 0 <= i < |cs| && cs[i] == d;
        assert i != -1;
      }
    }
  }

  /** A new identity has one contact, which is primary and not verified, and nothing else; it is pending. */
  lemma StartingWithAContact(id: Uuid, ch: Channel, contactId: Uuid, address: string, now: Time)
    ensures var r := NewWithContact(id, ch, contactId, address, now);
      && (r.Ok? <==> id != NIL_UUID && contactId != NIL_UUID && now != ZERO_TIME)
      && (r.Ok? ==>
            && r.value.id == id && r.value.status == Pending && r.value.accounts == [] && r.value.deletedAt.None?
            && |r.value.Contacts(ch)| == 1 && r.value.Contacts(if ch == Email then Phone else Email) == []
            && var c := r.value.Contacts(ch)[0];
            c.id == contactId && c.address == address && c.isPrimary && c.IsActive() && c.verifiedAt.None?)
  {
  }

  /** What the three operations on a named contact make of it. */
  ghost predicate ContactAchieved(op: Op, before: ContactState, after: ContactState, now: Time)
    requires op.VerifyContact? || op.SetPrimary? || op.RemoveContact?
  {
    && after.id == before.id && after.address == before.address && after.createdAt == before.createdAt
    && (after.verifiedAt == if op.VerifyContact? then Some(now) else before.verifiedAt)
    && (after.deletedAt == if op.RemoveContact? then Some(now) else before.deletedAt)
    && (after.isPrimary == if op.SetPrimary? then true else if op.RemoveContact? then false else before.isPrimary)
    && (after.updatedAt == if op.SetPrimary? && before.isPrimary then before.updatedAt else now)
  }

  /** The other contacts stay, but for the primary mark if another one is made primary. */
  ghost predicate OthersKept(op: Op, cs: seq<ContactState>, ds: seq<ContactState>, i: nat, now: Time)
    requires op.VerifyContact? || op.SetPrimary? || op.RemoveContact?
  {
    && |ds| == |cs|
    && forall j | 0 <= j < |cs| && j != i ::
         if op.SetPrimary? && cs[j].isPrimary && cs[j].IsActive()
         then ds[j] == cs[j].(isPrimary := false, updatedAt := now) else ds[j] == cs[j]
  }

  lemma ChangingAContact(s: IdentityState, op: Op, now: Time)
    requires Inv(s) && (op.VerifyContact? || op.SetPrimary? || op.RemoveContact?)
    ensures Apply(s, op, now).Ok?
      <==> Open(s, now) && exists i: nat :: Names(s.Contacts(op.ch), op.id, i) && ContactMaySucceed(s, op, i)
    ensures Apply(s, op, now).Ok? ==>
      exists i: nat :: Names(s.Contacts(op.ch), op.id, i) && ChangedContact(s, op, now, i)
  {
    var cs := s.Contacts(op.ch);
    var k := ContactIndex(cs, op.id);
    SearchFindsTheNamed(cs, op.id, 0);
    if k >= 0 {
      OneContact(s, op, now, k);
    }
  }

  ghost predicate ChangedContact(s: IdentityState, op: Op, now: Time, i: nat)
    requires (op.VerifyContact? || op.SetPrimary? || op.RemoveContact?) && Apply(s, op, now).Ok?
  {
    var t := Apply(s, op, now).value;
    var cs, ds := s.Contacts(op.ch), t.Contacts(op.ch);
    && i < |cs| == |ds| && ContactAchieved(op, cs[i], ds[i], now) && OthersKept(op, cs, ds, i, now)
    && (t == s || OnlyContacts(s, t, op.ch, now))
  }

  lemma OneContact(s: IdentityState, op: Op, now: Time, k: nat)
    requires Inv(s) && (op.VerifyContact? || op.SetPrimary? || op.RemoveContact?) && ContactIndex(s.Contacts(op.ch), op.id) == k
    ensures Apply(s, op, now).Ok? <==> Open(s, now) && ContactMaySucceed(s, op, k)
    ensures Apply(s, op, now).Ok? ==> ChangedContact(s, op, now, k)
  {
    assert ContactsInv(s.Contacts(op.ch), s.updatedAt);
  }

  /** What the operations on a named account need and make of it; everything else stays. */
  ghost predicate AccountAchieved(op: Op, before: AccountState, after: AccountState, now: Time)
    requires IsAccountOp(op)
  {
    && after.id == before.id && after.provider == before.provider && after.subject == before.subject && after.linkedAt == before.linkedAt
    && (after.lastAuthenticatedAt == if op.RecordAuthentication? then Some(now) else before.lastAuthenticatedAt)
    && (after.disabledAt == if op.DisableAccount? then Some(now) else if op.EnableAccount? then None else before.disabledAt)
    && (after.deletedAt == if op.UnlinkAccount? then Some(now) else before.deletedAt)
    && (after.IsActive() <==> !op.UnlinkAccount?) && (after.IsUsable() <==> op.RecordAuthentication? || op.EnableAccount?)
  }

  ghost predicate ChangedAccount(s: IdentityState, op: Op, now: Time, i: nat)
    requires IsAccountOp(op) && Apply(s, op, now).Ok?
  {
    var t := Apply(s, op, now).value;
    && i < |s.accounts| == |t.accounts| && AccountAchieved(op, s.accounts[i], t.accounts[i], now)
    && (forall j | 0 <= j < |s.accounts| && j != i :: t.accounts[j] == s.accounts[j])
    && t == s.(accounts := t.accounts, updatedAt := now)
  }

  lemma ChangingAnAccount(s: IdentityState, op: Op, now: Time)
    requires IsAccountOp(op)
    ensures Apply(s, op, now).Ok? <==> Open(s, now) && exists i: nat :: NamesAccount(s.accounts, op.id, i) && AccountMaySucceed(s, op, i)
    ensures Apply(s, op, now).Ok? ==> exists i: nat :: NamesAccount(s.accounts, op.id, i) && ChangedAccount(s, op, now, i)
  {
    var k := AccountIndex(s.accounts, op.id);
    SearchFindsTheNamedAccount(s.accounts, op.id, 0);
    if k >= 0 {
      OneAccount(s, op, now, k);
    }
  }

  lemma OneAccount(s: IdentityState, op: Op, now: Time, k: nat)
    requires IsAccountOp(op) && AccountIndex(s.accounts, op.id) == k
    ensures Apply(s, op, now).Ok? <==> Open(s, now) && AccountMaySucceed(s, op, k)
    ensures Apply(s, op, now).Ok? ==> ChangedAccount(s, op, now, k)
  {
  }

  lemma LinkingAnAccount(s: IdentityState, id: Uuid, provider: string, subject: string, now: Time)
    ensures var r := Apply(s, LinkAccount(id, provider, subject), now);
      && (r.Ok? <==> Open(s, now) && id != NIL_UUID && forall a <- s.accounts :: !(a.provider == provider && a.subject == subject))
      && (r.Ok? ==> r.value == s.(accounts := s.accounts + [AccountState(id, provider, subject, now, None, None, None)], updatedAt := now))
  {
    assert HasAccount(s.accounts, provider, subject) <==> exists a <- s.accounts :: a.provider == provider && a.subject == subject;
  }

  // ---- Where a verification comes from ----

  /** Some call of the run verified the contact that this identifier named then, at this time. */
  ghost predicate WasVerified(start: IdentityState, calls: seq<Call>, ch: Channel, id: Uuid, v: Time) {
    calls != [] &&
    var init, last := calls[..|calls| - 1], Last(calls);
    || (last == Call(VerifyContact(ch, id), v) && Apply(Run(start, init), last.op, v).Ok?)
    || WasVerified(start, init, ch, id, v)
  }

  ghost predicate HasVerified(cs: seq<ContactState>, id: Uuid, v: Time) {
    exists i | 0 <= i < |cs| :: cs[i].id == id && cs[i].verifiedAt == Some(v)
  }

  /** Verifying another contact, or doing anything else, makes no verification of this one and loses none. */
  lemma SameVerifications(cs: seq<ContactState>, ds: seq<ContactState>, id: Uuid, v: Time)
    requires |cs| <= |ds| && forall i | |cs| <= i < |ds| :: ds[i].verifiedAt.None?
    requires forall i | 0 <= i < |cs| :: ds[i].id == cs[i].id && (cs[i].id == id ==> ds[i].verifiedAt == cs[i].verifiedAt)
    ensures HasVerified(ds, id, v) <==> HasVerified(cs, id, v)
  {
    if i :| 0 <= i < |cs| && cs[i].id == id && cs[i].verifiedAt == Some(v) {
      assert ds[i].id == id && ds[i].verifiedAt == Some(v);
    }
  }

  lemma NewVerification(cs: seq<ContactState>, ds: seq<ContactState>, k: nat, id: Uuid, now: Time, v: Time)
    requires k < |cs| == |ds| && ds == cs[k := ds[k]] && cs[k].verifiedAt.None?
    requires ds[k].id == cs[k].id == id && ds[k].verifiedAt == Some(now)
    ensures HasVerified(ds, id, v) <==> HasVerified(cs, id, v) || now == v
  {
    if i :| 0 <= i < |cs| && cs[i].id == id && cs[i].verifiedAt == Some(v) {
      assert ds[i] == cs[i];
    }
  }

  /** One step makes exactly one verification, and only if it is one. */
  lemma StepVerifies(s: IdentityState, op: Op, now: Time, ch: Channel, id: Uuid, v: Time)
    requires Apply(s, op, now).Ok?
    ensures var t := Apply(s, op, now).value;
      HasVerified(t.Contacts(ch), id, v) <==> HasVerified(s.Contacts(ch), id, v) || (op == VerifyContact(ch, id) && now == v)
  {
    var cs, ds := s.Contacts(ch), Apply(s, op, now).value.Contacts(ch);
    if op == VerifyContact(ch, id) {
      NewVerification(cs, ds, ContactIndex(cs, id), id, now, v);
    } else {
      SameVerifications(cs, ds, id, v);
    }
  }

  lemma {:induction false} RunVerifies(start: IdentityState, calls: seq<Call>, ch: Channel, id: Uuid, v: Time)
    requires !HasVerified(start.Contacts(ch), id, v)
    ensures HasVerified(Run(start, calls).Contacts(ch), id, v) <==> WasVerified(start, calls, ch, id, v)
  {
    if calls != [] {
      var init, last := calls[..|calls| - 1], Last(calls);
      RunVerifies(start, init, ch, id, v);
      if Apply(Run(start, init), last.op, last.now).Ok? {
        StepVerifies(Run(start, init), last.op, last.now, ch, id, v);
      }
    }
  }

  /**
   * A contact carries a verification exactly if some call of the run verified its identifier then: no contact is born
   * verified, and no verification is lost.
   */
  lemma VerifiedExactlyByVerification(start: IdentityState, calls: seq<Call>, ch: Channel, id: Uuid, v: Time)
    requires IsNew(start)
    ensures HasVerified(Run(start, calls).Contacts(ch), id, v) <==> WasVerified(start, calls, ch, id, v)
  {
    NewIsUnverified(start, ch, id, v);
    RunVerifies(start, calls, ch, id, v);
  }

  lemma NewIsUnverified(start: IdentityState, ch: Channel, id: Uuid, v: Time)
    requires IsNew(start)
    ensures !HasVerified(start.Contacts(ch), id, v)
  {
    if i, c, contactId, address, now :| NewWithContact(i, c, contactId, address, now) == Ok(start) {
      StartingWithAContact(i, c, contactId, address, now);
    }
  }

  /** An active identity has an account that is linked and enabled, or an active contact that some call of the run verified. */
  lemma ActiveWasVerified(start: IdentityState, calls: seq<Call>)
    requires IsNew(start) && Run(start, calls).status == Active
    ensures var s := Run(start, calls);
      || (exists a <- s.accounts :: a.IsUsable())
      || exists ch: Channel, c: ContactState ::
           c in s.Contacts(ch) && c.IsUsable() && WasVerified(start, calls, ch, c.id, c.verifiedAt.value)
  {
    var s := Run(start, calls);
    ReachableIdentity(start, calls, Email);
    UsableAnywhere(s);
    if !exists a <- s.accounts :: a.IsUsable() {
      var ch := if exists c <- s.emails :: c.IsUsable() then Email else Phone;
      var c :| c in s.Contacts(ch) && c.IsUsable();
      assert HasVerified(s.Contacts(ch), c.id, c.verifiedAt.value);
      VerifiedExactlyByVerification(start, calls, ch, c.id, c.verifiedAt.value);
    }
  }
}
