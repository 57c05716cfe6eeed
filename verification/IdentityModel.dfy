/**
 The identity aggregate as a value: what each operation does to it, and what holds in every reachable state.
 Emails and phones follow the same rules, so both are lists of contacts and a channel says which list is meant.
 */
module IdentityModel {
  import opened Common

  datatype Status = Pending | Active | Disabled | Deleted

  datatype Channel = Email | Phone

  datatype Error =
    | InvalidArgument | InvalidStatus | InvalidTime | InvalidTransition | LoginMethodRequired
    | ContactNotFound | ContactExists | ContactDeleted | ContactVerified | ContactNotVerified | PrimaryInUse
    | AccountNotFound | AccountExists | AccountDeleted | AccountDisabled | AccountNotDisabled

  datatype ContactState = ContactState(
    id: Uuid, address: string, isPrimary: bool, createdAt: Time, updatedAt: Time,
    verifiedAt: Option<Time>, deletedAt: Option<Time>)
  {
    predicate IsActive() {
      deletedAt.None?
    }

    predicate IsUsable() {
      IsActive() && verifiedAt.Some?
    }
  }

  datatype AccountState = AccountState(
    id: Uuid, provider: string, subject: string, linkedAt: Time,
    lastAuthenticatedAt: Option<Time>, disabledAt: Option<Time>, deletedAt: Option<Time>)
  {
    predicate IsActive() {
      deletedAt.None?
    }

    predicate IsUsable() {
      IsActive() && disabledAt.None?
    }
  }

  datatype IdentityState = IdentityState(
    id: Uuid, status: Status, emails: seq<ContactState>, phones: seq<ContactState>, accounts: seq<AccountState>,
    createdAt: Time, updatedAt: Time, deletedAt: Option<Time>)
  {
    function Contacts(ch: Channel): seq<ContactState> {
      if ch == Email then emails else phones
    }

    function WithContacts(ch: Channel, cs: seq<ContactState>, now: Time): IdentityState {
      if ch == Email then this.(emails := cs, updatedAt := now) else this.(phones := cs, updatedAt := now)
    }
  }

  // ---- Looking things up ----

  function ContactIndex(cs: seq<ContactState>, id: Uuid, from: nat := 0): (index: int)
    requires from <= |cs|
    ensures index == -1 || (from <= index < |cs| && cs[index].IsActive() && cs[index].id == id)
    decreases |cs| - from
  {
    if from == |cs| then -1
    else if cs[from].IsActive() && cs[from].id == id then from
    else ContactIndex(cs, id, from + 1)
  }

  function AccountIndex(accounts: seq<AccountState>, id: Uuid, from: nat := 0): (index: int)
    requires from <= |accounts|
    ensures index == -1 || (from <= index < |accounts| && accounts[index].IsActive() && accounts[index].id == id)
    decreases |accounts| - from
  {
    if from == |accounts| then -1
    else if accounts[from].IsActive() && accounts[from].id == id then from
    else AccountIndex(accounts, id, from + 1)
  }

  predicate ContactActiveExcept(cs: seq<ContactState>, index: int) {
    exists i | 0 <= i < |cs| :: i != index && cs[i].IsActive()
  }

  predicate ContactUsableExcept(cs: seq<ContactState>, index: int) {
    exists i | 0 <= i < |cs| :: i != index && cs[i].IsUsable()
  }

  predicate AccountActiveExcept(accounts: seq<AccountState>, index: int) {
    exists i | 0 <= i < |accounts| :: i != index && accounts[i].IsActive()
  }

  predicate AccountUsableExcept(accounts: seq<AccountState>, index: int) {
    exists i | 0 <= i < |accounts| :: i != index && accounts[i].IsUsable()
  }

  predicate HasLoginMethodExcept(s: IdentityState, email: int, phone: int, account: int) {
    ContactActiveExcept(s.emails, email) || ContactActiveExcept(s.phones, phone) || AccountActiveExcept(s.accounts, account)
  }

  predicate HasUsableLoginMethodExcept(s: IdentityState, email: int, phone: int, account: int) {
    ContactUsableExcept(s.emails, email) || ContactUsableExcept(s.phones, phone) || AccountUsableExcept(s.accounts, account)
  }

  predicate LoginMethodRemovable(s: IdentityState, email: int, phone: int, account: int) {
    && HasLoginMethodExcept(s, email, phone, account)
    && (s.status == Active ==> HasUsableLoginMethodExcept(s, email, phone, account))
  }

  predicate ContactRemovable(s: IdentityState, ch: Channel, index: nat) {
    if ch == Email then LoginMethodRemovable(s, index, -1, -1) else LoginMethodRemovable(s, -1, index, -1)
  }

  // ---- The operations ----

  datatype Op =
    | Activate | Disable | Enable | Delete
    | AddContact(ch: Channel, id: Uuid, address: string)
    | VerifyContact(ch: Channel, id: Uuid)
    | SetPrimary(ch: Channel, id: Uuid)
    | RemoveContact(ch: Channel, id: Uuid)
    | LinkAccount(id: Uuid, provider: string, subject: string)
    | RecordAuthentication(id: Uuid)
    | DisableAccount(id: Uuid)
    | EnableAccount(id: Uuid)
    | UnlinkAccount(id: Uuid)

  function NewIdentity(id: Uuid, now: Time): Result<IdentityState, Error> {
    if id == NIL_UUID || now == ZERO_TIME then Err(InvalidArgument)
    else Ok(IdentityState(id, Pending, [], [], [], now, now, None))
  }

  function NewContact(id: Uuid, address: string, primary: bool, now: Time): Result<ContactState, Error> {
    if id == NIL_UUID || now == ZERO_TIME then Err(InvalidArgument)
    else Ok(ContactState(id, address, primary, now, now, None, None))
  }

  function NewAccount(id: Uuid, provider: string, subject: string, now: Time): Result<AccountState, Error> {
    if id == NIL_UUID || now == ZERO_TIME then Err(InvalidArgument)
    else Ok(AccountState(id, provider, subject, now, None, None, None))
  }

  function NewWithContact(id: Uuid, ch: Channel, contactId: Uuid, address: string, now: Time): Result<IdentityState, Error> {
    match (NewIdentity(id, now), NewContact(contactId, address, true, now))
    case (Ok(s), Ok(c)) => Ok(s.WithContacts(ch, [c], now))
    case _ => Err(InvalidArgument)
  }

  function NewWithAccount(id: Uuid, accountId: Uuid, provider: string, subject: string, now: Time): Result<IdentityState, Error> {
    match (NewIdentity(id, now), NewAccount(accountId, provider, subject, now))
    case (Ok(s), Ok(a)) => Ok(s.(accounts := [a]))
    case _ => Err(InvalidArgument)
  }

  function ChangeError(s: IdentityState, now: Time): Option<Error> {
    if s.status == Deleted || s.deletedAt.Some? then Some(InvalidStatus)
    else if now == ZERO_TIME || now < s.updatedAt then Some(InvalidTime)
    else None
  }

  /** Nothing is done to a deleted identity, or at a time before its last change. */
  function Guarded(s: IdentityState, now: Time, outcome: Result<IdentityState, Error>): Result<IdentityState, Error> {
    if ChangeError(s, now).Some? then Err(ChangeError(s, now).value) else outcome
  }

  /** The effect of one operation: a whole new state, or an error and no change at all. */
  function Apply(s: IdentityState, op: Op, now: Time): Result<IdentityState, Error> {
    Guarded(s, now,
      match op
      case Activate => if s.status != Pending then Err(InvalidTransition) else ApplyActivate(s, now)
      case Disable => ApplyDisable(s, now)
      case Enable => if s.status != Disabled then Err(InvalidTransition) else ApplyActivate(s, now)
      case Delete => Ok(s.(status := Deleted, deletedAt := Some(now), updatedAt := now))
      case AddContact(ch, id, address) => ApplyAdd(s, ch, id, address, now)
      case VerifyContact(ch, id) => ApplyVerify(s, ch, id, now)
      case SetPrimary(ch, id) => ApplySetPrimary(s, ch, id, now)
      case RemoveContact(ch, id) => ApplyRemove(s, ch, id, now)
      case LinkAccount(id, provider, subject) => ApplyLink(s, id, provider, subject, now)
      case _ => ApplyToAccount(s, op, now))
  }

  function ApplyActivate(s: IdentityState, now: Time): Result<IdentityState, Error> {
    if !HasUsableLoginMethodExcept(s, -1, -1, -1) then Err(LoginMethodRequired)
    else Ok(s.(status := Active, updatedAt := now))
  }

  function ApplyDisable(s: IdentityState, now: Time): Result<IdentityState, Error> {
    if s.status != Pending && s.status != Active then Err(InvalidTransition)
    else Ok(s.(status := Disabled, updatedAt := now))
  }

  predicate HasAddress(cs: seq<ContactState>, address: string) {
    exists i | 0 <= i < |cs| :: cs[i].address == address
  }

  function ApplyAdd(s: IdentityState, ch: Channel, id: Uuid, address: string, now: Time): Result<IdentityState, Error> {
    var cs := s.Contacts(ch);
    if HasAddress(cs, address) then Err(ContactExists)
    else match NewContact(id, address, !ContactActiveExcept(cs, -1), now)
      case Err(e) => Err(e)
      case Ok(c) => Ok(s.WithContacts(ch, cs + [c], now))
  }

  function ApplyVerify(s: IdentityState, ch: Channel, id: Uuid, now: Time): Result<IdentityState, Error> {
    var cs := s.Contacts(ch);
    var i := ContactIndex(cs, id);
    if i < 0 then Err(ContactNotFound)
    else if cs[i].verifiedAt.Some? then Err(ContactVerified)
    else Ok(s.WithContacts(ch, cs[i := cs[i].(verifiedAt := Some(now), updatedAt := now)], now))
  }

  function Demoted(c: ContactState, now: Time): ContactState {
    if c.IsActive() && c.isPrimary then c.(isPrimary := false, updatedAt := now) else c
  }

  /** One contact becomes primary and every other one stops being it. */
  function OnlyPrimary(cs: seq<ContactState>, index: nat, now: Time): (r: seq<ContactState>)
    requires index < |cs|
    ensures |r| == |cs|
  {
    seq(|cs|, i requires 0 <= i < |cs| =>
      if i == index then cs[i].(isPrimary := true, updatedAt := now) else Demoted(cs[i], now))
  }

  function ApplySetPrimary(s: IdentityState, ch: Channel, id: Uuid, now: Time): Result<IdentityState, Error> {
    var cs := s.Contacts(ch);
    var i := ContactIndex(cs, id);
    if i < 0 then Err(ContactNotFound)
    else if cs[i].verifiedAt.None? then Err(ContactNotVerified)
    else if cs[i].isPrimary then Ok(s)
    else Ok(s.WithContacts(ch, OnlyPrimary(cs, i, now), now))
  }

  function ApplyRemove(s: IdentityState, ch: Channel, id: Uuid, now: Time): Result<IdentityState, Error> {
    var cs := s.Contacts(ch);
    var i := ContactIndex(cs, id);
    if i < 0 then Err(ContactNotFound)
    else if cs[i].isPrimary && ContactActiveExcept(cs, i) then Err(PrimaryInUse)
    else if !ContactRemovable(s, ch, i) then Err(LoginMethodRequired)
    else Ok(s.WithContacts(ch, cs[i := cs[i].(isPrimary := false, deletedAt := Some(now), updatedAt := now)], now))
  }

  predicate HasAccount(accounts: seq<AccountState>, provider: string, subject: string) {
    exists i | 0 <= i < |accounts| :: accounts[i].provider == provider && accounts[i].subject == subject
  }

  function ApplyLink(s: IdentityState, id: Uuid, provider: string, subject: string, now: Time): Result<IdentityState, Error> {
    if HasAccount(s.accounts, provider, subject) then Err(AccountExists)
    else match NewAccount(id, provider, subject, now)
      case Err(e) => Err(e)
      case Ok(a) => Ok(s.(accounts := s.accounts + [a], updatedAt := now))
  }

  function ApplyToAccount(s: IdentityState, op: Op, now: Time): Result<IdentityState, Error>
    requires IsAccountOp(op)
  {
    var i := AccountIndex(s.accounts, op.id);
    if op.RecordAuthentication? && s.status != Active then Err(InvalidStatus)
    else if i < 0 then Err(AccountNotFound)
    else
      var a := s.accounts[i];
      match op
      case RecordAuthentication(_) =>
        if a.disabledAt.Some? then Err(AccountDisabled)
        else Ok(s.(accounts := s.accounts[i := a.(lastAuthenticatedAt := Some(now))], updatedAt := now))
      case DisableAccount(_) =>
        if a.disabledAt.Some? then Err(AccountDisabled)
        else if s.status == Active && !HasUsableLoginMethodExcept(s, -1, -1, i) then Err(LoginMethodRequired)
        else Ok(s.(accounts := s.accounts[i := a.(disabledAt := Some(now))], updatedAt := now))
      case EnableAccount(_) =>
        if a.disabledAt.None? then Err(AccountNotDisabled)
        else Ok(s.(accounts := s.accounts[i := a.(disabledAt := None)], updatedAt := now))
      case UnlinkAccount(_) =>
        if !LoginMethodRemovable(s, -1, -1, i) then Err(LoginMethodRequired)
        else Ok(s.(accounts := s.accounts[i := a.(deletedAt := Some(now))], updatedAt := now))
  }

  // ---- What holds in every reachable state ----

  ghost predicate HasPrimary(cs: seq<ContactState>) {
    exists i | 0 <= i < |cs| :: cs[i].isPrimary
  }

  /** Some contact is active exactly when one active contact, and only one, is primary. */
  ghost predicate OnePrimary(cs: seq<ContactState>) {
    && (forall i | 0 <= i < |cs| :: cs[i].isPrimary ==> cs[i].IsActive())
    && (forall i, j | 0 <= i < j < |cs| :: !(cs[i].isPrimary && cs[j].isPrimary))
    && (ContactActiveExcept(cs, -1) ==> HasPrimary(cs))
  }

  ghost predicate AddressesDistinct(cs: seq<ContactState>) {
    forall i, j | 0 <= i < j < |cs| :: cs[i].address != cs[j].address
  }

  ghost predicate AccountsDistinct(accounts: seq<AccountState>) {
    forall i, j | 0 <= i < j < |accounts| ::
      accounts[i].provider != accounts[j].provider || accounts[i].subject != accounts[j].subject
  }

  predicate NotAfter(at: Option<Time>, t: Time) {
    at.Some? ==> at.value <= t
  }

  ghost predicate ContactsNotAfter(cs: seq<ContactState>, t: Time) {
    forall i | 0 <= i < |cs| :: cs[i].updatedAt <= t
  }

  /** No recorded change of an account is later than `t`. */
  predicate AccountNotAfter(a: AccountState, t: Time) {
    a.linkedAt <= t && NotAfter(a.lastAuthenticatedAt, t) && NotAfter(a.disabledAt, t) && NotAfter(a.deletedAt, t)
  }

  ghost predicate AccountsNotAfter(accounts: seq<AccountState>, t: Time) {
    forall i | 0 <= i < |accounts| :: AccountNotAfter(accounts[i], t)
  }

  ghost predicate ContactsInv(cs: seq<ContactState>, t: Time) {
    OnePrimary(cs) && AddressesDistinct(cs) && ContactsNotAfter(cs, t)
  }

  /** The timestamps are what makes the early returns inside the demote loops unreachable. */
  ghost predicate Inv(s: IdentityState) {
    match s
    case IdentityState(_, status, emails, phones, accounts, _, updatedAt, deletedAt) =>
      && ContactsInv(emails, updatedAt)
      && ContactsInv(phones, updatedAt)
      && AccountsInv(accounts, updatedAt)
      && HasLoginMethodExcept(s, -1, -1, -1)
      && (status == Active ==> HasUsableLoginMethodExcept(s, -1, -1, -1))
      && (status == Deleted <==> deletedAt.Some?)
  }

  lemma SettledContact(s: IdentityState, ch: Channel, i: nat)
    requires Inv(s) && i < |s.Contacts(ch)|
    ensures s.Contacts(ch)[i].updatedAt <= s.updatedAt
  {
  }

  lemma SettledContacts(s: IdentityState, ch: Channel, now: Time)
    requires Inv(s) && s.updatedAt <= now
    ensures ContactsNotAfter(s.Contacts(ch), now)
  {
  }

  lemma SettledAccount(s: IdentityState, i: nat)
    requires Inv(s) && i < |s.accounts|
    ensures AccountNotAfter(s.accounts[i], s.updatedAt)
  {
  }

  lemma NewSatisfiesInv(id: Uuid, ch: Channel, partId: Uuid, a: string, b: string, now: Time)
    ensures NewWithContact(id, ch, partId, a, now).Ok? ==> Inv(NewWithContact(id, ch, partId, a, now).value)
    ensures NewWithAccount(id, partId, a, b, now).Ok? ==> Inv(NewWithAccount(id, partId, a, b, now).value)
  {
    var r, q := NewWithContact(id, ch, partId, a, now), NewWithAccount(id, partId, a, b, now);
    if r.Ok? {
      var cs := r.value.Contacts(ch);
      assert cs[0].IsActive() && cs[0].isPrimary;
    }
    if q.Ok? {
      assert q.value.accounts[0].IsActive();
    }
  }

  // Each change of a contact list keeps the list's part of the invariant.

  lemma ListWithAdded(cs: seq<ContactState>, c: ContactState, t: Time)
    requires ContactsInv(cs, t) && c.IsActive() && c.updatedAt <= t && !HasAddress(cs, c.address)
    requires c.isPrimary == !ContactActiveExcept(cs, -1)
    ensures ContactsInv(cs + [c], t)
  {
    var ds := cs + [c];
    assert forall i | 0 <= i < |cs| :: ds[i] == cs[i];
    if c.isPrimary {
      assert forall i | 0 <= i < |cs| :: !cs[i].isPrimary;
      assert ds[|cs|].isPrimary;
    } else {
      var j :| 0 <= j < |cs| && cs[j].isPrimary;
      assert ds[j].isPrimary;
    }
  }

  lemma ListWithVerified(cs: seq<ContactState>, k: nat, t: Time)
    requires k < |cs| && ContactsInv(cs, t)
    ensures ContactsInv(cs[k := cs[k].(verifiedAt := Some(t), updatedAt := t)], t)
  {
    var ds := cs[k := cs[k].(verifiedAt := Some(t), updatedAt := t)];
    assert forall j | 0 <= j < |cs| ::
      ds[j].isPrimary == cs[j].isPrimary && ds[j].IsActive() == cs[j].IsActive() && ds[j].address == cs[j].address;
    if i :| 0 <= i < |ds| && ds[i].IsActive() {
      assert cs[i].IsActive();
      var j :| 0 <= j < |cs| && cs[j].isPrimary;
      assert ds[j].isPrimary;
    }
  }

  lemma ListWithPrimary(cs: seq<ContactState>, k: nat, t: Time)
    requires k < |cs| && ContactsInv(cs, t) && cs[k].IsActive()
    ensures ContactsInv(OnlyPrimary(cs, k, t), t)
  {
    var ds := OnlyPrimary(cs, k, t);
    assert forall j | 0 <= j < |cs| :: ds[j].address == cs[j].address && (ds[j].isPrimary <==> j == k);
  }

  lemma ListWithRemoved(cs: seq<ContactState>, k: nat, t: Time)
    requires k < |cs| && ContactsInv(cs, t) && !(cs[k].isPrimary && ContactActiveExcept(cs, k))
    ensures ContactsInv(cs[k := cs[k].(isPrimary := false, deletedAt := Some(t), updatedAt := t)], t)
  {
    var ds := cs[k := cs[k].(isPrimary := false, deletedAt := Some(t), updatedAt := t)];
    assert forall j | 0 <= j < |cs| :: ds[j].address == cs[j].address && (j != k ==> ds[j] == cs[j]);
    if i :| 0 <= i < |ds| && ds[i].IsActive() {
      assert cs[i].IsActive();
      var j :| 0 <= j < |cs| && cs[j].isPrimary;
      assert ds[j].isPrimary;
    }
  }

  lemma LaterContacts(cs: seq<ContactState>, t: Time, now: Time)
    requires ContactsInv(cs, t) && t <= now
    ensures ContactsInv(cs, now)
  {
  }

  /** Everywhere in the old list the new one is at least as active and usable, except at position `k` (none if -1). */
  ghost predicate Covers(cs: seq<ContactState>, ds: seq<ContactState>, k: int) {
    && |cs| <= |ds|
    && forall i | 0 <= i < |cs| && i != k ::
      (cs[i].IsActive() ==> ds[i].IsActive()) && (cs[i].IsUsable() ==> ds[i].IsUsable())
  }

  lemma CoversKeepsLogin(cs: seq<ContactState>, ds: seq<ContactState>, k: int)
    requires Covers(cs, ds, k)
    ensures ContactActiveExcept(cs, k) ==> ContactActiveExcept(ds, -1)
    ensures ContactUsableExcept(cs, k) ==> ContactUsableExcept(ds, -1)
  {
    if i :| 0 <= i < |cs| && i != k && cs[i].IsActive() {
      assert ds[i].IsActive();
    }
    if i :| 0 <= i < |cs| && i != k && cs[i].IsUsable() {
      assert ds[i].IsUsable();
    }
  }

  /** Replacing one contact list keeps the invariant when the list is sound and the login methods it loses can be spared. */
  lemma ReplacedList(s: IdentityState, ch: Channel, ds: seq<ContactState>, k: int, now: Time)
    requires Inv(s) && s.updatedAt <= now
    requires ContactsInv(ds, now) && Covers(s.Contacts(ch), ds, k)
    requires k == -1 || (0 <= k && ContactRemovable(s, ch, k))
    ensures Inv(s.WithContacts(ch, ds, now))
  {
    CoversKeepsLogin(s.Contacts(ch), ds, k);
    LaterContacts(s.emails, s.updatedAt, now);
    LaterContacts(s.phones, s.updatedAt, now);
  }

  lemma AddPreserves(s: IdentityState, ch: Channel, id: Uuid, address: string, now: Time)
    requires Inv(s) && s.updatedAt <= now && ApplyAdd(s, ch, id, address, now).Ok?
    ensures Inv(ApplyAdd(s, ch, id, address, now).value)
  {
    var cs := s.Contacts(ch);
    var c := NewContact(id, address, !ContactActiveExcept(cs, -1), now).value;
    LaterContacts(cs, s.updatedAt, now);
    ListWithAdded(cs, c, now);
    ReplacedList(s, ch, cs + [c], -1, now);
  }

  lemma VerifyPreserves(s: IdentityState, ch: Channel, id: Uuid, now: Time)
    requires Inv(s) && s.updatedAt <= now && ApplyVerify(s, ch, id, now).Ok?
    ensures Inv(ApplyVerify(s, ch, id, now).value)
  {
    var cs := s.Contacts(ch);
    var k := ContactIndex(cs, id);
    LaterContacts(cs, s.updatedAt, now);
    ListWithVerified(cs, k, now);
    ReplacedList(s, ch, cs[k := cs[k].(verifiedAt := Some(now), updatedAt := now)], -1, now);
  }

  lemma SetPrimaryPreserves(s: IdentityState, ch: Channel, id: Uuid, now: Time)
    requires Inv(s) && s.updatedAt <= now && ApplySetPrimary(s, ch, id, now).Ok?
    ensures Inv(ApplySetPrimary(s, ch, id, now).value)
  {
    var cs := s.Contacts(ch);
    var k := ContactIndex(cs, id);
    if !cs[k].isPrimary {
      LaterContacts(cs, s.updatedAt, now);
      ListWithPrimary(cs, k, now);
      ReplacedList(s, ch, OnlyPrimary(cs, k, now), -1, now);
    }
  }

  lemma RemovePreserves(s: IdentityState, ch: Channel, id: Uuid, now: Time)
    requires Inv(s) && s.updatedAt <= now && ApplyRemove(s, ch, id, now).Ok?
    ensures Inv(ApplyRemove(s, ch, id, now).value)
  {
    var cs := s.Contacts(ch);
    var k := ContactIndex(cs, id);
    LaterContacts(cs, s.updatedAt, now);
    ListWithRemoved(cs, k, now);
    ReplacedList(s, ch, cs[k := cs[k].(isPrimary := false, deletedAt := Some(now), updatedAt := now)], k, now);
  }

  ghost predicate AccountsCover(before: seq<AccountState>, after: seq<AccountState>, k: int) {
    && |before| <= |after|
    && forall i | 0 <= i < |before| && i != k ::
      (before[i].IsActive() ==> after[i].IsActive()) && (before[i].IsUsable() ==> after[i].IsUsable())
  }

  lemma AccountsCoverKeepsLogin(before: seq<AccountState>, after: seq<AccountState>, k: int)
    requires AccountsCover(before, after, k)
    ensures AccountActiveExcept(before, k) ==> AccountActiveExcept(after, -1)
    ensures AccountUsableExcept(before, k) ==> AccountUsableExcept(after, -1)
  {
    if i :| 0 <= i < |before| && i != k && before[i].IsActive() {
      assert after[i].IsActive();
    }
    if i :| 0 <= i < |before| && i != k && before[i].IsUsable() {
      assert after[i].IsUsable();
    }
  }

  ghost predicate AccountsInv(accounts: seq<AccountState>, t: Time) {
    AccountsDistinct(accounts) && AccountsNotAfter(accounts, t)
  }

  lemma ReplacedAccount(accounts: seq<AccountState>, k: nat, a: AccountState, t: Time, now: Time)
    requires AccountsInv(accounts, t) && t <= now && k < |accounts|
    requires a.provider == accounts[k].provider && a.subject == accounts[k].subject && AccountNotAfter(a, now)
    ensures AccountsInv(accounts[k := a], now)
  {
  }

  lemma ReplacedAccounts(s: IdentityState, after: seq<AccountState>, k: int, now: Time)
    requires Inv(s) && s.updatedAt <= now && AccountsInv(after, now) && AccountsCover(s.accounts, after, k)
    requires k == -1 || AccountActiveExcept(after, -1) || HasLoginMethodExcept(s, -1, -1, k)
    requires k == -1 || s.status != Active || HasUsableLoginMethodExcept(s, -1, -1, k)
    ensures Inv(s.(accounts := after, updatedAt := now))
  {
    AccountsCoverKeepsLogin(s.accounts, after, k);
    LaterContacts(s.emails, s.updatedAt, now);
    LaterContacts(s.phones, s.updatedAt, now);
  }

  lemma LinkPreserves(s: IdentityState, id: Uuid, provider: string, subject: string, now: Time)
    requires Inv(s) && s.updatedAt <= now && ApplyLink(s, id, provider, subject, now).Ok?
    ensures Inv(ApplyLink(s, id, provider, subject, now).value)
  {
    ReplacedAccounts(s, s.accounts + [NewAccount(id, provider, subject, now).value], -1, now);
  }

  predicate IsAccountOp(op: Op) {
    op.RecordAuthentication? || op.DisableAccount? || op.EnableAccount? || op.UnlinkAccount?
  }

  lemma AccountStepPreserves(s: IdentityState, op: Op, now: Time)
    requires Inv(s) && s.updatedAt <= now && IsAccountOp(op) && ApplyToAccount(s, op, now).Ok?
    ensures Inv(ApplyToAccount(s, op, now).value)
  {
    var k, after := AccountIndex(s.accounts, op.id), ApplyToAccount(s, op, now).value.accounts;
    ReplacedAccount(s.accounts, k, after[k], s.updatedAt, now);
    assert op.DisableAccount? ==> after[k].IsActive();
    ReplacedAccounts(s, after, if op.DisableAccount? || op.UnlinkAccount? then k else -1, now);
  }

  /** Every operation that succeeds keeps the invariant. */
  lemma StepPreserves(s: IdentityState, op: Op, now: Time)
    requires Inv(s) && Apply(s, op, now).Ok?
    ensures Inv(Apply(s, op, now).value)
    ensures Apply(s, op, now).value.updatedAt >= s.updatedAt
  {
    match op
    case AddContact(ch, id, address) => AddPreserves(s, ch, id, address, now);
    case VerifyContact(ch, id) => VerifyPreserves(s, ch, id, now);
    case SetPrimary(ch, id) => SetPrimaryPreserves(s, ch, id, now);
    case RemoveContact(ch, id) => RemovePreserves(s, ch, id, now);
    case Activate =>
    case Disable =>
    case Enable =>
    case Delete =>
    case LinkAccount(id, provider, subject) => LinkPreserves(s, id, provider, subject, now);
    case _ => AccountStepPreserves(s, op, now);
  }

  // ---- Runs ----

  datatype Call = Call(op: Op, now: Time)

  /** A caller may try anything at any time; a failed operation changes nothing. */
  function Run(s: IdentityState, calls: seq<Call>): IdentityState {
    if calls == [] then s
    else
      var before := Run(s, calls[..|calls| - 1]);
      var last := calls[|calls| - 1];
      match Apply(before, last.op, last.now)
      case Ok(after) => after
      case Err(_) => before
  }

  lemma {:induction false} RunPreserves(s: IdentityState, calls: seq<Call>)
    requires Inv(s)
    ensures Inv(Run(s, calls))
  {
    if calls != [] {
      RunPreserves(s, calls[..|calls| - 1]);
      var before, last := Run(s, calls[..|calls| - 1]), calls[|calls| - 1];
      if Apply(before, last.op, last.now).Ok? {
        StepPreserves(before, last.op, last.now);
      }
    }
  }

  /** Nothing is ever taken off a list, and addresses, numbers, providers and subjects never change. */
  ghost predicate KeepsRecords(s: IdentityState, t: IdentityState) {
    && (forall ch: Channel :: KeepsContacts(s.Contacts(ch), t.Contacts(ch)))
    && |s.accounts| <= |t.accounts|
    && (forall i | 0 <= i < |s.accounts| ::
      t.accounts[i].provider == s.accounts[i].provider && t.accounts[i].subject == s.accounts[i].subject)
  }

  ghost predicate KeepsContacts(cs: seq<ContactState>, ds: seq<ContactState>) {
    && |cs| <= |ds|
    && forall i | 0 <= i < |cs| :: ds[i].address == cs[i].address && (!cs[i].IsActive() ==> ds[i] == cs[i])
  }

  lemma StepKeepsRecords(s: IdentityState, op: Op, now: Time)
    requires Apply(s, op, now).Ok?
    ensures KeepsRecords(s, Apply(s, op, now).value)
  {
    var t := Apply(s, op, now).value;
    assert KeepsContacts(s.emails, t.emails) && KeepsContacts(s.phones, t.phones);
    forall ch: Channel ensures KeepsContacts(s.Contacts(ch), t.Contacts(ch)) {
    }
  }

  lemma KeepsRecordsTransitive(s: IdentityState, t: IdentityState, u: IdentityState)
    requires KeepsRecords(s, t) && KeepsRecords(t, u)
    ensures KeepsRecords(s, u)
  {
    forall ch: Channel ensures KeepsContacts(s.Contacts(ch), u.Contacts(ch)) {
      assert KeepsContacts(s.Contacts(ch), t.Contacts(ch)) && KeepsContacts(t.Contacts(ch), u.Contacts(ch));
    }
  }

  lemma {:induction false} RunKeepsRecords(s: IdentityState, calls: seq<Call>)
    ensures KeepsRecords(s, Run(s, calls))
  {
    if calls != [] {
      RunKeepsRecords(s, calls[..|calls| - 1]);
      var before, last := Run(s, calls[..|calls| - 1]), calls[|calls| - 1];
      if Apply(before, last.op, last.now).Ok? {
        StepKeepsRecords(before, last.op, last.now);
        KeepsRecordsTransitive(s, before, Run(s, calls));
      }
    }
  }

  /** An address once used, even on a removed contact, can never be added again. */
  lemma AddressNeverReused(s: IdentityState, calls: seq<Call>, ch: Channel, i: nat, id: Uuid, now: Time)
    requires i < |s.Contacts(ch)|
    ensures var t := Run(s, calls);
      Apply(t, AddContact(ch, id, s.Contacts(ch)[i].address), now).Err?
  {
    RunKeepsRecords(s, calls);
    var t := Run(s, calls);
    assert KeepsContacts(s.Contacts(ch), t.Contacts(ch));
    assert t.Contacts(ch)[i].address == s.Contacts(ch)[i].address;
  }

  /** A deleted identity stays exactly as it was deleted. */
  lemma {:induction false} DeletedIsFinal(s: IdentityState, calls: seq<Call>)
    requires s.status == Deleted
    ensures Run(s, calls) == s
  {
    if calls != [] {
      DeletedIsFinal(s, calls[..|calls| - 1]);
    }
  }

  /** What one of the three constructors returns. */
  ghost predicate IsNew(s: IdentityState) {
    || (exists id, ch, contactId, address, now :: NewWithContact(id, ch, contactId, address, now) == Ok(s))
    || (exists id, accountId, provider, subject, now :: NewWithAccount(id, accountId, provider, subject, now) == Ok(s))
  }

  /** The promises about contacts and login methods, in the words of the aggregate, for everything reachable. */
  lemma ReachableIdentity(start: IdentityState, calls: seq<Call>, ch: Channel)
    requires IsNew(start)
    ensures var s := Run(start, calls);
      var cs := s.Contacts(ch);
      && (ContactActiveExcept(cs, -1) <==> HasPrimary(cs))
      && (forall i, j | 0 <= i < |cs| && 0 <= j < |cs| :: cs[i].isPrimary && cs[j].isPrimary ==> i == j)
      && (forall i | 0 <= i < |cs| :: cs[i].deletedAt.Some? ==> !cs[i].isPrimary)
      && HasLoginMethodExcept(s, -1, -1, -1)
      && (s.status == Active ==> HasUsableLoginMethodExcept(s, -1, -1, -1))
      && AddressesDistinct(cs) && AccountsDistinct(s.accounts)
  {
    if id, c, contactId, address, now :| NewWithContact(id, c, contactId, address, now) == Ok(start) {
      NewSatisfiesInv(id, c, contactId, address, "", now);
    } else {
      var id, accountId, provider, subject, now :| NewWithAccount(id, accountId, provider, subject, now) == Ok(start);
      NewSatisfiesInv(id, Email, accountId, provider, subject, now);
    }
    RunPreserves(start, calls);
    var cs := Run(start, calls).Contacts(ch);
    assert ContactsInv(cs, Run(start, calls).updatedAt);
    if i :| 0 <= i < |cs| && cs[i].isPrimary {
      assert cs[i].IsActive();
    }
  }
}
