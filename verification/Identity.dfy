/** The identity aggregate root, changing its contacts and accounts in place. */
module IdentityAggregate {
  import opened Common
  import opened IdentityModel
  import opened IdentityEntities

  // ---- The search and count loops ----

  method FindContact(cs: seq<ContactState>, id: Uuid) returns (index: int)
    ensures index == ContactIndex(cs, id)
  {
    for i := 0 to |cs|
      invariant ContactIndex(cs, id) == ContactIndex(cs, id, i)
    {
      if cs[i].IsActive() && cs[i].id == id {
        return i;
      }
    }
    index := -1;
  }

  method FindAccount(accounts: seq<AccountState>, id: Uuid) returns (index: int)
    ensures index == AccountIndex(accounts, id)
  {
    for i := 0 to |accounts|
      invariant AccountIndex(accounts, id) == AccountIndex(accounts, id, i)
    {
      if accounts[i].IsActive() && accounts[i].id == id {
        return i;
      }
    }
    index := -1;
  }

  method UsesAddress(cs: seq<ContactState>, address: string) returns (found: bool)
    ensures found == HasAddress(cs, address)
  {
    for i := 0 to |cs|
      invariant forall j | 0 <= j < i :: cs[j].address != address
    {
      if cs[i].address == address {
        assert cs[i].address == address;
        return true;
      }
    }
    found := false;
  }

  method LinksAccount(accounts: seq<AccountState>, provider: string, subject: string)
    returns (found: bool)
    ensures found == HasAccount(accounts, provider, subject)
  {
    for i := 0 to |accounts|
      invariant forall j | 0 <= j < i :: !(accounts[j].provider == provider && accounts[j].subject == subject)
    {
      if accounts[i].provider == provider && accounts[i].subject == subject {
        assert accounts[i].provider == provider;
        return true;
      }
    }
    found := false;
  }

  /** The count is none exactly when nothing is active, and more than one exactly when an active contact has company. */
  method CountActive(cs: seq<ContactState>) returns (count: nat)
    ensures count == 0 <==> !ContactActiveExcept(cs, -1)
    ensures forall i | 0 <= i < |cs| && cs[i].IsActive() :: count > 1 <==> ContactActiveExcept(cs, i)
  {
    count := 0;
    ghost var first := -1;
    for i := 0 to |cs|
      invariant count == 0 <==> first == -1
      invariant first == -1 ==> forall j | 0 <= j < i :: !cs[j].IsActive()
      invariant first != -1 ==> 0 <= first < i && cs[first].IsActive()
      invariant count <= 1 ==> forall j | 0 <= j < i && cs[j].IsActive() :: j == first
      invariant count > 1 ==> exists j | 0 <= j < i :: j != first && cs[j].IsActive()
    {
      if cs[i].IsActive() {
        assert cs[i].IsActive();
        count := count + 1;
        first := if first == -1 then i else first;
      }
    }
  }

  method AnyContact(cs: seq<ContactState>, except: int, usable: bool) returns (found: bool)
    ensures found == if usable then ContactUsableExcept(cs, except) else ContactActiveExcept(cs, except)
  {
    for i := 0 to |cs|
      invariant forall j | 0 <= j < i :: j != except ==> !(if usable then cs[j].IsUsable() else cs[j].IsActive())
    {
      if i != except && (if usable then cs[i].IsUsable() else cs[i].IsActive()) {
        assert if usable then cs[i].IsUsable() else cs[i].IsActive();
        return true;
      }
    }
    found := false;
  }

  method AnyAccount(accounts: seq<AccountState>, except: int, usable: bool)
    returns (found: bool)
    ensures found == if usable then AccountUsableExcept(accounts, except) else AccountActiveExcept(accounts, except)
  {
    for i := 0 to |accounts|
      invariant forall j | 0 <= j < i :: j != except ==> !(if usable then accounts[j].IsUsable() else accounts[j].IsActive())
    {
      if i != except && (if usable then accounts[i].IsUsable() else accounts[i].IsActive()) {
        assert if usable then accounts[i].IsUsable() else accounts[i].IsActive();
        return true;
      }
    }
    found := false;
  }

  /** A call either reports success and reaches exactly the new state, or reports its error and changes nothing. */
  ghost predicate Settles(err: Option<Error>, before: IdentityState, after: IdentityState, outcome: Result<IdentityState, Error>) {
    match outcome
    case Ok(s) => err == None && after == s
    case Err(e) => err == Some(e) && after == before
  }

  class Identity {
    const id: Uuid
    var status: Status
    var emails: seq<ContactState>
    var phones: seq<ContactState>
    var accounts: seq<AccountState>
    const createdAt: Time
    var updatedAt: Time
    var deletedAt: Option<Time>

    function State(): IdentityState
      reads this
    {
      IdentityState(id, status, emails, phones, accounts, createdAt, updatedAt, deletedAt)
    }

    ghost predicate Valid()
      reads this
    {
      Inv(State())
    }

    constructor NewWithContact(id: Uuid, ch: Channel, contactId: Uuid, address: string, now: Time)
      requires IdentityModel.NewWithContact(id, ch, contactId, address, now).Ok?
      ensures Valid() && IdentityModel.NewWithContact(id, ch, contactId, address, now) == Ok(State())
    {
      this.id, status, createdAt, updatedAt, deletedAt := id, Pending, now, now, None;
      var contact := NewContact(contactId, address, true, now).value;
      emails := if ch == Email then [contact] else [];
      phones := if ch == Email then [] else [contact];
      accounts := [];
      new;
      NewSatisfiesInv(id, ch, contactId, address, "", now);
    }

    constructor NewWithExternalAccount(id: Uuid, accountId: Uuid, provider: string, subject: string, now: Time)
      requires NewWithAccount(id, accountId, provider, subject, now).Ok?
      ensures Valid() && NewWithAccount(id, accountId, provider, subject, now) == Ok(State())
    {
      this.id, status, createdAt, updatedAt, deletedAt := id, Pending, now, now, None;
      emails, phones, accounts := [], [], [NewAccount(accountId, provider, subject, now).value];
      new;
      NewSatisfiesInv(id, Email, accountId, provider, subject, now);
    }

    method EnsureChangeAllowed(now: Time) returns (err: Option<Error>)
      ensures err == ChangeError(State(), now)
    {
      if status == Deleted || deletedAt.Some? {
        return Some(InvalidStatus);
      }
      if now == ZERO_TIME || now < updatedAt {
        return Some(InvalidTime);
      }
      err := None;
    }

    method HasLoginMethodExcept(email: int, phone: int, account: int) returns (found: bool)
      ensures found == IdentityModel.HasLoginMethodExcept(State(), email, phone, account)
    {
      found := AnyContact(emails, email, false);
      if !found {
        found := AnyContact(phones, phone, false);
      }
      if !found {
        found := AnyAccount(accounts, account, false);
      }
    }

    method HasUsableLoginMethodExcept(email: int, phone: int, account: int) returns (found: bool)
      ensures found == IdentityModel.HasUsableLoginMethodExcept(State(), email, phone, account)
    {
      found := AnyContact(emails, email, true);
      if !found {
        found := AnyContact(phones, phone, true);
      }
      if !found {
        found := AnyAccount(accounts, account, true);
      }
    }

    method EnsureLoginMethodRemovable(email: int, phone: int, account: int) returns (err: Option<Error>)
      ensures err == if LoginMethodRemovable(State(), email, phone, account) then None else Some(LoginMethodRequired)
    {
      var login := HasLoginMethodExcept(email, phone, account);
      if !login {
        return Some(LoginMethodRequired);
      }
      if status == Active {
        var usable := HasUsableLoginMethodExcept(email, phone, account);
        if !usable {
          return Some(LoginMethodRequired);
        }
      }
      err := None;
    }

    method Activate(now: Time) returns (err: Option<Error>)
      requires Valid()
      modifies this
      ensures Valid() && Settles(err, old(State()), State(), Apply(old(State()), Op.Activate, now))
    {
      err := EnsureChangeAllowed(now);
      if err.Some? {
        return;
      }
      if status != Pending {
        return Some(InvalidTransition);
      }
      var usable := HasUsableLoginMethodExcept(-1, -1, -1);
      if !usable {
        return Some(LoginMethodRequired);
      }
      StepPreserves(State(), Op.Activate, now);
      status := Active;
      updatedAt := now;
    }

    method Disable(now: Time) returns (err: Option<Error>)
      requires Valid()
      modifies this
      ensures Valid() && Settles(err, old(State()), State(), Apply(old(State()), Op.Disable, now))
    {
      err := EnsureChangeAllowed(now);
      if err.Some? {
        return;
      }
      if status != Pending && status != Active {
        return Some(InvalidTransition);
      }
      StepPreserves(State(), Op.Disable, now);
      status := Disabled;
      updatedAt := now;
    }

    method Enable(now: Time) returns (err: Option<Error>)
      requires Valid()
      modifies this
      ensures Valid() && Settles(err, old(State()), State(), Apply(old(State()), Op.Enable, now))
    {
      err := EnsureChangeAllowed(now);
      if err.Some? {
        return;
      }
      if status != Disabled {
        return Some(InvalidTransition);
      }
      var usable := HasUsableLoginMethodExcept(-1, -1, -1);
      if !usable {
        return Some(LoginMethodRequired);
      }
      StepPreserves(State(), Op.Enable, now);
      status := Active;
      updatedAt := now;
    }

    method Delete(now: Time) returns (err: Option<Error>)
      requires Valid()
      modifies this
      ensures Valid() && Settles(err, old(State()), State(), Apply(old(State()), Op.Delete, now))
    {
      err := EnsureChangeAllowed(now);
      if err.Some? {
        return;
      }
      StepPreserves(State(), Op.Delete, now);
      status := Deleted;
      deletedAt := Some(now);
      updatedAt := now;
    }

    function Contacts(ch: Channel): seq<ContactState>
      reads this
    {
      if ch == Email then emails else phones
    }

    /** Assignment to the list of a channel. */
    method SetContacts(ch: Channel, cs: seq<ContactState>)
      modifies `emails, `phones
      ensures Contacts(ch) == cs
      ensures if ch == Email then phones == old(phones) else emails == old(emails)
    {
      if ch == Email {
        emails := cs;
      } else {
        phones := cs;
      }
    }

    method AddContact(ch: Channel, id: Uuid, address: string, now: Time) returns (err: Option<Error>)
      requires Valid()
      modifies this
      ensures Valid() && Settles(err, old(State()), State(), Apply(old(State()), Op.AddContact(ch, id, address), now))
    {
      err := EnsureChangeAllowed(now);
      if err.Some? {
        return;
      }
      var taken := UsesAddress(Contacts(ch), address);
      if taken {
        return Some(ContactExists);
      }
      var count := CountActive(Contacts(ch));
      match NewContact(id, address, count == 0, now)
      case Err(e) => err := Some(e);
      case Ok(contact) =>
        AddPreserves(State(), ch, id, address, now);
        SetContacts(ch, Contacts(ch) + [contact]);
        updatedAt := now;
    }

    method VerifyContact(ch: Channel, id: Uuid, now: Time) returns (err: Option<Error>)
      requires Valid()
      modifies this
      ensures Valid() && Settles(err, old(State()), State(), Apply(old(State()), Op.VerifyContact(ch, id), now))
    {
      err := EnsureChangeAllowed(now);
      if err.Some? {
        return;
      }
      var cs := Contacts(ch);
      var index := FindContact(cs, id);
      if index < 0 {
        return Some(ContactNotFound);
      }
      SettledContact(State(), ch, index);
      var contact := new Contact(cs[index]);
      err := contact.Verify(now);
      SetContacts(ch, cs[index := contact.State()]);
      if err.Some? {
        assert Contacts(ch) == cs;
        return;
      }
      VerifyPreserves(old(State()), ch, id, now);
      updatedAt := now;
    }

    /**
     The loop of `SetPrimaryEmail` and `SetPrimaryPhone`. A failing `Demote` would make it return with some contacts
     demoted and others not; it cannot fail when no contact is newer than `now`.
     */
    method DemoteOthers(ch: Channel, index: nat, now: Time) returns (err: Option<Error>)
      requires now != ZERO_TIME && ContactsNotAfter(Contacts(ch), now)
      modifies `emails, `phones
      ensures err == None
      ensures if ch == Email then phones == old(phones) else emails == old(emails)
      ensures |Contacts(ch)| == |old(Contacts(ch))|
      ensures forall j | 0 <= j < |Contacts(ch)| ::
        Contacts(ch)[j] == if j == index then old(Contacts(ch))[j] else Demoted(old(Contacts(ch))[j], now)
    {
      err := None;
      for i := 0 to |Contacts(ch)|
        invariant if ch == Email then phones == old(phones) else emails == old(emails)
        invariant err == None && |Contacts(ch)| == |old(Contacts(ch))|
        invariant forall j | 0 <= j < |Contacts(ch)| ::
          Contacts(ch)[j] == if j == index || j >= i then old(Contacts(ch))[j] else Demoted(old(Contacts(ch))[j], now)
      {
        if i != index {
          var cs := Contacts(ch);
          var other := new Contact(cs[i]);
          err := other.Demote(now);
          SetContacts(ch, cs[i := other.State()]);
          if err.Some? {
            assert false;
          }
        }
      }
    }

    method SetPrimaryContact(ch: Channel, id: Uuid, now: Time) returns (err: Option<Error>)
      requires Valid()
      modifies this
      ensures Valid() && Settles(err, old(State()), State(), Apply(old(State()), Op.SetPrimary(ch, id), now))
    {
      err := EnsureChangeAllowed(now);
      if err.Some? {
        return;
      }
      var cs := Contacts(ch);
      var index := FindContact(cs, id);
      if index < 0 {
        return Some(ContactNotFound);
      }
      SettledContact(State(), ch, index);
      var contact := new Contact(cs[index]);
      var changed;
      changed, err := contact.Promote(now);
      SetContacts(ch, cs[index := contact.State()]);
      if !changed {
        assert Contacts(ch) == cs;
        return;
      }
      SettledContacts(old(State()), ch, now);
      err := DemoteOthers(ch, index, now);
      if err.Some? {
        assert false;
      }
      assert Contacts(ch) == OnlyPrimary(cs, index, now);
      SetPrimaryPreserves(old(State()), ch, id, now);
      updatedAt := now;
    }

    method RemoveContact(ch: Channel, id: Uuid, now: Time) returns (err: Option<Error>)
      requires Valid()
      modifies this
      ensures Valid() && Settles(err, old(State()), State(), Apply(old(State()), Op.RemoveContact(ch, id), now))
    {
      err := EnsureChangeAllowed(now);
      if err.Some? {
        return;
      }
      var cs := Contacts(ch);
      var index := FindContact(cs, id);
      if index < 0 {
        return Some(ContactNotFound);
      }
      var count := CountActive(cs);
      if cs[index].isPrimary && count > 1 {
        return Some(PrimaryInUse);
      }
      err := EnsureLoginMethodRemovable(if ch == Email then index else -1, if ch == Email then -1 else index, -1);
      if err.Some? {
        return;
      }
      SettledContact(State(), ch, index);
      var contact := new Contact(cs[index]);
      err := contact.Remove(now);
      SetContacts(ch, cs[index := contact.State()]);
      RemovePreserves(old(State()), ch, id, now);
      updatedAt := now;
    }

    method LinkExternalAccount(id: Uuid, provider: string, subject: string, now: Time) returns (err: Option<Error>)
      requires Valid()
      modifies this
      ensures Valid() && Settles(err, old(State()), State(), Apply(old(State()), Op.LinkAccount(id, provider, subject), now))
    {
      err := EnsureChangeAllowed(now);
      if err.Some? {
        return;
      }
      var linked := LinksAccount(accounts, provider, subject);
      if linked {
        return Some(AccountExists);
      }
      match NewAccount(id, provider, subject, now)
      case Err(e) => err := Some(e);
      case Ok(account) =>
        LinkPreserves(State(), id, provider, subject, now);
        accounts := accounts + [account];
        updatedAt := now;
    }

    /** The value at an index is changed through an object and written back, whether or not the change succeeded. */
    method RecordExternalAuthentication(id: Uuid, now: Time) returns (err: Option<Error>)
      requires Valid()
      modifies this
      ensures Valid() && Settles(err, old(State()), State(), Apply(old(State()), Op.RecordAuthentication(id), now))
    {
      err := EnsureChangeAllowed(now);
      if err.Some? {
        return;
      }
      if status != Active {
        return Some(InvalidStatus);
      }
      var index := FindAccount(accounts, id);
      if index < 0 {
        return Some(AccountNotFound);
      }
      AccountReady(State(), index, now);
      var account := new ExternalAccount(accounts[index]);
      err := account.RecordAuthentication(now);
      accounts := accounts[index := account.State()];
      if err.Some? {
        assert accounts == old(accounts);
        return;
      }
      AccountStepPreserves(old(State()), Op.RecordAuthentication(id), now);
      updatedAt := now;
    }

    method DisableExternalAccount(id: Uuid, now: Time) returns (err: Option<Error>)
      requires Valid()
      modifies this
      ensures Valid() && Settles(err, old(State()), State(), Apply(old(State()), Op.DisableAccount(id), now))
    {
      err := EnsureChangeAllowed(now);
      if err.Some? {
        return;
      }
      var index := FindAccount(accounts, id);
      if index < 0 {
        return Some(AccountNotFound);
      }
      if !accounts[index].IsUsable() {
        return Some(AccountDisabled);
      }
      if status == Active {
        var usable := HasUsableLoginMethodExcept(-1, -1, index);
        if !usable {
          return Some(LoginMethodRequired);
        }
      }
      AccountReady(State(), index, now);
      var account := new ExternalAccount(accounts[index]);
      err := account.Disable(now);
      accounts := accounts[index := account.State()];
      AccountStepPreserves(old(State()), Op.DisableAccount(id), now);
      updatedAt := now;
    }

    method EnableExternalAccount(id: Uuid, now: Time) returns (err: Option<Error>)
      requires Valid()
      modifies this
      ensures Valid() && Settles(err, old(State()), State(), Apply(old(State()), Op.EnableAccount(id), now))
    {
      err := EnsureChangeAllowed(now);
      if err.Some? {
        return;
      }
      var index := FindAccount(accounts, id);
      if index < 0 {
        return Some(AccountNotFound);
      }
      AccountReady(State(), index, now);
      var account := new ExternalAccount(accounts[index]);
      err := account.Enable(now);
      accounts := accounts[index := account.State()];
      if err.Some? {
        assert accounts == old(accounts);
        return;
      }
      AccountStepPreserves(old(State()), Op.EnableAccount(id), now);
      updatedAt := now;
    }

    method UnlinkExternalAccount(id: Uuid, now: Time) returns (err: Option<Error>)
      requires Valid()
      modifies this
      ensures Valid() && Settles(err, old(State()), State(), Apply(old(State()), Op.UnlinkAccount(id), now))
    {
      err := EnsureChangeAllowed(now);
      if err.Some? {
        return;
      }
      var index := FindAccount(accounts, id);
      if index < 0 {
        return Some(AccountNotFound);
      }
      err := EnsureLoginMethodRemovable(-1, -1, index);
      if err.Some? {
        return;
      }
      AccountReady(State(), index, now);
      var account := new ExternalAccount(accounts[index]);
      err := account.Unlink(now);
      accounts := accounts[index := account.State()];
      AccountStepPreserves(old(State()), Op.UnlinkAccount(id), now);
      updatedAt := now;
    }
  }

  /** Once the identity has passed its own time check, no account can fail its time check. */
  lemma AccountReady(s: IdentityState, i: nat, now: Time)
    requires Inv(s) && ChangeError(s, now).None? && i < |s.accounts| && s.accounts[i].IsActive()
    ensures AccountChangeError(s.accounts[i], now).None?
  {
    SettledAccount(s, i);
    LatestChangeBound(s.accounts[i], s.updatedAt);
  }
}
