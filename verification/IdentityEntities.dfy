/** The parts of an identity that change in place: contacts (emails and phones alike) and external accounts. */
module IdentityEntities {
  import opened Common
  import opened IdentityModel

  function ContactChangeError(c: ContactState, now: Time): Option<Error> {
    if !c.IsActive() then Some(ContactDeleted)
    else if now == ZERO_TIME || now < c.updatedAt then Some(InvalidTime)
    else None
  }

  class Contact {
    const id: Uuid
    const address: string
    const createdAt: Time
    var isPrimary: bool
    var updatedAt: Time
    var verifiedAt: Option<Time>
    var deletedAt: Option<Time>

    function State(): ContactState
      reads this
    {
      ContactState(id, address, isPrimary, createdAt, updatedAt, verifiedAt, deletedAt)
    }

    constructor (c: ContactState)
      ensures State() == c
    {
      id, address, createdAt := c.id, c.address, c.createdAt;
      isPrimary, updatedAt, verifiedAt, deletedAt := c.isPrimary, c.updatedAt, c.verifiedAt, c.deletedAt;
    }

    method Verify(now: Time) returns (err: Option<Error>)
      modifies this
      ensures err == if ContactChangeError(old(State()), now).Some? then ContactChangeError(old(State()), now)
                     else if old(verifiedAt).Some? then Some(ContactVerified) else None
      ensures State() == if err.Some? then old(State()) else old(State()).(verifiedAt := Some(now), updatedAt := now)
    {
      err := ContactChangeError(State(), now);
      if err.Some? {
        return;
      }
      if verifiedAt.Some? {
        return Some(ContactVerified);
      }
      verifiedAt := Some(now);
      updatedAt := now;
    }

    method Promote(now: Time) returns (changed: bool, err: Option<Error>)
      modifies this
      ensures err == if ContactChangeError(old(State()), now).Some? then ContactChangeError(old(State()), now)
                     else if old(verifiedAt).None? then Some(ContactNotVerified) else None
      ensures changed == (err.None? && !old(isPrimary))
      ensures State() == if changed then old(State()).(isPrimary := true, updatedAt := now) else old(State())
    {
      err := ContactChangeError(State(), now);
      if err.Some? {
        return false, err;
      }
      if verifiedAt.None? {
        return false, Some(ContactNotVerified);
      }
      if isPrimary {
        return false, None;
      }
      isPrimary := true;
      updatedAt := now;
      changed := true;
    }

    method Demote(now: Time) returns (err: Option<Error>)
      modifies this
      ensures err == if old(State()).IsActive() && old(isPrimary) then ContactChangeError(old(State()), now) else None
      ensures State() == if err.None? then Demoted(old(State()), now) else old(State())
    {
      if !State().IsActive() || !isPrimary {
        return None;
      }
      err := ContactChangeError(State(), now);
      if err.Some? {
        return;
      }
      isPrimary := false;
      updatedAt := now;
    }

    method Remove(now: Time) returns (err: Option<Error>)
      modifies this
      ensures err == ContactChangeError(old(State()), now)
      ensures State() == if err.Some? then old(State())
                         else old(State()).(isPrimary := false, deletedAt := Some(now), updatedAt := now)
    {
      err := ContactChangeError(State(), now);
      if err.Some? {
        return;
      }
      isPrimary := false;
      deletedAt := Some(now);
      updatedAt := now;
    }
  }

  /** `latestChangedAt` as a function of the recorded times. */
  function LatestChange(a: AccountState): Time {
    LatestOf(a.linkedAt, [a.lastAuthenticatedAt, a.disabledAt, a.deletedAt])
  }

  function LatestOf(first: Time, rest: seq<Option<Time>>): (latest: Time)
    ensures first <= latest
    ensures forall i | 0 <= i < |rest| :: NotAfter(rest[i], latest)
    ensures latest == first || exists i | 0 <= i < |rest| :: rest[i] == Some(latest)
  {
    if rest == [] then first
    else
      var init, last := LatestOf(first, rest[..|rest| - 1]), rest[|rest| - 1];
      if last.Some? && last.value > init then
        last.value
      else
        init
  }

  lemma LatestChangeBound(a: AccountState, t: Time)
    ensures LatestChange(a) <= t <==> AccountNotAfter(a, t)
  {
    var times := [a.lastAuthenticatedAt, a.disabledAt, a.deletedAt];
    assert NotAfter(times[0], LatestChange(a)) && NotAfter(times[1], LatestChange(a)) && NotAfter(times[2], LatestChange(a));
  }

  function AccountChangeError(a: AccountState, now: Time): Option<Error> {
    if !a.IsActive() then Some(AccountDeleted)
    else if now == ZERO_TIME || now < LatestChange(a) then Some(InvalidTime)
    else None
  }

  class ExternalAccount {
    const id: Uuid
    const provider: string
    const subject: string
    const linkedAt: Time
    var lastAuthenticatedAt: Option<Time>
    var disabledAt: Option<Time>
    var deletedAt: Option<Time>

    function State(): AccountState
      reads this
    {
      AccountState(id, provider, subject, linkedAt, lastAuthenticatedAt, disabledAt, deletedAt)
    }

    constructor (a: AccountState)
      ensures State() == a
    {
      id, provider, subject, linkedAt := a.id, a.provider, a.subject, a.linkedAt;
      lastAuthenticatedAt, disabledAt, deletedAt := a.lastAuthenticatedAt, a.disabledAt, a.deletedAt;
    }

    method LatestChangedAt() returns (latest: Time)
      ensures latest == LatestChange(State())
    {
      latest := linkedAt;
      var values := [lastAuthenticatedAt, disabledAt, deletedAt];
      for i := 0 to |values|
        invariant latest == LatestOf(linkedAt, values[..i])
      {
        assert values[..i + 1][..i] == values[..i];
        if values[i].Some? && values[i].value > latest {
          latest := values[i].value;
        }
      }
      assert values[..|values|] == values;
    }

    method EnsureChangeAllowed(now: Time) returns (err: Option<Error>)
      ensures err == AccountChangeError(State(), now)
    {
      if !State().IsActive() {
        return Some(AccountDeleted);
      }
      var latest := LatestChangedAt();
      err := if now == ZERO_TIME || now < latest then Some(InvalidTime) else None;
    }

    method RecordAuthentication(now: Time) returns (err: Option<Error>)
      modifies this
      ensures err == if AccountChangeError(old(State()), now).Some? then AccountChangeError(old(State()), now)
                     else if old(disabledAt).Some? then Some(AccountDisabled) else None
      ensures State() == if err.Some? then old(State()) else old(State()).(lastAuthenticatedAt := Some(now))
    {
      err := EnsureChangeAllowed(now);
      if err.Some? {
        return;
      }
      if !State().IsUsable() {
        return Some(AccountDisabled);
      }
      lastAuthenticatedAt := Some(now);
    }

    method Disable(now: Time) returns (err: Option<Error>)
      modifies this
      ensures err == if AccountChangeError(old(State()), now).Some? then AccountChangeError(old(State()), now)
                     else if old(disabledAt).Some? then Some(AccountDisabled) else None
      ensures State() == if err.Some? then old(State()) else old(State()).(disabledAt := Some(now))
    {
      err := EnsureChangeAllowed(now);
      if err.Some? {
        return;
      }
      if disabledAt.Some? {
        return Some(AccountDisabled);
      }
      disabledAt := Some(now);
    }

    method Enable(now: Time) returns (err: Option<Error>)
      modifies this
      ensures err == if AccountChangeError(old(State()), now).Some? then AccountChangeError(old(State()), now)
                     else if old(disabledAt).None? then Some(AccountNotDisabled) else None
      ensures State() == if err.Some? then old(State()) else old(State()).(disabledAt := None)
    {
      err := EnsureChangeAllowed(now);
      if err.Some? {
        return;
      }
      if disabledAt.None? {
        return Some(AccountNotDisabled);
      }
      disabledAt := None;
    }

    method Unlink(now: Time) returns (err: Option<Error>)
      modifies this
      ensures err == AccountChangeError(old(State()), now)
      ensures State() == if err.Some? then old(State()) else old(State()).(deletedAt := Some(now))
    {
      err := EnsureChangeAllowed(now);
      if err.Some? {
        return;
      }
      deletedAt := Some(now);
    }
  }
}
