/** The authorization code a completed transaction is exchanged for: section 4.1 of RFC 6749, section 4.6 of RFC 7636. */
module AuthorizationCode {
  import opened Common
  import opened Authentication
  import opened AuthTransactionModel

  datatype CodeError =
    | InvalidClient | InvalidIdentity | InvalidMethods | LevelMismatch | DuplicateScope | InvalidAuthenticationTime
    | InvalidExpiration | InvalidTime | Expired | ClientMismatch | RedirectMismatch | PkceRequired | PkceFailed

  datatype Code = Code(
    hash: string, clientId: Uuid, identityId: Uuid, redirectUri: string, scopes: seq<string>,
    nonce: Option<string>, pkce: Option<Pkce>, level: Level, methods: seq<Method>,
    authenticatedAt: Time, issuedAt: Time, expiresAt: Time)
  {
    function IssueError(): Option<CodeError> {
      if clientId == NIL_UUID then Some(InvalidClient)
      else if identityId == NIL_UUID then Some(CodeError.InvalidIdentity)
      else if LevelOf(methods).None? then Some(InvalidMethods)
      else if LevelOf(methods) != Some(level) then Some(LevelMismatch)
      else if !Distinct(scopes) then Some(CodeError.DuplicateScope)
      else if authenticatedAt == ZERO_TIME || issuedAt < authenticatedAt then Some(InvalidAuthenticationTime)
      else if issuedAt == ZERO_TIME || expiresAt <= issuedAt then Some(InvalidExpiration)
      else None
    }

    /** `challengeOf` is the S256 transformation: base64url of the SHA-256 digest of the verifier. */
    function ExchangeError(challengeOf: string -> string, client: Uuid, redirect: string, verifier: Option<string>, now: Time)
      : Option<CodeError>
    {
      if now == ZERO_TIME || now < issuedAt then Some(CodeError.InvalidTime)
      else if expiresAt <= now then Some(CodeError.Expired)
      else if client != clientId then Some(ClientMismatch)
      else if redirect != redirectUri then Some(RedirectMismatch)
      else if pkce.None? then None
      else if verifier.None? then Some(CodeError.PkceRequired)
      else if challengeOf(verifier.value) != pkce.value.challenge then Some(PkceFailed)
      else None
    }
  }

  /** `authorizationcode.New`. */
  function NewCode(code: Code): Result<Code, CodeError> {
    if code.IssueError().Some? then Err(code.IssueError().value) else Ok(code)
  }

  datatype IssueFailure = NotReady(error: Error) | NotIssuable(codeError: CodeError)

  /** `ContinueAuthorization`: the transaction is completed and its authentication snapshot becomes a code. */
  function Issue(t: Transaction, hash: string, lifetime: int, now: Time): Result<(Transaction, Code), IssueFailure> {
    match Apply(t, Complete, now)
    case Err(e) => Err(NotReady(e))
    case Ok(u) =>
      match NewCode(Code(hash, u.clientId, u.identityId.value, u.redirectUri, u.grantedScopes, u.nonce, u.pkce,
                         u.level.value, u.methods, u.authenticatedAt.value, now, now + lifetime))
      case Err(e) => Err(NotIssuable(e))
      case Ok(code) => Ok((u, code))
  }

  /** The snapshot of a ready transaction passes every check of a code: only the clock and the lifetime can refuse one. */
  lemma ReadySnapshotIsIssuable(t: Transaction, hash: string, lifetime: int, now: Time)
    requires Inv(t) && t.status == ReadyToComplete
    ensures Issue(t, hash, lifetime, now).Ok?
            <==> now != ZERO_TIME && t.authenticatedAt.value <= now < t.expiresAt && lifetime > 0
    ensures Issue(t, hash, lifetime, now).Err? && ChangeError(t, now).None?
            ==> Issue(t, hash, lifetime, now).error in {NotIssuable(InvalidAuthenticationTime), NotIssuable(InvalidExpiration)}
  {
  }

  /** A transaction yields one code: whatever is tried on it after that, it is never ready again. */
  lemma OneCodePerTransaction(t: Transaction, hash: string, lifetime: int, now: Time,
                              calls: seq<Call>, hash': string, lifetime': int, now': Time)
    requires Inv(t) && Issue(t, hash, lifetime, now).Ok?
    ensures Issue(Run(Issue(t, hash, lifetime, now).value.0, calls), hash', lifetime', now').Err?
  {
    StepPreserves(t, Complete, now);
    FinishedIsFinal(Issue(t, hash, lifetime, now).value.0, calls);
  }

  predicate SameRequest(t: Transaction, u: Transaction) {
    && t.id == u.id && t.clientId == u.clientId && t.redirectUri == u.redirectUri && t.requestedScopes == u.requestedScopes
    && t.state == u.state && t.nonce == u.nonce && t.pkce == u.pkce && t.expiresAt == u.expiresAt
  }

  lemma StepKeepsRequest(t: Transaction, op: Op, now: Time)
    requires Apply(t, op, now).Ok?
    ensures SameRequest(t, Apply(t, op, now).value)
  {
  }

  /** No run touches what the client asked for. */
  lemma {:induction false} RequestIsKept(t: Transaction, calls: seq<Call>)
    ensures SameRequest(t, Run(t, calls))
  {
    if calls != [] {
      var init, last := calls[..|calls| - 1], calls[|calls| - 1];
      RequestIsKept(t, init);
      if Apply(Run(t, init), last.op, last.now).Ok? {
        StepKeepsRequest(Run(t, init), last.op, last.now);
      }
    }
  }

  /**
   * From the request to the token: whoever exchanges a code is the client that asked, names the same redirect URI and,
   * if the request carried a challenge, holds its verifier; the code grants only requested scopes, each once.
   */
  lemma ExchangeIsBoundToRequest(
    id: Uuid, clientId: Uuid, redirectUri: string, requested: seq<string>, state: Option<string>, nonce: Option<string>,
    requirePkce: bool, pkce: Option<Pkce>, expiresAt: Time, startedAt: Time,
    calls: seq<Call>, hash: string, lifetime: int, issuedAt: Time,
    challengeOf: string -> string, client: Uuid, redirect: string, verifier: Option<string>, now: Time)
    returns (code: Code)
    requires New(id, clientId, redirectUri, requested, state, nonce, requirePkce, pkce, expiresAt, startedAt).Ok?
    requires var t := New(id, clientId, redirectUri, requested, state, nonce, requirePkce, pkce, expiresAt, startedAt).value;
      && Issue(Run(t, calls), hash, lifetime, issuedAt).Ok?
      && Issue(Run(t, calls), hash, lifetime, issuedAt).value.1
         .ExchangeError(challengeOf, client, redirect, verifier, now).None?
    ensures var t := New(id, clientId, redirectUri, requested, state, nonce, requirePkce, pkce, expiresAt, startedAt).value;
      && code == Issue(Run(t, calls), hash, lifetime, issuedAt).value.1
      && Some(code.identityId) == Run(t, calls).identityId && code.methods == Run(t, calls).methods
      && code.scopes == Run(t, calls).grantedScopes && Some(code.authenticatedAt) == Run(t, calls).authenticatedAt
    ensures client == clientId && redirect == redirectUri
    ensures requirePkce || pkce.Some? ==> verifier.Some? && challengeOf(verifier.value) == pkce.value.challenge
    ensures code.scopes != [] && Distinct(code.scopes) && forall s | s in code.scopes :: s in requested
    ensures Some(code.level) == LevelOf(code.methods) && code.nonce == nonce
    ensures code.hash == hash && code.issuedAt == issuedAt && code.expiresAt == issuedAt + lifetime && code.pkce == pkce
    ensures code.authenticatedAt <= issuedAt <= now < issuedAt + lifetime && issuedAt < expiresAt
  {
    var t := New(id, clientId, redirectUri, requested, state, nonce, requirePkce, pkce, expiresAt, startedAt).value;
    NewSatisfiesInv(id, clientId, redirectUri, requested, state, nonce, requirePkce, pkce, expiresAt, startedAt);
    RunPreserves(t, calls);
    RequestIsKept(t, calls);
    code := Issue(Run(t, calls), hash, lifetime, issuedAt).value.1;
    assert ScopesSound(Run(t, calls));
  }

  /** An exchange succeeds exactly in time, for the same client and redirect URI, and with the verifier of a challenge. */
  lemma ExchangedExactly(code: Code, challengeOf: string -> string, client: Uuid, redirect: string, verifier: Option<string>, now: Time)
    ensures code.ExchangeError(challengeOf, client, redirect, verifier, now).None?
      <==> && now != ZERO_TIME && code.issuedAt <= now < code.expiresAt && client == code.clientId && redirect == code.redirectUri
           && (code.pkce.Some? ==> verifier.Some? && challengeOf(verifier.value) == code.pkce.value.challenge)
    ensures code.ExchangeError(challengeOf, client, redirect, verifier, now) == Some(CodeError.PkceRequired)
      ==> code.pkce.Some? && verifier.None?
  {
  }

  /** A code can be issued exactly if its parts are there and agree. */
  lemma IssuableExactly(code: Code)
    ensures NewCode(code) == Ok(code)
      <==> && NIL_UUID !in {code.clientId, code.identityId} && LevelOf(code.methods) == Some(code.level) && Distinct(code.scopes)
           && code.authenticatedAt != ZERO_TIME && code.authenticatedAt <= code.issuedAt < code.expiresAt && code.issuedAt != ZERO_TIME
  {
  }
}
