/** `oauth/services/token.rs`, `revocation.rs` and `token/services`: the token endpoint. */
module TokenEndpoint {
  import opened Wrappers
  import opened Secret
  import opened Schema
  import opened Statements
  import opened Events
  import opened Clients
  import Pkce
  import Scope
  import Params

  const ACCESS_TOKEN_TTL: Time := 15 * 60 * SECOND
  const REFRESH_TOKEN_TTL: Time := 30 * 24 * 60 * 60 * SECOND

  datatype AppError =
    | InvalidRequest(description: string)
    | InvalidClient
    | InvalidGrant(description: string)
    | InvalidScope(description: string)
    | UnauthorizedClient(description: string)
    | UnsupportedGrantType
    | Internal

  /** `IdTokenClaims`. */
  datatype IdClaims = IdClaims(
    iss: string, sub: Id, aud: string, exp: int, iat: int, authTime: int, nonce: Option<string>)

  datatype TokenResponse = TokenResponse(
    access: AccessClaims,
    tokenType: string,
    expiresIn: int,
    scope: string,
    refreshToken: Option<string>,
    idToken: Option<IdClaims>)

  // ------------------------------------------------------------- signed_tokens

  function NewAccessClaims(env: Env, user: Id, client: Client, scope: set<string>, authTime: Time, jti: Id,
                           now: Time): AccessClaims {
    AccessClaims(env.issuer, user, env.issuer, Timestamp(now + ACCESS_TOKEN_TTL), Timestamp(now), jti,
                 client.clientId, Scope.Print(scope), Timestamp(authTime))
  }

  /** `AccessTokenClaims::scopes`: the empty set if the claim does not parse. */
  ghost function ClaimedScopes(claims: AccessClaims): set<string> {
    match Scope.Parsed(claims.scope) case Ok(s) => s case Err(_) => {}
  }

  /** `signed_tokens`, once signing has succeeded. The ID token exists exactly for `openid`. */
  function SignedTokens(env: Env, client: Client, user: Id, scope: set<string>, authTime: Time, nonce: Option<string>,
                        jti: Id, now: Time)
    : TokenResponse
  {
    TokenResponse(
      NewAccessClaims(env, user, client, scope, authTime, jti, now),
      "Bearer",
      WholeSeconds(ACCESS_TOKEN_TTL),
      Scope.Print(scope),
      None,
      if Scope.OPENID in scope then
        Some(IdClaims(env.issuer, user, client.clientId, Timestamp(now + ACCESS_TOKEN_TTL), Timestamp(now),
                      Timestamp(authTime), nonce))
      else None)
  }

  // ------------------------------------------------------------- refresh tokens

  datatype Unusable = WrongClient | Revoked | AlreadyRotated | Expired

  /** `RefreshToken::check_usable`; None means the token may be used. */
  function CheckUsable(row: RefreshToken, client: Id, now: Time): Option<Unusable> {
    if row.clientId != client then Some(WrongClient)
    else if row.revokedAt.Some? then Some(Revoked)
    else if row.rotatedTo.Some? then Some(AlreadyRotated)
    else if row.expiresAt <= now then Some(Expired)
    else None
  }

  /** The row `refresh::issue` stores. */
  function NewRow(env: Env, family: Id, codeId: Option<Id>, client: Id, user: Id, scope: string, authTime: Time,
                  drawn: Fresh, now: Time)
    : RefreshToken
  {
    RefreshToken(drawn.rowId, HashToken(env.sha256, drawn.secret), family, codeId, client, user, scope, authTime,
                 now + REFRESH_TOKEN_TTL, now, None, None)
  }

  // ------------------------------------------------------------- authorization_code

  /** `check_code_bindings`: None when the request matches what the code was issued for. */
  function BindingError(env: Env, code: Code, client: Client, redirectUri: string, verifier: string,
                        now: Time): Option<AppError> {
    if code.clientId != client.id then Some(InvalidGrant("authorization code was issued to another client"))
    else if code.expiresAt <= now then Some(InvalidGrant("authorization code has expired"))
    else if code.redirectUri != redirectUri then
      Some(InvalidGrant("redirect_uri does not match the authorization request"))
    else if code.codeChallengeMethod != Pkce.S256 || !Pkce.VerifyS256(env.sha256, verifier, code.codeChallenge) then
      Some(InvalidGrant("code_verifier does not match code_challenge"))
    else None
  }

  type TokenOutcome = Outcome<Result<TokenResponse, AppError>>

  /** `exchange_authorization_code`. `signs` is whether signing the JWTs succeeds. */
  ghost function ExchangeCode(env: Env, t: Tables, client: Client, params: map<string, string>, drawn: Fresh,
                              signs: bool, now: Time)
    : TokenOutcome
  {
    var code, uri, verifier :=
        Params.Get(params, "code"), Params.Get(params, "redirect_uri"), Params.Get(params, "code_verifier");
    if code.None? then Outcome(t, Err(InvalidRequest("code is required")), [])
    else if uri.None? then Outcome(t, Err(InvalidRequest("redirect_uri is required")), [])
    else if verifier.None? then Outcome(t, Err(InvalidRequest("code_verifier is required (PKCE)")), [])
    else RedeemCode(env, t, client, HashToken(env.sha256, code.value), uri.value, verifier.value, drawn, signs, now)
  }

  ghost function RedeemCode(env: Env, t: Tables, client: Client, hash: string, uri: string, verifier: string,
                            drawn: Fresh, signs: bool, now: Time)
    : TokenOutcome
  {
    var (claimed, record) := ClaimCode(t, hash, now);
    if record.None? then
      var used := CodeByHash(t, hash);
      if used.None? then Outcome(t, Err(InvalidGrant("authorization code is invalid")), [])
      else
        Outcome(RevokeFamilies(t, FamiliesOfCode(t, used.value.id), now),
                Err(InvalidGrant("authorization code has already been used")), [])
    else
      var mismatch := BindingError(env, record.value, client, uri, verifier, now);
      if mismatch.Some? then Outcome(claimed, Err(mismatch.value), [])
      else
        // An internal error drops the transaction, so even the claim is rolled back.
        match Scope.Parsed(record.value.scope)
        case Err(_) => Outcome(t, Err(Internal), [])
        case Ok(scope) =>
          if !signs then Outcome(t, Err(Internal), [])
          else
            var response := SignedTokens(env, client, record.value.userId, scope, record.value.authTime,
                                         record.value.nonce, drawn.jti, now);
            var issued := TokensIssued(record.value.userId, client.id, scope, response.access);
            if Scope.OFFLINE_ACCESS !in scope then Outcome(claimed, Ok(response), [issued])
            else
              var row := NewRow(env, drawn.familyId, Some(record.value.id), client.id, record.value.userId,
                                record.value.scope, record.value.authTime, drawn, now);
              match InsertToken(claimed, row)
              case Err(_) => Outcome(t, Err(Internal), [])
              case Ok(t') =>
                Outcome(t', Ok(response.(refreshToken := Some(drawn.secret))),
                        [RefreshIssued(row.id, row.familyId), issued])
  }

  // ------------------------------------------------------------- refresh_token

  /** `exchange_refresh_token`. */
  ghost function ExchangeRefresh(env: Env, t: Tables, client: Client, params: map<string, string>, drawn: Fresh,
                                 signs: bool, now: Time)
    : TokenOutcome
  {
    var raw, scopeParam := Params.Get(params, "refresh_token"), Params.Get(params, "scope");
    if raw.None? then Outcome(t, Err(InvalidRequest("refresh_token is required")), [])
    else if scopeParam.None? then
      Rotate(env, t, client, HashToken(env.sha256, raw.value), None, drawn, signs, now)
    else
      match Scope.Parsed(scopeParam.value)
      case Err(_) => Outcome(t, Err(InvalidScope("scope is malformed")), [])
      case Ok(requested) =>
        Rotate(env, t, client, HashToken(env.sha256, raw.value), Some(requested), drawn, signs, now)
  }

  ghost function Rotate(env: Env, t: Tables, client: Client, hash: string, requested: Option<set<string>>, drawn: Fresh,
                        signs: bool, now: Time)
    : TokenOutcome
  {
    match TokenByHash(t, hash)
    case None => Outcome(t, Err(InvalidGrant("refresh token is invalid")), [])
    case Some(record) =>
      match CheckUsable(record, client.id, now)
      case Some(AlreadyRotated) =>
        Outcome(RevokeFamilies(t, {record.familyId}, now), Err(InvalidGrant("refresh token has already been used")), [])
      // The answer does not reveal that the token exists for another client.
      case Some(WrongClient) => Outcome(t, Err(InvalidGrant("refresh token is invalid")), [])
      case Some(Revoked) => Outcome(t, Err(InvalidGrant("refresh token has been revoked")), [])
      case Some(Expired) => Outcome(t, Err(InvalidGrant("refresh token has expired")), [])
      case None => RotateUsable(env, t, client, record, requested, drawn, signs, now)
  }

  ghost function RotateUsable(env: Env, t: Tables, client: Client, record: RefreshToken, requested: Option<set<string>>,
                              drawn: Fresh, signs: bool, now: Time)
    : TokenOutcome
  {
    match Scope.Parsed(record.scope)
    case Err(_) => Outcome(t, Err(Internal), [])
    case Ok(granted) =>
      if requested.Some? && !(requested.value <= granted) then
        Outcome(t, Err(InvalidScope("requested scope exceeds the original grant")), [])
      else if !signs then Outcome(t, Err(Internal), [])
      else
        var scope := if requested.Some? then requested.value else granted;
        var response := SignedTokens(env, client, record.userId, scope, record.authTime, None, drawn.jti, now);
        // The successor keeps the original scope, so a narrowed request does not shrink the grant.
        var row := NewRow(env, record.familyId, record.codeId, client.id, record.userId, record.scope, record.authTime,
                          drawn, now);
        match InsertToken(t, row)
        case Err(_) => Outcome(t, Err(Internal), [])
        case Ok(t1) =>
          match MarkRotated(t1, record.id, row.id)
          case Err(_) => Outcome(t, Err(Internal), [])
          case Ok(t2) =>
            Outcome(t2, Ok(response.(refreshToken := Some(drawn.secret))),
                    [RefreshIssued(row.id, row.familyId),
                     TokensIssued(record.userId, client.id, scope, response.access)])
  }

  // ------------------------------------------------------------- handle

  datatype GrantType = AuthorizationCodeGrant | RefreshTokenGrant

  function ParseGrantType(raw: Option<string>): Result<GrantType, AppError> {
    if raw == Some("authorization_code") then Ok(AuthorizationCodeGrant)
    else if raw == Some("refresh_token") then Ok(RefreshTokenGrant)
    else if raw.Some? then Err(UnsupportedGrantType)
    else Err(InvalidRequest("grant_type is required"))
  }

  /** Credentials in the request, checked against the registry. */
  ghost function AuthenticatedClient(env: Env, t: Tables, header: BasicHeader, params: map<string,
                                     string>): Result<Client, AppError> {
    match ExtractCredentials(header, params)
    case Err(TwoMethods) => Err(InvalidRequest("use only one client authentication method"))
    case Err(BadClient) => Err(InvalidClient)
    case Ok(credentials) =>
      match Authenticate(env, t, credentials)
      case None => Err(InvalidClient)
      case Some(client) => Ok(client)
  }

  /** `token::handle`. */
  ghost function HandleToken(env: Env, t: Tables, header: BasicHeader, pairs: Params.Pairs, drawn: Fresh, signs: bool,
                             now: Time): TokenOutcome {
    match Params.Collected(pairs)
    case Err(_) => Outcome(t, Err(InvalidRequest("parameters must not be repeated")), [])
    case Ok(params) =>
      match ParseGrantType(Params.Get(params, "grant_type"))
      case Err(e) => Outcome(t, Err(e), [])
      case Ok(grant) =>
        match AuthenticatedClient(env, t, header, params)
        case Err(e) => Outcome(t, Err(e), [])
        case Ok(client) =>
          if grant.AuthorizationCodeGrant? then ExchangeCode(env, t, client, params, drawn, signs, now)
          else ExchangeRefresh(env, t, client, params, drawn, signs, now)
  }

  /** `revocation::handle`. */
  ghost function HandleRevocation(env: Env, t: Tables, header: BasicHeader, pairs: Params.Pairs,
                                  now: Time): Outcome<Result<(), AppError>> {
    match Params.Collected(pairs)
    case Err(_) => Outcome(t, Err(InvalidRequest("parameters must not be repeated")), [])
    case Ok(params) =>
      match AuthenticatedClient(env, t, header, params)
      case Err(e) => Outcome(t, Err(e), [])
      case Ok(client) =>
        var token := Params.Get(params, "token");
        if token.None? then Outcome(t, Err(InvalidRequest("token is required")), [])
        else
          match TokenByHash(t, HashToken(env.sha256, token.value))
          case None => Outcome(t, Ok(()), [])
          case Some(record) =>
            if record.clientId != client.id then
              Outcome(t, Err(UnauthorizedClient("the token was not issued to this client")), [])
            else Outcome(RevokeFamilies(t, {record.familyId}, now), Ok(()), [])
  }
}
