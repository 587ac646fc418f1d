/**
 * The endpoints as the server runs them: statement by statement on a connection, inside
 * transactions where the source uses them. Each is proved to do what its function says.
 */
module Server {
  import opened Wrappers
  import opened Text
  import opened Secret
  import opened Schema
  import opened Database
  import opened Events
  import opened AuthorizationRequests
  import Pkce
  import Scope
  import Params
  import Statements
  import C = Clients
  import A = Authorization
  import T = TokenEndpoint

  // ------------------------------------------------------------- client registry

  method Authenticate(env: Env, db: Connection, c: C.Credentials) returns (client: Option<Client>)
    requires Constraints(db.tables)
    ensures client == C.Authenticate(env, db.tables, c)
  {
    var found := db.FindClient(c.clientId);
    if found.None? || !found.value.IsActive() {
      return None;
    }
    if c.secret.Some? {
      var stored := found.value.secretHash;
      return if stored.Some? && stored.value == HashToken(env.sha256, c.secret.value) then found else None;
    }
    return if found.value.IsConfidential() then None else found;
  }

  method Register(env: Env, db: Connection, request: C.NewClient, drawn: C.ClientFresh, now: Time)
    returns (r: C.RegistryResponse)
    modifies db
    ensures (db.tables, r) == C.Register(env, old(db.tables), request, drawn, now)
  {
    var checked := C.ValidateDetails(env, request.details);
    if checked.Err? {
      return C.Refused(checked.error);
    }
    var row := C.ClientRow(env, checked.value, request, drawn, now);
    var inserted := db.InsertClient(row);
    if inserted.Err? {
      return C.Refused(C.Database);
    }
    return C.Registered(row, if request.confidential then Some(drawn.secret) else None);
  }

  method CreateApp(env: Env, db: Connection, owner: Id, details: C.ClientDetails, confidential: bool,
                   drawn: C.ClientFresh, now: Time)
    returns (r: C.RegistryResponse)
    modifies db
    ensures (db.tables, r) == C.CreateApp(env, old(db.tables), owner, details, confidential, drawn, now)
  {
    var owned := Statements.ClientsOwnedBy(db.tables, owner);
    if |owned| >= C.MAX_APPS_PER_USER {
      return C.LimitReached;
    }
    r := Register(env, db, C.NewClient(details, confidential, Some(owner)), drawn, now);
  }

  method FindOwned(db: Connection, owner: Id, clientId: string) returns (app: Option<Client>)
    requires Constraints(db.tables)
    ensures app == Statements.OwnedClient(db.tables, owner, clientId)
  {
    var found := db.FindClient(clientId);
    return if found.Some? && found.value.owner == Some(owner) then found else None;
  }

  method UpdateApp(env: Env, db: Connection, owner: Id, clientId: string, details: C.ClientDetails, now: Time)
    returns (r: C.RegistryResponse)
    requires Constraints(db.tables)
    modifies db
    ensures (db.tables, r) == C.UpdateApp(env, old(db.tables), owner, clientId, details, now)
  {
    var app := FindOwned(db, owner, clientId);
    if app.None? {
      return C.NotFound;
    }
    var checked := C.ValidateDetails(env, details);
    if checked.Err? {
      return C.Refused(checked.error);
    }
    db.UpdateClientDetails(app.value.id, checked.value.name, checked.value.redirectUris,
                           Sorted(checked.value.scopes), now);
    return C.Saved;
  }

  method RotateSecret(env: Env, db: Connection, owner: Id, clientId: string, secret: string, now: Time)
    returns (r: C.RegistryResponse)
    requires Constraints(db.tables)
    modifies db
    ensures (db.tables, r) == C.RotateSecret(env, old(db.tables), owner, clientId, secret, now)
  {
    var app := FindOwned(db, owner, clientId);
    if app.None? {
      return C.NotFound;
    }
    if !app.value.IsConfidential() {
      return C.NewSecret(None);
    }
    db.UpdateClientSecret(app.value.id, HashToken(env.sha256, secret), now);
    return C.NewSecret(Some(secret));
  }

  method DeleteApp(db: Connection, owner: Id, clientId: string, confirmed: bool) returns (r: C.RegistryResponse)
    requires Constraints(db.tables)
    modifies db
    ensures (db.tables, r) == C.DeleteApp(old(db.tables), owner, clientId, confirmed)
  {
    var app := FindOwned(db, owner, clientId);
    if app.None? {
      return C.NotFound;
    }
    if !confirmed {
      return C.NotConfirmed;
    }
    var deleted := db.DeleteClient(app.value.id);
    return if deleted.Ok? then C.Deleted else C.Refused(C.Database);
  }

  // ------------------------------------------------------------- consent and codes

  method Grant(db: Connection, user: Id, client: Id, scopes: set<string>, now: Time) returns (r: Result<(), DbErr>)
    modifies db
    ensures match A.GrantConsent(old(db.tables), user, client, scopes, now)
            case Ok(t) => r == Ok(()) && db.tables == t
            case Err(e) => r == Err(e) && db.tables == old(db.tables)
  {
    var all := scopes;
    var existing := Statements.ActiveConsent(db.tables, user, client);
    if existing.Some? {
      all := (set s | s in existing.value) + scopes;
    }
    r := db.UpsertConsent(user, client, Sorted(all), now);
  }

  method IssueCode(env: Env, db: Connection, v: A.ValidatedRequest, session: A.Session, drawn: Fresh, now: Time)
    returns (r: Result<A.Redirection, A.AuthorizationError>, ghost events: seq<Event>)
    modifies db
    ensures Outcome(db.tables, r, events) == A.IssueCode(env, old(db.tables), v, session, drawn, now)
  {
    events := [];
    var inserted := db.InsertCode(A.CodeRow(env, v, session, drawn, now));
    if inserted.Err? {
      return Err(A.Internal), events;
    }
    events := [CodeIssued(session.user, v.client.id, v.scope, v.client.AllowedScopes())];
    if env.parseUrl(v.redirectUri).None? {
      return Err(A.Internal), events;
    }
    return Ok(A.Redirection(v.redirectUri, drawn.secret, v.state, env.issuer)), events;
  }

  method Validate(env: Env, db: Connection, r: AuthorizationRequest)
    returns (v: Result<A.ValidatedRequest, A.AuthorizationError>)
    requires Constraints(db.tables)
    ensures v == A.Validate(env, db.tables, r)
  {
    if r.clientId.None? { return Err(A.Unsafe("The request is missing the client_id parameter.")); }
    var found := db.FindClient(r.clientId.value);
    if found.None? || !found.value.IsActive() {
      return Err(A.Unsafe("The application making this request is not registered with Sharpnr."));
    }
    if r.redirectUri.None? { return Err(A.Unsafe("The request is missing the redirect_uri parameter.")); }
    if !found.value.HasRedirectUri(r.redirectUri.value) {
      return Err(A.Unsafe("The redirect_uri does not match any URI registered for this application."));
    }
    v := ValidateProtocol(found.value, r.redirectUri.value, r);
  }

  method ValidateProtocol(client: Client, uri: string, r: AuthorizationRequest)
    returns (v: Result<A.ValidatedRequest, A.AuthorizationError>)
    ensures v == A.ValidateProtocol(client, uri, r)
  {
    if r.hasRequestObject {
      return Err(A.Redirect(uri, r.state, "request_not_supported", "request objects are not supported"));
    }
    if r.hasRequestUri {
      return Err(A.Redirect(uri, r.state, "request_uri_not_supported", "request_uri is not supported"));
    }
    if r.responseType.None? { return Err(A.Redirect(uri, r.state, "invalid_request", "response_type is required")); }
    if r.responseType.value != "code" {
      return Err(A.Redirect(uri, r.state, "unsupported_response_type", "only response_type=code is supported"));
    }
    if r.responseMode.Some? && r.responseMode.value != "query" {
      return Err(A.Redirect(uri, r.state, "invalid_request", "only response_mode=query is supported"));
    }
    if r.state.None? { return Err(A.Redirect(uri, r.state, "invalid_request", "state is required")); }
    if Utf8Len(r.state.value) > A.MAX_STATE_LEN {
      return Err(A.Redirect(uri, r.state, "invalid_request", "state is too long"));
    }
    if r.scope.None? { return Err(A.Redirect(uri, r.state, "invalid_scope", "scope is required")); }
    var scope := Scope.Parse(r.scope.value);
    if scope.Err? { return Err(A.Redirect(uri, r.state, "invalid_scope", "scope is malformed")); }
    if !(scope.value <= client.AllowedScopes()) {
      return Err(A.Redirect(uri, r.state, "invalid_scope",
                            "the client is not allowed to request one or more of these scopes"));
    }
    if r.codeChallenge.None? {
      return Err(A.Redirect(uri, r.state, "invalid_request", "code_challenge is required (PKCE)"));
    }
    if r.codeChallengeMethod != Some(Pkce.S256) {
      return Err(A.Redirect(uri, r.state, "invalid_request", "code_challenge_method must be S256"));
    }
    if !Pkce.IsValidS256Challenge(r.codeChallenge.value) {
      return Err(A.Redirect(uri, r.state, "invalid_request", "code_challenge is malformed"));
    }
    if r.nonce.Some? && Utf8Len(r.nonce.value) > A.MAX_NONCE_LEN {
      return Err(A.Redirect(uri, r.state, "invalid_request", "nonce is too long"));
    }
    var prompt := ParsePrompt(r.prompt);
    if prompt.None? { return Err(A.Redirect(uri, r.state, "invalid_request", "prompt is invalid")); }
    var maxAge: Option<int> := None;
    if r.maxAge.Some? {
      maxAge := ParseU32(r.maxAge.value);
      if maxAge.None? {
        return Err(A.Redirect(uri, r.state, "invalid_request", "max_age must be a non-negative integer"));
      }
    }
    return Ok(A.ValidatedRequest(client, uri, scope.value, r.state.value, r.codeChallenge.value, r.nonce,
                                 prompt.value, maxAge));
  }

  method Decide(env: Env, db: Connection, request: AuthorizationRequest, session: Option<A.Session>, drawn: Fresh,
                now: Time)
    returns (r: Result<A.NextStep, A.AuthorizationError>, ghost events: seq<Event>)
    requires Constraints(db.tables)
    modifies db
    ensures Outcome(db.tables, r, events) == A.Decide(env, old(db.tables), request, session, drawn, now)
  {
    events := [];
    var validated := Validate(env, db, request);
    if validated.Err? { return Err(validated.error), events; }
    var v := validated.value;
    if session.None? || A.NeedsReauthentication(v, session.value, now) {
      if v.prompt.none { return Err(A.ErrorFor(v, "login_required", "the user is not signed in")), events; }
      return Ok(A.SignIn(WithoutReauthentication(request))), events;
    }
    if A.AlreadyApproved(db.tables, session.value.user, v) && !v.prompt.consent {
      var issued;
      issued, events := IssueCode(env, db, v, session.value, drawn, now);
      if issued.Err? { return Err(issued.error), events; }
      return Ok(A.RedirectToClient(issued.value)), events;
    }
    if v.prompt.none {
      return Err(A.ErrorFor(v, "consent_required", "the user has not approved these scopes")), events;
    }
    return Ok(A.AskConsent(v)), events;
  }

  method CompleteConsent(env: Env, db: Connection, request: AuthorizationRequest, approved: bool, session: A.Session,
                         drawn: Fresh, now: Time)
    returns (r: Result<A.Redirection, A.AuthorizationError>, ghost events: seq<Event>)
    requires Constraints(db.tables)
    modifies db
    ensures Outcome(db.tables, r, events)
              == A.CompleteConsent(env, old(db.tables), request, approved, session, drawn, now)
  {
    events := [];
    var validated := Validate(env, db, request);
    if validated.Err? { return Err(validated.error), events; }
    var v := validated.value;
    if !approved { return Err(A.ErrorFor(v, "access_denied", "the user denied the request")), events; }
    var granted := Grant(db, session.user, v.client.id, v.scope, now);
    if granted.Err? { return Err(A.Internal), events; }
    r, events := IssueCode(env, db, v, session, drawn, now);
    events := [Approved(session.user, v.client.id, v.scope)] + events;
  }

  // ------------------------------------------------------------- token endpoint

  method ExchangeCode(env: Env, db: Connection, client: Client, params: map<string, string>, drawn: Fresh, signs: bool,
                      now: Time)
    returns (r: Result<T.TokenResponse, T.AppError>, ghost events: seq<Event>)
    requires Constraints(db.tables)
    modifies db
    ensures Outcome(db.tables, r, events) == T.ExchangeCode(env, old(db.tables), client, params, drawn, signs, now)
  {
    hide Scope.Parsed, T.BindingError, T.NewRow, T.SignedTokens, TokenKeys, CodeKeys, ConsentKeys, ClientKeys;
    events := [];
    var code := Params.Get(params, "code");
    if code.None? { return Err(T.InvalidRequest("code is required")), events; }
    var uri := Params.Get(params, "redirect_uri");
    if uri.None? { return Err(T.InvalidRequest("redirect_uri is required")), events; }
    var verifier := Params.Get(params, "code_verifier");
    if verifier.None? { return Err(T.InvalidRequest("code_verifier is required (PKCE)")), events; }

    var hash := HashToken(env.sha256, code.value);
    var tx := db.Begin();
    var record := tx.ClaimCode(hash, now);
    if record.None? {
      var used := tx.FindCode(hash);
      if used.Some? {
        var revoked := tx.RevokeByCode(used.value.id, now);
        db.Commit(tx);
        return Err(T.InvalidGrant("authorization code has already been used")), events;
      }
      return Err(T.InvalidGrant("authorization code is invalid")), events;
    }

    var mismatch := T.BindingError(env, record.value, client, uri.value, verifier.value, now);
    if mismatch.Some? {
      db.Commit(tx);
      return Err(mismatch.value), events;
    }

    var scope := Scope.Parse(record.value.scope);
    if scope.Err? || !signs {
      return Err(T.Internal), events;
    }
    var response := T.SignedTokens(env, client, record.value.userId, scope.value, record.value.authTime,
                                   record.value.nonce, drawn.jti, now);
    events := [TokensIssued(record.value.userId, client.id, scope.value, response.access)];
    if Scope.OFFLINE_ACCESS in scope.value {
      var row := T.NewRow(env, drawn.familyId, Some(record.value.id), client.id, record.value.userId,
                          record.value.scope, record.value.authTime, drawn, now);
      var inserted := tx.InsertToken(row);
      if inserted.Err? {
        return Err(T.Internal), [];
      }
      response := response.(refreshToken := Some(drawn.secret));
      events := [RefreshIssued(row.id, row.familyId)] + events;
    }
    db.Commit(tx);
    return Ok(response), events;
  }

  method ExchangeRefresh(env: Env, db: Connection, client: Client, params: map<string, string>, drawn: Fresh,
                         signs: bool, now: Time)
    returns (r: Result<T.TokenResponse, T.AppError>, ghost events: seq<Event>)
    requires Constraints(db.tables)
    modifies db
    ensures Outcome(db.tables, r, events) == T.ExchangeRefresh(env, old(db.tables), client, params, drawn, signs, now)
  {
    events := [];
    var raw := Params.Get(params, "refresh_token");
    if raw.None? { return Err(T.InvalidRequest("refresh_token is required")), events; }
    var requested: Option<set<string>> := None;
    var scopeParam := Params.Get(params, "scope");
    if scopeParam.Some? {
      var parsed := Scope.Parse(scopeParam.value);
      if parsed.Err? { return Err(T.InvalidScope("scope is malformed")), events; }
      requested := Some(parsed.value);
    }

    var tx := db.Begin();
    var found := tx.FindToken(HashToken(env.sha256, raw.value));
    if found.None? { return Err(T.InvalidGrant("refresh token is invalid")), events; }
    var record := found.value;
    match T.CheckUsable(record, client.id, now) {
      case None =>
      case Some(AlreadyRotated) =>
        var revoked := tx.RevokeFamilies({record.familyId}, now);
        db.Commit(tx);
        return Err(T.InvalidGrant("refresh token has already been used")), events;
      case Some(WrongClient) => return Err(T.InvalidGrant("refresh token is invalid")), events;
      case Some(Revoked) => return Err(T.InvalidGrant("refresh token has been revoked")), events;
      case Some(Expired) => return Err(T.InvalidGrant("refresh token has expired")), events;
    }

    var granted := Scope.Parse(record.scope);
    if granted.Err? { return Err(T.Internal), events; }
    var scope := granted.value;
    if requested.Some? {
      if !(requested.value <= granted.value) {
        return Err(T.InvalidScope("requested scope exceeds the original grant")), events;
      }
      scope := requested.value;
    }
    if !signs { return Err(T.Internal), events; }
    var response := T.SignedTokens(env, client, record.userId, scope, record.authTime, None, drawn.jti, now);

    var row := T.NewRow(env, record.familyId, record.codeId, client.id, record.userId, record.scope, record.authTime,
                        drawn, now);
    var inserted := tx.InsertToken(row);
    if inserted.Err? { return Err(T.Internal), events; }
    var marked := tx.MarkRotated(record.id, row.id);
    if marked.Err? { return Err(T.Internal), events; }
    db.Commit(tx);
    events := [RefreshIssued(row.id, row.familyId), TokensIssued(record.userId, client.id, scope, response.access)];
    return Ok(response.(refreshToken := Some(drawn.secret))), events;
  }

  method AuthenticatedClient(env: Env, db: Connection, header: C.BasicHeader, params: map<string, string>)
    returns (r: Result<Client, T.AppError>)
    requires Constraints(db.tables)
    ensures r == T.AuthenticatedClient(env, db.tables, header, params)
  {
    var credentials := C.ExtractCredentials(header, params);
    if credentials.Err? {
      return Err(if credentials.error.TwoMethods? then T.InvalidRequest("use only one client authentication method")
                 else T.InvalidClient);
    }
    var client := Authenticate(env, db, credentials.value);
    return if client.None? then Err(T.InvalidClient) else Ok(client.value);
  }

  /** `POST /oauth/token`. */
  method HandleToken(env: Env, db: Connection, header: C.BasicHeader, pairs: Params.Pairs, drawn: Fresh, signs: bool,
                     now: Time)
    returns (r: Result<T.TokenResponse, T.AppError>, ghost events: seq<Event>)
    requires Constraints(db.tables)
    modifies db
    ensures Outcome(db.tables, r, events) == T.HandleToken(env, old(db.tables), header, pairs, drawn, signs, now)
  {
    var params := Params.FromPairs(pairs);
    if params.Err? { return Err(T.InvalidRequest("parameters must not be repeated")), []; }
    var grant := T.ParseGrantType(Params.Get(params.value, "grant_type"));
    if grant.Err? { return Err(grant.error), []; }
    var client := AuthenticatedClient(env, db, header, params.value);
    if client.Err? { return Err(client.error), []; }
    if grant.value.AuthorizationCodeGrant? {
      r, events := ExchangeCode(env, db, client.value, params.value, drawn, signs, now);
    } else {
      r, events := ExchangeRefresh(env, db, client.value, params.value, drawn, signs, now);
    }
  }

  /** `POST /oauth/revoke`: no transaction, one statement. */
  method HandleRevocation(env: Env, db: Connection, header: C.BasicHeader, pairs: Params.Pairs, now: Time)
    returns (r: Result<(), T.AppError>)
    requires Constraints(db.tables)
    modifies db
    ensures Outcome(db.tables, r, []) == T.HandleRevocation(env, old(db.tables), header, pairs, now)
  {
    var params := Params.FromPairs(pairs);
    if params.Err? { return Err(T.InvalidRequest("parameters must not be repeated")); }
    var client := AuthenticatedClient(env, db, header, params.value);
    if client.Err? { return Err(client.error); }
    var token := Params.Get(params.value, "token");
    if token.None? { return Err(T.InvalidRequest("token is required")); }
    var found := db.FindToken(HashToken(env.sha256, token.value));
    if found.None? { return Ok(()); }
    if found.value.clientId != client.value.id {
      return Err(T.UnauthorizedClient("the token was not issued to this client"));
    }
    var revoked := db.RevokeFamilies({found.value.familyId}, now);
    return Ok(());
  }
}
