/** The authorization endpoint: `oauth/services/authorization.rs` and `consent.rs`. */
module Authorization {
  import opened Wrappers
  import opened Text
  import opened Secret
  import opened Schema
  import opened Statements
  import opened Events
  import opened AuthorizationRequests
  import Pkce
  import Scope
  import Params

  const AUTHORIZATION_CODE_TTL: Time := 60 * SECOND
  const MAX_NONCE_LEN := 512
  const MAX_STATE_LEN := 2048

  datatype Session = Session(user: Id, createdAt: Time)

  datatype ValidatedRequest = ValidatedRequest(
    client: Client,
    redirectUri: string,
    scope: set<string>,
    state: string,
    codeChallenge: string,
    nonce: Option<string>,
    prompt: Prompt,
    maxAge: Option<int>)

  /** Shown to the user, or reported to the client by redirect. */
  datatype AuthorizationError =
    | Unsafe(message: string)
    | Redirect(redirectUri: string, state: Option<string>, error: string, description: string)
    | Internal

  // ------------------------------------------------------------- validate

  /** `validate`: first whether we may redirect at all, then everything else. */
  ghost function Validate(env: Env, t: Tables, r: AuthorizationRequest): Result<ValidatedRequest, AuthorizationError> {
    if r.clientId.None? then Err(Unsafe("The request is missing the client_id parameter."))
    else
      var client := ClientByName(t, r.clientId.value);
      if client.None? || !client.value.IsActive() then
        Err(Unsafe("The application making this request is not registered with Sharpnr."))
      else if r.redirectUri.None? then Err(Unsafe("The request is missing the redirect_uri parameter."))
      else if !client.value.HasRedirectUri(r.redirectUri.value) then
        Err(Unsafe("The redirect_uri does not match any URI registered for this application."))
      else ValidateProtocol(client.value, r.redirectUri.value, r)
  }

  ghost function ValidateProtocol(client: Client, uri: string, r: AuthorizationRequest)
    : Result<ValidatedRequest, AuthorizationError>
  {
    if r.hasRequestObject then
      Err(Redirect(uri, r.state, "request_not_supported", "request objects are not supported"))
    else if r.hasRequestUri then
      Err(Redirect(uri, r.state, "request_uri_not_supported", "request_uri is not supported"))
    else if r.responseType.None? then
      Err(Redirect(uri, r.state, "invalid_request", "response_type is required"))
    else if r.responseType.value != "code" then
      Err(Redirect(uri, r.state, "unsupported_response_type", "only response_type=code is supported"))
    else if r.responseMode.Some? && r.responseMode.value != "query" then
      Err(Redirect(uri, r.state, "invalid_request", "only response_mode=query is supported"))
    else if r.state.None? then
      Err(Redirect(uri, r.state, "invalid_request", "state is required"))
    else if Utf8Len(r.state.value) > MAX_STATE_LEN then
      Err(Redirect(uri, r.state, "invalid_request", "state is too long"))
    else if r.scope.None? then
      Err(Redirect(uri, r.state, "invalid_scope", "scope is required"))
    else
      var scope := Scope.Parsed(r.scope.value);
      if scope.Err? then
        Err(Redirect(uri, r.state, "invalid_scope", "scope is malformed"))
      else if !(scope.value <= client.AllowedScopes()) then
        Err(Redirect(uri, r.state, "invalid_scope", "the client is not allowed to request one or more of these scopes"))
      else if r.codeChallenge.None? then
        Err(Redirect(uri, r.state, "invalid_request", "code_challenge is required (PKCE)"))
      else if r.codeChallengeMethod != Some(Pkce.S256) then
        Err(Redirect(uri, r.state, "invalid_request", "code_challenge_method must be S256"))
      else if !Pkce.IsValidS256Challenge(r.codeChallenge.value) then
        Err(Redirect(uri, r.state, "invalid_request", "code_challenge is malformed"))
      else if r.nonce.Some? && Utf8Len(r.nonce.value) > MAX_NONCE_LEN then
        Err(Redirect(uri, r.state, "invalid_request", "nonce is too long"))
      else
        var prompt := ParsedPrompt(r.prompt);
        var maxAge := if r.maxAge.Some? then ParseU32(r.maxAge.value) else None;
        if prompt.None? then
          Err(Redirect(uri, r.state, "invalid_request", "prompt is invalid"))
        else if r.maxAge.Some? && maxAge.None? then
          Err(Redirect(uri, r.state, "invalid_request", "max_age must be a non-negative integer"))
        else
          Ok(ValidatedRequest(client, uri, scope.value, r.state.value, r.codeChallenge.value, r.nonce,
                              prompt.value, maxAge))
  }

  function ErrorFor(v: ValidatedRequest, error: string, description: string): AuthorizationError {
    Redirect(v.redirectUri, Some(v.state), error, description)
  }

  lemma ProtocolRedirects(client: Client, uri: string, r: AuthorizationRequest)
    ensures match ValidateProtocol(client, uri, r)
            case Ok(v) => v.client == client && v.redirectUri == uri && v.scope <= client.AllowedScopes()
            case Err(Redirect(to, _, _, _)) => to == uri
            case Err(_) => false
  {
    hide ParsedPrompt, Scope.Parsed, ParseU32, Utf8Len, Pkce.IsValidS256Challenge;
  }

  /**
   * No open redirector: the browser is only ever sent to a URI registered for the active client
   * that the request names, in success and in failure alike (section 4.1.2.1 of RFC 6749).
   */
  lemma RedirectsOnlyToRegistered(env: Env, t: Tables, r: AuthorizationRequest)
    ensures match Validate(env, t, r)
            case Ok(v) =>
              && r.clientId.Some? && ClientByName(t, r.clientId.value) == Some(v.client) && v.client.IsActive()
              && v.redirectUri in v.client.redirectUris && v.scope <= v.client.AllowedScopes()
            case Err(Redirect(uri, _, _, _)) =>
              && r.clientId.Some? && ClientByName(t, r.clientId.value).Some?
              && ClientByName(t, r.clientId.value).value.IsActive()
              && uri in ClientByName(t, r.clientId.value).value.redirectUris
            case Err(_) => true
  {
    hide ValidateProtocol;
    if r.clientId.Some? && r.redirectUri.Some? && ClientByName(t, r.clientId.value).Some? {
      ProtocolRedirects(ClientByName(t, r.clientId.value).value, r.redirectUri.value, r);
    }
  }

  /** Dropping the re-authentication demands changes nothing else about a valid request. */
  lemma ValidateWithoutReauthentication(env: Env, t: Tables, r: AuthorizationRequest)
    requires Validate(env, t, r).Ok?
    ensures var v := Validate(env, t, r).value;
            Validate(env, t, WithoutReauthentication(r))
            == Ok(v.(prompt := v.prompt.(login := false), maxAge := None))
  {
    var client := ClientByName(t, r.clientId.value).value;
    ProtocolWithoutReauthentication(client, r.redirectUri.value, r);
    hide ValidateProtocol;
  }

  lemma ProtocolWithoutReauthentication(client: Client, uri: string, r: AuthorizationRequest)
    requires ValidateProtocol(client, uri, r).Ok?
    ensures var v := ValidateProtocol(client, uri, r).value;
            ValidateProtocol(client, uri, WithoutReauthentication(r))
              == Ok(v.(prompt := v.prompt.(login := false), maxAge := None))
  {
    hide Scope.Parsed, ParseU32, Utf8Len, Pkce.IsValidS256Challenge, WithoutLogin, ParsedPrompt;
    PromptWithoutLogin(r.prompt);
  }

  // ------------------------------------------------------------- consent

  /** `consent::grant`: adds to anything approved earlier. */
  function GrantConsent(t: Tables, user: Id, client: Id, scopes: set<string>, now: Time): Result<Tables, DbErr> {
    var existing := ActiveConsent(t, user, client);
    var all := if existing.Some? then (set s | s in existing.value) + scopes else scopes;
    UpsertConsent(t, user, client, Sorted(all), now)
  }

  // ------------------------------------------------------------- issue_code

  /** The redirect back to the client with a code. */
  datatype Redirection = Redirection(uri: string, code: string, state: string, iss: string)

  function CodeRow(env: Env, v: ValidatedRequest, session: Session, drawn: Fresh, now: Time): Code {
    Code(drawn.rowId, HashToken(env.sha256, drawn.secret), v.client.id, session.user, v.redirectUri,
         Scope.Print(v.scope), v.codeChallenge, Pkce.S256, v.nonce, session.createdAt,
         now + AUTHORIZATION_CODE_TTL, now, None)
  }

  /** `issue_code`: the row is stored before the redirect is built. */
  function IssueCode(env: Env, t: Tables, v: ValidatedRequest, session: Session, drawn: Fresh, now: Time)
    : Outcome<Result<Redirection, AuthorizationError>>
  {
    match InsertCode(t, CodeRow(env, v, session, drawn, now))
    case Err(_) => Outcome(t, Err(Internal), [])
    case Ok(t') =>
      Outcome(
        t',
        if env.parseUrl(v.redirectUri).None? then Err(Internal)
        else Ok(Redirection(v.redirectUri, drawn.secret, v.state, env.issuer)),
        [CodeIssued(session.user, v.client.id, v.scope, v.client.AllowedScopes())])
  }

  // ------------------------------------------------------------- decide

  datatype NextStep =
    | SignIn(returnTo: AuthorizationRequest)
    | AskConsent(request: ValidatedRequest)
    | RedirectToClient(redirection: Redirection)

  predicate NeedsReauthentication(v: ValidatedRequest, session: Session, now: Time) {
    v.prompt.login || (v.maxAge.Some? && WholeSeconds(now - session.createdAt) > v.maxAge.value)
  }

  predicate AlreadyApproved(t: Tables, user: Id, v: ValidatedRequest) {
    var granted := ActiveConsent(t, user, v.client.id);
    granted.Some? && v.scope <= set s | s in granted.value
  }

  /** `decide`. */
  ghost function Decide(env: Env, t: Tables, r: AuthorizationRequest, session: Option<Session>, drawn: Fresh, now: Time)
    : Outcome<Result<NextStep, AuthorizationError>>
  {
    match Validate(env, t, r)
    case Err(e) => Outcome(t, Err(e), [])
    case Ok(v) =>
      if session.None? || NeedsReauthentication(v, session.value, now) then
        if v.prompt.none then Outcome(t, Err(ErrorFor(v, "login_required", "the user is not signed in")), [])
        else Outcome(t, Ok(SignIn(WithoutReauthentication(r))), [])
      else if AlreadyApproved(t, session.value.user, v) && !v.prompt.consent then
        var issued := IssueCode(env, t, v, session.value, drawn, now);
        Outcome(issued.tables,
                match issued.response case Ok(to) => Ok(RedirectToClient(to)) case Err(e) => Err(e),
                issued.events)
      else if v.prompt.none then
        Outcome(t, Err(ErrorFor(v, "consent_required", "the user has not approved these scopes")), [])
      else Outcome(t, Ok(AskConsent(v)), [])
  }

  /**
   * `decide` issues a code only to a session that is as fresh as the request demands, for scopes
   * the user approved before, and not when the request asks for the consent page.
   */
  lemma IssuedOnlyWhenFreshAndApproved(env: Env, t: Tables, r: AuthorizationRequest, session: Option<Session>,
                                       drawn: Fresh, now: Time)
    requires Decide(env, t, r, session, drawn, now).events != []
    ensures Validate(env, t, r).Ok? && session.Some?
    ensures var v := Validate(env, t, r).value;
            && !v.prompt.login && !v.prompt.consent
            && (v.maxAge.Some? ==> now - session.value.createdAt < (v.maxAge.value + 1) * SECOND)
            && ActiveConsent(t, session.value.user, v.client.id).Some?
            && forall s <- v.scope :: s in ActiveConsent(t, session.value.user, v.client.id).value
  {
    hide Validate, IssueCode;
    var v := Validate(env, t, r).value;
    ValidatedPrompt(env, t, r);
    if v.maxAge.Some? {
      FreshSession(now - session.value.createdAt, v.maxAge.value);
    }
  }

  lemma FreshSession(age: Time, maxAge: int)
    requires WholeSeconds(age) <= maxAge && maxAge >= 0
    ensures age < (maxAge + 1) * SECOND
  {
  }

  lemma ValidatedPrompt(env: Env, t: Tables, r: AuthorizationRequest)
    requires Validate(env, t, r).Ok?
    ensures ParsedPrompt(r.prompt) == Some(Validate(env, t, r).value.prompt)
    ensures Validate(env, t, r).value.maxAge.Some? ==> Validate(env, t, r).value.maxAge.value >= 0
  {
    hide ValidateProtocol;
    ProtocolPrompt(ClientByName(t, r.clientId.value).value, r.redirectUri.value, r);
  }

  lemma ProtocolPrompt(client: Client, uri: string, r: AuthorizationRequest)
    requires ValidateProtocol(client, uri, r).Ok?
    ensures ParsedPrompt(r.prompt) == Some(ValidateProtocol(client, uri, r).value.prompt)
    ensures ValidateProtocol(client, uri, r).value.maxAge.Some? ==>
              ValidateProtocol(client, uri, r).value.maxAge.value >= 0
  {
    hide Scope.Parsed, Utf8Len, ParsedPrompt, ParseU32, Pkce.IsValidS256Challenge;
  }

  /** `complete_consent`: validated again from scratch; the consent stays even if the code cannot be stored. */
  ghost function CompleteConsent(env: Env, t: Tables, r: AuthorizationRequest, approved: bool, session: Session,
                                 drawn: Fresh, now: Time)
    : Outcome<Result<Redirection, AuthorizationError>>
  {
    match Validate(env, t, r)
    case Err(e) => Outcome(t, Err(e), [])
    case Ok(v) =>
      if !approved then Outcome(t, Err(ErrorFor(v, "access_denied", "the user denied the request")), [])
      else
        match GrantConsent(t, session.user, v.client.id, v.scope, now)
        case Err(_) => Outcome(t, Err(Internal), [])
        case Ok(t') =>
          var issued := IssueCode(env, t', v, session, drawn, now);
          issued.(events := [Approved(session.user, v.client.id, v.scope)] + issued.events)
  }

  // ------------------------------------------------------------- controllers

  datatype BrowserResponse =
    | RepeatedParameter
    | CsrfFailure
    | ToSignIn(returnTo: AuthorizationRequest)
    | ConsentPage(request: AuthorizationRequest, validated: ValidatedRequest)
    | ToClient(redirection: Redirection)
    | Failed(error: AuthorizationError)

  /** `GET|POST /oauth/authorize`. */
  ghost function Authorize(env: Env, t: Tables, pairs: Params.Pairs, session: Option<Session>, drawn: Fresh, now: Time)
    : Outcome<BrowserResponse>
  {
    match Params.Collected(pairs)
    case Err(_) => Outcome(t, RepeatedParameter, [])
    case Ok(params) =>
      var r := FromParams(params);
      var decided := Decide(env, t, r, session, drawn, now);
      Outcome(
        decided.tables,
        match decided.response
        case Ok(SignIn(returnTo)) => ToSignIn(returnTo)
        case Ok(AskConsent(v)) => ConsentPage(r, v)
        case Ok(RedirectToClient(to)) => ToClient(to)
        case Err(e) => Failed(e),
        decided.events)
  }

  /** `POST /oauth/consent`; `csrfOk` is the outcome of the CSRF check. */
  ghost function Consented(env: Env, t: Tables, pairs: Params.Pairs, csrfOk: bool, session: Option<Session>,
                           drawn: Fresh, now: Time)
    : Outcome<BrowserResponse>
  {
    match Params.Collected(pairs)
    case Err(_) => Outcome(t, RepeatedParameter, [])
    case Ok(params) =>
      var r := FromParams(params);
      if !csrfOk then Outcome(t, CsrfFailure, [])
      else if session.None? then Outcome(t, ToSignIn(r), [])
      else
        var approved := Params.Get(params, "decision") == Some("approve");
        var done := CompleteConsent(env, t, r, approved, session.value, drawn, now);
        Outcome(
          done.tables,
          match done.response case Ok(to) => ToClient(to) case Err(e) => Failed(e),
          done.events)
  }

  // ------------------------------------------------------------- prompt=none

  /** Phase 1 of validation: the request names an active client and a redirect URI registered for it. */
  ghost predicate MayRedirect(t: Tables, r: AuthorizationRequest) {
    && r.clientId.Some? && r.redirectUri.Some?
    && (var client := ClientByName(t, r.clientId.value);
        client.Some? && client.value.IsActive() && r.redirectUri.value in client.value.redirectUris)
  }

  /** The client is told by redirect, or this server failed. */
  predicate ToldByRedirect(uri: string, response: BrowserResponse) {
    match response
    case ToClient(to) => to.uri == uri
    case Failed(Redirect(to, _, _, _)) => to == uri
    case Failed(Internal) => true
    case _ => false
  }

  predicate IsUnsafe(response: BrowserResponse) {
    match response
    case Failed(Unsafe(_)) => true
    case _ => false
  }

  lemma ValidatedInPhases(env: Env, t: Tables, r: AuthorizationRequest)
    ensures match Validate(env, t, r)
            case Ok(v) => MayRedirect(t, r) && v.redirectUri == r.redirectUri.value
            case Err(Redirect(to, _, _, _)) => MayRedirect(t, r) && to == r.redirectUri.value
            case Err(Unsafe(_)) => !MayRedirect(t, r)
            case Err(Internal) => false
  {
    hide ValidateProtocol;
    if MayRedirect(t, r) {
      ProtocolRedirects(ClientByName(t, r.clientId.value).value, r.redirectUri.value, r);
    }
  }

  lemma IssuedOrFailed(env: Env, t: Tables, v: ValidatedRequest, session: Session, drawn: Fresh, now: Time)
    ensures match IssueCode(env, t, v, session, drawn, now).response
            case Ok(to) => to.uri == v.redirectUri
            case Err(e) => e == Internal
  {
  }

  lemma NoneIsAnsweredByRedirect(env: Env, t: Tables, r: AuthorizationRequest, session: Option<Session>, drawn: Fresh,
                                 now: Time)
    requires "none" in PromptValues(r.prompt)
    ensures match Decide(env, t, r, session, drawn, now).response
            case Ok(RedirectToClient(to)) => MayRedirect(t, r) && to.uri == r.redirectUri.value
            case Ok(_) => false
            case Err(Redirect(to, _, _, _)) => MayRedirect(t, r) && to == r.redirectUri.value
            case Err(Internal) => MayRedirect(t, r)
            case Err(Unsafe(_)) => !MayRedirect(t, r)
  {
    hide Validate, IssueCode, MayRedirect, NeedsReauthentication, AlreadyApproved;
    ValidatedInPhases(env, t, r);
    if Validate(env, t, r).Ok? {
      ValidatedPrompt(env, t, r);
      if session.Some? {
        IssuedOrFailed(env, t, Validate(env, t, r).value, session.value, drawn, now);
      }
    }
  }

  /**
   * With `prompt=none` there is neither a sign-in page nor a consent page: a request that names
   * an active client and one of its redirect URIs is answered at that URI, unless the server
   * fails; any other request is refused on a page of this server, exactly then (sections 3.1.2.1
   * and 3.1.2.6 of OpenID Connect Core).
   */
  lemma PromptNoneShowsNoPage(env: Env, t: Tables, pairs: Params.Pairs, session: Option<Session>, drawn: Fresh,
                              now: Time)
    requires Params.Collected(pairs).Ok? && "none" in PromptValues(FromParams(Params.Collected(pairs).value).prompt)
    ensures var r, response :=
                FromParams(Params.Collected(pairs).value), Authorize(env, t, pairs, session, drawn, now).response;
            && (IsUnsafe(response) <==> !MayRedirect(t, r))
            && (MayRedirect(t, r) ==> ToldByRedirect(r.redirectUri.value, response))
            && !response.ToSignIn? && !response.ConsentPage?
  {
    hide Decide, MayRedirect, FromParams, PromptValues;
    NoneIsAnsweredByRedirect(env, t, FromParams(Params.Collected(pairs).value), session, drawn, now);
  }
}
