/** Which authorization requests are valid, read off the submitted parameters and the client table. */
module ValidRequests {
  import opened Wrappers
  import opened Text
  import opened Schema
  import opened Statements
  import opened AuthorizationRequests
  import A = Authorization
  import Pkce
  import Scope
  import opened Params

  /** The client named by the request, active, and one of the redirect URIs registered for it. */
  ghost predicate NamesClient(t: Tables, pairs: Pairs, client: Client, uri: string) {
    && client.id in t.clients && t.clients[client.id] == client && client.disabledAt.None?
    && Sent(pairs, "client_id") == Some(client.clientId)
    && Sent(pairs, "redirect_uri") == Some(uri) && uri in client.redirectUris
  }

  /** A plain request for a code, answered in the query string. */
  ghost predicate AsksForCode(pairs: Pairs) {
    && Sent(pairs, "request").None? && Sent(pairs, "request_uri").None?
    && Sent(pairs, "response_type") == Some("code")
    && (Sent(pairs, "response_mode").None? || Sent(pairs, "response_mode") == Some("query"))
  }

  ghost predicate HasState(pairs: Pairs, state: string) {
    Sent(pairs, "state") == Some(state) && Utf8Len(state) <= 2048
  }

  /** The scopes asked for: at least one, all well formed, all registered for the client. */
  ghost predicate HasScope(pairs: Pairs, client: Client, scope: set<string>) {
    && Sent(pairs, "scope").Some? && Scope.Names(Sent(pairs, "scope").value) == scope && scope != {}
    && forall name :: name in scope ==> Scope.IsScopeName(name) && name in client.allowedScopes
  }

  ghost predicate HasChallenge(pairs: Pairs, challenge: string) {
    && Sent(pairs, "code_challenge") == Some(challenge) && Pkce.IsValidS256Challenge(challenge)
    && Sent(pairs, "code_challenge_method") == Some("S256")
  }

  ghost predicate HasNonce(pairs: Pairs, nonce: Option<string>) {
    Sent(pairs, "nonce") == nonce && (nonce.Some? ==> Utf8Len(nonce.value) <= 512)
  }

  /** `none` with neither `login` nor `consent`, and nothing unknown (section 3.1.2.1 of OpenID Connect Core). */
  ghost predicate HasPrompt(pairs: Pairs, prompt: Prompt) {
    var values := PromptValues(Sent(pairs, "prompt"));
    && (forall v :: v in values ==> v == "none" || v == "login" || v == "consent" || v == "select_account")
    && (prompt.none <==> "none" in values) && (prompt.login <==> "login" in values)
    && (prompt.consent <==> "consent" in values)
    && (prompt.none ==> !prompt.login && !prompt.consent)
  }

  ghost predicate HasMaxAge(pairs: Pairs, maxAge: Option<int>) {
    match Sent(pairs, "max_age")
    case None => maxAge.None?
    case Some(raw) => maxAge.Some? && ParseU32(raw) == maxAge
  }

  /** These are the contents of a valid request (sections 4.1.1 of RFC 6749 and 4.3 of RFC 7636). */
  ghost predicate IsValidated(t: Tables, pairs: Pairs, v: A.ValidatedRequest) {
    && NamesClient(t, pairs, v.client, v.redirectUri) && AsksForCode(pairs) && HasState(pairs, v.state)
    && HasScope(pairs, v.client, v.scope) && HasChallenge(pairs, v.codeChallenge) && HasNonce(pairs, v.nonce)
    && HasPrompt(pairs, v.prompt) && HasMaxAge(pairs, v.maxAge)
  }

  /** The request as it is read from submitted parameters. */
  ghost function Asked(pairs: Pairs): AuthorizationRequest
    requires Distinct(pairs)
  {
    AuthorizationRequest(
      Sent(pairs, "client_id"), Sent(pairs, "redirect_uri"), Sent(pairs, "response_type"),
      Sent(pairs, "response_mode"), Sent(pairs, "scope"), Sent(pairs, "state"), Sent(pairs, "code_challenge"),
      Sent(pairs, "code_challenge_method"), Sent(pairs, "nonce"), Sent(pairs, "prompt"), Sent(pairs, "max_age"),
      Sent(pairs, "request").Some?, Sent(pairs, "request_uri").Some?)
  }

  lemma AskedIsRead(pairs: Pairs)
    requires Distinct(pairs)
    ensures Collected(pairs).Ok? && FromParams(Collected(pairs).value) == Asked(pairs)
  {
    hide Collected, Get, Sent;
    CollectedMeaning(pairs);
    GetIsSent(pairs, "client_id");
    GetIsSent(pairs, "redirect_uri");
    GetIsSent(pairs, "response_type");
    GetIsSent(pairs, "response_mode");
    GetIsSent(pairs, "scope");
    GetIsSent(pairs, "state");
    GetIsSent(pairs, "code_challenge");
    GetIsSent(pairs, "code_challenge_method");
    GetIsSent(pairs, "nonce");
    GetIsSent(pairs, "prompt");
    GetIsSent(pairs, "max_age");
    GetIsSent(pairs, "request");
    GetIsSent(pairs, "request_uri");
  }

  lemma ProtocolExactly(t: Tables, pairs: Pairs, client: Client, uri: string, v: A.ValidatedRequest)
    requires Distinct(pairs) && NamesClient(t, pairs, client, uri)
    ensures A.ValidateProtocol(client, uri, Asked(pairs)) == Ok(v)
            <==> v.client == client && v.redirectUri == uri && IsValidated(t, pairs, v)
  {
    hide Sent, Utf8Len, ParseU32, Pkce.IsValidS256Challenge, PromptValues, Scope.IsScopeName, Scope.Names, Distinct;
    ScopeExactly(pairs, client);
    PromptExactly(pairs);
  }

  lemma ScopeExactly(pairs: Pairs, client: Client)
    ensures forall scope :: HasScope(pairs, client, scope) <==>
              && Sent(pairs, "scope").Some? && Scope.Parsed(Sent(pairs, "scope").value) == Ok(scope)
              && scope <= client.AllowedScopes()
  {
    hide Sent, Scope.IsScopeName, Scope.Names;
  }

  lemma PromptExactly(pairs: Pairs)
    ensures forall prompt :: HasPrompt(pairs, prompt) <==> ParsedPrompt(Sent(pairs, "prompt")) == Some(prompt)
  {
    hide Sent, PromptValues;
  }

  lemma NamesExactly(t: Tables, pairs: Pairs, client: Client, uri: string)
    requires Constraints(t)
    ensures NamesClient(t, pairs, client, uri) <==>
            && Sent(pairs, "client_id").Some? && Sent(pairs, "redirect_uri") == Some(uri)
            && ClientByName(t, Sent(pairs, "client_id").value) == Some(client)
            && client.IsActive() && client.HasRedirectUri(uri)
  {
    hide Sent, CodeKeys, ConsentKeys, TokenKeys;
    if client.id in t.clients && t.clients[client.id] == client {
      FindClient(t, client.id);
    }
  }

  lemma ValidatedNames(env: Env, t: Tables, r: AuthorizationRequest, v: A.ValidatedRequest)
    requires A.Validate(env, t, r) == Ok(v)
    ensures r.clientId.Some? && r.redirectUri == Some(v.redirectUri)
    ensures ClientByName(t, r.clientId.value) == Some(v.client)
    ensures v.client.IsActive() && v.client.HasRedirectUri(v.redirectUri)
    ensures A.Validate(env, t, r) == A.ValidateProtocol(v.client, v.redirectUri, r)
  {
    hide A.ValidateProtocol;
    A.ProtocolRedirects(ClientByName(t, r.clientId.value).value, r.redirectUri.value, r);
  }

  /**
   * A request is accepted exactly with the contents that its parameters and the client table
   * give it, and then with no others.
   */
  lemma ValidatedExactly(env: Env, t: Tables, pairs: Pairs, v: A.ValidatedRequest)
    requires Constraints(t) && Distinct(pairs)
    ensures A.Validate(env, t, Asked(pairs)) == Ok(v) <==> IsValidated(t, pairs, v)
  {
    hide A.ValidateProtocol, Sent, NamesClient, AsksForCode, HasState, HasScope, HasChallenge, HasNonce, HasPrompt,
      HasMaxAge, Constraints, Distinct;
    NamesExactly(t, pairs, v.client, v.redirectUri);
    if A.Validate(env, t, Asked(pairs)) == Ok(v) {
      ValidatedNames(env, t, Asked(pairs), v);
    }
    if NamesClient(t, pairs, v.client, v.redirectUri) {
      ProtocolExactly(t, pairs, v.client, v.redirectUri, v);
    }
  }

  lemma OneValidated(env: Env, t: Tables, pairs: Pairs, v: A.ValidatedRequest, v': A.ValidatedRequest)
    requires Constraints(t) && Distinct(pairs) && IsValidated(t, pairs, v) && IsValidated(t, pairs, v')
    ensures v == v'
  {
    hide IsValidated, A.Validate, Constraints, Distinct;
    ValidatedExactly(env, t, pairs, v);
    ValidatedExactly(env, t, pairs, v');
  }

  // ------------------------------------------------------------- refusals

  /** The error code for the first fault of a request that names a client, in the order of the checks. */
  ghost function FirstFault(pairs: Pairs, client: Client): string {
    if Sent(pairs, "request").Some? then "request_not_supported"
    else if Sent(pairs, "request_uri").Some? then "request_uri_not_supported"
    else if Sent(pairs, "response_type").Some? && Sent(pairs, "response_type") != Some("code") then
      "unsupported_response_type"
    else if AsksForCode(pairs) && (exists state :: HasState(pairs, state))
            && !(exists scope :: HasScope(pairs, client, scope)) then "invalid_scope"
    else "invalid_request"
  }

  lemma FaultParts(pairs: Pairs, client: Client)
    ensures (exists state :: HasState(pairs, state))
            <==> Sent(pairs, "state").Some? && Utf8Len(Sent(pairs, "state").value) <= 2048
    ensures (exists scope :: HasScope(pairs, client, scope))
            <==> Sent(pairs, "scope").Some? && Scope.Parsed(Sent(pairs, "scope").value).Ok?
                 && Scope.Parsed(Sent(pairs, "scope").value).value <= client.AllowedScopes()
  {
    hide Sent, Utf8Len, HasScope, Scope.Parsed;
    var state, raw := Sent(pairs, "state"), Sent(pairs, "scope");
    ScopeExactly(pairs, client);
    if state.Some? && Utf8Len(state.value) <= 2048 {
      assert HasState(pairs, state.value);
    }
    if raw.Some? && Scope.Parsed(raw.value).Ok? && Scope.Parsed(raw.value).value <= client.AllowedScopes() {
      assert HasScope(pairs, client, Scope.Parsed(raw.value).value);
    }
  }

  lemma FaultExactly(pairs: Pairs, client: Client, uri: string)
    requires Distinct(pairs) && A.ValidateProtocol(client, uri, Asked(pairs)).Err?
    ensures var e := A.ValidateProtocol(client, uri, Asked(pairs)).error;
            && e.Redirect? && e.redirectUri == uri && e.state == Sent(pairs, "state")
            && e.error == FirstFault(pairs, client)
  {
    hide Sent, Utf8Len, ParseU32, Pkce.IsValidS256Challenge, ParsedPrompt, HasState, HasScope, Scope.Parsed, Distinct;
    FaultParts(pairs, client);
  }

  /**
   * A refused request is told so at its redirect URI, with its state, if it names a client and
   * one of the URIs of that client, and on a page of this server otherwise.
   */
  lemma RefusedExactly(env: Env, t: Tables, pairs: Pairs, client: Client, uri: string)
    requires Constraints(t) && Distinct(pairs) && NamesClient(t, pairs, client, uri)
    requires forall v :: !IsValidated(t, pairs, v)
    ensures A.Validate(env, t, Asked(pairs)).Err?
    ensures var e := A.Validate(env, t, Asked(pairs)).error;
            && e.Redirect? && e.redirectUri == uri && e.state == Sent(pairs, "state")
            && e.error == FirstFault(pairs, client)
  {
    hide A.ValidateProtocol, Sent, IsValidated, Constraints, Distinct, NamesClient, FirstFault;
    NamesExactly(t, pairs, client, uri);
    var protocol := A.ValidateProtocol(client, uri, Asked(pairs));
    if protocol.Ok? {
      ValidatedExactly(env, t, pairs, protocol.value);
    } else {
      FaultExactly(pairs, client, uri);
    }
  }

  /** Any other request is refused on a page of this server: nobody can safely be told. */
  lemma RefusedOnPage(env: Env, t: Tables, pairs: Pairs)
    requires Constraints(t) && Distinct(pairs)
    ensures (exists client, uri :: NamesClient(t, pairs, client, uri))
            <==> !(A.Validate(env, t, Asked(pairs)).Err? && A.Validate(env, t, Asked(pairs)).error.Unsafe?)
  {
    hide A.Validate, Sent, NamesClient, Constraints, Distinct;
    var r := Asked(pairs);
    A.ValidatedInPhases(env, t, r);
    if A.MayRedirect(t, r) {
      NamesExactly(t, pairs, ClientByName(t, r.clientId.value).value, r.redirectUri.value);
    }
    forall client, uri | NamesClient(t, pairs, client, uri) ensures A.MayRedirect(t, r) {
      NamesExactly(t, pairs, client, uri);
    }
  }
}
