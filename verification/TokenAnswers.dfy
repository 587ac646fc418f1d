/** What the token and revocation endpoints answer, read off the submitted parameters, the header and the tables. */
module TokenAnswers {
  import opened Wrappers
  import opened Secret
  import opened Schema
  import opened Statements
  import opened Events
  import opened Clients
  import opened World
  import opened Steps
  import opened Preservation
  import opened Effects
  import opened AuthorizationAnswers
  import opened Params
  import Pkce
  import Scope
  import T = TokenEndpoint

  // ------------------------------------------------------------- client authentication

  /**
   * The request proves to come from this active client: with Basic credentials, with a secret
   * in the body, or without a secret if the client is public; never with two of these (section
   * 2.3 of RFC 6749).
   */
  ghost predicate Authenticates(env: Env, t: Tables, header: BasicHeader, pairs: Pairs, client: Client) {
    && client.id in t.clients && t.clients[client.id] == client && client.disabledAt.None?
    && match header
       case NoBasic =>
         && Sent(pairs, "client_id") == Some(client.clientId)
         && (match Sent(pairs, "client_secret")
             case None => client.secretHash.None?
             case Some(secret) => client.secretHash == Some(HashToken(env.sha256, secret)))
       case Basic(id, secret) =>
         && id == client.clientId && Sent(pairs, "client_secret").None?
         && (Sent(pairs, "client_id").None? || Sent(pairs, "client_id") == Some(id))
         && client.secretHash == Some(HashToken(env.sha256, secret))
       case Undecodable => false
  }

  lemma CredentialsMatch(env: Env, t: Tables, c: Credentials, client: Client)
    requires Constraints(t)
    ensures Authenticate(env, t, c) == Some(client) <==>
            && client.id in t.clients && t.clients[client.id] == client && client.disabledAt.None?
            && client.clientId == c.clientId
            && (match c.secret
                case None => client.secretHash.None?
                case Some(secret) => client.secretHash == Some(HashToken(env.sha256, secret)))
  {
    hide ConsentKeys, CodeKeys, TokenKeys, HashToken;
    if client.id in t.clients && t.clients[client.id] == client {
      FindClient(t, client.id);
    }
  }

  /** Exactly the requests that prove it are taken to come from the client. */
  lemma AuthenticatesExactly(env: Env, t: Tables, header: BasicHeader, pairs: Pairs, client: Client)
    requires Constraints(t) && Distinct(pairs)
    ensures Collected(pairs).Ok?
    ensures T.AuthenticatedClient(env, t, header, Collected(pairs).value) == Ok(client)
            <==> Authenticates(env, t, header, pairs, client)
  {
    hide Collected, Get, Sent, Constraints, Authenticate, HashToken, Distinct;
    CollectedMeaning(pairs);
    GetIsSent(pairs, "client_id");
    GetIsSent(pairs, "client_secret");
    var extracted := ExtractCredentials(header, Collected(pairs).value);
    if extracted.Ok? {
      CredentialsMatch(env, t, extracted.value, client);
    }
  }

  /** Everything else is `invalid_client`, except two secrets at once. */
  lemma UnauthenticatedExactly(env: Env, t: Tables, header: BasicHeader, pairs: Pairs)
    requires Constraints(t) && Distinct(pairs) && forall client :: !Authenticates(env, t, header, pairs, client)
    ensures Collected(pairs).Ok?
    ensures T.AuthenticatedClient(env, t, header, Collected(pairs).value)
            == Err(if header.Basic? && Sent(pairs, "client_secret").Some?
                   then T.InvalidRequest("use only one client authentication method") else T.InvalidClient)
  {
    hide Collected, Get, Sent, Constraints, Authenticate, Authenticates, HashToken, Distinct;
    CollectedMeaning(pairs);
    GetIsSent(pairs, "client_id");
    GetIsSent(pairs, "client_secret");
    var found := T.AuthenticatedClient(env, t, header, Collected(pairs).value);
    if found.Ok? {
      AuthenticatesExactly(env, t, header, pairs, found.value);
    }
  }

  // ------------------------------------------------------------- refresh grant

  /** The client sends this refresh token. */
  ghost predicate SendsToken(env: Env, t: Tables, header: BasicHeader, pairs: Pairs, client: Client, hash: string) {
    && Distinct(pairs) && Authenticates(env, t, header, pairs, client)
    && Sent(pairs, "grant_type") == Some("refresh_token")
    && Sent(pairs, "refresh_token").Some? && HashToken(env.sha256, Sent(pairs, "refresh_token").value) == hash
  }

  /** The token is the client's own, neither revoked nor rotated, and not yet expired. */
  predicate UsableBy(row: RefreshToken, client: Client, now: Time) {
    row.clientId == client.id && row.revokedAt.None? && row.rotatedTo.None? && now < row.expiresAt
  }

  /** The scopes the request asks for: those it names, or the whole grant. */
  ghost function RequestedNames(pairs: Pairs, row: RefreshToken): set<string> {
    if Sent(pairs, "scope").Some? then Scope.Names(Sent(pairs, "scope").value) else Scope.Names(row.scope)
  }

  lemma RefreshIsRotation(env: Env, t: Tables, header: BasicHeader, pairs: Pairs, drawn: Fresh, signs: bool, now: Time,
                          client: Client, hash: string)
    requires Constraints(t) && SendsToken(env, t, header, pairs, client, hash)
    ensures var o, scope := T.HandleToken(env, t, header, pairs, drawn, signs, now), Sent(pairs, "scope");
            if scope.None? then o == T.Rotate(env, t, client, hash, None, drawn, signs, now)
            else if Scope.Parsed(scope.value).Err? then o == Outcome(t, Err(T.InvalidScope("scope is malformed")), [])
            else o == T.Rotate(env, t, client, hash, Some(Scope.Parsed(scope.value).value), drawn, signs, now)
  {
    hide Constraints, Authenticates, T.AuthenticatedClient, T.Rotate, Collected, Get, Sent, Scope.Parsed, Distinct,
      HashToken;
    AuthenticatesExactly(env, t, header, pairs, client);
    GetIsSent(pairs, "grant_type");
    GetIsSent(pairs, "refresh_token");
    GetIsSent(pairs, "scope");
  }

  /** What a refresh with a usable token comes to. */
  ghost predicate RefreshAnswer(env: Env, t: Tables, pairs: Pairs, row: RefreshToken, client: Client, drawn: Fresh,
                                signs: bool, now: Time, o: T.TokenOutcome) {
    var names, granted := RequestedNames(pairs, row), Scope.Names(row.scope);
    && (o.response.Ok? <==> names != {} && names <= granted && signs && !Collides(env, t, drawn))
    && (o.response.Ok? ==> RotationDone(env, t, row, client, names, drawn, now, o))
    && (o.response.Err? ==>
        && o.tables == t && o.events == []
        && (if names == {} || !(names <= granted) then o.response.error.InvalidScope?
            else o.response.error == T.Internal))
  }

  /**
   * A refresh request with a usable token: it succeeds exactly if the scopes named in the
   * request, or the whole grant if it names none, lie within the grant, signing works and no
   * drawn value is taken; then the tokens are for exactly those scopes. Otherwise nothing changes.
   */
  lemma RefreshExactly(env: Env, w: World, header: BasicHeader, pairs: Pairs, drawn: Fresh, signs: bool, now: Time,
                       client: Client, k: Id)
    requires Reachable(env, w) && k in w.tables.tokens && UsableBy(w.tables.tokens[k], client, now)
    requires SendsToken(env, w.tables, header, pairs, client, w.tables.tokens[k].tokenHash)
    ensures RefreshAnswer(env, w.tables, pairs, w.tables.tokens[k], client, drawn, signs, now,
                          T.HandleToken(env, w.tables, header, pairs, drawn, signs, now))
  {
    hide Reachable, Constraints, SendsToken, T.Rotate, T.HandleToken, Sent, Collides, RotationDone, Scope.Names;
    var t, row, scope := w.tables, w.tables.tokens[k], Sent(pairs, "scope");
    InvConstraints(env, w);
    RefreshIsRotation(env, t, header, pairs, drawn, signs, now, client, row.tokenHash);
    GrantedNames(env, w, k);
    var requested := if scope.None? || Scope.Parsed(scope.value).Err? then None
                     else Some(Scope.Parsed(scope.value).value);
    RotatedToken(env, w, k, client, requested, drawn, signs, now);
    FailedRotation(env, w, k, client, requested, drawn, signs, now);
  }

  lemma GrantedNames(env: Env, w: World, k: Id)
    requires Reachable(env, w) && k in w.tables.tokens
    ensures Scope.Parsed(w.tables.tokens[k].scope) == Ok(Scope.Names(w.tables.tokens[k].scope))
  {
    hide Reachable, ClientsOk, ConsentsOk, FamiliesOk, ChainsOk, HistoryOk, Constraints, Scope.Parsed, Scope.Names;
    ReachableInv(env, w);
    RowIsOk(w, k);
    CodeIsOk(w, w.tables.tokens[k].codeId.value);
    StoredScope(w.history, w.tables.codes[w.tables.tokens[k].codeId.value], w.clock);
  }

  lemma FailedRotation(env: Env, w: World, k: Id, client: Client, requested: Option<set<string>>, drawn: Fresh,
                       signs: bool, now: Time)
    requires Reachable(env, w) && k in w.tables.tokens && T.CheckUsable(w.tables.tokens[k], client.id, now).None?
    ensures var row := w.tables.tokens[k];
            var scope := if requested.Some? then requested.value else Scope.Names(row.scope);
            var o := T.Rotate(env, w.tables, client, row.tokenHash, requested, drawn, signs, now);
            o.response.Err? ==> o == Outcome(w.tables, Err(if scope <= Scope.Names(row.scope) then T.Internal
                                else T.InvalidScope("requested scope exceeds the original grant")), [])
  {
    hide Reachable, Constraints, T.CheckUsable, Scope.Names, Scope.Parsed, T.NewRow, T.SignedTokens;
    InvConstraints(env, w);
    FindToken(w.tables, k);
    GrantedNames(env, w, k);
  }

  /** What a refresh with a token that is not usable comes to: only a rotated one of the client's own has an effect. */
  ghost predicate UnusableAnswer(t: Tables, pairs: Pairs, row: RefreshToken, client: Client, now: Time,
                                 o: T.TokenOutcome) {
    && o.response.Err? && o.events == []
    && (if Sent(pairs, "scope").Some? && Scope.Parsed(Sent(pairs, "scope").value).Err? then
          o.response.error.InvalidScope? && o.tables == t
        else if row.clientId != client.id then
          o.response.error == T.InvalidGrant("refresh token is invalid") && o.tables == t
        else if row.revokedAt.None? && row.rotatedTo.Some? then
          o.response.error.InvalidGrant? && RevokedExactly(t, o.tables, RowsOfFamily(t, row.familyId), now)
        else o.response.error.InvalidGrant? && o.tables == t)
  }

  lemma UnusableExactly(env: Env, t: Tables, header: BasicHeader, pairs: Pairs, drawn: Fresh, signs: bool, now: Time,
                        client: Client, k: Id)
    requires Constraints(t) && k in t.tokens && !UsableBy(t.tokens[k], client, now)
    requires SendsToken(env, t, header, pairs, client, t.tokens[k].tokenHash)
    ensures UnusableAnswer(t, pairs, t.tokens[k], client, now,
                           T.HandleToken(env, t, header, pairs, drawn, signs, now))
  {
    hide SendsToken, T.HandleToken, Sent, Scope.Parsed, T.RotateUsable, RevokeFamilies, RevokedExactly, RowsOfFamily,
      Constraints;
    var row, scope := t.tokens[k], Sent(pairs, "scope");
    RefreshIsRotation(env, t, header, pairs, drawn, signs, now, client, row.tokenHash);
    FindToken(t, k);
    var requested := if scope.None? || Scope.Parsed(scope.value).Err? then None
                     else Some(Scope.Parsed(scope.value).value);
    if T.CheckUsable(row, client.id, now) == Some(T.AlreadyRotated) {
      ReplayedToken(env, t, k, client, requested, drawn, signs, now);
    }
  }

  // ------------------------------------------------------------- code grant

  /** The client sends this code, redirect URI and verifier. */
  ghost predicate SendsGrant(env: Env, t: Tables, header: BasicHeader, pairs: Pairs, client: Client, hash: string,
                             uri: string, verifier: string) {
    && Distinct(pairs) && Authenticates(env, t, header, pairs, client)
    && Sent(pairs, "grant_type") == Some("authorization_code")
    && Sent(pairs, "code").Some? && HashToken(env.sha256, Sent(pairs, "code").value) == hash
    && Sent(pairs, "redirect_uri") == Some(uri) && Sent(pairs, "code_verifier") == Some(verifier)
  }

  /** The code is for this client and redirect URI, not expired, and its challenge that of the verifier. */
  predicate BoundTo(env: Env, code: Code, client: Client, uri: string, verifier: string, now: Time) {
    && code.clientId == client.id && now < code.expiresAt && code.redirectUri == uri
    && Pkce.IsValidVerifier(verifier) && code.codeChallenge == Pkce.S256Challenge(env.sha256, verifier)
  }

  /** What a presented code comes to: a replay, a code spent in vain, or tokens. */
  ghost predicate CodeAnswer(env: Env, t: Tables, code: Code, client: Client, uri: string, verifier: string,
                             drawn: Fresh, signs: bool, now: Time, o: T.TokenOutcome)
    requires code.id in t.codes
  {
    if code.usedAt.Some? then
      && o.response.Err? && o.response.error.InvalidGrant? && o.events == []
      && RevokedExactly(t, o.tables, RowsOfCode(t, code.id), now)
    else if !BoundTo(env, code, client, uri, verifier, now) then
      && o.response.Err? && o.response.error.InvalidGrant? && o.events == [] && o.tables == Consumed(t, code.id, now)
    else
      && (o.response.Ok? <==> signs && ("offline_access" in Scope.Names(code.scope) ==> !Collides(env, t, drawn)))
      && (o.response.Ok? ==> RedemptionDone(env, t, code, client, drawn, now, o))
      && (o.response.Err? ==> o == Outcome(t, Err(T.Internal), []))
  }

  lemma GrantIsRedemption(env: Env, t: Tables, header: BasicHeader, pairs: Pairs, drawn: Fresh, signs: bool, now: Time,
                          client: Client, hash: string, uri: string, verifier: string)
    requires Constraints(t) && SendsGrant(env, t, header, pairs, client, hash, uri, verifier)
    ensures T.HandleToken(env, t, header, pairs, drawn, signs, now)
            == T.RedeemCode(env, t, client, hash, uri, verifier, drawn, signs, now)
  {
    hide Constraints, Authenticates, T.AuthenticatedClient, T.RedeemCode, Collected, Get, Sent, Distinct, HashToken;
    AuthenticatesExactly(env, t, header, pairs, client);
    GetIsSent(pairs, "grant_type");
    GetIsSent(pairs, "code");
    GetIsSent(pairs, "redirect_uri");
    GetIsSent(pairs, "code_verifier");
  }

  lemma BoundExactly(env: Env, code: Code, client: Client, uri: string, verifier: string, now: Time)
    requires code.codeChallengeMethod == "S256"
    ensures BoundTo(env, code, client, uri, verifier, now)
            <==> T.BindingError(env, code, client, uri, verifier, now).None?
    ensures T.BindingError(env, code, client, uri, verifier, now).Some? ==>
              T.BindingError(env, code, client, uri, verifier, now).value.InvalidGrant?
  {
    hide Pkce.IsValidVerifier, Pkce.S256Challenge;
  }

  /**
   * A token request with a stored code: a used one revokes what descends from it, one that does
   * not match the request is spent, and one that does is exchanged, exactly if signing works and
   * no drawn value is taken.
   */
  lemma CodeExactly(env: Env, w: World, header: BasicHeader, pairs: Pairs, drawn: Fresh, signs: bool, now: Time,
                    client: Client, uri: string, verifier: string, id: Id)
    requires Reachable(env, w) && id in w.tables.codes && w.tables.codes[id].id == id
    requires SendsGrant(env, w.tables, header, pairs, client, w.tables.codes[id].codeHash, uri, verifier)
    ensures CodeAnswer(env, w.tables, w.tables.codes[id], client, uri, verifier, drawn, signs, now,
                       T.HandleToken(env, w.tables, header, pairs, drawn, signs, now))
  {
    hide Reachable, Constraints, SendsGrant, T.RedeemCode, T.HandleToken, Collides, RedemptionDone, Scope.Names,
      RevokedExactly, RowsOfCode, Consumed, T.BindingError, BoundTo;
    var t, code := w.tables, w.tables.codes[id];
    InvConstraints(env, w);
    GrantIsRedemption(env, t, header, pairs, drawn, signs, now, client, code.codeHash, uri, verifier);
    StoredMethod(env, w, id);
    BoundExactly(env, code, client, uri, verifier, now);
    if code.usedAt.Some? {
      ReplayedCode(env, w, id, client, uri, verifier, drawn, signs, now);
    } else if T.BindingError(env, code, client, uri, verifier, now).Some? {
      RejectedCode(env, t, id, client, uri, verifier, drawn, signs, now);
    } else {
      RedeemedCode(env, w, id, client, uri, verifier, drawn, signs, now);
    }
  }

  lemma StoredMethod(env: Env, w: World, id: Id)
    requires Reachable(env, w) && id in w.tables.codes
    ensures w.tables.codes[id].codeChallengeMethod == "S256"
  {
    hide Reachable, ClientsOk, ConsentsOk, RowsOk, FamiliesOk, ChainsOk, HistoryOk, Constraints;
    ReachableInv(env, w);
    assert CodeOk(w.history, w.tables.codes[id], w.clock);
  }

  // ------------------------------------------------------------- refused outright

  /** An unknown code or refresh token is an invalid grant, and nothing changes. */
  lemma UnknownIsInvalid(env: Env, t: Tables, header: BasicHeader, pairs: Pairs, drawn: Fresh, signs: bool, now: Time,
                         client: Client, hash: string, uri: string, verifier: string)
    requires Constraints(t)
    ensures SendsGrant(env, t, header, pairs, client, hash, uri, verifier)
            && (forall id :: id in t.codes ==> t.codes[id].codeHash != hash) ==>
              T.HandleToken(env, t, header, pairs, drawn, signs, now)
              == Outcome(t, Err(T.InvalidGrant("authorization code is invalid")), [])
    ensures SendsToken(env, t, header, pairs, client, hash)
            && (forall k :: k in t.tokens ==> t.tokens[k].tokenHash != hash) ==>
              var o := T.HandleToken(env, t, header, pairs, drawn, signs, now);
              && o.tables == t && o.events == []
              && (o.response == Err(T.InvalidGrant("refresh token is invalid"))
                  || o.response == Err(T.InvalidScope("scope is malformed")))
  {
    hide Constraints, SendsGrant, SendsToken, T.HandleToken, T.RedeemCode, Scope.Parsed, Sent;
    if SendsGrant(env, t, header, pairs, client, hash, uri, verifier)
       && forall id :: id in t.codes ==> t.codes[id].codeHash != hash {
      GrantIsRedemption(env, t, header, pairs, drawn, signs, now, client, hash, uri, verifier);
      UnknownCode(env, t, client, hash, uri, verifier, drawn, signs, now);
    }
    if SendsToken(env, t, header, pairs, client, hash) {
      RefreshIsRotation(env, t, header, pairs, drawn, signs, now, client, hash);
    }
  }

  /** The request is complete: one grant of the two, with all its parameters. */
  ghost predicate Complete(pairs: Pairs) {
    || (Sent(pairs, "grant_type") == Some("refresh_token") && Sent(pairs, "refresh_token").Some?)
    || (Sent(pairs, "grant_type") == Some("authorization_code") && Sent(pairs, "code").Some?
        && Sent(pairs, "redirect_uri").Some? && Sent(pairs, "code_verifier").Some?)
  }

  /**
   * A token request that repeats a parameter, lacks one, names another grant or comes from no
   * client is refused, each with its own error, and changes nothing.
   */
  lemma IncompleteIsRefused(env: Env, t: Tables, header: BasicHeader, pairs: Pairs, drawn: Fresh, signs: bool,
                            now: Time)
    requires Constraints(t)
    requires !Distinct(pairs) || !Complete(pairs) || forall client :: !Authenticates(env, t, header, pairs, client)
    ensures var o := T.HandleToken(env, t, header, pairs, drawn, signs, now);
            && o.response.Err? && o.tables == t && o.events == []
            && (o.response.error == T.UnsupportedGrantType <==>
                && Distinct(pairs) && Sent(pairs, "grant_type").Some?
                && Sent(pairs, "grant_type") != Some("authorization_code")
                && Sent(pairs, "grant_type") != Some("refresh_token"))
            && (o.response.error == T.InvalidClient ==> forall client :: !Authenticates(env, t, header, pairs, client))
            && (o.response.error.InvalidRequest? || o.response.error == T.UnsupportedGrantType
                || o.response.error == T.InvalidClient)
  {
    hide Constraints, Authenticates, T.AuthenticatedClient, T.RedeemCode, T.Rotate, Collected, Get, Sent, Distinct,
      HashToken;
    CollectedMeaning(pairs);
    if Distinct(pairs) {
      GetIsSent(pairs, "grant_type");
      GetIsSent(pairs, "refresh_token");
      GetIsSent(pairs, "code");
      GetIsSent(pairs, "redirect_uri");
      GetIsSent(pairs, "code_verifier");
      AuthenticatedOrNot(env, t, header, pairs);
    }
  }

  lemma AuthenticatedOrNot(env: Env, t: Tables, header: BasicHeader, pairs: Pairs)
    requires Constraints(t) && Distinct(pairs)
    ensures Collected(pairs).Ok?
    ensures var found := T.AuthenticatedClient(env, t, header, Collected(pairs).value);
            && (found.Ok? <==> exists client :: Authenticates(env, t, header, pairs, client))
            && (found.Err? ==> found.error.InvalidRequest? || found.error == T.InvalidClient)
  {
    hide Constraints, Authenticates, T.AuthenticatedClient, Collected, Sent, Distinct;
    CollectedMeaning(pairs);
    var found := T.AuthenticatedClient(env, t, header, Collected(pairs).value);
    if found.Ok? {
      AuthenticatesExactly(env, t, header, pairs, found.value);
    } else {
      forall client ensures !Authenticates(env, t, header, pairs, client) {
        AuthenticatesExactly(env, t, header, pairs, client);
      }
      UnauthenticatedExactly(env, t, header, pairs);
    }
  }

  // ------------------------------------------------------------- revocation

  /** What an authenticated revocation request comes to (section 2 of RFC 7009). */
  ghost predicate RevocationAnswer(env: Env, t: Tables, pairs: Pairs, client: Client, now: Time,
                                   o: Outcome<Result<(), T.AppError>>) {
    && o.events == []
    && match Sent(pairs, "token")
       case None => o.tables == t && o.response.Err? && o.response.error.InvalidRequest?
       case Some(token) =>
         var hash := HashToken(env.sha256, token);
         && ((forall k :: k in t.tokens ==> t.tokens[k].tokenHash != hash) ==> o.tables == t && o.response == Ok(()))
         && (forall k :: k in t.tokens && t.tokens[k].tokenHash == hash ==>
               if t.tokens[k].clientId == client.id then
                 o.response == Ok(()) && RevokedExactly(t, o.tables, RowsOfFamily(t, t.tokens[k].familyId), now)
               else o.tables == t && o.response.Err? && o.response.error.UnauthorizedClient?)
  }

  /**
   * Revocation: an unknown token succeeds without effect, a token of another client is refused,
   * and one of the client's own, current or not, revokes exactly the unrevoked rows of its family.
   */
  lemma RevocationExactly(env: Env, t: Tables, header: BasicHeader, pairs: Pairs, now: Time, client: Client)
    requires Constraints(t) && Distinct(pairs) && Authenticates(env, t, header, pairs, client)
    ensures RevocationAnswer(env, t, pairs, client, now, T.HandleRevocation(env, t, header, pairs, now))
  {
    hide Constraints, Authenticates, T.AuthenticatedClient, Collected, Get, Sent, Distinct, HashToken, RevokeFamilies,
      RevokedExactly, RowsOfFamily;
    AuthenticatesExactly(env, t, header, pairs, client);
    GetIsSent(pairs, "token");
    var token := Sent(pairs, "token");
    if token.Some? {
      var hash := HashToken(env.sha256, token.value);
      forall k | k in t.tokens && t.tokens[k].tokenHash == hash
        ensures TokenByHash(t, hash) == Some(t.tokens[k])
        ensures RevokedExactly(t, RevokeFamilies(t, {t.tokens[k].familyId}, now),
                               RowsOfFamily(t, t.tokens[k].familyId), now)
      {
        FindToken(t, k);
        FamilyRevoked(t, t.tokens[k].familyId, now);
      }
    }
  }

  lemma FamilyRevoked(t: Tables, family: Id, now: Time)
    ensures RevokedExactly(t, RevokeFamilies(t, {family}, now), RowsOfFamily(t, family), now)
  {
  }

  /** A revocation request that repeats a parameter or comes from no client is refused and changes nothing. */
  lemma UnauthenticatedRevocation(env: Env, t: Tables, header: BasicHeader, pairs: Pairs, now: Time)
    requires Constraints(t)
    requires !Distinct(pairs) || forall client :: !Authenticates(env, t, header, pairs, client)
    ensures var o := T.HandleRevocation(env, t, header, pairs, now);
            && o.tables == t && o.events == [] && o.response.Err?
            && (o.response.error.InvalidRequest? || o.response.error == T.InvalidClient)
  {
    hide Constraints, Authenticates, T.AuthenticatedClient, Collected, Distinct;
    CollectedMeaning(pairs);
    if Distinct(pairs) {
      AuthenticatedOrNot(env, t, header, pairs);
    }
  }
}
