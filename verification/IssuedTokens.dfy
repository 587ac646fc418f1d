/** What the token endpoint issues is what UserInfo accepts: from the grant to the disclosed claims. */
module IssuedTokens {
  import opened Wrappers
  import opened Schema
  import opened Events
  import opened Clients
  import opened World
  import opened Steps
  import opened Statements
  import opened Effects
  import opened SigningKeys
  import Secret
  import U = UserInfo
  import Params
  import Scope
  import T = TokenEndpoint

  /** The microsecond after the last second of a token issued now. */
  function End(now: Time): Time { ((now + 15 * 60 * SECOND) / SECOND + 1) * SECOND }

  /** These tokens are for this client, user and non-empty set of scopes, with a sign-in at this time. */
  ghost predicate IssuedFor(env: Env, response: T.TokenResponse, client: Client, user: Id, scope: set<string>,
                            authTime: Time, nonce: Option<string>, jti: Id, now: Time) {
    && CarriesTokens(env, response, client, user, scope, authTime, nonce, jti, now)
    && Scope.IsScopeSet(scope)
  }

  lemma SignedCarry(env: Env, client: Client, user: Id, scope: set<string>, authTime: Time, nonce: Option<string>,
                    jti: Id, now: Time)
    ensures CarriesTokens(env, T.SignedTokens(env, client, user, scope, authTime, nonce, jti, now), client, user, scope,
                          authTime, nonce, jti, now)
  {
  }

  lemma ParsedIsScopeSet(raw: string)
    requires Scope.Parsed(raw).Ok?
    ensures Scope.IsScopeSet(Scope.Parsed(raw).value)
  {
  }

  /** Tokens for somebody come with every success. */
  ghost predicate Issues(env: Env, client: Client, drawn: Fresh, now: Time, o: T.TokenOutcome) {
    o.response.Ok? ==>
      exists user, scope, authTime, nonce ::
        IssuedFor(env, o.response.value, client, user, scope, authTime, nonce, drawn.jti, now)
  }

  lemma RotationIssues(env: Env, t: Tables, client: Client, hash: string, requested: Option<set<string>>, drawn: Fresh,
                       signs: bool, now: Time)
    requires requested.Some? ==> Scope.IsScopeSet(requested.value)
    ensures Issues(env, client, drawn, now, T.Rotate(env, t, client, hash, requested, drawn, signs, now))
  {
    hide T.CheckUsable, Scope.Parsed, Scope.IsScopeSet, T.SignedTokens, T.NewRow, InsertToken, MarkRotated,
      RevokeFamilies, CarriesTokens;
    var o := T.Rotate(env, t, client, hash, requested, drawn, signs, now);
    if o.response.Ok? {
      var record := TokenByHash(t, hash).value;
      ParsedIsScopeSet(record.scope);
      var scope := if requested.Some? then requested.value else Scope.Parsed(record.scope).value;
      SignedCarry(env, client, record.userId, scope, record.authTime, None, drawn.jti, now);
      var signed := T.SignedTokens(env, client, record.userId, scope, record.authTime, None, drawn.jti, now);
      WithRefreshToken(env, signed, drawn.secret, client, record.userId, scope, record.authTime, None, drawn.jti, now);
      assert IssuedFor(env, o.response.value, client, record.userId, scope, record.authTime, None, drawn.jti, now);
    }
  }

  lemma WithRefreshToken(env: Env, response: T.TokenResponse, secret: string, client: Client, user: Id,
                         scope: set<string>, authTime: Time, nonce: Option<string>, jti: Id, now: Time)
    requires CarriesTokens(env, response, client, user, scope, authTime, nonce, jti, now)
    ensures CarriesTokens(env, response.(refreshToken := Some(secret)), client, user, scope, authTime, nonce, jti, now)
  {
    hide Scope.Print;
  }

  lemma RedemptionIssues(env: Env, t: Tables, client: Client, hash: string, uri: string, verifier: string,
                         drawn: Fresh, signs: bool, now: Time)
    ensures Issues(env, client, drawn, now, T.RedeemCode(env, t, client, hash, uri, verifier, drawn, signs, now))
  {
    hide T.BindingError, Scope.Parsed, Scope.IsScopeSet, T.SignedTokens, T.NewRow, InsertToken, RevokeFamilies,
      CarriesTokens;
    var o := T.RedeemCode(env, t, client, hash, uri, verifier, drawn, signs, now);
    if o.response.Ok? {
      var record := ClaimCode(t, hash, now).1.value;
      ParsedIsScopeSet(record.scope);
      var scope := Scope.Parsed(record.scope).value;
      SignedCarry(env, client, record.userId, scope, record.authTime, record.nonce, drawn.jti, now);
      var signed := T.SignedTokens(env, client, record.userId, scope, record.authTime, record.nonce, drawn.jti, now);
      WithRefreshToken(env, signed, drawn.secret, client, record.userId, scope, record.authTime, record.nonce,
                       drawn.jti, now);
      assert IssuedFor(env, o.response.value, client, record.userId, scope, record.authTime, record.nonce, drawn.jti,
                       now);
    }
  }

  /** Whatever token request succeeds, the tokens are for an authenticated client and some set of scopes. */
  lemma SuccessIssues(env: Env, t: Tables, header: BasicHeader, pairs: Params.Pairs, drawn: Fresh, signs: bool,
                      now: Time)
    requires T.HandleToken(env, t, header, pairs, drawn, signs, now).response.Ok?
    ensures Params.Collected(pairs).Ok?
    ensures T.AuthenticatedClient(env, t, header, Params.Collected(pairs).value).Ok?
    ensures Issues(env, T.AuthenticatedClient(env, t, header, Params.Collected(pairs).value).value, drawn, now,
                   T.HandleToken(env, t, header, pairs, drawn, signs, now))
  {
    hide T.AuthenticatedClient, T.RedeemCode, T.Rotate, Issues, Scope.Parsed, Scope.IsScopeSet;
    var params := Params.Collected(pairs).value;
    var client := T.AuthenticatedClient(env, t, header, params).value;
    var code, uri, verifier :=
        Params.Get(params, "code"), Params.Get(params, "redirect_uri"), Params.Get(params, "code_verifier");
    if code.Some? && uri.Some? && verifier.Some? {
      RedemptionIssues(env, t, client, Secret.HashToken(env.sha256, code.value), uri.value, verifier.value, drawn,
                       signs, now);
    }
    var raw, scope := Params.Get(params, "refresh_token"), Params.Get(params, "scope");
    if raw.Some? && scope.None? {
      RotationIssues(env, t, client, Secret.HashToken(env.sha256, raw.value), None, drawn, signs, now);
    } else if raw.Some? && Scope.Parsed(scope.value).Ok? {
      ParsedIsScopeSet(scope.value);
      RotationIssues(env, t, client, Secret.HashToken(env.sha256, raw.value), Some(Scope.Parsed(scope.value).value),
                     drawn, signs, now);
    }
  }

  // ------------------------------------------------------------- accepted again

  /** The access token of the response, as a JWT signed by the key that was active when it was issued. */
  function AccessToken(e: Epoch, response: T.TokenResponse): Jwt
    requires e.keys.active < |e.keys.keys|
  {
    Sign(e.keys, ACCESS_TOKEN_TYPE, response.access)
  }

  lemma WithinLastSecond(now: Time, t: Time)
    ensures Timestamp(t) <= (now + 15 * 60 * SECOND) / SECOND <==> t < End(now)
  {
  }

  /**
   * An access token issued in one epoch of the server is accepted in another, or the same,
   * exactly while its key is loaded and the second named by its `exp` is not over. Nothing else
   * can be wrong with it.
   */
  lemma IssuedIsAccepted(env: Env, d: Deployment, i: nat, j: nat, response: T.TokenResponse, client: Client, user: Id,
                         scope: set<string>, authTime: Time, nonce: Option<string>, jti: Id, now: Time, t: Time)
    requires WellFormed(d) && i < |d| && j < |d|
    requires IssuedFor(env, response, client, user, scope, authTime, nonce, jti, now)
    ensures var verified := Verify(d[j].keys, AccessToken(d[i], response), ACCESS_TOKEN_TYPE, env.issuer, t);
            && (verified.Ok? <==> ActiveKey(d[i]) in d[j].keys.keys && t < End(now))
            && (verified.Ok? ==> verified.value == response.access)
            && (i == j ==> (verified.Ok? <==> t < End(now)))
  {
    hide KidsAreUnambiguous, Scope.IsScopeSet, Scope.Print;
    var claims := response.access;
    assert IssuedAt(d[i], claims, now) == AccessToken(d[i], response);
    AcceptsExactly(d, env.issuer, claims, i, now, j, t);
    WithinLastSecond(now, t);
  }

  /**
   * UserInfo answers a token it accepts exactly if `openid` was granted and the user still
   * exists, and then with the claims of that user that the granted scopes pay for.
   */
  lemma IssuedDiscloses(env: Env, d: Deployment, i: nat, j: nat, response: T.TokenResponse, client: Client, user: Id,
                        scope: set<string>, authTime: Time, nonce: Option<string>, jti: Id, now: Time, t: Time,
                        users: map<Id, U.User>, r: U.Answer)
    requires WellFormed(d) && i < |d| && j < |d|
    requires IssuedFor(env, response, client, user, scope, authTime, nonce, jti, now)
    requires U.Answers(d[j].keys, env.issuer, AccessToken(d[i], response), users, t, r)
    ensures r.Ok? <==> ActiveKey(d[i]) in d[j].keys.keys && t < End(now) && "openid" in scope && user in users
    ensures r.Ok? ==> U.ClaimsAre(r.value, users[user], scope)
    ensures ActiveKey(d[i]) in d[j].keys.keys && t < End(now) && "openid" !in scope ==> r == Err(U.InsufficientScope)
  {
    hide WellFormed, KidsAreUnambiguous, Verify, U.ClaimsAre;
    IssuedIsAccepted(env, d, i, j, response, client, user, scope, authTime, nonce, jti, now, t);
    ClaimedAreGranted(response, scope);
  }

  lemma ClaimedAreGranted(response: T.TokenResponse, scope: set<string>)
    requires response.access.scope == Scope.Print(scope) && Scope.IsScopeSet(scope)
    ensures T.ClaimedScopes(response.access) == scope
  {
    hide Scope.Print, Scope.Parsed, Scope.IsScopeSet;
    Scope.PrintThenParse(scope);
  }

  /**
   * From the token endpoint to UserInfo: whatever token request succeeds, its access token is
   * accepted while its key is loaded, through the last second of its fifteen minutes, and
   * UserInfo answers it exactly if the response granted `openid` and its user exists.
   */
  lemma SuccessIsUseful(env: Env, tables: Tables, header: BasicHeader, pairs: Params.Pairs, drawn: Fresh, signs: bool,
                        now: Time, d: Deployment, i: nat, j: nat, t: Time, users: map<Id, U.User>, r: U.Answer)
    requires WellFormed(d) && i < |d| && j < |d|
    requires T.HandleToken(env, tables, header, pairs, drawn, signs, now).response.Ok?
    requires var response := T.HandleToken(env, tables, header, pairs, drawn, signs, now).response.value;
             U.Answers(d[j].keys, env.issuer, AccessToken(d[i], response), users, t, r)
    ensures var response := T.HandleToken(env, tables, header, pairs, drawn, signs, now).response.value;
            && (r != Err(U.InvalidToken) ==> ActiveKey(d[i]) in d[j].keys.keys && t < End(now))
            && (r.Ok? <==> && ActiveKey(d[i]) in d[j].keys.keys && t < End(now)
                           && "openid" in Scope.Names(response.scope) && response.access.sub in users)
            && (response.idToken.Some? <==> "openid" in Scope.Names(response.scope))
  {
    hide WellFormed, KidsAreUnambiguous, Verify, U.ClaimsAre, U.Answers, T.HandleToken, T.AuthenticatedClient,
      Scope.Names, Scope.Print, Scope.Parsed, Scope.IsScopeSet;
    SuccessIssues(env, tables, header, pairs, drawn, signs, now);
    var response := T.HandleToken(env, tables, header, pairs, drawn, signs, now).response.value;
    var client := T.AuthenticatedClient(env, tables, header, Params.Collected(pairs).value).value;
    var user, scope, authTime, nonce :|
      IssuedFor(env, response, client, user, scope, authTime, nonce, drawn.jti, now);
    IssuedDiscloses(env, d, i, j, response, client, user, scope, authTime, nonce, drawn.jti, now, t, users, r);
    ExpiredIsInvalid(env, d, i, j, response, client, user, scope, authTime, nonce, drawn.jti, now, t, users, r);
    PrintedNames(scope);
  }

  lemma ExpiredIsInvalid(env: Env, d: Deployment, i: nat, j: nat, response: T.TokenResponse, client: Client, user: Id,
                         scope: set<string>, authTime: Time, nonce: Option<string>, jti: Id, now: Time, t: Time,
                         users: map<Id, U.User>, r: U.Answer)
    requires WellFormed(d) && i < |d| && j < |d|
    requires IssuedFor(env, response, client, user, scope, authTime, nonce, jti, now)
    requires U.Answers(d[j].keys, env.issuer, AccessToken(d[i], response), users, t, r)
    ensures !(ActiveKey(d[i]) in d[j].keys.keys && t < End(now)) ==> r == Err(U.InvalidToken)
  {
    hide WellFormed, KidsAreUnambiguous, Verify, U.ClaimsAre, IssuedFor;
    IssuedIsAccepted(env, d, i, j, response, client, user, scope, authTime, nonce, jti, now, t);
  }

  lemma PrintedNames(scope: set<string>)
    requires Scope.IsScopeSet(scope)
    ensures Scope.Names(Scope.Print(scope)) == scope
  {
    Scope.PrintThenParse(scope);
    hide Scope.Print, Scope.IsScopeSet;
  }
}
