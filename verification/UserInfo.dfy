/** `oidc/services/userinfo.rs`: what an access token discloses, and why the user approved that. */
module UserInfo {
  import opened Wrappers
  import opened Schema
  import opened Events
  import opened World
  import opened ConsentBounds
  import opened SigningKeys
  import Scope
  import T = TokenEndpoint

  datatype User = User(id: Id, email: string, displayName: Option<string>, emailVerified: bool, updatedAt: Time)

  datatype Json = JsonString(text: string) | JsonNumber(number: int) | JsonBool(flag: bool) | JsonId(id: Id)

  /** What a claim discloses, and the scope that pays for it; `sub` is free. */
  function ClaimValue(user: User, scopes: set<string>, claim: string): Option<Json> {
    if claim == "sub" then Some(JsonId(user.id))
    else if claim == "name" && Scope.PROFILE in scopes && user.displayName.Some?
    then Some(JsonString(user.displayName.value))
    else if claim == "updated_at" && Scope.PROFILE in scopes then Some(JsonNumber(Timestamp(user.updatedAt)))
    else if claim == "email" && Scope.EMAIL in scopes then Some(JsonString(user.email))
    else if claim == "email_verified" && Scope.EMAIL in scopes then Some(JsonBool(user.emailVerified))
    else None
  }

  ghost predicate ClaimsAre(claims: map<string, Json>, user: User, scopes: set<string>) {
    forall claim :: if claim in claims then ClaimValue(user, scopes, claim) == Some(claims[claim])
                    else ClaimValue(user, scopes, claim) == None
  }

  /** The claims spelled out, scope by scope (sections 5.1 and 5.4 of OpenID Connect Core). */
  function Disclosed(user: User, scopes: set<string>): map<string, Json> {
    map["sub" := JsonId(user.id)]
    + (if "profile" in scopes then
         (if user.displayName.Some? then map["name" := JsonString(user.displayName.value)] else map[])
         + map["updated_at" := JsonNumber(user.updatedAt / SECOND)]
       else map[])
    + (if "email" in scopes then
         map["email" := JsonString(user.email), "email_verified" := JsonBool(user.emailVerified)]
       else map[])
  }

  /** Exactly these claims meet the description. */
  lemma DisclosedExactly(claims: map<string, Json>, user: User, scopes: set<string>)
    ensures ClaimsAre(claims, user, scopes) <==> claims == Disclosed(user, scopes)
  {
    var disclosed := Disclosed(user, scopes);
    assert ClaimsAre(disclosed, user, scopes);
    if ClaimsAre(claims, user, scopes) {
      forall claim ensures claim in claims <==> claim in disclosed {
        assert if claim in claims then ClaimValue(user, scopes, claim) == Some(claims[claim])
               else ClaimValue(user, scopes, claim) == None;
      }
    }
  }

  /** `claims_for`, inserting claim by claim. */
  method ClaimsFor(user: User, scopes: set<string>) returns (claims: map<string, Json>)
    ensures ClaimsAre(claims, user, scopes)
  {
    claims := map[];
    claims := claims["sub" := JsonId(user.id)];
    if Scope.PROFILE in scopes {
      if user.displayName.Some? {
        claims := claims["name" := JsonString(user.displayName.value)];
      }
      claims := claims["updated_at" := JsonNumber(Timestamp(user.updatedAt))];
    }
    if Scope.EMAIL in scopes {
      claims := claims["email" := JsonString(user.email)];
      claims := claims["email_verified" := JsonBool(user.emailVerified)];
    }
  }

  datatype UserInfoError = InvalidToken | InsufficientScope

  type Answer = Result<map<string, Json>, UserInfoError>

  /** The table of users, by id. */
  ghost predicate UsersOk(users: map<Id, User>) { forall id :: id in users ==> users[id].id == id }

  /** What a presented token is answered with. */
  ghost predicate Answers(keys: KeySet, issuer: string, token: Jwt, users: map<Id, User>, now: Time, r: Answer) {
    match Verify(keys, token, ACCESS_TOKEN_TYPE, issuer, now)
    case Err(_) => r == Err(InvalidToken)
    case Ok(claims) =>
      if Scope.OPENID !in T.ClaimedScopes(claims) then r == Err(InsufficientScope)
      else if claims.sub !in users then r == Err(InvalidToken)
      else r.Ok? && ClaimsAre(r.value, users[claims.sub], T.ClaimedScopes(claims))
  }

  /** `userinfo`. */
  method UserInfo(keys: KeySet, issuer: string, token: Jwt, users: map<Id, User>, now: Time) returns (r: Answer)
    ensures Answers(keys, issuer, token, users, now, r)
  {
    var verified := Verify(keys, token, ACCESS_TOKEN_TYPE, issuer, now);
    if verified.Err? {
      return Err(InvalidToken);
    }
    var claims := verified.value;
    var parsed := Scope.Parse(claims.scope);
    var scopes := if parsed.Ok? then parsed.value else {};
    if Scope.OPENID !in scopes {
      return Err(InsufficientScope);
    }
    if claims.sub !in users {
      return Err(InvalidToken);
    }
    var disclosed := ClaimsFor(users[claims.sub], scopes);
    return Ok(disclosed);
  }

  // ------------------------------------------------------------- accepted, hence issued, hence approved

  /**
   * Ideal signatures: with these key pairs, which only the server has, nothing was ever signed
   * but the access tokens in the history and ID tokens.
   */
  ghost predicate Unforged(history: seq<Event>, pairs: set<KeyPair>, token: Jwt) {
    token.signedBy in pairs ==>
      || token.typ == Some(ID_TOKEN_TYPE)
      || (token.typ == Some(ACCESS_TOKEN_TYPE) &&
          exists i :: 0 <= i < |history| && history[i].TokensIssued? && history[i].access == token.claims)
  }

  /** All loaded keys are the server's own. */
  ghost predicate OwnKeys(keys: KeySet, pairs: set<KeyPair>) {
    forall i :: 0 <= i < |keys.keys| ==> keys.keys[i].pair in pairs
  }

  /** Every access token the server accepts is one it issued. */
  lemma AcceptedWasIssued(history: seq<Event>, pairs: set<KeyPair>, keys: KeySet, issuer: string, token: Jwt, now: Time)
    requires Unforged(history, pairs, token) && OwnKeys(keys, pairs)
    requires Verify(keys, token, ACCESS_TOKEN_TYPE, issuer, now).Ok?
    ensures exists i :: 0 <= i < |history| && history[i].TokensIssued?
                        && history[i].access == Verify(keys, token, ACCESS_TOKEN_TYPE, issuer, now).value
  {
    assert |ID_TOKEN_TYPE| != |ACCESS_TOKEN_TYPE|;
  }

  /** The scope a claim needs. */
  function ScopeOf(claim: string): string {
    if claim == "email" || claim == "email_verified" then Scope.EMAIL else Scope.PROFILE
  }

  /** The token with these claims was issued, and before that its user had approved this scope for its client. */
  ghost predicate IssuedWithApproval(history: seq<Event>, claims: AccessClaims, scope: string) {
    exists i :: 0 <= i < |history| && history[i].TokensIssued? && history[i].access == claims
                && ApprovedAndAllowed(history[..i], claims.sub, history[i].client, scope)
  }

  lemma IssuedIsApproved(env: Env, w: World, i: nat, user: User, disclosed: map<string, Json>, claim: string)
    requires Reachable(env, w) && i < |w.history| && w.history[i].TokensIssued?
    requires ClaimsAre(disclosed, user, T.ClaimedScopes(w.history[i].access))
    requires claim in disclosed && claim != "sub"
    ensures claim in {"name", "updated_at", "email", "email_verified"}
    ensures IssuedWithApproval(w.history, w.history[i].access, ScopeOf(claim))
  {
    hide Reachable, T.ClaimedScopes, ApprovedAndAllowed;
    AccessTokensAreBounded(env, w, i, ScopeOf(claim));
    assert ClaimValue(user, T.ClaimedScopes(w.history[i].access), claim) == Some(disclosed[claim]);
  }

  /**
   * Whatever the endpoint discloses beyond the user id, for whatever token is presented, is
   * about the user of a token that the server issued, and belongs to a scope that this user had
   * approved for the token's client before it was issued.
   */
  lemma DisclosureIsApproved(env: Env, w: World, pairs: set<KeyPair>, keys: KeySet, token: Jwt, users: map<Id, User>,
                             now: Time,
                             r: Answer, claim: string)
    requires Reachable(env, w) && Unforged(w.history, pairs, token) && OwnKeys(keys, pairs) && UsersOk(users)
    requires Answers(keys, env.issuer, token, users, now, r) && r.Ok? && claim in r.value
    ensures token.claims.sub in users && r.value["sub"] == JsonId(token.claims.sub)
    ensures claim == "sub" || claim in {"name", "updated_at", "email", "email_verified"}
    ensures claim != "sub" ==> IssuedWithApproval(w.history, token.claims, ScopeOf(claim))
  {
    hide Reachable, T.ClaimedScopes, IssuedWithApproval, Unforged, OwnKeys;
    AcceptedWasIssued(w.history, pairs, keys, env.issuer, token, now);
    var claims := Verify(keys, token, ACCESS_TOKEN_TYPE, env.issuer, now).value;
    var i :| 0 <= i < |w.history| && w.history[i].TokensIssued? && w.history[i].access == claims;
    assert ClaimValue(users[claims.sub], T.ClaimedScopes(claims), "sub") == Some(JsonId(claims.sub));
    assert "sub" in r.value;
    if claim != "sub" {
      IssuedIsApproved(env, w, i, users[claims.sub], r.value, claim);
    }
  }
}
