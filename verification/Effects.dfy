/** The exact effect of every token request, and what one client can do to another. */
module Effects {
  import opened Wrappers
  import opened Schema
  import opened Secret
  import opened Statements
  import opened Events
  import opened World
  import opened Preservation
  import opened Steps
  import opened Changes
  import Params
  import Scope
  import T = TokenEndpoint

  /** The tables with one code marked as used, and nothing else changed. */
  function Consumed(t: Tables, id: Id, now: Time): Tables
    requires id in t.codes
  {
    t.(codes := t.codes[id := t.codes[id].(usedAt := Some(now))])
  }

  /** Exactly these rows were revoked now, unless they already were; nothing else changed. */
  ghost predicate RevokedExactly(t: Tables, t': Tables, rows: set<Id>, now: Time) {
    && t' == t.(tokens := t'.tokens) && t'.tokens.Keys == t.tokens.Keys
    && forall k :: k in t.tokens ==>
         t'.tokens[k]
         == if k in rows && t.tokens[k].revokedAt.None? then t.tokens[k].(revokedAt := Some(now)) else t.tokens[k]
  }

  ghost function RowsOfCode(t: Tables, id: Id): set<Id> {
    set k | k in t.tokens && t.tokens[k].codeId == Some(id)
  }

  ghost function RowsOfFamily(t: Tables, family: Id): set<Id> {
    set k | k in t.tokens && t.tokens[k].familyId == family
  }

  /** The row id or secret just drawn is already taken, so the insert fails. */
  ghost predicate Collides(env: Env, t: Tables, drawn: Fresh) {
    drawn.rowId in t.tokens || exists k :: k in t.tokens && t.tokens[k].tokenHash == HashToken(env.sha256, drawn.secret)
  }

  /** A code nobody issued: no change at all. */
  lemma UnknownCode(env: Env, t: Tables, client: Client, hash: string, uri: string, verifier: string, drawn: Fresh,
                    signs: bool, now: Time)
    requires forall id :: id in t.codes ==> t.codes[id].codeHash != hash
    ensures T.RedeemCode(env, t, client, hash, uri, verifier, drawn, signs, now)
            == Outcome(t, Err(T.InvalidGrant("authorization code is invalid")), [])
  {
  }

  /** A used code: the refresh tokens that descend from it are revoked, and nothing else happens. */
  lemma ReplayedCode(env: Env, w: World, id: Id, client: Client, uri: string, verifier: string, drawn: Fresh,
                     signs: bool, now: Time)
    requires Reachable(env, w) && id in w.tables.codes && w.tables.codes[id].usedAt.Some?
    ensures var o := T.RedeemCode(env, w.tables, client, w.tables.codes[id].codeHash, uri, verifier, drawn, signs, now);
            && o.response == Err(T.InvalidGrant("authorization code has already been used")) && o.events == []
            && RevokedExactly(w.tables, o.tables, RowsOfCode(w.tables, id), now)
  {
    hide Reachable, ClientsOk, ConsentsOk, CodesOk, RowsOk, ChainsOk, HistoryOk, Chain;
    ReachableInv(env, w);
    var t := w.tables;
    FindCode(t, id);
    forall k | k in t.tokens ensures t.tokens[k].familyId in FamiliesOfCode(t, id) <==> k in RowsOfCode(t, id) {
      if t.tokens[k].familyId in FamiliesOfCode(t, id) {
        var other :| other in t.tokens && t.tokens[other].codeId == Some(id)
            && t.tokens[other].familyId == t.tokens[k].familyId;
      }
    }
  }

  /** A code presented with the wrong client, URI or verifier, or too late: it is consumed and nothing else happens. */
  lemma RejectedCode(env: Env, t: Tables, id: Id, client: Client, uri: string, verifier: string, drawn: Fresh,
                     signs: bool, now: Time)
    requires Constraints(t) && id in t.codes && t.codes[id].usedAt.None?
    requires T.BindingError(env, t.codes[id], client, uri, verifier, now).Some?
    ensures T.RedeemCode(env, t, client, t.codes[id].codeHash, uri, verifier, drawn, signs, now)
            == Outcome(Consumed(t, id, now),
                       Err(T.BindingError(env, t.codes[id], client, uri, verifier, now).value), [])
  {
    FindCode(t, id);
  }

  /**
   * The tokens of a response, claim by claim: the access token (section 2.2 of RFC 9068) is for
   * this server, the ID token (section 2 of OpenID Connect Core) for the client, and exists
   * exactly for `openid`; both end fifteen minutes from now.
   */
  predicate CarriesTokens(env: Env, response: T.TokenResponse, client: Client, user: Id, scope: set<string>,
                          authTime: Time, nonce: Option<string>, jti: Id, now: Time) {
    var exp, iat := (now + 15 * 60 * SECOND) / SECOND, now / SECOND;
    && response.access == AccessClaims(env.issuer, user, env.issuer, exp, iat, jti, client.clientId, Scope.Print(scope),
                                       authTime / SECOND)
    && response.idToken == (if "openid" in scope
                            then Some(T.IdClaims(env.issuer, user, client.clientId, exp, iat, authTime / SECOND, nonce))
                            else None)
    && response.tokenType == "Bearer" && response.expiresIn == 900 && response.scope == Scope.Print(scope)
  }

  /** What a successful redemption leaves behind: the code consumed, and one row exactly for `offline_access`. */
  ghost predicate RedemptionDone(env: Env, t: Tables, code: Code, client: Client, drawn: Fresh, now: Time,
                                 o: T.TokenOutcome) {
    var scope := Scope.Names(code.scope);
    var first := RefreshToken(drawn.rowId, HashToken(env.sha256, drawn.secret), drawn.familyId, Some(code.id),
                              client.id, code.userId, code.scope, code.authTime, now + 30 * 24 * 60 * 60 * SECOND, now,
                              None, None);
    && o.response.Ok?
    && o.tables.codes == t.codes[code.id := code.(usedAt := Some(now))]
    && o.tables.clients == t.clients && o.tables.consents == t.consents
    && o.tables.tokens == (if "offline_access" in scope then t.tokens[drawn.rowId := first] else t.tokens)
    && o.response.value.refreshToken == (if "offline_access" in scope then Some(drawn.secret) else None)
    && o.response.value.scope == code.scope
    && CarriesTokens(env, o.response.value, client, code.userId, scope, code.authTime, code.nonce, drawn.jti, now)
    && o.events == (if "offline_access" in scope then [RefreshIssued(drawn.rowId, drawn.familyId)] else [])
                   + [TokensIssued(code.userId, client.id, scope, o.response.value.access)]
  }

  /**
   * A code presented as it was issued. It succeeds exactly when signing works and, if a refresh
   * token is due, its row can be stored. Otherwise the transaction leaves no trace, and the
   * code is still good.
   */
  lemma RedeemedCode(env: Env, w: World, id: Id, client: Client, uri: string, verifier: string, drawn: Fresh,
                     signs: bool, now: Time)
    requires Reachable(env, w) && id in w.tables.codes && w.tables.codes[id].usedAt.None?
    requires T.BindingError(env, w.tables.codes[id], client, uri, verifier, now).None?
    ensures var code := w.tables.codes[id];
            var o := T.RedeemCode(env, w.tables, client, code.codeHash, uri, verifier, drawn, signs, now);
            && (o.response.Ok?
                <==> signs && (Scope.OFFLINE_ACCESS in Scope.Names(code.scope) ==> !Collides(env, w.tables, drawn)))
            && (o.response.Ok? ==> RedemptionDone(env, w.tables, code, client, drawn, now, o))
            && (o.response.Err? ==> o == Outcome(w.tables, Err(T.Internal), []))
  {
    hide Reachable, ClientsOk, ConsentsOk, CodesOk, RowsOk, FamiliesOk, ChainsOk, HistoryOk, Chain, T.RedeemCode,
      RedemptionDone;
    ReachableInv(env, w);
    FindCode(w.tables, id);
    CodeIsOk(w, id);
    StoredScope(w.history, w.tables.codes[id], w.clock);
    RedeemedRow(env, w.tables, w.tables.codes[id], client, uri, verifier, drawn, signs, now);
  }

  lemma RedeemedRow(env: Env, t: Tables, code: Code, client: Client, uri: string, verifier: string, drawn: Fresh,
                    signs: bool, now: Time)
    requires code.id in t.codes && t.codes[code.id] == code && code.usedAt.None? && code.clientId in t.clients
    requires CodeByHash(t, code.codeHash) == Some(code)
    requires T.BindingError(env, code, client, uri, verifier, now).None?
    requires Scope.Parsed(code.scope) == Ok(Scope.Names(code.scope))
             && Scope.Print(Scope.Names(code.scope)) == code.scope
    ensures var o := T.RedeemCode(env, t, client, code.codeHash, uri, verifier, drawn, signs, now);
            && (o.response.Ok?
                <==> signs && (Scope.OFFLINE_ACCESS in Scope.Names(code.scope) ==> !Collides(env, t, drawn)))
            && (o.response.Ok? ==> RedemptionDone(env, t, code, client, drawn, now, o))
            && (o.response.Err? ==> o == Outcome(t, Err(T.Internal), []))
  {
    hide Scope.Print, Scope.Parsed, Scope.Names, HashToken, CodeByHash;
  }

  /** A rotated token presented again: its whole family is revoked, and nothing else happens. */
  lemma ReplayedToken(env: Env, t: Tables, k: Id, client: Client, requested: Option<set<string>>, drawn: Fresh,
                      signs: bool, now: Time)
    requires Constraints(t) && k in t.tokens
    requires T.CheckUsable(t.tokens[k], client.id, now) == Some(T.AlreadyRotated)
    ensures var o := T.Rotate(env, t, client, t.tokens[k].tokenHash, requested, drawn, signs, now);
            && o.response == Err(T.InvalidGrant("refresh token has already been used")) && o.events == []
            && RevokedExactly(t, o.tables, RowsOfFamily(t, t.tokens[k].familyId), now)
  {
    FindToken(t, k);
  }

  /** Every other failure of a refresh changes nothing. */
  lemma RefreshFailureChangesNothing(env: Env, t: Tables, hash: string, client: Client, requested: Option<set<string>>,
                                     drawn: Fresh, signs: bool, now: Time)
    requires Constraints(t)
    requires T.Rotate(env, t, client, hash, requested, drawn, signs, now).response.Err?
    requires forall k :: k in t.tokens && t.tokens[k].tokenHash == hash ==>
               T.CheckUsable(t.tokens[k], client.id, now) != Some(T.AlreadyRotated)
    ensures T.Rotate(env, t, client, hash, requested, drawn, signs, now).tables == t
    ensures T.Rotate(env, t, client, hash, requested, drawn, signs, now).events == []
  {
  }

  /**
   * What a successful refresh leaves behind: the old row points at one new row that repeats its
   * grant, even if narrower tokens were asked for; the ID token carries no nonce.
   */
  ghost predicate RotationDone(env: Env, t: Tables, row: RefreshToken, client: Client, scope: set<string>,
                               drawn: Fresh, now: Time, o: T.TokenOutcome) {
    var successor := row.(id := drawn.rowId, tokenHash := HashToken(env.sha256, drawn.secret),
                          createdAt := now, expiresAt := now + 30 * 24 * 60 * 60 * SECOND);
    && o.response.Ok?
    && o.tables == t.(tokens := t.tokens[drawn.rowId := successor][row.id := row.(rotatedTo := Some(drawn.rowId))])
    && o.response.value.refreshToken == Some(drawn.secret)
    && CarriesTokens(env, o.response.value, client, row.userId, scope, row.authTime, None, drawn.jti, now)
    && o.events == [RefreshIssued(drawn.rowId, row.familyId),
                    TokensIssued(row.userId, client.id, scope, o.response.value.access)]
  }

  /**
   * A usable token is exchanged exactly when the requested scope does not exceed the grant,
   * signing works and the new row can be stored.
   */
  lemma RotatedToken(env: Env, w: World, k: Id, client: Client, requested: Option<set<string>>, drawn: Fresh,
                     signs: bool, now: Time)
    requires Reachable(env, w) && k in w.tables.tokens && T.CheckUsable(w.tables.tokens[k], client.id, now).None?
    ensures var row := w.tables.tokens[k];
            var scope := if requested.Some? then requested.value else Scope.Names(row.scope);
            var o := T.Rotate(env, w.tables, client, row.tokenHash, requested, drawn, signs, now);
            && (o.response.Ok? <==> scope <= Scope.Names(row.scope) && signs && !Collides(env, w.tables, drawn))
            && (o.response.Ok? ==> RotationDone(env, w.tables, row, client, scope, drawn, now, o))
  {
    hide Reachable, ClientsOk, ConsentsOk, CodesOk, RowsOk, FamiliesOk, ChainsOk, HistoryOk, Chain, RotationDone,
         Collides, T.RotateUsable, Scope.Print, Scope.Parsed, Scope.Names, Scope.IsStored, HashToken;
    ReachableInv(env, w);
    FindToken(w.tables, k);
    RowIsOk(w, k);
    CodeIsOk(w, w.tables.tokens[k].codeId.value);
    StoredScope(w.history, w.tables.codes[w.tables.tokens[k].codeId.value], w.clock);
    RotatedUsable(env, w.tables, w.tables.tokens[k], client, requested, drawn, signs, now);
  }

  lemma RotatedUsable(env: Env, t: Tables, row: RefreshToken, client: Client, requested: Option<set<string>>,
                      drawn: Fresh, signs: bool, now: Time)
    requires row.id in t.tokens && t.tokens[row.id] == row && row.clientId == client.id && row.clientId in t.clients
    requires row.revokedAt.None? && row.rotatedTo.None? && row.codeId.Some? && row.codeId.value in t.codes
    requires Scope.Parsed(row.scope) == Ok(Scope.Names(row.scope))
    ensures var scope := if requested.Some? then requested.value else Scope.Names(row.scope);
            var o := T.RotateUsable(env, t, client, row, requested, drawn, signs, now);
            && (o.response.Ok? <==> scope <= Scope.Names(row.scope) && signs && !Collides(env, t, drawn))
            && (o.response.Ok? ==> RotationDone(env, t, row, client, scope, drawn, now, o))
  {
    hide Scope.Print, Scope.Parsed, Scope.Names, HashToken;
  }

  /** A client cannot tell a token of another client from one that does not exist. */
  lemma ForeignTokenLooksUnknown(env: Env, t: Tables, k: Id, client: Client, requested: Option<set<string>>,
                                 drawn: Fresh, signs: bool, now: Time)
    requires Constraints(t) && k in t.tokens && t.tokens[k].clientId != client.id
    ensures T.Rotate(env, t, client, t.tokens[k].tokenHash, requested, drawn, signs, now)
            == T.Rotate(env, t, client, t.tokens[k].tokenHash, requested, drawn, signs, now).(tables := t)
    ensures T.Rotate(env, t, client, t.tokens[k].tokenHash, requested, drawn, signs, now).response
            == T.Rotate(env, t.(tokens := map[]), client, t.tokens[k].tokenHash, requested, drawn, signs, now).response
  {
    FindToken(t, k);
  }
}
