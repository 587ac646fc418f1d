/** What one step can do to the refresh-token and code tables, and nothing else. */
module Changes {
  import opened Wrappers
  import opened Schema
  import opened Secret
  import opened Statements
  import opened Events
  import opened Clients
  import opened AuthorizationRequests
  import opened World
  import opened Preservation
  import Params
  import Scope
  import A = Authorization
  import T = TokenEndpoint

  datatype TokenChange =
    | Kept
    | Dropped(client: Id)
    | RevokedFamilies(families: set<Id>)
    | Started(row: RefreshToken)
    | Rotated(record: RefreshToken, row: RefreshToken)

  ghost predicate ChangedBy(rows: map<Id, RefreshToken>, rows': map<Id, RefreshToken>, c: TokenChange, now: Time) {
    match c
    case Kept => rows' == rows
    case Dropped(client) => rows' == map k | k in rows && rows[k].clientId != client :: rows[k]
    case RevokedFamilies(families) =>
      && rows'.Keys == rows.Keys
      && forall k :: k in rows ==>
           rows'[k] == if rows[k].familyId in families && rows[k].revokedAt.None?
                       then rows[k].(revokedAt := Some(now)) else rows[k]
    case Started(row) =>
      && row.id !in rows && rows' == rows[row.id := row]
      && row.revokedAt.None? && row.rotatedTo.None? && row.createdAt == now
    case Rotated(record, row) =>
      && record.id in rows && rows[record.id] == record && T.CheckUsable(record, record.clientId, now).None?
      && row.id !in rows
      && row == record.(id := row.id, tokenHash := row.tokenHash, createdAt := now,
                        expiresAt := now + T.REFRESH_TOKEN_TTL)
      && rows' == rows[row.id := row][record.id := record.(rotatedTo := Some(row.id))]
  }

  lemma RedeemChange(env: Env, t: Tables, client: Client, hash: string, uri: string, verifier: string, drawn: Fresh,
                     signs: bool, now: Time)
    returns (c: TokenChange)
    requires Constraints(t)
    ensures ChangedBy(t.tokens,
                      T.RedeemCode(env, t, client, hash, uri, verifier, drawn, signs, now).tables.tokens, c, now)
    ensures !c.Dropped? && !c.Rotated?
    ensures c.Started? ==> c.row.familyId == drawn.familyId && c.row.id == drawn.rowId && c.row.clientId == client.id
    ensures c.RevokedFamilies? ==> CodeByHash(t, hash).Some? && CodeByHash(t, hash).value.usedAt.Some?
    ensures c.RevokedFamilies? ==> c.families == FamiliesOfCode(t, CodeByHash(t, hash).value.id)
  {
    hide T.SignedTokens, Scope.Parsed, T.BindingError, ClientKeys, ConsentKeys;
    var o := T.RedeemCode(env, t, client, hash, uri, verifier, drawn, signs, now);
    var (claimed, record) := ClaimCode(t, hash, now);
    if record.None? && CodeByHash(t, hash).Some? {
      c := RevokedFamilies(FamiliesOfCode(t, CodeByHash(t, hash).value.id));
    } else if o.tables.tokens == t.tokens {
      c := Kept;
    } else {
      c := Started(o.tables.tokens[drawn.rowId]);
    }
  }

  lemma RotateChange(env: Env, t: Tables, client: Client, hash: string, requested: Option<set<string>>, drawn: Fresh,
                     signs: bool, now: Time)
    returns (c: TokenChange)
    requires Constraints(t)
    ensures ChangedBy(t.tokens, T.Rotate(env, t, client, hash, requested, drawn, signs, now).tables.tokens, c, now)
    ensures !c.Dropped? && !c.Started?
    ensures c.Rotated? ==>
              c.record.clientId == client.id && TokenByHash(t, hash) == Some(c.record) && c.row.id == drawn.rowId
    ensures c.RevokedFamilies? ==>
              TokenByHash(t, hash).Some? && TokenByHash(t, hash).value.clientId == client.id
              && c.families == {TokenByHash(t, hash).value.familyId}
  {
    var o := T.Rotate(env, t, client, hash, requested, drawn, signs, now);
    c := Kept;
    if TokenByHash(t, hash).Some? {
      var record := TokenByHash(t, hash).value;
      var verdict := T.CheckUsable(record, client.id, now);
      if verdict == Some(T.AlreadyRotated) {
        c := RevokedFamilies({record.familyId});
      } else if verdict.None? && o.tables != t {
        c := Rotated(record, o.tables.tokens[drawn.rowId]);
      }
    }
  }

  lemma TokenRequestChange(env: Env, t: Tables, header: BasicHeader, pairs: Params.Pairs, drawn: Fresh, signs: bool,
                           now: Time)
    returns (c: TokenChange)
    requires Constraints(t)
    ensures ChangedBy(t.tokens, T.HandleToken(env, t, header, pairs, drawn, signs, now).tables.tokens, c, now)
    ensures !c.Dropped?
    ensures c.Started? ==> c.row.familyId == drawn.familyId
    ensures c.Started? || c.Rotated? ==> c.row.id == drawn.rowId
  {
    hide T.RedeemCode, T.Rotate, T.AuthenticatedClient, Constraints;
    c := Kept;
    if Params.Collected(pairs).Ok? {
      var params := Params.Collected(pairs).value;
      var grant := T.ParseGrantType(Params.Get(params, "grant_type"));
      var client := T.AuthenticatedClient(env, t, header, params);
      if client.Ok? && grant.Ok? {
        var code, uri, verifier :=
            Params.Get(params, "code"), Params.Get(params, "redirect_uri"), Params.Get(params, "code_verifier");
        var raw, scope := Params.Get(params, "refresh_token"), Params.Get(params, "scope");
        if grant.value.AuthorizationCodeGrant? {
          if code.Some? && uri.Some? && verifier.Some? {
            c := RedeemChange(env, t, client.value, HashToken(env.sha256, code.value), uri.value, verifier.value, drawn,
                              signs, now);
          }
        } else if raw.Some? && scope.None? {
          c := RotateChange(env, t, client.value, HashToken(env.sha256, raw.value), None, drawn, signs, now);
        } else if raw.Some? && Scope.Parsed(scope.value).Ok? {
          c := RotateChange(env, t, client.value, HashToken(env.sha256, raw.value),
                            Some(Scope.Parsed(scope.value).value), drawn, signs, now);
        }
      }
    }
  }

  lemma RevocationChange(env: Env, t: Tables, header: BasicHeader, pairs: Params.Pairs, now: Time)
    returns (c: TokenChange)
    requires Constraints(t)
    ensures ChangedBy(t.tokens, T.HandleRevocation(env, t, header, pairs, now).tables.tokens, c, now)
    ensures c.Kept? || c.RevokedFamilies?
  {
    hide T.AuthenticatedClient, Constraints;
    c := Kept;
    var o := T.HandleRevocation(env, t, header, pairs, now);
    if o.tables != t {
      var hash := HashToken(env.sha256, Params.Get(Params.Collected(pairs).value, "token").value);
      c := RevokedFamilies({TokenByHash(t, hash).value.familyId});
    }
  }

  lemma AuthorizationKeepsTokens(env: Env, t: Tables, pairs: Params.Pairs, csrfOk: bool, session: Option<A.Session>,
                                 drawn: Fresh, now: Time)
    ensures A.Authorize(env, t, pairs, session, drawn, now).tables.tokens == t.tokens
    ensures A.Consented(env, t, pairs, csrfOk, session, drawn, now).tables.tokens == t.tokens
  {
    hide A.Validate, A.IssueCode, A.GrantConsent, A.AlreadyApproved, A.NeedsReauthentication;
    if Params.Collected(pairs).Ok? && session.Some? {
      var v := A.Validate(env, t, FromParams(Params.Collected(pairs).value));
      if v.Ok? {
        IssuingKeepsTokens(env, t, v.value, session.value, drawn, now);
        var granted := A.GrantConsent(t, session.value.user, v.value.client.id, v.value.scope, now);
        if granted.Ok? {
          IssuingKeepsTokens(env, granted.value, v.value, session.value, drawn, now);
          GrantingKeepsTokens(t, session.value.user, v.value.client.id, v.value.scope, now);
        }
      }
    }
  }

  lemma IssuingKeepsTokens(env: Env, t: Tables, v: A.ValidatedRequest, session: A.Session, drawn: Fresh, now: Time)
    ensures A.IssueCode(env, t, v, session, drawn, now).tables
              == t.(codes := A.IssueCode(env, t, v, session, drawn, now).tables.codes)
  {
  }

  lemma GrantingKeepsTokens(t: Tables, user: Id, client: Id, scopes: set<string>, now: Time)
    ensures A.GrantConsent(t, user, client, scopes, now).Ok? ==>
              A.GrantConsent(t, user, client, scopes, now).value
              == t.(consents := A.GrantConsent(t, user, client, scopes, now).value.consents)
  {
  }

  lemma DeleteAppChange(env: Env, w: World, owner: Id, clientId: string, confirmed: bool, now: Time)
    returns (c: TokenChange)
    requires Inv(env, w)
    ensures ChangedBy(w.tables.tokens, Clients.DeleteApp(w.tables, owner, clientId, confirmed).0.tokens, c, now)
    ensures c.Kept? || c.Dropped?
  {
    hide Inv;
    c := Kept;
    var app := OwnedClient(w.tables, owner, clientId);
    if app.Some? && confirmed {
      DeleteClientSucceeds(env, w, app.value.id);
      c := Dropped(app.value.id);
    }
  }

  predicate IsRegistryStep(step: Step) {
    step.RegisterByOperator? || step.RegisterApp? || step.UpdateApp? || step.RotateAppSecret? || step.DeleteApp?
  }

  /** Registering, updating and rotating leave codes, consents and tokens alone. */
  lemma RegistryTouchesOnlyClients(env: Env, t: Tables, step: Step, now: Time)
    requires IsRegistryStep(step) && !step.DeleteApp?
    ensures var t' := Effect(env, t, step, now).0;
            t'.codes == t.codes && t'.consents == t.consents && t'.tokens == t.tokens
  {
    hide Clients.CheckedDetails, Clients.ClientRow;
  }

  /** Every allowed step changes the refresh-token table in one of five ways. */
  lemma StepChange(env: Env, w: World, step: Step, now: Time) returns (c: TokenChange)
    requires Inv(env, w) && Allowed(w, step, now)
    ensures ChangedBy(w.tables.tokens, Next(env, w, step, now).tables.tokens, c, now)
    ensures c.Started? ==> Chain(w.history, c.row.familyId) == []
    ensures c.Started? || c.Rotated? ==> step.TokenRequest? && c.row.id == step.drawn.rowId
  {
    hide T.HandleToken, T.HandleRevocation, A.Authorize, A.Consented, Clients.DeleteApp, Clients.Register,
         Clients.CreateApp, Clients.UpdateApp, Clients.RotateSecret, ClientsOk, ConsentsOk, CodesOk, RowsOk,
         FamiliesOk, ChainsOk, HistoryOk, Chain;
    c := Kept;
    match step {
      case TokenRequest(header, pairs, drawn, signs) =>
        c := TokenRequestChange(env, w.tables, header, pairs, drawn, signs, now);
      case RevocationRequest(header, pairs) => c := RevocationChange(env, w.tables, header, pairs, now);
      case AuthorizeRequest(pairs, session, drawn) =>
        AuthorizationKeepsTokens(env, w.tables, pairs, true, session, drawn, now);
      case ConsentAnswer(pairs, csrfOk, session, drawn) =>
        AuthorizationKeepsTokens(env, w.tables, pairs, csrfOk, session, drawn, now);
      case DeleteApp(owner, clientId, confirmed) => c := DeleteAppChange(env, w, owner, clientId, confirmed, now);
      case _ => RegistryTouchesOnlyClients(env, w.tables, step, now);
    }
  }

  // ------------------------------------------------------------- the history only grows

  lemma {:induction false} ChainGrows(history: seq<Event>, more: seq<Event>, family: Id)
    ensures Chain(history, family) <= Chain(history + more, family)
  {
    if more == [] {
      assert history + more == history;
    } else {
      var n := |more| - 1;
      ChainGrows(history, more[..n], family);
      ChainAppend(history + more[..n], more[n], family);
      assert history + more == history + more[..n] + [more[n]];
    }
  }
}
