/** Every allowed step, and so every allowed run, keeps the invariant. */
module Steps {
  import opened Wrappers
  import opened Text
  import opened Schema
  import opened Secret
  import opened Statements
  import opened Events
  import opened Clients
  import opened AuthorizationRequests
  import opened World
  import opened Preservation
  import Params
  import Scope
  import Pkce
  import A = Authorization
  import T = TokenEndpoint

  // ------------------------------------------------------------- authorization endpoint

  lemma IssueCodeInv(env: Env, w: World, v: A.ValidatedRequest, session: A.Session, drawn: Fresh, now: Time)
    requires Inv(env, w) && w.clock == now
    requires Scope.IsScopeSet(v.scope) && v.scope <= v.client.AllowedScopes()
    requires Pkce.IsValidS256Challenge(v.codeChallenge) && v.redirectUri != ""
    requires forall s :: s in v.scope ==> HasApproval(w.history, session.user, v.client.id, s)
    ensures var o := A.IssueCode(env, w.tables, v, session, drawn, now);
            Inv(env, World(o.tables, now, w.history + o.events))
  {
    hide ClientsOk, ConsentsOk, CodesOk, RowsOk, FamiliesOk, ChainsOk, HistoryOk, Constraints;
    var o := A.IssueCode(env, w.tables, v, session, drawn, now);
    var row := A.CodeRow(env, v, session, drawn, now);
    if InsertCode(w.tables, row).Err? {
      assert w.history + [] == w.history;
    } else {
      var e := CodeIssued(session.user, v.client.id, v.scope, v.client.AllowedScopes());
      EventKeeps(env, w, e, now);
      Scope.PrintedIsStored(v.scope);
      assert (w.history + [e])[|w.history|] == e;
      InsertCodeInv(env, World(w.tables, now, w.history + [e]), row);
    }
  }

  lemma ValidatedFacts(env: Env, t: Tables, r: AuthorizationRequest)
    requires A.Validate(env, t, r).Ok? && r.redirectUri != Some("")
    ensures var v := A.Validate(env, t, r).value;
            && Scope.IsScopeSet(v.scope) && v.scope <= v.client.AllowedScopes()
            && Pkce.IsValidS256Challenge(v.codeChallenge) && v.redirectUri != ""
            && ClientByName(t, r.clientId.value) == Some(v.client)
  {
    hide A.ValidateProtocol;
    ValidatedProtocolFacts(ClientByName(t, r.clientId.value).value, r.redirectUri.value, r);
  }

  lemma ValidatedProtocolFacts(client: Client, uri: string, r: AuthorizationRequest)
    requires A.ValidateProtocol(client, uri, r).Ok?
    ensures var v := A.ValidateProtocol(client, uri, r).value;
            && Scope.IsScopeSet(v.scope) && v.scope <= v.client.AllowedScopes()
            && Pkce.IsValidS256Challenge(v.codeChallenge) && v.redirectUri == uri && v.client == client
  {
    hide ParsedPrompt, ParseU32, Utf8Len, Pkce.IsValidS256Challenge;
  }

  lemma AuthorizeInv(env: Env, w: World, pairs: Params.Pairs, session: Option<A.Session>, drawn: Fresh, now: Time)
    requires Inv(env, w) && w.clock == now
    ensures var o := A.Authorize(env, w.tables, pairs, session, drawn, now);
            Inv(env, World(o.tables, now, w.history + o.events))
  {
    hide ClientsOk, CodesOk, RowsOk, FamiliesOk, ChainsOk, HistoryOk, Constraints, A.Validate, A.IssueCode;
    assert w.history + [] == w.history;
    if Params.Collected(pairs).Ok? {
      var r := FromParams(Params.Collected(pairs).value);
      if A.Validate(env, w.tables, r).Ok? && session.Some? {
        var v := A.Validate(env, w.tables, r).value;
        if A.AlreadyApproved(w.tables, session.value.user, v) {
          ValidatedFacts(env, w.tables, r);
          forall s | s in v.scope ensures HasApproval(w.history, session.value.user, v.client.id, s) {
            assert s in w.tables.consents[(session.value.user, v.client.id)].scopes;
          }
          IssueCodeInv(env, w, v, session.value, drawn, now);
        }
      }
    }
  }

  lemma ConsentedInv(env: Env, w: World, pairs: Params.Pairs, csrfOk: bool, session: Option<A.Session>, drawn: Fresh,
                     now: Time)
    requires Inv(env, w) && w.clock == now
    ensures var o := A.Consented(env, w.tables, pairs, csrfOk, session, drawn, now);
            Inv(env, World(o.tables, now, w.history + o.events))
  {
    hide ClientsOk, ConsentsOk, CodesOk, RowsOk, FamiliesOk, ChainsOk, HistoryOk, Constraints, A.Validate, A.IssueCode,
      A.GrantConsent;
    assert w.history + [] == w.history;
    if Params.Collected(pairs).Ok? && session.Some? {
      var r := FromParams(Params.Collected(pairs).value);
      if A.Validate(env, w.tables, r).Ok? {
        ValidatedFacts(env, w.tables, r);
        var v := A.Validate(env, w.tables, r).value;
        if A.GrantConsent(w.tables, session.value.user, v.client.id, v.scope, now).Ok? {
          ApprovedInv(env, w, v, session.value, drawn, now);
        }
      }
    }
  }

  lemma ApprovedInv(env: Env, w: World, v: A.ValidatedRequest, session: A.Session, drawn: Fresh, now: Time)
    requires Inv(env, w) && w.clock == now
    requires Scope.IsScopeSet(v.scope) && v.scope <= v.client.AllowedScopes()
    requires Pkce.IsValidS256Challenge(v.codeChallenge) && v.redirectUri != ""
    requires A.GrantConsent(w.tables, session.user, v.client.id, v.scope, now).Ok?
    ensures var o := A.IssueCode(env, A.GrantConsent(w.tables, session.user, v.client.id, v.scope, now).value, v,
                                 session, drawn, now);
            Inv(env, World(o.tables, now, w.history + ([Approved(session.user, v.client.id, v.scope)] + o.events)))
  {
    hide ClientsOk, ConsentsOk, CodesOk, RowsOk, FamiliesOk, ChainsOk, HistoryOk, Constraints, A.IssueCode,
      A.GrantConsent;
    var e := Approved(session.user, v.client.id, v.scope);
    var w1 := World(A.GrantConsent(w.tables, session.user, v.client.id, v.scope, now).value, now, w.history + [e]);
    GrantConsentInv(env, w, session.user, v.client.id, v.scope, now);
    assert w1.history[|w.history|] == e;
    IssueCodeInv(env, w1, v, session, drawn, now);
    var o := A.IssueCode(env, w1.tables, v, session, drawn, now);
    assert w.history + ([e] + o.events) == w1.history + o.events;
  }

  // ------------------------------------------------------------- token endpoint

  lemma TokensIssuedInv(env: Env, w: World, user: Id, client: Client, scopes: set<string>, authTime: Time, jti: Id,
                        now: Time)
    requires Inv(env, w) && HasIssued(w.history, user, client.id, scopes) && Scope.IsScopeSet(scopes)
    ensures Inv(env, World(w.tables, w.clock,
              w.history + [TokensIssued(user, client.id, scopes,
                                        T.NewAccessClaims(env, user, client, scopes, authTime, jti, now))]))
  {
    EventKeeps(env, w,
               TokensIssued(user, client.id, scopes,
                            T.NewAccessClaims(env, user, client, scopes, authTime, jti, now)), w.clock);
  }

  lemma StoredScope(history: seq<Event>, code: Code, clock: Time)
    requires CodeOk(history, code, clock)
    ensures Scope.Parsed(code.scope).Ok? && Scope.Parsed(code.scope).value == Scope.Names(code.scope)
    ensures Scope.IsScopeSet(Scope.Names(code.scope))
    ensures HasIssued(history, code.userId, code.clientId, Scope.Names(code.scope))
  {
  }

  lemma RedeemCodeInv(env: Env, w: World, client: Client, hash: string, uri: string, verifier: string, drawn: Fresh,
                      signs: bool, now: Time)
    requires Inv(env, w) && w.clock == now && Chain(w.history, drawn.familyId) == []
    ensures var o := T.RedeemCode(env, w.tables, client, hash, uri, verifier, drawn, signs, now);
            Inv(env, World(o.tables, now, w.history + o.events))
  {
    hide ClientsOk, ConsentsOk, CodeOk, RowOk, FamiliesOk, IsChain, ChainsOk, HistoryOk, Chain, T.BindingError;
    assert w.history + [] == w.history;
    var t := w.tables;
    var (claimed, record) := ClaimCode(t, hash, now);
    if record.None? {
      if CodeByHash(t, hash).Some? {
        RevokeInv(env, w, FamiliesOfCode(t, CodeByHash(t, hash).value.id), now);
      }
    } else {
      ClaimCodeInv(env, w, hash, now);
      if T.BindingError(env, record.value, client, uri, verifier, now).None? {
        RedeemClaimedInv(env, w, client, hash, record.value, uri, verifier, drawn, signs, now);
      }
    }
  }

  lemma RedeemClaimedInv(env: Env, w: World, client: Client, hash: string, record: Code, uri: string, verifier: string,
                         drawn: Fresh, signs: bool, now: Time)
    requires Inv(env, w) && w.clock == now && Chain(w.history, drawn.familyId) == []
    requires ClaimCode(w.tables, hash, now).1 == Some(record)
    requires Inv(env, World(ClaimCode(w.tables, hash, now).0, now, w.history))
    requires T.BindingError(env, record, client, uri, verifier, now).None?
    ensures var o := T.RedeemCode(env, w.tables, client, hash, uri, verifier, drawn, signs, now);
            Inv(env, World(o.tables, now, w.history + o.events))
  {
    hide ClientsOk, ConsentsOk, CodeOk, CodesOk, RowOk, RowsOk, FamiliesOk, IsChain, ChainsOk, HistoryOk, Chain,
      ClientKeys, ConsentKeys, TokenKeys, T.NewRow, T.NewAccessClaims;
    var w1 := World(ClaimCode(w.tables, hash, now).0, now, w.history);
    assert CodeOk(w1.history, w1.tables.codes[record.id], now) by { CodeIsOk(w1, record.id); }
    StoredScope(w1.history, record, now);
    UnusedCodeHasNoTokens(w.tables, record.id, now);
    var o := T.RedeemCode(env, w.tables, client, hash, uri, verifier, drawn, signs, now);
    assert w.history + [] == w.history;
    if signs {
      var scope := Scope.Names(record.scope);
      TokensIssuedInv(env, w1, record.userId, client, scope, record.authTime, drawn.jti, now);
      var row := T.NewRow(env, drawn.familyId, Some(record.id), client.id, record.userId, record.scope, record.authTime,
                          drawn, now);
      if Scope.OFFLINE_ACCESS in scope && InsertToken(w1.tables, row).Ok? {
        FirstTokenInv(env, w1, client, record, row, drawn, now);
      }
    }
  }

  lemma CodeIsOk(w: World, id: Id)
    requires CodesOk(w.tables, w.history, w.clock) && id in w.tables.codes
    ensures CodeOk(w.history, w.tables.codes[id], w.clock)
  {
  }

  lemma RowIsOk(w: World, k: Id)
    requires RowsOk(w.tables, w.clock) && k in w.tables.tokens
    ensures RowOk(w.tables, w.tables.tokens[k], w.clock)
  {
  }

  lemma UnusedCodeHasNoTokens(t: Tables, id: Id, clock: Time)
    requires RowsOk(t, clock) && id in t.codes && t.codes[id].usedAt.None?
    ensures forall k :: k in t.tokens ==> t.tokens[k].codeId != Some(id)
  {
    forall k | k in t.tokens ensures t.tokens[k].codeId != Some(id) {
      assert RowOk(t, t.tokens[k], clock);
    }
  }

  /** The first refresh token of a family, and the tokens issued with it. */
  lemma FirstTokenInv(env: Env, w: World, client: Client, record: Code, row: RefreshToken, drawn: Fresh, now: Time)
    requires Inv(env, w) && w.clock == now && Chain(w.history, drawn.familyId) == []
    requires record.id in w.tables.codes && w.tables.codes[record.id] == record && record.usedAt.Some?
    requires record.clientId == client.id && Scope.OFFLINE_ACCESS in Scope.Names(record.scope)
    requires forall k :: k in w.tables.tokens ==> w.tables.tokens[k].codeId != Some(record.id)
    requires row == T.NewRow(env, drawn.familyId, Some(record.id), client.id, record.userId, record.scope,
                             record.authTime, drawn, now)
    requires InsertToken(w.tables, row).Ok?
    ensures Inv(env, World(InsertToken(w.tables, row).value, now, w.history + [RefreshIssued(row.id, row.familyId),
              TokensIssued(record.userId, client.id, Scope.Names(record.scope),
                           T.NewAccessClaims(env, record.userId, client, Scope.Names(record.scope), record.authTime,
                                             drawn.jti, now))]))
  {
    hide ClientsOk, ConsentsOk, CodeOk, CodesOk, FamiliesOk, IsChain, ChainsOk, HistoryOk, Chain, Constraints,
      T.NewAccessClaims;
    var e := RefreshIssued(row.id, row.familyId);
    CodeIsOk(w, record.id);
    StoredScope(w.history, record, now);
    StartFamilyInv(env, w, row);
    var w2 := World(InsertToken(w.tables, row).value, now, w.history + [e]);
    var scope := Scope.Names(record.scope);
    IssuedStays(w.history, [e], record.userId, client.id, scope);
    TokensIssuedInv(env, w2, record.userId, client, scope, record.authTime, drawn.jti, now);
    assert forall x: Event :: w.history + [e, x] == w2.history + [x];
  }

  lemma RotateUsableInv(env: Env, w: World, client: Client, record: RefreshToken, requested: Option<set<string>>,
                        drawn: Fresh, signs: bool, now: Time)
    requires Inv(env, w) && w.clock == now
    requires record.id in w.tables.tokens && w.tables.tokens[record.id] == record
    requires T.CheckUsable(record, client.id, now).None?
    requires requested.Some? ==> Scope.IsScopeSet(requested.value)
    ensures var o := T.RotateUsable(env, w.tables, client, record, requested, drawn, signs, now);
            Inv(env, World(o.tables, now, w.history + o.events))
  {
    hide ClientsOk, ConsentsOk, CodeOk, CodesOk, RowsOk, FamiliesOk, IsChain, ChainsOk, HistoryOk, Chain, Constraints,
      T.NewRow, T.NewAccessClaims;
    var t := w.tables;
    assert w.history + [] == w.history;
    RowIsOk(w, record.id);
    CodeIsOk(w, record.codeId.value);
    StoredScope(w.history, t.codes[record.codeId.value], now);
    var granted := Scope.Names(record.scope);
    var scope := if requested.Some? then requested.value else granted;
    if scope <= granted && signs {
      var row := T.NewRow(env, record.familyId, record.codeId, client.id, record.userId, record.scope, record.authTime,
                          drawn, now);
      if InsertToken(t, row).Ok? {
        IssuedNarrower(w.history, record.userId, client.id, granted, scope);
        SuccessorInv(env, w, client, record, row, scope, drawn, now);
      }
    }
  }

  /** The successor of a rotated token, and the tokens issued with it. */
  lemma SuccessorInv(env: Env, w: World, client: Client, record: RefreshToken, row: RefreshToken, scope: set<string>,
                     drawn: Fresh, now: Time)
    requires Inv(env, w) && w.clock == now
    requires record.id in w.tables.tokens && w.tables.tokens[record.id] == record
    requires T.CheckUsable(record, client.id, now).None?
    requires row == T.NewRow(env, record.familyId, record.codeId, client.id, record.userId, record.scope,
                             record.authTime, drawn, now)
    requires InsertToken(w.tables, row).Ok?
    requires HasIssued(w.history, record.userId, client.id, scope) && Scope.IsScopeSet(scope)
    ensures MarkRotated(InsertToken(w.tables, row).value, record.id, row.id).Ok?
    ensures Inv(env, World(MarkRotated(InsertToken(w.tables, row).value, record.id, row.id).value, now,
              w.history + [RefreshIssued(row.id, row.familyId),
                           TokensIssued(record.userId, client.id, scope,
                                        T.NewAccessClaims(env, record.userId, client, scope, record.authTime,
                                                          drawn.jti, now))]))
  {
    hide ClientsOk, ConsentsOk, CodeOk, CodesOk, RowsOk, FamiliesOk, IsChain, ChainsOk, HistoryOk, Chain, Constraints,
      T.NewAccessClaims;
    RowIsOk(w, record.id);
    var e := RefreshIssued(row.id, row.familyId);
    RotateInv(env, w, record, row);
    var w2 := World(MarkRotated(InsertToken(w.tables, row).value, record.id, row.id).value, now, w.history + [e]);
    IssuedStays(w.history, [e], record.userId, client.id, scope);
    TokensIssuedInv(env, w2, record.userId, client, scope, record.authTime, drawn.jti, now);
    assert forall x: Event :: w.history + [e, x] == w2.history + [x];
  }

  lemma IssuedNarrower(history: seq<Event>, user: Id, client: Id, scopes: set<string>, fewer: set<string>)
    requires HasIssued(history, user, client, scopes) && fewer <= scopes
    ensures HasIssued(history, user, client, fewer)
  {
  }

  lemma RotateTokenInv(env: Env, w: World, client: Client, hash: string, requested: Option<set<string>>, drawn: Fresh,
                       signs: bool, now: Time)
    requires Inv(env, w) && w.clock == now
    requires requested.Some? ==> Scope.IsScopeSet(requested.value)
    ensures var o := T.Rotate(env, w.tables, client, hash, requested, drawn, signs, now);
            Inv(env, World(o.tables, now, w.history + o.events))
  {
    hide ClientsOk, ConsentsOk, CodesOk, RowsOk, FamiliesOk, ChainsOk, HistoryOk, T.RotateUsable;
    assert w.history + [] == w.history;
    var found := TokenByHash(w.tables, hash);
    if found.Some? {
      var record := found.value;
      if T.CheckUsable(record, client.id, now).None? {
        RotateUsableInv(env, w, client, record, requested, drawn, signs, now);
      } else {
        RevokeInv(env, w, {record.familyId}, now);
      }
    }
  }

  lemma HandleTokenInv(env: Env, w: World, header: BasicHeader, pairs: Params.Pairs, drawn: Fresh, signs: bool,
                       now: Time)
    requires Inv(env, w) && w.clock == now && Chain(w.history, drawn.familyId) == []
    ensures var o := T.HandleToken(env, w.tables, header, pairs, drawn, signs, now);
            Inv(env, World(o.tables, now, w.history + o.events))
  {
    hide Inv, T.RedeemCode, T.Rotate, T.AuthenticatedClient;
    assert w.history + [] == w.history;
    if Params.Collected(pairs).Ok? {
      var params := Params.Collected(pairs).value;
      var client := T.AuthenticatedClient(env, w.tables, header, params);
      if client.Ok? {
        var code, uri, verifier :=
            Params.Get(params, "code"), Params.Get(params, "redirect_uri"), Params.Get(params, "code_verifier");
        if code.Some? && uri.Some? && verifier.Some? {
          RedeemCodeInv(env, w, client.value, HashToken(env.sha256, code.value), uri.value, verifier.value, drawn,
                        signs, now);
        }
        var raw, scope := Params.Get(params, "refresh_token"), Params.Get(params, "scope");
        if raw.Some? && scope.None? {
          RotateTokenInv(env, w, client.value, HashToken(env.sha256, raw.value), None, drawn, signs, now);
        } else if raw.Some? && Scope.Parsed(scope.value).Ok? {
          RotateTokenInv(env, w, client.value, HashToken(env.sha256, raw.value), Some(Scope.Parsed(scope.value).value),
                         drawn, signs, now);
        }
      }
    }
  }

  lemma HandleRevocationInv(env: Env, w: World, header: BasicHeader, pairs: Params.Pairs, now: Time)
    requires Inv(env, w) && w.clock == now
    ensures var o := T.HandleRevocation(env, w.tables, header, pairs, now);
            Inv(env, World(o.tables, now, w.history + o.events))
  {
    hide Inv, T.AuthenticatedClient;
    assert w.history + [] == w.history;
    var o := T.HandleRevocation(env, w.tables, header, pairs, now);
    if Params.Collected(pairs).Ok? {
      var token := Params.Get(Params.Collected(pairs).value, "token");
      if token.Some? {
        var found := TokenByHash(w.tables, HashToken(env.sha256, token.value));
        if found.Some? {
          RevokeInv(env, w, {found.value.familyId}, now);
        }
      }
    }
  }

  // ------------------------------------------------------------- registry

  lemma RegisterInv(env: Env, w: World, request: NewClient, client: ClientFresh, now: Time)
    requires Inv(env, w) && w.clock == now
    requires request.owner.Some? ==> |ClientsOwnedBy(w.tables, request.owner.value)| < MAX_APPS_PER_USER
    ensures Inv(env, World(Register(env, w.tables, request, client, now).0, now, w.history))
  {
    hide Inv;
    if CheckedDetails(env, request.details).Ok? {
      var checked := CheckedDetails(env, request.details).value;
      AcceptedDetails(env, request.details);
      var row := ClientRow(env, checked, request, client, now);
      assert row.AllowedScopes() == checked.scopes;
      if InsertClient(w.tables, row).Ok? {
        InsertClientInv(env, w, row);
      }
    }
  }

  lemma UpdateAppInv(env: Env, w: World, owner: Id, clientId: string, details: ClientDetails, now: Time)
    requires Inv(env, w) && w.clock == now
    ensures Inv(env, World(Clients.UpdateApp(env, w.tables, owner, clientId, details, now).0, now, w.history))
  {
    hide ConsentsOk, CodesOk, RowsOk, FamiliesOk, ChainsOk, HistoryOk;
    var app := OwnedClient(w.tables, owner, clientId);
    if app.Some? && CheckedDetails(env, details).Ok? {
      var checked := CheckedDetails(env, details).value;
      AcceptedDetails(env, details);
      var row := app.value.(name := checked.name, redirectUris := checked.redirectUris,
                            allowedScopes := Sorted(checked.scopes), updatedAt := now);
      assert row.AllowedScopes() == checked.scopes;
      ReplaceClientInv(env, w, app.value.id, row);
    }
  }

  lemma RotateSecretInv(env: Env, w: World, owner: Id, clientId: string, secret: string, now: Time)
    requires Inv(env, w) && w.clock == now
    ensures Inv(env, World(RotateSecret(env, w.tables, owner, clientId, secret, now).0, now, w.history))
  {
    hide ConsentsOk, CodesOk, RowsOk, FamiliesOk, ChainsOk, HistoryOk;
    var app := OwnedClient(w.tables, owner, clientId);
    if app.Some? {
      var row := app.value.(secretHash := Some(HashToken(env.sha256, secret)), updatedAt := now);
      assert ClientOk(env, app.value);
      assert row.AllowedScopes() == app.value.AllowedScopes();
      ReplaceClientInv(env, w, app.value.id, row);
    }
  }

  lemma DeleteAppInv(env: Env, w: World, owner: Id, clientId: string, confirmed: bool)
    requires Inv(env, w)
    ensures Inv(env, World(Clients.DeleteApp(w.tables, owner, clientId, confirmed).0, w.clock, w.history))
  {
    hide Inv;
    var app := OwnedClient(w.tables, owner, clientId);
    if app.Some? {
      DeleteClientInv(env, w, app.value.id);
    }
  }

  // ------------------------------------------------------------- steps and runs

  /** Every request the server can receive keeps the invariant. */
  lemma StepKeepsInv(env: Env, w: World, step: Step, now: Time)
    requires Inv(env, w) && Allowed(w, step, now)
    ensures Inv(env, Next(env, w, step, now))
  {
    hide Inv, T.HandleToken, T.HandleRevocation, A.Authorize, A.Consented, Register, Clients.UpdateApp, RotateSecret,
      Clients.DeleteApp;
    ClockKeeps(env, w, now);
    var w0 := World(w.tables, now, w.history);
    assert w.history + [] == w.history;
    match step {
      case TokenRequest(header, pairs, drawn, signs) => HandleTokenInv(env, w0, header, pairs, drawn, signs, now);
      case RevocationRequest(header, pairs) => HandleRevocationInv(env, w0, header, pairs, now);
      case AuthorizeRequest(pairs, session, drawn) => AuthorizeInv(env, w0, pairs, session, drawn, now);
      case ConsentAnswer(pairs, csrfOk, session, drawn) => ConsentedInv(env, w0, pairs, csrfOk, session, drawn, now);
      case RegisterByOperator(details, confidential, client) =>
        RegisterInv(env, w0, NewClient(details, confidential, None), client, now);
      case RegisterApp(owner, details, confidential, client) =>
        if |ClientsOwnedBy(w.tables, owner)| < MAX_APPS_PER_USER {
          RegisterInv(env, w0, NewClient(details, confidential, Some(owner)), client, now);
        }
      case UpdateApp(owner, clientId, details) => UpdateAppInv(env, w0, owner, clientId, details, now);
      case RotateAppSecret(owner, clientId, secret) => RotateSecretInv(env, w0, owner, clientId, secret, now);
      case DeleteApp(owner, clientId, confirmed) => DeleteAppInv(env, w0, owner, clientId, confirmed);
    }
  }

  /** The invariant holds after every run, of any length. */
  lemma {:induction false} RunKeepsInv(env: Env, w: World, run: Run)
    requires Inv(env, w) && AllowedRun(env, w, run)
    ensures Inv(env, After(env, w, run))
    ensures w.clock <= After(env, w, run).clock
    decreases |run|
  {
    if run != [] {
      StepKeepsInv(env, w, run[0].0, run[0].1);
      RunKeepsInv(env, Next(env, w, run[0].0, run[0].1), run[1..]);
    }
  }

  lemma {:induction false} RunsCompose(env: Env, w: World, run: Run, more: Run)
    requires AllowedRun(env, w, run) && AllowedRun(env, After(env, w, run), more)
    ensures AllowedRun(env, w, run + more) && After(env, w, run + more) == After(env, After(env, w, run), more)
    decreases |run|
  {
    hide Next, Allowed;
    if run == [] {
      assert run + more == more;
    } else {
      assert (run + more)[1..] == run[1..] + more;
      RunsCompose(env, Next(env, w, run[0].0, run[0].1), run[1..], more);
    }
  }

  /** The invariant holds in every reachable state. */
  lemma ReachableInv(env: Env, w: World)
    requires Reachable(env, w)
    ensures Inv(env, w)
  {
    hide Inv, AllowedRun, After;
    var clock :| Later(env, Initial(clock), w);
    var run :| AllowedRun(env, Initial(clock), run) && w == After(env, Initial(clock), run);
    InitialInv(env, clock);
    RunKeepsInv(env, Initial(clock), run);
  }

  /** What comes after a reachable state is reachable. */
  lemma LaterIsReachable(env: Env, w: World, w': World)
    requires Reachable(env, w) && Later(env, w, w')
    ensures Reachable(env, w')
  {
    hide AllowedRun, After;
    var clock :| Later(env, Initial(clock), w);
    var run :| AllowedRun(env, Initial(clock), run) && w == After(env, Initial(clock), run);
    var more :| AllowedRun(env, w, more) && w' == After(env, w, more);
    RunsCompose(env, Initial(clock), run, more);
    assert Later(env, Initial(clock), w');
  }

  lemma NextIsReachable(env: Env, w: World, step: Step, now: Time)
    requires Reachable(env, w) && Allowed(w, step, now)
    ensures Reachable(env, Next(env, w, step, now))
  {
    var run := [(step, now)];
    assert AllowedRun(env, Next(env, w, step, now), run[1..]);
    assert AllowedRun(env, w, run) && After(env, w, run) == Next(env, w, step, now);
    hide Reachable, Next, AllowedRun, After;
    LaterIsReachable(env, w, Next(env, w, step, now));
  }
}
