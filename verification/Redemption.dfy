/** The life of one authorization code: honest redemption succeeds, and only once. */
module Redemption {
  import opened Wrappers
  import opened Schema
  import opened Secret
  import opened Statements
  import opened Events
  import opened Clients
  import opened AuthorizationRequests
  import opened World
  import opened Steps
  import opened Changes
  import opened Families
  import opened Effects
  import Params
  import Scope
  import Pkce
  import Text
  import A = Authorization
  import T = TokenEndpoint

  // ------------------------------------------------------------- what happens to a code row

  /** A step that presents this code at the token endpoint, from whoever. */
  ghost predicate Presents(env: Env, t: Tables, step: Step, hash: string) {
    exists client :: PresentsCode(env, t, step, client, hash)
  }

  /**
   * Codes are only ever inserted by the authorization endpoint, marked as used by a token
   * request that presents them, or deleted together with their client.
   */
  lemma CodeSurvives(env: Env, w: World, step: Step, now: Time, id: Id)
    requires Inv(env, w) && id in w.tables.codes
    requires !Presents(env, w.tables, step, w.tables.codes[id].codeHash)
    requires w.tables.codes[id].clientId in Next(env, w, step, now).tables.clients
    ensures id in Next(env, w, step, now).tables.codes
    ensures Next(env, w, step, now).tables.codes[id] == w.tables.codes[id]
  {
    hide ClientsOk, ConsentsOk, CodesOk, RowsOk, FamiliesOk, ChainsOk, HistoryOk, T.HandleToken, T.HandleRevocation,
      A.Authorize, A.Consented;
    match step {
      case TokenRequest(header, pairs, drawn, signs) => TokenRequestCodes(env, w.tables, step, now, id);
      case RevocationRequest(header, pairs) => RevocationKeepsCodes(env, w.tables, header, pairs, now);
      case AuthorizeRequest(pairs, session, drawn) =>
        AuthorizationKeepsCodes(env, w.tables, pairs, true, session, drawn, now, id);
      case ConsentAnswer(pairs, csrfOk, session, drawn) =>
        AuthorizationKeepsCodes(env, w.tables, pairs, csrfOk, session, drawn, now, id);
      case _ => RegistryKeepsCodes(env, w.tables, w.history, w.clock, step, now);
    }
  }

  lemma RegistryKeepsCodes(env: Env, t: Tables, history: seq<Event>, clock: Time, step: Step, now: Time)
    requires Constraints(t) && IsRegistryStep(step)
    ensures forall id ::
              id in t.codes && t.codes[id].clientId in Next(env, World(t, clock, history), step, now).tables.clients ==>
              id in Next(env, World(t, clock, history), step, now).tables.codes
    ensures forall id :: id in Next(env, World(t, clock, history), step, now).tables.codes ==>
              id in t.codes && Next(env, World(t, clock, history), step, now).tables.codes[id] == t.codes[id]
  {
    hide TokenKeys, ConsentKeys, Clients.CheckedDetails, Clients.ClientRow;
    if step.DeleteApp? {
      DeletionKeepsOtherCodes(t, step.owner, step.clientId, step.confirmed);
      hide Clients.DeleteApp;
    } else {
      RegistryTouchesOnlyClients(env, t, step, now);
      hide Effect;
    }
  }

  lemma DeletionKeepsOtherCodes(t: Tables, owner: Id, clientId: string, confirmed: bool)
    requires Constraints(t)
    ensures var t' := Clients.DeleteApp(t, owner, clientId, confirmed).0;
            && (forall id :: id in t.codes && t.codes[id].clientId in t'.clients ==> id in t'.codes)
            && (forall id :: id in t'.codes ==> id in t.codes && t'.codes[id] == t.codes[id])
  {
    hide TokenKeys, ConsentKeys, Detached;
  }

  lemma RedeemCodes(env: Env, t: Tables, client: Client, hash: string, uri: string, verifier: string, drawn: Fresh,
                    signs: bool, now: Time, id: Id)
    requires Constraints(t) && id in t.codes
    ensures var t' := T.RedeemCode(env, t, client, hash, uri, verifier, drawn, signs, now).tables;
            && t'.codes.Keys == t.codes.Keys && t'.clients == t.clients
            && (t.codes[id].usedAt.Some? || t.codes[id].codeHash != hash ==> t'.codes[id] == t.codes[id])
            && (t'.codes[id] == t.codes[id] || t'.codes[id] == t.codes[id].(usedAt := Some(now)))
  {
    hide ClaimCode, Constraints;
    RedeemTables(env, t, client, hash, uri, verifier, drawn, signs, now);
    ClaimedCodes(t, hash, now, id);
  }

  lemma RedeemTables(env: Env, t: Tables, client: Client, hash: string, uri: string, verifier: string, drawn: Fresh,
                     signs: bool, now: Time)
    ensures var t' := T.RedeemCode(env, t, client, hash, uri, verifier, drawn, signs, now).tables;
            && (t'.clients == ClaimCode(t, hash, now).0.clients || t'.clients == t.clients)
            && (t'.codes == t.codes || t'.codes == ClaimCode(t, hash, now).0.codes)
  {
    hide T.SignedTokens, T.NewRow, Scope.Parsed, T.BindingError, ClaimCode, HashToken;
  }

  lemma ClaimedCodes(t: Tables, hash: string, now: Time, id: Id)
    requires Constraints(t) && id in t.codes
    ensures var t' := ClaimCode(t, hash, now).0;
            && t'.codes.Keys == t.codes.Keys && t'.clients == t.clients
            && (t.codes[id].usedAt.Some? || t.codes[id].codeHash != hash ==> t'.codes[id] == t.codes[id])
            && (t'.codes[id] == t.codes[id] || t'.codes[id] == t.codes[id].(usedAt := Some(now)))
  {
  }

  lemma RotateKeepsCodes(env: Env, t: Tables, client: Client, hash: string, requested: Option<set<string>>,
                         drawn: Fresh, signs: bool, now: Time)
    ensures T.Rotate(env, t, client, hash, requested, drawn, signs, now).tables.codes == t.codes
    ensures T.Rotate(env, t, client, hash, requested, drawn, signs, now).tables.clients == t.clients
  {
    hide T.SignedTokens, Scope.Parsed, T.CheckUsable;
  }

  lemma ExchangeCodeCodes(env: Env, t: Tables, client: Client, params: map<string, string>, drawn: Fresh, signs: bool,
                          now: Time, id: Id)
    requires Constraints(t) && id in t.codes
    ensures var t' := T.ExchangeCode(env, t, client, params, drawn, signs, now).tables;
            && t'.codes.Keys == t.codes.Keys && t'.clients == t.clients
            && (t'.codes[id] == t.codes[id] || t'.codes[id] == t.codes[id].(usedAt := Some(now)))
            && (t'.codes[id] != t.codes[id] ==>
                  && t.codes[id].usedAt.None?
                  && Params.Get(params, "code").Some?
                  && HashToken(env.sha256, Params.Get(params, "code").value) == t.codes[id].codeHash
                  && Params.Get(params, "redirect_uri").Some? && Params.Get(params, "code_verifier").Some?)
  {
    hide T.RedeemCode, Constraints;
    var code, uri, verifier :=
        Params.Get(params, "code"), Params.Get(params, "redirect_uri"), Params.Get(params, "code_verifier");
    if code.Some? && uri.Some? && verifier.Some? {
      RedeemCodes(env, t, client, HashToken(env.sha256, code.value), uri.value, verifier.value, drawn, signs, now, id);
    }
  }

  lemma ExchangeRefreshCodes(env: Env, t: Tables, client: Client, params: map<string, string>, drawn: Fresh,
                             signs: bool, now: Time)
    ensures T.ExchangeRefresh(env, t, client, params, drawn, signs, now).tables.codes == t.codes
    ensures T.ExchangeRefresh(env, t, client, params, drawn, signs, now).tables.clients == t.clients
  {
    hide T.Rotate;
    var raw, scope := Params.Get(params, "refresh_token"), Params.Get(params, "scope");
    if raw.Some? && scope.None? {
      RotateKeepsCodes(env, t, client, HashToken(env.sha256, raw.value), None, drawn, signs, now);
    } else if raw.Some? && Scope.Parsed(scope.value).Ok? {
      RotateKeepsCodes(env, t, client, HashToken(env.sha256, raw.value), Some(Scope.Parsed(scope.value).value), drawn,
                       signs, now);
    }
  }

  lemma TokenRequestCodes(env: Env, t: Tables, step: Step, now: Time, id: Id)
    requires Constraints(t) && id in t.codes && step.TokenRequest?
    ensures var t' := T.HandleToken(env, t, step.header, step.pairs, step.drawn, step.signs, now).tables;
            && t'.codes.Keys == t.codes.Keys && t'.clients == t.clients
            && (t.codes[id].usedAt.Some? || !Presents(env, t, step, t.codes[id].codeHash) ==>
                t'.codes[id] == t.codes[id])
            && (t'.codes[id] == t.codes[id] || t'.codes[id] == t.codes[id].(usedAt := Some(now)))
  {
    hide T.ExchangeCode, T.ExchangeRefresh, T.AuthenticatedClient, Constraints;
    if Params.Collected(step.pairs).Ok? {
      var params := Params.Collected(step.pairs).value;
      var client := T.AuthenticatedClient(env, t, step.header, params);
      if client.Ok? {
        ExchangeCodeCodes(env, t, client.value, params, step.drawn, step.signs, now, id);
        ExchangeRefreshCodes(env, t, client.value, params, step.drawn, step.signs, now);
        var t' := T.HandleToken(env, t, step.header, step.pairs, step.drawn, step.signs, now).tables;
        if t'.codes[id] != t.codes[id] {
          assert PresentsCode(env, t, step, client.value, t.codes[id].codeHash);
        }
      }
    }
  }

  lemma RevocationKeepsCodes(env: Env, t: Tables, header: BasicHeader, pairs: Params.Pairs, now: Time)
    ensures T.HandleRevocation(env, t, header, pairs, now).tables.codes == t.codes
  {
    hide T.AuthenticatedClient;
  }

  lemma IssuingCodes(env: Env, t: Tables, v: A.ValidatedRequest, session: A.Session, drawn: Fresh, now: Time)
    ensures var t' := A.IssueCode(env, t, v, session, drawn, now).tables;
            t'.codes == t.codes
            || (drawn.rowId !in t.codes && t'.codes == t.codes[drawn.rowId := A.CodeRow(env, v, session, drawn, now)])
  {
  }

  lemma AuthorizationKeepsCodes(env: Env, t: Tables, pairs: Params.Pairs, csrfOk: bool, session: Option<A.Session>,
                                drawn: Fresh, now: Time, id: Id)
    requires id in t.codes
    ensures id in A.Authorize(env, t, pairs, session, drawn, now).tables.codes
    ensures A.Authorize(env, t, pairs, session, drawn, now).tables.codes[id] == t.codes[id]
    ensures id in A.Consented(env, t, pairs, csrfOk, session, drawn, now).tables.codes
    ensures A.Consented(env, t, pairs, csrfOk, session, drawn, now).tables.codes[id] == t.codes[id]
  {
    hide A.Validate, A.IssueCode, A.GrantConsent, A.AlreadyApproved, A.NeedsReauthentication, A.CodeRow;
    if Params.Collected(pairs).Ok? && session.Some? {
      var v := A.Validate(env, t, FromParams(Params.Collected(pairs).value));
      if v.Ok? {
        IssuingCodes(env, t, v.value, session.value, drawn, now);
        var granted := A.GrantConsent(t, session.value.user, v.value.client.id, v.value.scope, now);
        if granted.Ok? {
          IssuingCodes(env, granted.value, v.value, session.value, drawn, now);
          GrantingKeepsTokens(t, session.value.user, v.value.client.id, v.value.scope, now);
        }
      }
    }
  }

  // ------------------------------------------------------------- first presentation

  /** Nobody presents the code and its client is not deleted, all along the run. */
  ghost predicate Undisturbed(env: Env, w: World, run: Run, hash: string, client: Id)
    decreases |run|
  {
    run == [] ||
    (var w' := Next(env, w, run[0].0, run[0].1);
     !Presents(env, w.tables, run[0].0, hash) && client in w'.tables.clients
     && Undisturbed(env, w', run[1..], hash, client))
  }

  lemma {:induction false} CodeWaits(env: Env, w: World, run: Run, id: Id)
    requires Inv(env, w) && AllowedRun(env, w, run) && id in w.tables.codes
    requires Undisturbed(env, w, run, w.tables.codes[id].codeHash, w.tables.codes[id].clientId)
    ensures id in After(env, w, run).tables.codes && After(env, w, run).tables.codes[id] == w.tables.codes[id]
    decreases |run|
  {
    hide Inv, Next;
    if run != [] {
      CodeSurvives(env, w, run[0].0, run[0].1, id);
      StepKeepsInv(env, w, run[0].0, run[0].1);
      CodeWaits(env, Next(env, w, run[0].0, run[0].1), run[1..], id);
    }
  }

  /** The row behind a code that a browser was just sent away with. */
  ghost predicate Delivered(env: Env, w: World, id: Id, to: A.Redirection, client: Id, challenge: string) {
    && id in w.tables.codes
    && (var code := w.tables.codes[id];
        && code.codeHash == HashToken(env.sha256, to.code) && code.redirectUri == to.uri && code.clientId == client
        && code.codeChallenge == challenge && code.usedAt.None? && code.createdAt == w.clock)
  }

  lemma IssuedIsDelivered(env: Env, t: Tables, v: A.ValidatedRequest, session: A.Session, drawn: Fresh, now: Time,
                          history: seq<Event>)
    requires A.IssueCode(env, t, v, session, drawn, now).response.Ok?
    ensures var o := A.IssueCode(env, t, v, session, drawn, now);
            Delivered(env, World(o.tables, now, history), drawn.rowId, o.response.value, v.client.id, v.codeChallenge)
  {
  }

  lemma DeliveredOnIssue(env: Env, t: Tables, v: A.ValidatedRequest, session: A.Session, drawn: Fresh, now: Time,
                         history: seq<Event>)
    ensures var o := A.IssueCode(env, t, v, session, drawn, now);
            o.response.Ok? ==> forall more: seq<Event> ::
              Delivered(env, World(o.tables, now, history + more), drawn.rowId, o.response.value, v.client.id,
                        v.codeChallenge)
  {
    var o := A.IssueCode(env, t, v, session, drawn, now);
    if o.response.Ok? {
      forall more: seq<Event>
        ensures Delivered(env, World(o.tables, now, history + more), drawn.rowId, o.response.value, v.client.id,
                          v.codeChallenge)
      {
        IssuedIsDelivered(env, t, v, session, drawn, now, history + more);
      }
    }
  }

  /** The answer to a request that sends the browser to the client with a code, stored with the request's bindings. */
  ghost predicate DeliveredFor(env: Env, w: World, r: AuthorizationRequest, response: A.BrowserResponse, w': World,
                               id: Id) {
    response.ToClient? ==>
      && r.clientId.Some? && r.codeChallenge.Some? && ClientByName(w.tables, r.clientId.value).Some?
      && Delivered(env, w', id, response.redirection, ClientByName(w.tables, r.clientId.value).value.id,
                   r.codeChallenge.value)
  }

  /** Whenever the browser is sent to the client, the code it carries is stored with its bindings. */
  lemma DeliveredCode(env: Env, w: World, pairs: Params.Pairs, csrfOk: bool, session: Option<A.Session>, drawn: Fresh,
                      now: Time)
    requires Params.Collected(pairs).Ok?
    ensures var r, o :=
                FromParams(Params.Collected(pairs).value), A.Authorize(env, w.tables, pairs, session, drawn, now);
            DeliveredFor(env, w, r, o.response, World(o.tables, now, w.history + o.events), drawn.rowId)
    ensures var r, o :=
                FromParams(Params.Collected(pairs).value),
                A.Consented(env, w.tables, pairs, csrfOk, session, drawn, now);
            DeliveredFor(env, w, r, o.response, World(o.tables, now, w.history + o.events), drawn.rowId)
  {
    hide A.Validate, A.IssueCode, A.GrantConsent, A.AlreadyApproved, A.NeedsReauthentication, Delivered, FromParams;
    if session.Some? {
      var r := FromParams(Params.Collected(pairs).value);
      ValidatedChallenge(env, w.tables, r);
      A.RedirectsOnlyToRegistered(env, w.tables, r);
      if A.Validate(env, w.tables, r).Ok? {
        var v := A.Validate(env, w.tables, r).value;
        DeliveredOnIssue(env, w.tables, v, session.value, drawn, now, w.history);
        var granted := A.GrantConsent(w.tables, session.value.user, v.client.id, v.scope, now);
        if granted.Ok? {
          DeliveredOnIssue(env, granted.value, v, session.value, drawn, now, w.history);
        }
      }
    }
  }

  lemma ValidatedChallenge(env: Env, t: Tables, r: AuthorizationRequest)
    ensures A.Validate(env, t, r).Ok? ==> r.codeChallenge == Some(A.Validate(env, t, r).value.codeChallenge)
  {
    hide A.ValidateProtocol;
    if A.Validate(env, t, r).Ok? {
      ProtocolChallenge(ClientByName(t, r.clientId.value).value, r.redirectUri.value, r);
    }
  }

  lemma ProtocolChallenge(client: Client, uri: string, r: AuthorizationRequest)
    ensures A.ValidateProtocol(client, uri, r).Ok? ==>
              r.codeChallenge == Some(A.ValidateProtocol(client, uri, r).value.codeChallenge)
  {
    hide ParsedPrompt, Scope.Parsed, ParseU32, Text.Utf8Len, Pkce.IsValidS256Challenge;
  }

  /** The request an honest client makes with the code it received. */
  ghost predicate HonestRequest(env: Env, t: Tables, step: Step, client: Client, to: A.Redirection, verifier: string) {
    && step.TokenRequest? && Params.Collected(step.pairs).Ok?
    && (var params := Params.Collected(step.pairs).value;
        && Params.Get(params, "grant_type") == Some("authorization_code")
        && T.AuthenticatedClient(env, t, step.header, params) == Ok(client)
        && Params.Get(params, "code") == Some(to.code)
        && Params.Get(params, "redirect_uri") == Some(to.uri)
        && Params.Get(params, "code_verifier") == Some(verifier))
  }

  /** The second world comes after the first, and meanwhile the code was left alone. */
  ghost predicate LaterUndisturbed(env: Env, w: World, w': World, hash: string, client: Id) {
    exists run :: AllowedRun(env, w, run) && Undisturbed(env, w, run, hash, client) && w' == After(env, w, run)
  }

  /**
   * Honest redemption succeeds: a code delivered for the S256 challenge of a well-formed
   * verifier is accepted on its first presentation by its client within sixty seconds, however
   * the server was used meanwhile, provided signing works and the drawn values do not collide.
   */
  lemma HonestRedemptionSucceeds(env: Env, w: World, w': World, step: Step, now: Time, id: Id, client: Client,
                                 to: A.Redirection, verifier: string)
    requires Reachable(env, w)
    requires Pkce.IsValidVerifier(verifier)
             && Delivered(env, w, id, to, client.id, Pkce.S256Challenge(env.sha256, verifier))
    requires LaterUndisturbed(env, w, w', w.tables.codes[id].codeHash, w.tables.codes[id].clientId)
    requires HonestRequest(env, w'.tables, step, client, to, verifier)
    requires now < w.clock + A.AUTHORIZATION_CODE_TTL && step.signs && !Collides(env, w'.tables, step.drawn)
    ensures T.HandleToken(env, w'.tables, step.header, step.pairs, step.drawn, step.signs, now).response.Ok?
    ensures id in Next(env, w', step, now).tables.codes && Next(env, w', step, now).tables.codes[id].usedAt.Some?
  {
    hide Inv, Reachable, T.RedeemCode, T.HandleToken, After, AllowedRun, Undisturbed, T.AuthenticatedClient,
      Pkce.IsValidVerifier, Pkce.S256Challenge;
    ReachableInv(env, w);
    var code := w.tables.codes[id];
    var run :| AllowedRun(env, w, run) && Undisturbed(env, w, run, code.codeHash, code.clientId)
        && w' == After(env, w, run);
    assert Later(env, w, w');
    LaterIsReachable(env, w, w');
    CodeWaits(env, w, run, id);
    CodeBindings(env, w, id);
    HonestIsRedemption(env, w'.tables, step, now, client, to, verifier);
    RedeemedCode(env, w', id, client, to.uri, verifier, step.drawn, step.signs, now);
  }

  lemma CodeBindings(env: Env, w: World, id: Id)
    requires Inv(env, w) && id in w.tables.codes
    ensures w.tables.codes[id].id == id && w.tables.codes[id].codeChallengeMethod == Pkce.S256
    ensures w.tables.codes[id].expiresAt == w.tables.codes[id].createdAt + A.AUTHORIZATION_CODE_TTL
  {
    hide ClientsOk, ConsentsOk, RowsOk, FamiliesOk, ChainsOk, HistoryOk;
  }

  lemma HonestIsRedemption(env: Env, t: Tables, step: Step, now: Time, client: Client, to: A.Redirection,
                           verifier: string)
    requires HonestRequest(env, t, step, client, to, verifier)
    ensures T.HandleToken(env, t, step.header, step.pairs, step.drawn, step.signs, now)
            == T.RedeemCode(env, t, client, HashToken(env.sha256, to.code), to.uri, verifier, step.drawn,
                            step.signs, now)
  {
    hide T.RedeemCode, T.AuthenticatedClient;
  }

  /** The code that was presented: unused, less than a minute old, and bound to exactly this request. */
  ghost predicate RightfullyPresented(env: Env, t: Tables, client: Client, hash: string, uri: string, verifier: string,
                                      now: Time) {
    exists id :: id in t.codes && t.codes[id].codeHash == hash && t.codes[id].usedAt.None?
                 && t.codes[id].clientId == client.id && t.codes[id].redirectUri == uri
                 && now < t.codes[id].createdAt + A.AUTHORIZATION_CODE_TTL
                 && Pkce.IsValidVerifier(verifier)
                 && t.codes[id].codeChallenge == Pkce.S256Challenge(env.sha256, verifier)
  }

  /** Nobody else redeems a code: tokens are issued only for a rightful presentation. */
  lemma OnlyTheRightfulRedeem(env: Env, w: World, client: Client, params: map<string, string>, drawn: Fresh,
                              signs: bool, now: Time)
    requires Reachable(env, w) && T.ExchangeCode(env, w.tables, client, params, drawn, signs, now).response.Ok?
    ensures var code, uri, verifier :=
                Params.Get(params, "code"), Params.Get(params, "redirect_uri"), Params.Get(params, "code_verifier");
            && code.Some? && uri.Some? && verifier.Some?
            && RightfullyPresented(env, w.tables, client, HashToken(env.sha256, code.value), uri.value,
                                   verifier.value, now)
  {
    hide Reachable, Inv, T.RedeemCode, HashToken, Scope.Parsed, RightfullyPresented;
    ReachableInv(env, w);
    var code, uri, verifier :=
        Params.Get(params, "code"), Params.Get(params, "redirect_uri"), Params.Get(params, "code_verifier");
    RedeemedRightfully(env, w, client, HashToken(env.sha256, code.value), uri.value, verifier.value, drawn, signs, now);
  }

  lemma RedeemedRightfully(env: Env, w: World, client: Client, hash: string, uri: string, verifier: string,
                           drawn: Fresh, signs: bool, now: Time)
    requires Inv(env, w) && T.RedeemCode(env, w.tables, client, hash, uri, verifier, drawn, signs, now).response.Ok?
    ensures RightfullyPresented(env, w.tables, client, hash, uri, verifier, now)
  {
    hide ClientsOk, ConsentsOk, CodesOk, RowsOk, FamiliesOk, ChainsOk, HistoryOk, T.SignedTokens, T.NewRow, InsertToken,
      Scope.Parsed, HashToken, Pkce.IsValidVerifier, Pkce.S256Challenge;
    CodeBindings(env, w, CodeByHash(w.tables, hash).value.id);
  }

  // ------------------------------------------------------------- every later presentation

  /** No code with this hash can still be claimed. */
  ghost predicate Spent(t: Tables, hash: string) {
    forall id :: id in t.codes && t.codes[id].codeHash == hash ==> t.codes[id].usedAt.Some?
  }

  /** The secret with this hash is not generated again as a code. */
  ghost predicate NeverReissued(env: Env, run: Run, hash: string) {
    forall i :: 0 <= i < |run| ==>
      match run[i].0
      case AuthorizeRequest(_, _, drawn) => HashToken(env.sha256, drawn.secret) != hash
      case ConsentAnswer(_, _, _, drawn) => HashToken(env.sha256, drawn.secret) != hash
      case _ => true
  }

  lemma StepKeepsSpent(env: Env, w: World, step: Step, now: Time, hash: string)
    requires Inv(env, w) && Spent(w.tables, hash) && NeverReissued(env, [(step, now)], hash)
    ensures Spent(Next(env, w, step, now).tables, hash)
  {
    hide ClientsOk, ConsentsOk, CodesOk, RowsOk, FamiliesOk, ChainsOk, HistoryOk, T.HandleToken, T.HandleRevocation,
      A.Authorize, A.Consented;
    var t := w.tables;
    assert [(step, now)][0].0 == step;
    match step {
      case TokenRequest(header, pairs, drawn, signs) => TokenRequestSpent(env, t, step, now, hash);
      case RevocationRequest(header, pairs) => RevocationKeepsCodes(env, t, header, pairs, now);
      case AuthorizeRequest(pairs, session, drawn) =>
        AuthorizationSpent(env, t, pairs, true, session, drawn, now, hash);
      case ConsentAnswer(pairs, csrfOk, session, drawn) =>
        AuthorizationSpent(env, t, pairs, csrfOk, session, drawn, now, hash);
      case _ => RegistryKeepsCodes(env, t, w.history, w.clock, step, now);
    }
  }

  lemma NoCodesStay(env: Env, t: Tables, step: Step, now: Time)
    requires t.codes == map[] && step.TokenRequest?
    ensures T.HandleToken(env, t, step.header, step.pairs, step.drawn, step.signs, now).tables.codes == map[]
  {
    hide T.ExchangeRefresh, T.AuthenticatedClient;
    if Params.Collected(step.pairs).Ok? {
      var params := Params.Collected(step.pairs).value;
      var client := T.AuthenticatedClient(env, t, step.header, params);
      if client.Ok? {
        ExchangeRefreshCodes(env, t, client.value, params, step.drawn, step.signs, now);
      }
    }
  }

  lemma TokenRequestSpent(env: Env, t: Tables, step: Step, now: Time, hash: string)
    requires Constraints(t) && Spent(t, hash) && step.TokenRequest?
    ensures Spent(T.HandleToken(env, t, step.header, step.pairs, step.drawn, step.signs, now).tables, hash)
  {
    hide T.HandleToken, Constraints, Presents;
    var t' := T.HandleToken(env, t, step.header, step.pairs, step.drawn, step.signs, now).tables;
    if t.codes == map[] {
      NoCodesStay(env, t, step, now);
    }
    forall id | id in t'.codes && t'.codes[id].codeHash == hash ensures t'.codes[id].usedAt.Some? {
      var any :| any in t.codes;
      TokenRequestCodes(env, t, step, now, any);
      TokenRequestCodes(env, t, step, now, id);
    }
  }

  lemma IssuingSpent(env: Env, t: Tables, v: A.ValidatedRequest, session: A.Session, drawn: Fresh, now: Time,
                     hash: string)
    requires Spent(t, hash) && HashToken(env.sha256, drawn.secret) != hash
    ensures Spent(A.IssueCode(env, t, v, session, drawn, now).tables, hash)
  {
    IssuingCodes(env, t, v, session, drawn, now);
  }

  lemma GrantingSpent(t: Tables, user: Id, client: Id, scopes: set<string>, now: Time, hash: string)
    requires Spent(t, hash) && A.GrantConsent(t, user, client, scopes, now).Ok?
    ensures Spent(A.GrantConsent(t, user, client, scopes, now).value, hash)
  {
  }

  lemma AuthorizationSpent(env: Env, t: Tables, pairs: Params.Pairs, csrfOk: bool, session: Option<A.Session>,
                           drawn: Fresh, now: Time, hash: string)
    requires Spent(t, hash) && HashToken(env.sha256, drawn.secret) != hash
    ensures Spent(A.Authorize(env, t, pairs, session, drawn, now).tables, hash)
    ensures Spent(A.Consented(env, t, pairs, csrfOk, session, drawn, now).tables, hash)
  {
    hide A.Validate, A.IssueCode, A.GrantConsent, A.AlreadyApproved, A.NeedsReauthentication, Spent, HashToken,
      FromParams;
    if Params.Collected(pairs).Ok? && session.Some? {
      var v := A.Validate(env, t, FromParams(Params.Collected(pairs).value));
      if v.Ok? {
        IssuingSpent(env, t, v.value, session.value, drawn, now, hash);
        var granted := A.GrantConsent(t, session.value.user, v.value.client.id, v.value.scope, now);
        if granted.Ok? {
          GrantingSpent(t, session.value.user, v.value.client.id, v.value.scope, now, hash);
          IssuingSpent(env, granted.value, v.value, session.value, drawn, now, hash);
        }
      }
    }
  }

  /** A spent code yields no tokens, whoever presents it and with whatever proof. */
  lemma SpentCodeIsRefused(env: Env, t: Tables, step: Step, now: Time, hash: string)
    requires Constraints(t) && Spent(t, hash) && Presents(env, t, step, hash)
    ensures T.HandleToken(env, t, step.header, step.pairs, step.drawn, step.signs, now).response.Err?
  {
    hide T.SignedTokens, Scope.Parsed, T.BindingError, T.AuthenticatedClient, T.Rotate;
  }

  /** A presentation of the code, successful or not, spends it for good unless an internal error rolled it back. */
  lemma PresentationSpends(env: Env, w: World, step: Step, now: Time, hash: string)
    requires Reachable(env, w) && Presents(env, w.tables, step, hash)
    ensures Spent(Next(env, w, step, now).tables, hash)
            || T.HandleToken(env, w.tables, step.header, step.pairs, step.drawn, step.signs, now).response
                 == Err(T.Internal)
  {
    hide Reachable, ClientsOk, ConsentsOk, CodesOk, RowsOk, FamiliesOk, ChainsOk, HistoryOk, T.AuthenticatedClient,
      T.ExchangeRefresh, T.RedeemCode;
    ReachableInv(env, w);
    var client :| PresentsCode(env, w.tables, step, client, hash);
    var params := Params.Collected(step.pairs).value;
    var code, uri, verifier :=
        Params.Get(params, "code"), Params.Get(params, "redirect_uri"), Params.Get(params, "code_verifier");
    if code.Some? && uri.Some? && verifier.Some? {
      RedeemingSpends(env, w.tables, client, hash, uri.value, verifier.value, step.drawn, step.signs, now);
    }
  }

  lemma RedeemingSpends(env: Env, t: Tables, client: Client, hash: string, uri: string, verifier: string, drawn: Fresh,
                        signs: bool, now: Time)
    requires Constraints(t)
    ensures var o := T.RedeemCode(env, t, client, hash, uri, verifier, drawn, signs, now);
            Spent(o.tables, hash) || o.response == Err(T.Internal)
  {
    hide T.SignedTokens, Scope.Parsed, T.BindingError, T.NewRow;
  }

  lemma {:induction false} RunKeepsSpent(env: Env, w: World, run: Run, hash: string)
    requires Inv(env, w) && AllowedRun(env, w, run) && Spent(w.tables, hash) && NeverReissued(env, run, hash)
    ensures Inv(env, After(env, w, run)) && Spent(After(env, w, run).tables, hash)
    decreases |run|
  {
    hide Inv, Next, Spent, Presents;
    if run != [] {
      var (first, at) := run[0];
      assert forall i :: 0 <= i < |run| - 1 ==> run[1..][i] == run[i + 1];
      StepKeepsSpent(env, w, first, at, hash);
      StepKeepsInv(env, w, first, at);
      RunKeepsSpent(env, Next(env, w, first, at), run[1..], hash);
    }
  }

  /** The second world comes after the first, and meanwhile the secret was not generated again. */
  ghost predicate LaterUnissued(env: Env, w: World, w': World, hash: string) {
    exists run :: AllowedRun(env, w, run) && NeverReissued(env, run, hash) && w' == After(env, w, run)
  }

  /**
   * At most once: after a code has been spent, every presentation of it fails, after any run in
   * which the generator does not produce that very secret again.
   */
  lemma SpentForEver(env: Env, w: World, w': World, step: Step, now: Time, hash: string)
    requires Reachable(env, w) && Spent(w.tables, hash) && LaterUnissued(env, w, w', hash)
    requires Presents(env, w'.tables, step, hash)
    ensures T.HandleToken(env, w'.tables, step.header, step.pairs, step.drawn, step.signs, now).response.Err?
  {
    hide ClientsOk, ConsentsOk, CodesOk, RowsOk, FamiliesOk, ChainsOk, HistoryOk, Constraints, Reachable, AllowedRun,
      After, NeverReissued, Spent, T.HandleToken, Presents;
    ReachableInv(env, w);
    var run :| AllowedRun(env, w, run) && NeverReissued(env, run, hash) && w' == After(env, w, run);
    RunKeepsSpent(env, w, run, hash);
    SpentCodeIsRefused(env, w'.tables, step, now, hash);
  }
}
