/** The client registry over whole runs. */
module Registry {
  import opened Wrappers
  import opened Schema
  import opened Secret
  import opened Statements
  import opened Events
  import opened Clients
  import opened World
  import opened Preservation
  import opened Steps
  import opened Changes
  import opened Families
  import opened Redemption
  import opened AuthorizationRequests
  import Params
  import A = Authorization
  import T = TokenEndpoint

  /** An absolute URL over https, or http to this machine, without fragment and credentials. */
  predicate IsProperRedirect(env: Env, uri: string) {
    match env.parseUrl(uri)
    case None => false
    case Some(url) =>
      && (url.scheme == "https" || (url.scheme == "http" && url.loopback))
      && url.fragment.None? && url.username == "" && url.password.None?
  }

  /** In every reachable state: proper details for every client, and at most 25 apps for every owner. */
  lemma RegistryRules(env: Env, w: World, id: Id, owner: Id)
    requires Reachable(env, w)
    ensures id in w.tables.clients ==>
              var c := w.tables.clients[id];
              0 < |c.redirectUris| <= 10 && NoDuplicates(c.redirectUris)
              && (forall uri <- c.redirectUris :: IsProperRedirect(env, uri))
              && c.AllowedScopes() != {} && c.AllowedScopes() <= env.registry && 0 < |c.name| <= 80 && c.IsActive()
    ensures |ClientsOwnedBy(w.tables, owner)| <= 25
  {
    hide Reachable, ConsentsOk, CodesOk, RowsOk, FamiliesOk, ChainsOk, HistoryOk, Constraints;
    ReachableInv(env, w);
    if id in w.tables.clients {
      assert ClientOk(env, w.tables.clients[id]);
    }
  }

  /** The generator drew a row id or a secret that a stored code already has. */
  ghost predicate CodeCollides(env: Env, t: Tables, drawn: Fresh) {
    drawn.rowId in t.codes || exists id :: id in t.codes && t.codes[id].codeHash == HashToken(env.sha256, drawn.secret)
  }

  /** A code is stored exactly when the browser is sent to the client; only a collision is an internal error. */
  ghost predicate SentWithEveryCode(env: Env, t: Tables, drawn: Fresh, t': Tables, response: A.BrowserResponse) {
    && (response.ToClient? <==> t'.codes != t.codes)
    && (response.ToClient? ==> !CodeCollides(env, t, drawn))
    && (response == A.Failed(A.Internal) ==> CodeCollides(env, t, drawn))
  }

  lemma IssuedExactly(env: Env, t: Tables, v: A.ValidatedRequest, session: A.Session, drawn: Fresh, now: Time)
    requires v.client.id in t.clients && env.parseUrl(v.redirectUri).Some?
    ensures var o := A.IssueCode(env, t, v, session, drawn, now);
            && (o.response.Ok? <==> o.tables.codes != t.codes) && (o.response.Ok? ==> !CodeCollides(env, t, drawn))
            && (o.response.Err? ==> o.response == Err(A.Internal) && CodeCollides(env, t, drawn))
  {
    hide HashToken;
    var o := A.IssueCode(env, t, v, session, drawn, now);
    if o.response.Ok? {
      assert drawn.rowId in o.tables.codes;
    }
  }

  lemma GrantingSucceeds(t: Tables, user: Id, client: Id, scopes: set<string>, now: Time)
    requires client in t.clients
    ensures var granted := A.GrantConsent(t, user, client, scopes, now);
            granted.Ok? && granted.value.codes == t.codes && granted.value.clients == t.clients
  {
  }

  lemma ValidatedClient(env: Env, w: World, r: AuthorizationRequest)
    requires Reachable(env, w) && A.Validate(env, w.tables, r).Ok?
    ensures var v := A.Validate(env, w.tables, r).value;
            v.client.id in w.tables.clients && env.parseUrl(v.redirectUri).Some?
  {
    hide Reachable, A.Validate, ClientsOk, ConsentsOk, CodesOk, RowsOk, FamiliesOk, ChainsOk, HistoryOk;
    var v := A.Validate(env, w.tables, r).value;
    A.RedirectsOnlyToRegistered(env, w.tables, r);
    ReachableInv(env, w);
    RegistryRules(env, w, v.client.id, 0);
  }

  /**
   * Every code reaches its client: in a reachable state, a request to the authorization endpoint
   * or an answer on the consent page stores a code exactly when it sends the browser to the
   * client, and fails internally only when a drawn value is already taken.
   */
  lemma EveryCodeIsDelivered(env: Env, w: World, pairs: Params.Pairs, csrfOk: bool, session: Option<A.Session>,
                             drawn: Fresh, now: Time)
    requires Reachable(env, w)
    ensures var o := A.Authorize(env, w.tables, pairs, session, drawn, now);
            SentWithEveryCode(env, w.tables, drawn, o.tables, o.response)
    ensures var o := A.Consented(env, w.tables, pairs, csrfOk, session, drawn, now);
            SentWithEveryCode(env, w.tables, drawn, o.tables, o.response)
  {
    hide Reachable, A.Validate, A.IssueCode, A.GrantConsent, A.AlreadyApproved, A.NeedsReauthentication, CodeCollides,
      FromParams;
    if Params.Collected(pairs).Ok? {
      var r := FromParams(Params.Collected(pairs).value);
      A.ValidatedInPhases(env, w.tables, r);
      if A.Validate(env, w.tables, r).Ok? && session.Some? {
        var v := A.Validate(env, w.tables, r).value;
        ValidatedClient(env, w, r);
        IssuedExactly(env, w.tables, v, session.value, drawn, now);
        GrantingSucceeds(w.tables, session.value.user, v.client.id, v.scope, now);
        var granted := A.GrantConsent(w.tables, session.value.user, v.client.id, v.scope, now).value;
        IssuedExactly(env, granted, v, session.value, drawn, now);
        SameCollisions(env, w.tables, granted, drawn);
      }
    }
  }

  lemma SameCollisions(env: Env, t: Tables, t': Tables, drawn: Fresh)
    requires t'.codes == t.codes
    ensures CodeCollides(env, t', drawn) <==> CodeCollides(env, t, drawn)
  {
  }

  // ------------------------------------------------------------- what never changes

  /** The parts of a client that no request can change while it exists. */
  ghost predicate SameIdentity(a: Client, b: Client) {
    && a.id == b.id && a.clientId == b.clientId && a.owner == b.owner && a.createdAt == b.createdAt
    && (a.IsConfidential() <==> b.IsConfidential())
  }

  ghost predicate StaysRegistered(env: Env, w: World, run: Run, id: Id)
    decreases |run|
  {
    id in w.tables.clients &&
    (run == [] || StaysRegistered(env, Next(env, w, run[0].0, run[0].1), run[1..], id))
  }

  lemma StepKeepsIdentity(env: Env, w: World, step: Step, now: Time, id: Id)
    requires Inv(env, w) && id in w.tables.clients && id in Next(env, w, step, now).tables.clients
    ensures SameIdentity(w.tables.clients[id], Next(env, w, step, now).tables.clients[id])
  {
    hide ClientsOk, ConsentsOk, CodesOk, RowsOk, FamiliesOk, ChainsOk, HistoryOk, T.HandleToken, T.HandleRevocation,
      A.Authorize, A.Consented;
    match step {
      case TokenRequest(_, _, _, _) => TokenRequestKeepsClients(env, w.tables, step, now);
      case RevocationRequest(header, pairs) => RevocationKeepsClients(env, w.tables, step, now);
      case AuthorizeRequest(pairs, session, drawn) => AuthorizationKeepsClients(env, w.tables, step, now);
      case ConsentAnswer(pairs, csrfOk, session, drawn) => AuthorizationKeepsClients(env, w.tables, step, now);
      case _ => RegistryKeepsIdentity(env, w.tables, w.clock, w.history, step, now, id);
    }
  }

  lemma TokenRequestKeepsClients(env: Env, t: Tables, step: Step, now: Time)
    requires Constraints(t) && step.TokenRequest?
    ensures T.HandleToken(env, t, step.header, step.pairs, step.drawn, step.signs, now).tables.clients == t.clients
  {
    hide T.RedeemCode, T.ExchangeRefresh, T.AuthenticatedClient, Constraints;
    if Params.Collected(step.pairs).Ok? {
      var params := Params.Collected(step.pairs).value;
      var client := T.AuthenticatedClient(env, t, step.header, params);
      if client.Ok? {
        ExchangeRefreshCodes(env, t, client.value, params, step.drawn, step.signs, now);
        var code, uri, verifier :=
            Params.Get(params, "code"), Params.Get(params, "redirect_uri"), Params.Get(params, "code_verifier");
        if code.Some? && uri.Some? && verifier.Some? {
          RedeemTables(env, t, client.value, HashToken(env.sha256, code.value), uri.value, verifier.value, step.drawn,
                       step.signs, now);
        }
      }
    }
  }

  lemma RevocationKeepsClients(env: Env, t: Tables, step: Step, now: Time)
    requires step.RevocationRequest?
    ensures T.HandleRevocation(env, t, step.header, step.pairs, now).tables.clients == t.clients
  {
    hide T.AuthenticatedClient;
  }

  lemma AuthorizationKeepsClients(env: Env, t: Tables, step: Step, now: Time)
    requires step.AuthorizeRequest? || step.ConsentAnswer?
    ensures Effect(env, t, step, now).0.clients == t.clients
  {
    hide A.Validate, A.IssueCode, A.GrantConsent, A.AlreadyApproved, A.NeedsReauthentication;
    if Params.Collected(step.pairs).Ok? && step.session.Some? {
      var v := A.Validate(env, t, FromParams(Params.Collected(step.pairs).value));
      if v.Ok? {
        IssuingKeepsTokens(env, t, v.value, step.session.value, step.drawn, now);
        var granted := A.GrantConsent(t, step.session.value.user, v.value.client.id, v.value.scope, now);
        if granted.Ok? {
          IssuingKeepsTokens(env, granted.value, v.value, step.session.value, step.drawn, now);
          GrantingKeepsTokens(t, step.session.value.user, v.value.client.id, v.value.scope, now);
        }
      }
    }
  }

  lemma RegistryKeepsIdentity(env: Env, t: Tables, clock: Time, history: seq<Event>, step: Step, now: Time, id: Id)
    requires Constraints(t) && IsRegistryStep(step) && id in t.clients
    requires id in Next(env, World(t, clock, history), step, now).tables.clients
    ensures SameIdentity(t.clients[id], Next(env, World(t, clock, history), step, now).tables.clients[id])
  {
    match step {
      case RegisterByOperator(details, confidential, drawn) =>
        RegisteringKeepsClients(env, t, NewClient(details, confidential, None), drawn, now);
      case RegisterApp(owner, details, confidential, drawn) =>
        RegisteringKeepsClients(env, t, NewClient(details, confidential, Some(owner)), drawn, now);
      case UpdateApp(owner, clientId, details) => UpdatingKeepsIdentity(env, t, owner, clientId, details, now, id);
      case RotateAppSecret(owner, clientId, secret) => RotatingKeepsIdentity(env, t, owner, clientId, secret, now, id);
      case DeleteApp(owner, clientId, confirmed) => DeletingKeepsClients(t, owner, clientId, confirmed, id);
    }
    hide Register, Clients.UpdateApp, RotateSecret, Clients.DeleteApp, Constraints;
  }

  lemma UpdatingKeepsIdentity(env: Env, t: Tables, owner: Id, clientId: string, details: ClientDetails, now: Time,
                              id: Id)
    requires Constraints(t) && id in t.clients
    ensures var t' := Clients.UpdateApp(env, t, owner, clientId, details, now).0;
            id in t'.clients && SameIdentity(t.clients[id], t'.clients[id])
  {
    hide TokenKeys, CodeKeys, ConsentKeys, CheckedDetails;
  }

  lemma RotatingKeepsIdentity(env: Env, t: Tables, owner: Id, clientId: string, secret: string, now: Time, id: Id)
    requires Constraints(t) && id in t.clients
    ensures var t' := RotateSecret(env, t, owner, clientId, secret, now).0;
            id in t'.clients && SameIdentity(t.clients[id], t'.clients[id])
  {
    hide TokenKeys, CodeKeys, ConsentKeys, HashToken;
  }

  lemma DeletingKeepsClients(t: Tables, owner: Id, clientId: string, confirmed: bool, id: Id)
    requires id in Clients.DeleteApp(t, owner, clientId, confirmed).0.clients
    ensures id in t.clients && t.clients[id] == Clients.DeleteApp(t, owner, clientId, confirmed).0.clients[id]
  {
  }

  lemma RegisteringKeepsClients(env: Env, t: Tables, request: NewClient, drawn: ClientFresh, now: Time)
    ensures var t' := Register(env, t, request, drawn, now).0;
            forall id :: id in t.clients ==> id in t'.clients && t'.clients[id] == t.clients[id]
  {
    hide CheckedDetails, ClientRow;
  }

  lemma {:induction false} RunKeepsIdentity(env: Env, w: World, run: Run, id: Id)
    requires Inv(env, w) && AllowedRun(env, w, run) && StaysRegistered(env, w, run, id)
    ensures id in After(env, w, run).tables.clients
    ensures SameIdentity(w.tables.clients[id], After(env, w, run).tables.clients[id])
    decreases |run|
  {
    hide Inv, Next;
    if run != [] {
      var w' := Next(env, w, run[0].0, run[0].1);
      assert id in w'.tables.clients by { assert StaysRegistered(env, w', run[1..], id); }
      StepKeepsIdentity(env, w, run[0].0, run[0].1, id);
      StepKeepsInv(env, w, run[0].0, run[0].1);
      RunKeepsIdentity(env, w', run[1..], id);
    }
  }

  /** The second world comes after the first, and the client was registered all along. */
  ghost predicate LaterRegistered(env: Env, w: World, w': World, id: Id) {
    exists run :: AllowedRun(env, w, run) && StaysRegistered(env, w, run, id) && w' == After(env, w, run)
  }

  /** As long as it stays registered, a client never changes type, owner or identifier. */
  lemma ClientTypeIsFixed(env: Env, w: World, w': World, id: Id)
    requires Reachable(env, w) && LaterRegistered(env, w, w', id)
    ensures id in w.tables.clients && id in w'.tables.clients
    ensures SameIdentity(w.tables.clients[id], w'.tables.clients[id])
  {
    ReachableInv(env, w);
    var run :| AllowedRun(env, w, run) && StaysRegistered(env, w, run, id) && w' == After(env, w, run);
    assert id in w.tables.clients;
    hide Inv, Reachable, AllowedRun, After, StaysRegistered;
    RunKeepsIdentity(env, w, run, id);
  }

  // ------------------------------------------------------------- deletion

  /**
   * Deleting an application ends every grant it held and touches nobody else's: its codes,
   * consents and tokens are gone, every other row is unchanged, every successor still exists,
   * and each of its families is dead.
   */
  lemma DeletionEndsGrants(env: Env, w: World, id: Id, owner: Id, clientId: string, now: Time)
    requires Reachable(env, w) && w.clock <= now && id in w.tables.clients
    requires w.tables.clients[id].clientId == clientId && w.tables.clients[id].owner == Some(owner)
    ensures Clients.DeleteApp(w.tables, owner, clientId, true).1 == Deleted
    ensures var w' := Next(env, w, DeleteApp(owner, clientId, true), now);
            && w'.tables.clients == w.tables.clients - {id}
            && w'.tables.codes == (map k | k in w.tables.codes && w.tables.codes[k].clientId != id :: w.tables.codes[k])
            && w'.tables.consents == (map key | key in w.tables.consents && key.1 != id :: w.tables.consents[key])
            && w'.tables.tokens
                 == (map k | k in w.tables.tokens && w.tables.tokens[k].clientId != id :: w.tables.tokens[k])
            && (forall k :: k in w'.tables.tokens && w'.tables.tokens[k].rotatedTo.Some? ==>
                  w'.tables.tokens[k].rotatedTo.value in w'.tables.tokens)
            && (forall k ::
                k in w.tables.tokens && w.tables.tokens[k].clientId == id ==> Dead(w', w.tables.tokens[k].familyId))
  {
    hide Reachable, ClientsOk, ConsentsOk, CodesOk, RowsOk, FamiliesOk, HistoryOk, IsChain, Chain;
    ReachableInv(env, w);
    FindClient(w.tables, id);
    var w' := Next(env, w, DeleteApp(owner, clientId, true), now);
    DeleteClientSucceeds(env, w, id);
    assert w'.history == w.history;
    DeleteClientKeeps(w.tables, id);
    forall k | k in w'.tables.tokens ensures TokenReferences(w'.tables, w'.tables.tokens[k]) {}
    forall k | k in w.tables.tokens && w.tables.tokens[k].clientId == id ensures Dead(w', w.tables.tokens[k].familyId) {
      FamilyHasAChain(w, k);
      forall other | other in w'.tables.tokens ensures w'.tables.tokens[other].familyId != w.tables.tokens[k].familyId {
        if w.tables.tokens[other].familyId == w.tables.tokens[k].familyId {
          SameFamilySameClient(w.tables, w.clock, k, other);
        }
      }
    }
  }

  lemma FamilyHasAChain(w: World, k: Id)
    requires ChainsOk(w.tables.tokens, w.history) && k in w.tables.tokens
    ensures Chain(w.history, w.tables.tokens[k].familyId) != []
  {
    assert IsChain(w.tables.tokens, w.tables.tokens[k].familyId, Chain(w.history, w.tables.tokens[k].familyId));
  }
}
