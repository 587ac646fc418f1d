/** Applications belong to developers: who can manage them, and exactly what managing them does. */
module Ownership {
  import opened Wrappers
  import opened Text
  import opened Secret
  import opened Schema
  import opened Statements
  import opened Events
  import opened Clients
  import opened World
  import opened Changes
  import opened Preservation
  import opened Steps
  import opened Registry
  import A = Authorization
  import T = TokenEndpoint

  /** The row has this name and this owner. */
  predicate Owns(t: Tables, id: Id, owner: Id, clientId: string) {
    id in t.clients && t.clients[id].clientId == clientId && t.clients[id].owner == Some(owner)
  }

  lemma FindsOwned(t: Tables, id: Id, owner: Id, clientId: string)
    requires Constraints(t) && Owns(t, id, owner, clientId)
    ensures OwnedClient(t, owner, clientId) == Some(t.clients[id])
  {
    hide CodeKeys, ConsentKeys, TokenKeys;
    FindClient(t, id);
  }

  lemma FindsOnlyOwned(t: Tables, owner: Id, clientId: string)
    requires Constraints(t)
    ensures OwnedClient(t, owner, clientId).Some? <==> exists id :: Owns(t, id, owner, clientId)
  {
    hide CodeKeys, ConsentKeys, TokenKeys;
    if id :| Owns(t, id, owner, clientId) {
      FindClient(t, id);
    }
    var found := OwnedClient(t, owner, clientId);
    if found.Some? {
      assert Owns(t, found.value.id, owner, clientId);
    }
  }

  /**
   * To anyone but its owner an application does not exist: managing it is answered with "not
   * found" exactly if no row has that name and that owner, and then nothing changes.
   */
  lemma NotFoundExactly(env: Env, t: Tables, owner: Id, clientId: string, details: ClientDetails, secret: string,
                        confirmed: bool, now: Time)
    requires Constraints(t)
    ensures Clients.UpdateApp(env, t, owner, clientId, details, now).1 == NotFound
            <==> forall id :: !Owns(t, id, owner, clientId)
    ensures RotateSecret(env, t, owner, clientId, secret, now).1 == NotFound
            <==> forall id :: !Owns(t, id, owner, clientId)
    ensures Clients.DeleteApp(t, owner, clientId, confirmed).1 == NotFound
            <==> forall id :: !Owns(t, id, owner, clientId)
    ensures (forall id :: !Owns(t, id, owner, clientId)) ==>
              && Clients.UpdateApp(env, t, owner, clientId, details, now).0 == t
              && RotateSecret(env, t, owner, clientId, secret, now).0 == t
              && Clients.DeleteApp(t, owner, clientId, confirmed).0 == t
  {
    hide Constraints, OwnedClient, Owns, CheckedDetails, HashToken, DeleteClient, UpdateClientDetails,
      UpdateClientSecret;
    FindsOnlyOwned(t, owner, clientId);
  }

  // ------------------------------------------------------------- what the owner does

  /** The details are acceptable once trimmed and deduplicated. */
  ghost predicate Acceptable(env: Env, d: ClientDetails) {
    ProperDetails(env, Trim(d.name), FirstOccurrences(d.redirectUris), d.scopes)
  }

  lemma CheckedExactly(env: Env, d: ClientDetails)
    ensures CheckedDetails(env, d).Ok? <==> Acceptable(env, d)
    ensures CheckedDetails(env, d).Ok? ==>
              CheckedDetails(env, d).value == ClientDetails(Trim(d.name), FirstOccurrences(d.redirectUris), d.scopes)
    ensures CheckedDetails(env, d).Err? ==> CheckedDetails(env, d).error != Database
  {
    AcceptedDetails(env, d);
    hide ProperDetails, FirstBadUri, RedirectUriProblem;
  }

  /** Editing replaces name, redirect URIs and scopes of the one row, or refuses and changes nothing. */
  lemma UpdateExactly(env: Env, t: Tables, id: Id, owner: Id, clientId: string, d: ClientDetails, now: Time)
    requires Constraints(t) && Owns(t, id, owner, clientId)
    ensures var (t', answer) := Clients.UpdateApp(env, t, owner, clientId, d, now);
            if Acceptable(env, d) then
              && answer == Saved
              && t' == t.(clients := t.clients[id := t.clients[id].(
                            name := Trim(d.name), redirectUris := FirstOccurrences(d.redirectUris),
                            allowedScopes := Sorted(d.scopes), updatedAt := now)])
            else answer.Refused? && t' == t
    ensures Effect(env, t, Step.UpdateApp(owner, clientId, d), now)
            == (Clients.UpdateApp(env, t, owner, clientId, d, now).0, [])
  {
    hide CodeKeys, ConsentKeys, TokenKeys, CheckedDetails, Acceptable, OwnedClient;
    FindsOwned(t, id, owner, clientId);
    CheckedExactly(env, d);
  }

  /** A new secret replaces the digest of a confidential application; a public one has none to replace. */
  lemma RotateExactly(env: Env, t: Tables, id: Id, owner: Id, clientId: string, secret: string, now: Time)
    requires Constraints(t) && Owns(t, id, owner, clientId)
    ensures RotateSecret(env, t, owner, clientId, secret, now)
            == if t.clients[id].secretHash.None? then (t, NewSecret(None))
               else (t.(clients := t.clients[id := t.clients[id].(secretHash := Some(HashToken(env.sha256, secret)),
                                                                  updatedAt := now)]),
                     NewSecret(Some(secret)))
    ensures Effect(env, t, Step.RotateAppSecret(owner, clientId, secret), now)
            == (RotateSecret(env, t, owner, clientId, secret, now).0, [])
  {
    hide CodeKeys, ConsentKeys, TokenKeys, OwnedClient, HashToken;
    FindsOwned(t, id, owner, clientId);
  }

  /** Nothing is deleted without confirmation. */
  lemma UnconfirmedDeletesNothing(t: Tables, owner: Id, clientId: string)
    ensures Clients.DeleteApp(t, owner, clientId, false).0 == t
    ensures Clients.DeleteApp(t, owner, clientId, false).1 in {NotFound, NotConfirmed}
  {
  }

  /** The drawn row id or public name is taken. */
  ghost predicate NameCollides(t: Tables, drawn: ClientFresh) {
    drawn.id in t.clients || exists id :: id in t.clients && t.clients[id].clientId == drawn.clientId
  }

  /** The row of a new application. */
  ghost function NewRow(env: Env, d: ClientDetails, confidential: bool, owner: Option<Id>, drawn: ClientFresh,
                        now: Time): Client {
    Client(drawn.id, drawn.clientId, if confidential then Some(HashToken(env.sha256, drawn.secret)) else None,
           Trim(d.name), FirstOccurrences(d.redirectUris), Sorted(d.scopes), now, now, None, owner)
  }

  /** What registering comes to; the secret is told once, and only to a confidential client. */
  ghost predicate Registers(env: Env, t: Tables, d: ClientDetails, confidential: bool, owner: Option<Id>,
                            drawn: ClientFresh, now: Time, t': Tables, answer: RegistryResponse) {
    if Acceptable(env, d) && !NameCollides(t, drawn) then
      var row := NewRow(env, d, confidential, owner, drawn, now);
      && t' == t.(clients := t.clients[drawn.id := row])
      && answer == Registered(row, if confidential then Some(drawn.secret) else None)
    else t' == t && answer.Refused?
  }

  /** The command line registers clients without owner; the portal for its user, up to 25. */
  lemma RegisterExactly(env: Env, t: Tables, owner: Id, d: ClientDetails, confidential: bool, drawn: ClientFresh,
                        now: Time)
    ensures var (t', answer) := Register(env, t, NewClient(d, confidential, None), drawn, now);
            && Registers(env, t, d, confidential, None, drawn, now, t', answer)
            && Effect(env, t, RegisterByOperator(d, confidential, drawn), now) == (t', [])
    ensures var (t', answer) := CreateApp(env, t, owner, d, confidential, drawn, now);
            && Effect(env, t, RegisterApp(owner, d, confidential, drawn), now) == (t', [])
            && if |(set id | id in t.clients && t.clients[id].owner == Some(owner))| >= 25
               then t' == t && answer == LimitReached
               else Registers(env, t, d, confidential, Some(owner), drawn, now, t', answer)
  {
    hide Register, Registers;
    RegistersRow(env, t, d, confidential, None, drawn, now);
    RegistersRow(env, t, d, confidential, Some(owner), drawn, now);
    assert ClientsOwnedBy(t, owner) == (set id | id in t.clients && t.clients[id].owner == Some(owner));
  }

  lemma RegistersRow(env: Env, t: Tables, d: ClientDetails, confidential: bool, owner: Option<Id>, drawn: ClientFresh,
                     now: Time)
    ensures var (t', answer) := Register(env, t, NewClient(d, confidential, owner), drawn, now);
            Registers(env, t, d, confidential, owner, drawn, now, t', answer)
  {
    hide CheckedDetails, Acceptable, HashToken;
    CheckedExactly(env, d);
  }

  /** What registration tells is what authenticates: the name with the secret, or without one if there is none. */
  lemma RegisteredAuthenticates(env: Env, t: Tables, d: ClientDetails, confidential: bool, owner: Option<Id>,
                                drawn: ClientFresh, now: Time, t': Tables, answer: RegistryResponse)
    requires Constraints(t) && Registers(env, t, d, confidential, owner, drawn, now, t', answer) && answer.Registered?
    ensures Authenticate(env, t', Credentials(drawn.clientId, answer.secret)) == Some(answer.client)
  {
    hide HashToken, Acceptable, CodeKeys, ConsentKeys, TokenKeys;
    var c := Credentials(drawn.clientId, answer.secret);
    assert InsertClient(t, answer.client) == Ok(t');
    InsertClientKeeps(t, answer.client);
    FindClient(t', drawn.id);
  }

  // ------------------------------------------------------------- only the owner does it

  /** The developer that asks to edit an application, give it a new secret, or delete it. */
  function ManagerOf(step: Step): Option<Id> {
    match step
    case UpdateApp(owner, _, _) => Some(owner)
    case RotateAppSecret(owner, _, _) => Some(owner)
    case DeleteApp(owner, _, _) => Some(owner)
    case _ => None
  }

  /** The request manages applications of this owner. */
  predicate ManagedBy(step: Step, owner: Option<Id>) { ManagerOf(step).Some? && ManagerOf(step) == owner }

  lemma ForeignUpdateKeepsRow(env: Env, t: Tables, step: Step, now: Time, id: Id)
    requires Constraints(t) && id in t.clients && ManagerOf(step).Some? && !ManagedBy(step, t.clients[id].owner)
    ensures id in Effect(env, t, step, now).0.clients
    ensures Effect(env, t, step, now).0.clients[id] == t.clients[id]
  {
    hide CodeKeys, ConsentKeys, TokenKeys, CheckedDetails, HashToken, TokensWithout, CodesWithout, ConsentsWithout,
      Dangling, Owns;
    FindsOnlyOwnedRow(t, ManagerOf(step).value, NameIn(step), id);
  }

  /** The application a managing request names. */
  function NameIn(step: Step): string
    requires ManagerOf(step).Some?
  {
    step.clientId
  }

  lemma FindsOnlyOwnedRow(t: Tables, owner: Id, clientId: string, id: Id)
    requires Constraints(t) && id in t.clients && t.clients[id].owner != Some(owner)
    ensures var found := OwnedClient(t, owner, clientId);
            found.Some? ==> found.value.id != id && found.value.id in t.clients
  {
    hide CodeKeys, ConsentKeys, TokenKeys;
  }

  lemma StepKeepsRow(env: Env, t: Tables, step: Step, now: Time, id: Id)
    requires Constraints(t) && id in t.clients && !ManagedBy(step, t.clients[id].owner)
    ensures id in Effect(env, t, step, now).0.clients
    ensures Effect(env, t, step, now).0.clients[id] == t.clients[id]
  {
    hide Constraints, T.HandleToken, T.HandleRevocation, A.Authorize, A.Consented, Register, Clients.UpdateApp,
      RotateSecret, Clients.DeleteApp;
    match step {
      case TokenRequest(_, _, _, _) => TokenRequestKeepsClients(env, t, step, now);
      case RevocationRequest(_, _) => RevocationKeepsClients(env, t, step, now);
      case AuthorizeRequest(_, _, _) => AuthorizationKeepsClients(env, t, step, now);
      case ConsentAnswer(_, _, _, _) => AuthorizationKeepsClients(env, t, step, now);
      case RegisterByOperator(details, confidential, drawn) =>
        RegisteringKeepsClients(env, t, NewClient(details, confidential, None), drawn, now);
      case RegisterApp(owner, details, confidential, drawn) =>
        RegisteringKeepsClients(env, t, NewClient(details, confidential, Some(owner)), drawn, now);
      case _ => ForeignUpdateKeepsRow(env, t, step, now, id);
    }
  }

  /**
   * Only its owner changes an application: over any run without a managing request of the owner,
   * whatever everybody else does, its row stays as it is. One without an owner never changes.
   */
  lemma {:induction false} OnlyTheOwnerChanges(env: Env, w: World, run: Run, id: Id)
    requires Reachable(env, w) && AllowedRun(env, w, run) && id in w.tables.clients
    requires forall i :: 0 <= i < |run| ==> !ManagedBy(run[i].0, w.tables.clients[id].owner)
    ensures id in After(env, w, run).tables.clients
    ensures After(env, w, run).tables.clients[id] == w.tables.clients[id]
    decreases |run|
  {
    hide Reachable, Effect, ManagedBy, Inv, Allowed;
    if run != [] {
      var (step, now) := run[0];
      var w' := Next(env, w, step, now);
      KeepsConstraints(env, w);
      StepKeepsRow(env, w.tables, step, now, id);
      NextIsReachable(env, w, step, now);
      forall i | 0 <= i < |run[1..]| ensures !ManagedBy(run[1..][i].0, w.tables.clients[id].owner) {
        assert run[1..][i] == run[i + 1];
      }
      OnlyTheOwnerChanges(env, w', run[1..], id);
    }
  }

  lemma KeepsConstraints(env: Env, w: World)
    requires Reachable(env, w)
    ensures Constraints(w.tables)
  {
    hide Reachable, ClientsOk, ConsentsOk, CodesOk, RowsOk, FamiliesOk, ChainsOk, HistoryOk;
    ReachableInv(env, w);
  }

  // ------------------------------------------------------------- grants of other applications

  ghost function CodesOf(t: Tables, id: Id): map<Id, Code> {
    map k | k in t.codes && t.codes[k].clientId == id :: t.codes[k]
  }

  ghost function ConsentsOf(t: Tables, id: Id): map<(Id, Id), Consent> {
    map key | key in t.consents && key.1 == id :: t.consents[key]
  }

  ghost function TokensOf(t: Tables, id: Id): map<Id, RefreshToken> {
    map k | k in t.tokens && t.tokens[k].clientId == id :: t.tokens[k]
  }

  /** The same codes, consents and tokens of this client. */
  ghost predicate SameGrants(t: Tables, t': Tables, id: Id) {
    CodesOf(t', id) == CodesOf(t, id) && ConsentsOf(t', id) == ConsentsOf(t, id) && TokensOf(t', id) == TokensOf(t, id)
  }

  lemma ForeignDeletionKeepsGrants(env: Env, w: World, owner: Id, clientId: string, confirmed: bool, id: Id)
    requires Reachable(env, w) && id in w.tables.clients && w.tables.clients[id].owner != Some(owner)
    ensures SameGrants(w.tables, Clients.DeleteApp(w.tables, owner, clientId, confirmed).0, id)
  {
    hide Reachable, ClientsOk, ConsentsOk, CodesOk, RowsOk, FamiliesOk, ChainsOk, HistoryOk, Owns, ClientByName;
    KeepsConstraints(env, w);
    ReachableInv(env, w);
    var t := w.tables;
    FindsOnlyOwned(t, owner, clientId);
    var app := OwnedClient(t, owner, clientId);
    FindsOnlyOwnedRow(t, owner, clientId, id);
    if app.Some? && confirmed {
      DeleteClientSucceeds(env, w, app.value.id);
    }
  }

  lemma ManagementKeepsGrants(env: Env, w: World, step: Step, now: Time, id: Id)
    requires Reachable(env, w) && id in w.tables.clients
    requires ManagerOf(step).Some? && !ManagedBy(step, w.tables.clients[id].owner)
    ensures SameGrants(w.tables, Effect(env, w.tables, step, now).0, id)
  {
    hide Reachable, Clients.UpdateApp, RotateSecret, Clients.DeleteApp, SameGrants, Owns;
    if step.DeleteApp? {
      ForeignDeletionKeepsGrants(env, w, step.owner, step.clientId, step.confirmed, id);
    } else {
      RegistryTouchesOnlyClients(env, w.tables, step, now);
      SameTables(w.tables, Effect(env, w.tables, step, now).0, id);
    }
  }

  lemma SameTables(t: Tables, t': Tables, id: Id)
    requires t'.codes == t.codes && t'.consents == t.consents && t'.tokens == t.tokens
    ensures SameGrants(t, t', id)
  {
  }

  /**
   * Over any run of managing requests by other developers, an application keeps its row, its
   * codes, its consents and its tokens.
   */
  lemma {:induction false} OthersManageNothing(env: Env, w: World, run: Run, id: Id)
    requires Reachable(env, w) && AllowedRun(env, w, run) && id in w.tables.clients
    requires forall i :: 0 <= i < |run| ==>
               ManagerOf(run[i].0).Some? && !ManagedBy(run[i].0, w.tables.clients[id].owner)
    ensures id in After(env, w, run).tables.clients
    ensures After(env, w, run).tables.clients[id] == w.tables.clients[id]
    ensures SameGrants(w.tables, After(env, w, run).tables, id)
    decreases |run|
  {
    hide Reachable, Effect, ManagedBy, ManagerOf, Inv, Allowed, CodesOf, ConsentsOf, TokensOf;
    if run != [] {
      var (step, now) := run[0];
      var w' := Next(env, w, step, now);
      KeepsConstraints(env, w);
      StepKeepsRow(env, w.tables, step, now, id);
      ManagementKeepsGrants(env, w, step, now, id);
      NextIsReachable(env, w, step, now);
      forall i | 0 <= i < |run[1..]|
        ensures ManagerOf(run[1..][i].0).Some? && !ManagedBy(run[1..][i].0, w.tables.clients[id].owner)
      {
        assert run[1..][i] == run[i + 1];
      }
      OthersManageNothing(env, w', run[1..], id);
    }
  }
}
