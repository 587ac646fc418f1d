/** What the server remembers of approvals: all of them, while the client is registered, and nothing else. */
module Consents {
  import opened Wrappers
  import opened Secret
  import opened Schema
  import opened Statements
  import opened Events
  import opened Clients
  import opened World
  import opened Changes
  import opened Preservation
  import opened Steps
  import opened Registry
  import opened ValidRequests
  import opened AuthorizationAnswers
  import opened Params
  import opened AuthorizationRequests
  import A = Authorization
  import T = TokenEndpoint
  import Scope

  /** The scope is in the consent of this user for this client, and the consent is in force. */
  predicate Holds(t: Tables, user: Id, client: Id, s: string) {
    (user, client) in t.consents && t.consents[(user, client)].revokedAt.None?
    && s in t.consents[(user, client)].scopes
  }

  /** The request approves this scope for this client, in the name of this user. */
  ghost predicate ApprovesScope(t: Tables, step: Step, user: Id, client: Id, s: string) {
    exists scopes :: ApprovesAs(t, step, user, client, scopes) && s in scopes
  }

  // ------------------------------------------------------------- one request

  lemma RedemptionKeepsConsents(env: Env, t: Tables, client: Client, hash: string, uri: string, verifier: string,
                                drawn: Fresh, signs: bool, now: Time)
    ensures T.RedeemCode(env, t, client, hash, uri, verifier, drawn, signs, now).tables.consents == t.consents
  {
    hide HashToken, Scope.Parsed, T.BindingError, CodeByHash, T.SignedTokens, T.NewRow, Detached;
  }

  lemma RotationKeepsConsents(env: Env, t: Tables, client: Client, hash: string, requested: Option<set<string>>,
                              drawn: Fresh, signs: bool, now: Time)
    ensures T.Rotate(env, t, client, hash, requested, drawn, signs, now).tables.consents == t.consents
  {
    hide HashToken, Scope.Parsed, T.CheckUsable, TokenByHash, T.SignedTokens, T.NewRow;
  }

  lemma GrantsKeepConsents(env: Env, t: Tables, client: Client, params: map<string, string>, drawn: Fresh,
                           signs: bool, now: Time)
    ensures T.ExchangeCode(env, t, client, params, drawn, signs, now).tables.consents == t.consents
    ensures T.ExchangeRefresh(env, t, client, params, drawn, signs, now).tables.consents == t.consents
  {
    hide T.RedeemCode, T.Rotate, Scope.Parsed, HashToken;
    var code, uri, verifier := Get(params, "code"), Get(params, "redirect_uri"), Get(params, "code_verifier");
    if code.Some? && uri.Some? && verifier.Some? {
      var hash := HashToken(env.sha256, code.value);
      RedemptionKeepsConsents(env, t, client, hash, uri.value, verifier.value, drawn, signs, now);
    }
    var raw, scope := Get(params, "refresh_token"), Get(params, "scope");
    if raw.Some? {
      var requested := if scope.None? || Scope.Parsed(scope.value).Err? then None
                       else Some(Scope.Parsed(scope.value).value);
      RotationKeepsConsents(env, t, client, HashToken(env.sha256, raw.value), requested, drawn, signs, now);
    }
  }

  lemma TokenRequestKeepsConsents(env: Env, t: Tables, header: BasicHeader, pairs: Pairs, drawn: Fresh, signs: bool,
                                  now: Time)
    ensures T.HandleToken(env, t, header, pairs, drawn, signs, now).tables.consents == t.consents
  {
    hide T.AuthenticatedClient, T.ExchangeCode, T.ExchangeRefresh;
    if Collected(pairs).Ok? {
      var params := Collected(pairs).value;
      var client := T.AuthenticatedClient(env, t, header, params);
      if client.Ok? {
        GrantsKeepConsents(env, t, client.value, params, drawn, signs, now);
      }
    }
  }

  lemma AuthorizeKeepsConsents(env: Env, t: Tables, pairs: Pairs, session: Option<A.Session>, drawn: Fresh, now: Time)
    ensures A.Authorize(env, t, pairs, session, drawn, now).tables.consents == t.consents
  {
    hide A.Validate, Collected, FromParams, A.NeedsReauthentication, A.AlreadyApproved, A.CodeRow;
  }

  lemma DeletionKeepsConsents(t: Tables, owner: Id, clientId: string, confirmed: bool, user: Id, client: Id)
    requires Constraints(t)
    ensures var t' := Clients.DeleteApp(t, owner, clientId, confirmed).0;
            client in t'.clients ==>
              && client in t.clients
              && forall s :: Holds(t', user, client, s) <==> Holds(t, user, client, s)
  {
    hide TokenKeys, CodeKeys, Dangling, TokensWithout, CodesWithout;
  }

  lemma OtherStepKeepsConsents(env: Env, w: World, step: Step, now: Time, user: Id, client: Id)
    requires Constraints(w.tables) && !step.ConsentAnswer?
    requires client in Next(env, w, step, now).tables.clients
    ensures forall s :: Holds(Next(env, w, step, now).tables, user, client, s) <==> Holds(w.tables, user, client, s)
  {
    hide T.HandleToken, T.HandleRevocation, A.Authorize, Clients.DeleteApp, Constraints, Register, CreateApp,
      Clients.UpdateApp, RotateSecret;
    match step {
      case TokenRequest(header, pairs, drawn, signs) =>
        TokenRequestKeepsConsents(env, w.tables, header, pairs, drawn, signs, now);
      case RevocationRequest(header, pairs) => RevocationKeepsConsents(env, w.tables, header, pairs, now);
      case AuthorizeRequest(pairs, session, drawn) =>
        AuthorizeKeepsConsents(env, w.tables, pairs, session, drawn, now);
      case DeleteApp(owner, clientId, confirmed) =>
        DeletionKeepsConsents(w.tables, owner, clientId, confirmed, user, client);
      case _ => RegistryTouchesOnlyClients(env, w.tables, step, now);
    }
  }

  lemma RevocationKeepsConsents(env: Env, t: Tables, header: BasicHeader, pairs: Pairs, now: Time)
    ensures T.HandleRevocation(env, t, header, pairs, now).tables.consents == t.consents
  {
    hide T.AuthenticatedClient;
  }

  lemma ApprovalAdds(env: Env, w: World, step: Step, now: Time, v: A.ValidatedRequest, user: Id, client: Id)
    requires Reachable(env, w) && step.ConsentAnswer?
    requires Approves(w.tables, step.pairs, step.csrfOk, step.session, v)
    ensures step.session.Some?
    ensures forall s :: Holds(Next(env, w, step, now).tables, user, client, s) <==>
              Holds(w.tables, user, client, s)
              || (user == step.session.value.user && client == v.client.id && s in v.scope)
  {
    hide Reachable, Inv, IsValidated, Distinct, A.Consented, NewCode;
    var o := A.Consented(env, w.tables, step.pairs, step.csrfOk, step.session, step.drawn, now);
    ApprovalExactly(env, w, step.pairs, step.csrfOk, step.session, step.drawn, now, v);
    var granted :| Granted(w.tables, step.session.value.user, v.client.id, v.scope, now, granted)
      && SendsCodeOrFails(env, granted, v, step.session.value, step.drawn, now, o.tables, o.response, o.events[1..]);
    assert o.tables.consents == granted.consents;
  }

  /**
   * Whatever the request: afterwards a registered client holds a scope of a user exactly if it
   * held it before, or the request is the answer by which that user approves it.
   */
  lemma StepConsents(env: Env, w: World, step: Step, now: Time, user: Id, client: Id, s: string)
    requires Reachable(env, w) && client in Next(env, w, step, now).tables.clients
    ensures Holds(Next(env, w, step, now).tables, user, client, s)
            <==> Holds(w.tables, user, client, s) || ApprovesScope(w.tables, step, user, client, s)
  {
    hide Reachable, Approves, Effect, Holds, Constraints;
    InvConstraints(env, w);
    if !step.ConsentAnswer? {
      OtherStepKeepsConsents(env, w, step, now, user, client);
    } else if v :| Approves(w.tables, step.pairs, step.csrfOk, step.session, v) {
      ApprovalAdds(env, w, step, now, v, user, client);
      ApprovalIsOne(env, w.tables, step, now, v);
      assert v.scope == v.scope && (s in v.scope && client == v.client.id && step.session.value.user == user ==>
        ApprovesAs(w.tables, step, user, client, v.scope));
    } else {
      InvalidApprovesNothing(env, w.tables, step, now);
    }
  }

  // ------------------------------------------------------------- whole runs

  /** The user approved the scope, in some reachable state, and the client has been registered ever since. */
  ghost predicate ApprovedSince(env: Env, w': World, user: Id, client: Id, s: string) {
    exists w, step, now ::
      && Reachable(env, w) && Allowed(w, step, now) && ApprovesScope(w.tables, step, user, client, s)
      && LaterRegistered(env, Next(env, w, step, now), w', client)
  }

  lemma {:induction false} RunKeepsConsent(env: Env, w: World, run: Run, user: Id, client: Id, s: string)
    requires Reachable(env, w) && AllowedRun(env, w, run) && StaysRegistered(env, w, run, client)
    requires Holds(w.tables, user, client, s)
    ensures Holds(After(env, w, run).tables, user, client, s)
    decreases |run|
  {
    hide Reachable, Next, Holds, ApprovesScope;
    if run != [] {
      var w' := Next(env, w, run[0].0, run[0].1);
      assert client in w'.tables.clients by { assert StaysRegistered(env, w', run[1..], client); }
      StepConsents(env, w, run[0].0, run[0].1, user, client, s);
      NextIsReachable(env, w, run[0].0, run[0].1);
      RunKeepsConsent(env, w', run[1..], user, client, s);
    }
  }

  lemma ApprovedHolds(env: Env, w': World, user: Id, client: Id, s: string)
    requires ApprovedSince(env, w', user, client, s)
    ensures Holds(w'.tables, user, client, s)
  {
    hide Reachable, ApprovesScope, Next, AllowedRun, After, Holds;
    var w, step, now :|
      && Reachable(env, w) && Allowed(w, step, now) && ApprovesScope(w.tables, step, user, client, s)
      && LaterRegistered(env, Next(env, w, step, now), w', client);
    var w1 := Next(env, w, step, now);
    var run :| AllowedRun(env, w1, run) && StaysRegistered(env, w1, run, client) && w' == After(env, w1, run);
    StepConsents(env, w, step, now, user, client, s);
    NextIsReachable(env, w, step, now);
    RunKeepsConsent(env, w1, run, user, client, s);
  }

  /** Every scope in force was approved while its client was registered. */
  ghost predicate Explained(env: Env, w: World, user: Id, client: Id, s: string) {
    Holds(w.tables, user, client, s) ==> ApprovedSince(env, w, user, client, s)
  }

  lemma StepExplains(env: Env, w: World, step: Step, now: Time, user: Id, client: Id, s: string)
    requires Reachable(env, w) && Allowed(w, step, now) && Explained(env, w, user, client, s)
    ensures Explained(env, Next(env, w, step, now), user, client, s)
  {
    hide Reachable, Next, ApprovesScope, ApprovedSince;
    var w' := Next(env, w, step, now);
    if Holds(w'.tables, user, client, s) {
      NextIsReachable(env, w, step, now);
      ConsentOfRegistered(env, w', user, client, s);
      StepConsents(env, w, step, now, user, client, s);
      if Holds(w.tables, user, client, s) {
        ConsentOfRegistered(env, w, user, client, s);
        SinceNext(env, w, step, now, user, client, s);
      } else {
        JustApproved(env, w, step, now, user, client, s);
      }
    }
  }

  lemma ConsentOfRegistered(env: Env, w: World, user: Id, client: Id, s: string)
    requires Reachable(env, w) && Holds(w.tables, user, client, s)
    ensures client in w.tables.clients
  {
    hide Reachable, ClientKeys, CodeKeys, TokenKeys;
    InvConstraints(env, w);
    assert (user, client) in w.tables.consents;
  }

  lemma SinceNext(env: Env, w': World, step: Step, now: Time, user: Id, client: Id, s: string)
    requires ApprovedSince(env, w', user, client, s) && Allowed(w', step, now)
    requires client in w'.tables.clients && client in Next(env, w', step, now).tables.clients
    ensures ApprovedSince(env, Next(env, w', step, now), user, client, s)
  {
    hide Reachable, ApprovesScope, Next, AllowedRun, After, StaysRegistered;
    var w, step0, now0 :|
      && Reachable(env, w) && Allowed(w, step0, now0) && ApprovesScope(w.tables, step0, user, client, s)
      && LaterRegistered(env, Next(env, w, step0, now0), w', client);
    var w1 := Next(env, w, step0, now0);
    var run :| AllowedRun(env, w1, run) && StaysRegistered(env, w1, run, client) && w' == After(env, w1, run);
    LongerRegistered(env, w1, run, step, now, client);
    assert LaterRegistered(env, w1, Next(env, w', step, now), client);
  }

  lemma {:induction false} LongerRegistered(env: Env, w: World, run: Run, step: Step, now: Time, client: Id)
    requires AllowedRun(env, w, run) && StaysRegistered(env, w, run, client)
    requires Allowed(After(env, w, run), step, now)
    requires client in Next(env, After(env, w, run), step, now).tables.clients
    ensures AllowedRun(env, w, run + [(step, now)]) && StaysRegistered(env, w, run + [(step, now)], client)
    ensures After(env, w, run + [(step, now)]) == Next(env, After(env, w, run), step, now)
    decreases |run|
  {
    hide Next, Allowed;
    var more := run + [(step, now)];
    if run == [] {
      assert more[0] == (step, now) && more[1..] == [];
      assert StaysRegistered(env, Next(env, w, step, now), [], client);
    } else {
      assert more[0] == run[0] && more[1..] == run[1..] + [(step, now)];
      LongerRegistered(env, Next(env, w, run[0].0, run[0].1), run[1..], step, now, client);
    }
  }

  lemma JustApproved(env: Env, w: World, step: Step, now: Time, user: Id, client: Id, s: string)
    requires Reachable(env, w) && Allowed(w, step, now) && ApprovesScope(w.tables, step, user, client, s)
    requires client in Next(env, w, step, now).tables.clients
    ensures ApprovedSince(env, Next(env, w, step, now), user, client, s)
  {
    hide Reachable, Next, ApprovesScope;
    var w' := Next(env, w, step, now);
    assert AllowedRun(env, w', []) && StaysRegistered(env, w', [], client) && After(env, w', []) == w';
    assert LaterRegistered(env, w', w', client);
  }

  lemma {:induction false} RunExplains(env: Env, w: World, run: Run, user: Id, client: Id, s: string)
    requires Reachable(env, w) && AllowedRun(env, w, run) && Explained(env, w, user, client, s)
    ensures Explained(env, After(env, w, run), user, client, s)
    decreases |run|
  {
    hide Reachable, Next, Explained;
    if run != [] {
      StepExplains(env, w, run[0].0, run[0].1, user, client, s);
      NextIsReachable(env, w, run[0].0, run[0].1);
      RunExplains(env, Next(env, w, run[0].0, run[0].1), run[1..], user, client, s);
    }
  }

  /**
   * Approvals are neither lost nor invented: in every reachable state a scope is in force exactly
   * if the user once approved it and the client has been registered ever since.
   */
  lemma RemembersExactly(env: Env, w: World, user: Id, client: Id, s: string)
    requires Reachable(env, w)
    ensures Holds(w.tables, user, client, s) <==> ApprovedSince(env, w, user, client, s)
  {
    hide ApprovedSince, AllowedRun, After, Inv;
    if ApprovedSince(env, w, user, client, s) {
      ApprovedHolds(env, w, user, client, s);
    }
    var clock :| Later(env, Initial(clock), w);
    var run :| AllowedRun(env, Initial(clock), run) && w == After(env, Initial(clock), run);
    InitialIsReachable(env, clock);
    RunExplains(env, Initial(clock), run, user, client, s);
  }

  lemma InitialIsReachable(env: Env, clock: Time)
    ensures Reachable(env, Initial(clock))
  {
    assert AllowedRun(env, Initial(clock), []) && After(env, Initial(clock), []) == Initial(clock);
    assert Later(env, Initial(clock), Initial(clock));
  }

  /**
   * Nobody is asked twice: a valid request of a user signed in freshly enough, which does not
   * insist on the consent page, is answered with a code, or with an internal error, exactly if
   * the user once approved every one of its scopes and the client has been registered since.
   */
  lemma NotAskedAgain(env: Env, w: World, pairs: Pairs, session: A.Session, drawn: Fresh, now: Time,
                      v: A.ValidatedRequest)
    requires Reachable(env, w) && Distinct(pairs) && IsValidated(w.tables, pairs, v)
    requires SignedIn(v, Some(session), now) && !v.prompt.consent
    ensures var response := A.Authorize(env, w.tables, pairs, Some(session), drawn, now).response;
            response.ToClient? || response == A.Failed(A.Internal)
            <==> forall s :: s in v.scope ==> ApprovedSince(env, w, session.user, v.client.id, s)
  {
    hide Reachable, IsValidated, Distinct, SignedIn, ApprovedSince, A.Authorize, Asked;
    AuthorizeExactly(env, w, pairs, Some(session), drawn, now, v);
    forall s
      ensures Holds(w.tables, session.user, v.client.id, s)
              <==> ApprovedSince(env, w, session.user, v.client.id, s)
    {
      RemembersExactly(env, w, session.user, v.client.id, s);
    }
    ScopeIsNotEmpty(w.tables, pairs, v);
    var some :| some in v.scope;
  }

  lemma ScopeIsNotEmpty(t: Tables, pairs: Pairs, v: A.ValidatedRequest)
    requires IsValidated(t, pairs, v)
    ensures v.scope != {}
  {
    hide NamesClient, AsksForCode, HasState, HasChallenge, HasNonce, HasPrompt, HasMaxAge;
  }
}
