/** What the authorization endpoint and the consent page answer and store, request by request. */
module AuthorizationAnswers {
  import opened Wrappers
  import opened Secret
  import opened Schema
  import opened Statements
  import opened Events
  import opened AuthorizationRequests
  import opened World
  import opened Steps
  import opened Registry
  import opened ValidRequests
  import opened Params
  import opened Clients
  import A = Authorization
  import T = TokenEndpoint
  import Scope

  // ------------------------------------------------------------- the authorization endpoint

  /** The user is signed in, as recently as the request demands. */
  ghost predicate SignedIn(v: A.ValidatedRequest, session: Option<A.Session>, now: Time) {
    && session.Some? && !v.prompt.login
    && (v.maxAge.Some? ==> now - session.value.createdAt < (v.maxAge.value + 1) * SECOND)
  }

  /** The user has approved all these scopes for the client, and not taken that back. */
  ghost predicate HasConsent(t: Tables, user: Id, client: Id, scope: set<string>) {
    && (user, client) in t.consents && t.consents[(user, client)].revokedAt.None?
    && forall s :: s in scope ==> s in t.consents[(user, client)].scopes
  }

  /** The row of a new code: everything the request and the session bind it to. */
  ghost function NewCode(env: Env, v: A.ValidatedRequest, session: A.Session, drawn: Fresh, now: Time): Code {
    Code(drawn.rowId, HashToken(env.sha256, drawn.secret), v.client.id, session.user, v.redirectUri,
         Scope.Print(v.scope), v.codeChallenge, "S256", v.nonce, session.createdAt, now + 60 * SECOND, now, None)
  }

  /** A code is stored, and the browser takes it to the client together with state and issuer. */
  ghost predicate SendsCode(env: Env, t: Tables, v: A.ValidatedRequest, session: A.Session, drawn: Fresh, now: Time,
                            t': Tables, response: A.BrowserResponse, events: seq<Event>) {
    && t' == t.(codes := t.codes[drawn.rowId := NewCode(env, v, session, drawn, now)])
    && response == A.ToClient(A.Redirection(v.redirectUri, drawn.secret, v.state, env.issuer))
    && events == [CodeIssued(session.user, v.client.id, v.scope, v.client.AllowedScopes())]
  }

  /** That happens, unless a drawn value is taken: then nothing does. */
  ghost predicate SendsCodeOrFails(env: Env, t: Tables, v: A.ValidatedRequest, session: A.Session, drawn: Fresh,
                                   now: Time, t': Tables, response: A.BrowserResponse, events: seq<Event>) {
    if CodeCollides(env, t, drawn) then t' == t && response == A.Failed(A.Internal) && events == []
    else SendsCode(env, t, v, session, drawn, now, t', response, events)
  }

  /** The client is told of the error, with its state, and nothing changes. */
  ghost predicate TellsClient(t: Tables, v: A.ValidatedRequest, error: string, o: Outcome<A.BrowserResponse>) {
    && o.tables == t && o.events == []
    && o.response.Failed? && o.response.error.Redirect? && o.response.error.redirectUri == v.redirectUri
    && o.response.error.state == Some(v.state) && o.response.error.error == error
  }

  lemma IssuesExactly(env: Env, t: Tables, v: A.ValidatedRequest, session: A.Session, drawn: Fresh, now: Time)
    requires v.client.id in t.clients && env.parseUrl(v.redirectUri).Some?
    ensures var o := A.IssueCode(env, t, v, session, drawn, now);
            var response := match o.response case Ok(to) => A.ToClient(to) case Err(e) => A.Failed(e);
            SendsCodeOrFails(env, t, v, session, drawn, now, o.tables, response, o.events)
  {
    hide HashToken, Scope.Print;
  }

  lemma AgeExactly(v: A.ValidatedRequest, session: A.Session, now: Time)
    requires v.maxAge.Some? ==> v.maxAge.value >= 0
    ensures SignedIn(v, Some(session), now) <==> !A.NeedsReauthentication(v, session, now)
  {
  }

  /** A valid request to the authorization endpoint, by what the user has done so far. */
  ghost predicate AuthorizeAnswer(env: Env, t: Tables, pairs: Pairs, session: Option<A.Session>, drawn: Fresh,
                                  now: Time, v: A.ValidatedRequest, o: Outcome<A.BrowserResponse>)
    requires Distinct(pairs)
  {
    if !SignedIn(v, session, now) then
      if v.prompt.none then TellsClient(t, v, "login_required", o)
      else o == Outcome(t, A.ToSignIn(WithoutReauthentication(Asked(pairs))), [])
    else if HasConsent(t, session.value.user, v.client.id, v.scope) && !v.prompt.consent then
      SendsCodeOrFails(env, t, v, session.value, drawn, now, o.tables, o.response, o.events)
    else if v.prompt.none then TellsClient(t, v, "consent_required", o)
    else o == Outcome(t, A.ConsentPage(Asked(pairs), v), [])
  }

  lemma AnswersValidated(env: Env, t: Tables, pairs: Pairs, session: Option<A.Session>, drawn: Fresh, now: Time,
                         v: A.ValidatedRequest)
    requires Distinct(pairs) && A.Validate(env, t, Asked(pairs)) == Ok(v) && (v.maxAge.Some? ==> v.maxAge.value >= 0)
    requires v.client.id in t.clients && env.parseUrl(v.redirectUri).Some?
    ensures AuthorizeAnswer(env, t, pairs, session, drawn, now, v, A.Authorize(env, t, pairs, session, drawn, now))
  {
    hide Asked, A.Validate, A.IssueCode, A.NeedsReauthentication, SignedIn, Distinct, SendsCodeOrFails,
      WithoutReauthentication;
    AskedIsRead(pairs);
    if session.Some? {
      AgeExactly(v, session.value, now);
      IssuesExactly(env, t, v, session.value, drawn, now);
    } else {
      NobodyIsSignedIn(v, now);
    }
  }

  /**
   * The five answers to a valid request: to the sign-in page or `login_required`, a code, the
   * consent page or `consent_required`, each in exactly its case.
   */
  lemma AuthorizeExactly(env: Env, w: World, pairs: Pairs, session: Option<A.Session>, drawn: Fresh, now: Time,
                         v: A.ValidatedRequest)
    requires Reachable(env, w) && Distinct(pairs) && IsValidated(w.tables, pairs, v)
    ensures AuthorizeAnswer(env, w.tables, pairs, session, drawn, now, v,
                            A.Authorize(env, w.tables, pairs, session, drawn, now))
  {
    hide Reachable, Inv, IsValidated, Asked, A.Validate, Distinct, Constraints, A.Authorize, AuthorizeAnswer;
    ValidInReachable(env, w, pairs, v);
    AnswersValidated(env, w.tables, pairs, session, drawn, now, v);
  }

  lemma ValidInReachable(env: Env, w: World, pairs: Pairs, v: A.ValidatedRequest)
    requires Reachable(env, w) && Distinct(pairs) && IsValidated(w.tables, pairs, v)
    ensures A.Validate(env, w.tables, Asked(pairs)) == Ok(v) && (v.maxAge.Some? ==> v.maxAge.value >= 0)
    ensures v.client.id in w.tables.clients && env.parseUrl(v.redirectUri).Some?
  {
    hide Reachable, Inv, IsValidated, Asked, A.Validate, Distinct, Constraints;
    InvConstraints(env, w);
    ValidatedExactly(env, w.tables, pairs, v);
    ValidatedClient(env, w, Asked(pairs));
    A.ValidatedPrompt(env, w.tables, Asked(pairs));
  }

  lemma NobodyIsSignedIn(v: A.ValidatedRequest, now: Time)
    ensures !SignedIn(v, None, now)
  {
  }

  lemma InvConstraints(env: Env, w: World)
    requires Reachable(env, w)
    ensures Constraints(w.tables)
  {
    hide Reachable, ClientsOk, ConsentsOk, CodesOk, RowsOk, FamiliesOk, ChainsOk, HistoryOk;
    ReachableInv(env, w);
  }

  // ------------------------------------------------------------- the consent page

  /** The answer on the consent page, told from the submitted pairs, the CSRF check and the session. */
  ghost predicate Approves(t: Tables, pairs: Pairs, csrfOk: bool, session: Option<A.Session>, v: A.ValidatedRequest) {
    Distinct(pairs) && csrfOk && session.Some? && ("decision", "approve") in pairs && IsValidated(t, pairs, v)
  }

  /** Only the consent of this user for this client changed: the scopes are added to those it held. */
  ghost predicate Granted(t: Tables, user: Id, client: Id, scopes: set<string>, now: Time, t': Tables) {
    var key := (user, client);
    && t' == t.(consents := t'.consents) && t'.consents.Keys == t.consents.Keys + {key}
    && (forall other :: other in t.consents && other != key ==> t'.consents[other] == t.consents[other])
    && t'.consents[key].revokedAt.None? && t'.consents[key].updatedAt == now
    && t'.consents[key].createdAt == (if key in t.consents then t.consents[key].createdAt else now)
    && (forall s :: s in t'.consents[key].scopes <==>
          s in scopes || (key in t.consents && t.consents[key].revokedAt.None? && s in t.consents[key].scopes))
  }

  /** A grant forgets nothing that was approved before and not revoked, and touches no other consent. */
  lemma GrantedExactly(t: Tables, user: Id, client: Id, scopes: set<string>, now: Time)
    requires client in t.clients
    ensures A.GrantConsent(t, user, client, scopes, now).Ok?
    ensures Granted(t, user, client, scopes, now, A.GrantConsent(t, user, client, scopes, now).value)
  {
  }

  /** Approval: the consent is stored, then the code, unless a drawn value is taken. */
  ghost predicate ApprovalAnswer(env: Env, t: Tables, session: A.Session, drawn: Fresh, now: Time,
                                 v: A.ValidatedRequest, o: Outcome<A.BrowserResponse>) {
    && |o.events| >= 1 && o.events[0] == Approved(session.user, v.client.id, v.scope)
    && exists granted ::
         && Granted(t, session.user, v.client.id, v.scope, now, granted)
         && SendsCodeOrFails(env, granted, v, session, drawn, now, o.tables, o.response, o.events[1..])
  }

  /** Pressing Allow on a valid request of a signed-in user. */
  lemma ApprovalExactly(env: Env, w: World, pairs: Pairs, csrfOk: bool, session: Option<A.Session>, drawn: Fresh,
                        now: Time, v: A.ValidatedRequest)
    requires Reachable(env, w) && Approves(w.tables, pairs, csrfOk, session, v)
    ensures ApprovalAnswer(env, w.tables, session.value, drawn, now, v,
                           A.Consented(env, w.tables, pairs, csrfOk, session, drawn, now))
  {
    hide Reachable, Inv, IsValidated, Asked, A.Validate, Distinct, Constraints, A.GrantConsent, A.IssueCode, Granted,
      SendsCodeOrFails;
    ValidInReachable(env, w, pairs, v);
    AskedIsRead(pairs);
    GetIsSent(pairs, "decision");
    SentMeans(pairs, "decision", "approve");
    GrantedExactly(w.tables, session.value.user, v.client.id, v.scope, now);
    var granted := A.GrantConsent(w.tables, session.value.user, v.client.id, v.scope, now).value;
    GrantingSucceeds(w.tables, session.value.user, v.client.id, v.scope, now);
    IssuesExactly(env, granted, v, session.value, drawn, now);
  }

  /** Anything but `decision=approve`, in particular Deny: the client is told `access_denied`, and nothing changes. */
  lemma DenialExactly(env: Env, t: Tables, pairs: Pairs, session: A.Session, drawn: Fresh, now: Time,
                      v: A.ValidatedRequest)
    requires Constraints(t) && Distinct(pairs) && ("decision", "approve") !in pairs && IsValidated(t, pairs, v)
    ensures TellsClient(t, v, "access_denied", A.Consented(env, t, pairs, true, Some(session), drawn, now))
  {
    hide IsValidated, Asked, A.Validate, Distinct, Constraints, A.GrantConsent, A.IssueCode;
    ValidatedExactly(env, t, pairs, v);
    AskedIsRead(pairs);
    GetIsSent(pairs, "decision");
    SentMeans(pairs, "decision", "approve");
  }

  /** Without the pressed button, the CSRF token or the session, whatever else is submitted, nothing changes. */
  lemma UnapprovedChangesNothing(env: Env, t: Tables, pairs: Pairs, csrfOk: bool, session: Option<A.Session>,
                                 drawn: Fresh, now: Time)
    requires ("decision", "approve") !in pairs || !csrfOk || session.None?
    ensures var o := A.Consented(env, t, pairs, csrfOk, session, drawn, now);
            && o.tables == t && o.events == []
            && (Distinct(pairs) && !csrfOk ==> o.response == A.CsrfFailure)
            && (Distinct(pairs) && csrfOk && session.None? ==> o.response == A.ToSignIn(Asked(pairs)))
  {
    hide Asked, A.Validate, Distinct, A.GrantConsent, A.IssueCode;
    CollectedMeaning(pairs);
    if Distinct(pairs) {
      AskedIsRead(pairs);
      GetIsSent(pairs, "decision");
      SentMeans(pairs, "decision", "approve");
    }
  }

  /** The request approves these scopes for this client, in the name of this user. */
  ghost predicate ApprovesAs(t: Tables, step: Step, user: Id, client: Id, scopes: set<string>) {
    && step.ConsentAnswer? && step.session.Some? && step.session.value.user == user
    && exists v :: Approves(t, step.pairs, step.csrfOk, step.session, v) && v.client.id == client && v.scope == scopes
  }

  lemma ConsentedEvents(env: Env, t: Tables, step: Step, now: Time, v: A.ValidatedRequest)
    requires step.ConsentAnswer? && Constraints(t) && Distinct(step.pairs) && step.csrfOk && step.session.Some?
    requires ("decision", "approve") in step.pairs && IsValidated(t, step.pairs, v)
    ensures forall user, client, scopes :: Approved(user, client, scopes) in Effect(env, t, step, now).1
              <==> user == step.session.value.user && client == v.client.id && scopes == v.scope
  {
    hide IsValidated, Asked, A.Validate, Distinct, Constraints, A.GrantConsent, Granted, A.CodeRow, InsertCode;
    ValidatedExactly(env, t, step.pairs, v);
    AskedIsRead(step.pairs);
    GetIsSent(step.pairs, "decision");
    SentMeans(step.pairs, "decision", "approve");
    IsValidatedRow(t, step.pairs, v);
    GrantedExactly(t, step.session.value.user, v.client.id, v.scope, now);
  }

  lemma IsValidatedRow(t: Tables, pairs: Pairs, v: A.ValidatedRequest)
    requires IsValidated(t, pairs, v)
    ensures v.client.id in t.clients
  {
    hide AsksForCode, HasState, HasScope, HasChallenge, HasNonce, HasPrompt, HasMaxAge;
  }

  lemma InvalidApprovesNothing(env: Env, t: Tables, step: Step, now: Time)
    requires step.ConsentAnswer? && Constraints(t)
    requires forall v :: !Approves(t, step.pairs, step.csrfOk, step.session, v)
    ensures Effect(env, t, step, now) == (t, [])
  {
    hide IsValidated, Asked, A.Validate, Distinct, Constraints;
    if Distinct(step.pairs) && step.csrfOk && step.session.Some? && ("decision", "approve") in step.pairs {
      AskedIsRead(step.pairs);
      var validated := A.Validate(env, t, Asked(step.pairs));
      assert validated.Ok? ==> Approves(t, step.pairs, step.csrfOk, step.session, validated.value) by {
        if validated.Ok? {
          ValidatedExactly(env, t, step.pairs, validated.value);
        }
      }
    } else {
      CollectedMeaning(step.pairs);
      if Distinct(step.pairs) {
        UnapprovedChangesNothing(env, t, step.pairs, step.csrfOk, step.session, step.drawn, now);
      }
    }
    hide A.GrantConsent, A.IssueCode;
  }

  lemma OthersApproveNothing(env: Env, t: Tables, step: Step, now: Time)
    requires !step.ConsentAnswer?
    ensures forall e <- Effect(env, t, step, now).1 :: !e.Approved?
  {
    if step.TokenRequest? {
      TokenRequestApprovesNothing(env, t, step.header, step.pairs, step.drawn, step.signs, now);
    } else if step.AuthorizeRequest? {
      AuthorizeApprovesNothing(env, t, step.pairs, step.session, step.drawn, now);
    } else if step.RevocationRequest? {
      RevocationApprovesNothing(env, t, step.header, step.pairs, now);
    }
    hide T.HandleToken, T.HandleRevocation, A.Authorize;
  }

  lemma TokenRequestApprovesNothing(env: Env, t: Tables, header: BasicHeader, pairs: Pairs, drawn: Fresh, signs: bool,
                                    now: Time)
    ensures forall e <- T.HandleToken(env, t, header, pairs, drawn, signs, now).events :: !e.Approved?
  {
    hide T.AuthenticatedClient, Collected, Get, HashToken, Scope.Parsed;
    hide T.BindingError, InsertToken, MarkRotated, TokenByHash, ClaimCode, T.SignedTokens;
  }

  lemma RevocationApprovesNothing(env: Env, t: Tables, header: BasicHeader, pairs: Pairs, now: Time)
    ensures T.HandleRevocation(env, t, header, pairs, now).events == []
  {
    hide T.AuthenticatedClient, Collected, Get, HashToken;
  }

  lemma AuthorizeApprovesNothing(env: Env, t: Tables, pairs: Pairs, session: Option<A.Session>, drawn: Fresh,
                                 now: Time)
    ensures forall e <- A.Authorize(env, t, pairs, session, drawn, now).events :: !e.Approved?
  {
    hide A.Validate, Collected, FromParams, A.NeedsReauthentication, A.AlreadyApproved, InsertCode;
  }

  /**
   * What counts as approval, everywhere: an `Approved` event happens exactly when a signed-in
   * user answers the consent page, CSRF token and all, with `decision=approve` among the pairs
   * and a valid request of the client for the scopes beside it.
   */
  lemma ApprovedExactly(env: Env, t: Tables, step: Step, now: Time, user: Id, client: Id, scopes: set<string>)
    requires Constraints(t)
    ensures Approved(user, client, scopes) in Effect(env, t, step, now).1
            <==> ApprovesAs(t, step, user, client, scopes)
  {
    hide Effect, Approves, Constraints;
    if step.ConsentAnswer? {
      if v :| Approves(t, step.pairs, step.csrfOk, step.session, v) {
        ApprovalIsOne(env, t, step, now, v);
      } else {
        InvalidApprovesNothing(env, t, step, now);
      }
    } else {
      OthersApproveNothing(env, t, step, now);
    }
  }

  lemma ApprovalIsOne(env: Env, t: Tables, step: Step, now: Time, v: A.ValidatedRequest)
    requires Constraints(t) && step.ConsentAnswer? && Approves(t, step.pairs, step.csrfOk, step.session, v)
    ensures step.session.Some?
    ensures forall user, client, scopes :: Approved(user, client, scopes) in Effect(env, t, step, now).1
              <==> user == step.session.value.user && client == v.client.id && scopes == v.scope
    ensures forall other :: Approves(t, step.pairs, step.csrfOk, step.session, other) ==> other == v
  {
    hide Effect, Constraints, IsValidated, Distinct;
    ConsentedEvents(env, t, step, now, v);
    forall other | Approves(t, step.pairs, step.csrfOk, step.session, other) ensures other == v {
      OneValidated(env, t, step.pairs, v, other);
    }
  }
}
