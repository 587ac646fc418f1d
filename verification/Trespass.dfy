/**
 * A run that ends with one client revoking the tokens of another, by presenting a code that is
 * not its own and was used already.
 */
module Trespass {
  import opened Wrappers
  import opened Text
  import opened Schema
  import opened Secret
  import opened Statements
  import opened Events
  import opened Clients
  import opened AuthorizationRequests
  import opened World
  import opened Preservation
  import opened Steps
  import opened Families
  import opened Effects
  import opened Redemption
  import opened Isolation
  import opened SignInFlow
  import Params
  import Pkce
  import Scope
  import A = Authorization
  import T = TokenEndpoint

  const URI := "u"
  const CODE := "c"
  const USER: Id := 9

  function Zeros(n: nat): (zeros: seq<byte>)
    ensures |zeros| == n
  {
    if n == 0 then [] else [0] + Zeros(n - 1)
  }

  function Verifier(): string { Encode(Zeros(32)) }

  /** Any configuration with the scope, whose URL parser accepts the redirect URI. */
  ghost predicate Configured(env: Env) { Scope.OFFLINE_ACCESS in env.registry && RedirectUriProblem(env, URI).None? }

  /** A public client. */
  function PublicClient(id: Id, name: string): Client {
    Client(id, name, None, "A", [URI], [Scope.OFFLINE_ACCESS], 0, 0, None, None)
  }

  function Registration(id: Id, name: string): Step {
    RegisterByOperator(ClientDetails("A", [URI], {Scope.OFFLINE_ACCESS}), false, ClientFresh(id, name, ""))
  }

  // ------------------------------------------------------------- two clients

  lemma OnlyScope()
    ensures Sorted({Scope.OFFLINE_ACCESS}) == [Scope.OFFLINE_ACCESS]
    ensures Scope.IsScopeSet({Scope.OFFLINE_ACCESS}) && Scope.Print({Scope.OFFLINE_ACCESS}) == Scope.OFFLINE_ACCESS
    ensures Scope.Parsed(Scope.OFFLINE_ACCESS) == Ok({Scope.OFFLINE_ACCESS})
  {
    var s := {Scope.OFFLINE_ACCESS};
    assert Sorted(s)[0] in Sorted(s);
    assert Scope.IsScopeName(Scope.OFFLINE_ACCESS);
    Scope.PrintThenParse(s);
  }

  lemma DetailsAccepted(env: Env)
    requires Configured(env)
    ensures var d := ClientDetails("A", [URI], {Scope.OFFLINE_ACCESS}); CheckedDetails(env, d) == Ok(d)
  {
    assert FirstOccurrences([URI][..0]) == [];
    assert FirstOccurrences([URI]) == [URI];
    assert FirstBadUri(env, [URI]).None?;
    assert Trim("A") == "A";
  }

  lemma RegistersRow(env: Env, t: Tables, id: Id, name: string)
    requires Configured(env)
    requires id !in t.clients && forall k :: k in t.clients ==> t.clients[k].clientId != name
    ensures var d := ClientDetails("A", [URI], {Scope.OFFLINE_ACCESS});
            Register(env, t, NewClient(d, false, None), ClientFresh(id, name, ""), 0).0
            == t.(clients := t.clients[id := PublicClient(id, name)])
  {
    DetailsAccepted(env);
    OnlyScope();
    hide CheckedDetails, Sorted, Scope.Print, Scope.Parsed, Scope.IsScopeSet, Configured;
    var d := ClientDetails("A", [URI], {Scope.OFFLINE_ACCESS});
    assert ClientRow(env, d, NewClient(d, false, None), ClientFresh(id, name, ""), 0) == PublicClient(id, name);
  }

  lemma Registers(env: Env, w: World, id: Id, name: string)
    requires Configured(env)
    requires id !in w.tables.clients && forall k :: k in w.tables.clients ==> w.tables.clients[k].clientId != name
    ensures Next(env, w, Registration(id, name), 0)
            == World(w.tables.(clients := w.tables.clients[id := PublicClient(id, name)]), 0, w.history)
  {
    RegistersRow(env, w.tables, id, name);
    hide Register, PublicClient, Configured;
    assert w.history + [] == w.history;
  }

  function Registered(): World {
    World(Tables(map[1 := PublicClient(1, "a"), 2 := PublicClient(2, "b")], map[], map[], map[]), 0, [])
  }

  lemma BothRegister(env: Env)
    requires Configured(env)
    ensures Reachable(env, Registered())
  {
    var w1 := World(Tables(map[1 := PublicClient(1, "a")], map[], map[], map[]), 0, []);
    StartIsReachable(env);
    Registers(env, Initial(0), 1, "a");
    Registers(env, w1, 2, "b");
    assert map[1 := PublicClient(1, "a")][2 := PublicClient(2, "b")] == Registered().tables.clients;
    hide Reachable, Next;
    NextIsReachable(env, Initial(0), Registration(1, "a"), 0);
    NextIsReachable(env, w1, Registration(2, "b"), 0);
  }

  lemma StartIsReachable(env: Env)
    ensures Reachable(env, Initial(0))
  {
    var none: Run := [];
    assert AllowedRun(env, Initial(0), none) && After(env, Initial(0), none) == Initial(0);
    assert Later(env, Initial(0), Initial(0));
  }

  // ------------------------------------------------------------- a code for the first

  function Asked(env: Env): AuthorizationRequest {
    AuthorizationRequest(Some("a"), Some(URI), Some("code"), None, Some(Scope.OFFLINE_ACCESS), Some("s"),
                         Some(Pkce.S256Challenge(env.sha256, Verifier())), Some(Pkce.S256), None, None, None,
                         false, false)
  }

  const SESSION: A.Session := A.Session(USER, 0)

  function Approval(env: Env): Step {
    ConsentAnswer(FormFields(Asked(env), "x", "approve"), true, Some(SESSION), Fresh(1, CODE, 0, 0))
  }

  function Validated(env: Env): A.ValidatedRequest {
    A.ValidatedRequest(PublicClient(1, "a"), URI, {Scope.OFFLINE_ACCESS}, "s",
                       Pkce.S256Challenge(env.sha256, Verifier()), None, Prompt(false, false, false), None)
  }

  lemma NoPrompt()
    ensures ParsedPrompt(None) == Some(Prompt(false, false, false))
  {
    assert Split("", ' ') == [""];
    assert PromptValues(None) == {};
  }

  lemma ProtocolAccepts(env: Env)
    ensures A.ValidateProtocol(PublicClient(1, "a"), URI, Asked(env)) == Ok(Validated(env))
  {
    OnlyScope();
    NoPrompt();
    Pkce.ChallengeIsWellFormed(env.sha256, Verifier());
    assert Utf8Len("s") == 1;
    assert PublicClient(1, "a").AllowedScopes() == {Scope.OFFLINE_ACCESS};
    hide Utf8Len, Scope.Parsed, Scope.Print, Sorted, ParsedPrompt, Pkce.IsValidS256Challenge, Pkce.S256Challenge,
      Verifier;
  }

  lemma RequestIsValid(env: Env)
    ensures A.Validate(env, Registered().tables, Asked(env)) == Ok(Validated(env))
  {
    FindsClient(1, "a");
    ProtocolAccepts(env);
    hide A.ValidateProtocol, Registered, Validated, ClientByName, Pkce.S256Challenge;
  }

  lemma FindsClient(id: Id, name: string)
    requires (id == 1 && name == "a") || (id == 2 && name == "b")
    ensures ClientByName(Registered().tables, name) == Some(PublicClient(id, name))
  {
    TwoNames();
    FindClient(Registered().tables, id);
  }

  lemma TwoNames()
    ensures Constraints(Registered().tables)
  {
    assert "a"[0] != "b"[0];
  }

  function StoredCode(env: Env): Code {
    A.CodeRow(env, Validated(env), SESSION, Fresh(1, CODE, 0, 0), 0)
  }

  /** The world after the user approved: one consent, one code. */
  ghost predicate WhenApproved(env: Env, w: World) {
    && Reachable(env, w) && w.clock == 0 && w.tables.clients == Registered().tables.clients && w.tables.tokens == map[]
    && w.tables.codes == map[1 := StoredCode(env)]
    && Chain(w.history, 1) == []
  }

  lemma FormIsRead(env: Env)
    ensures var pairs := FormFields(Asked(env), "x", "approve");
            && Params.Collected(pairs).Ok? && FromParams(Params.Collected(pairs).value) == Asked(env)
            && Params.Get(Params.Collected(pairs).value, "decision") == Some("approve")
  {
    hide Pkce.S256Challenge;
    var pairs := FormFields(Asked(env), "x", "approve");
    Pkce.ChallengeIsWellFormed(env.sha256, Verifier());
    assert Pkce.S256Challenge(env.sha256, Verifier()) != "" by { assert Utf8Len("") == 0; }
    FormCarriesRequest(Asked(env), "x", "approve");
    Params.CollectedMeaning(pairs);
    assert pairs[|pairs| - 1] == ("decision", "approve");
    assert ("decision", "approve") in pairs;
  }

  /** The events of the approval. */
  function ApprovalEvents(): seq<Event> {
    [Approved(USER, 1, {Scope.OFFLINE_ACCESS}),
     CodeIssued(USER, 1, {Scope.OFFLINE_ACCESS}, PublicClient(1, "a").AllowedScopes())]
  }

  lemma ApprovalLeaves(env: Env)
    requires Configured(env)
    ensures var o := A.CompleteConsent(env, Registered().tables, Asked(env), true, SESSION, Fresh(1, CODE, 0, 0), 0);
            && o.tables.clients == Registered().tables.clients && o.tables.tokens == map[]
            && o.tables.codes == map[1 := StoredCode(env)] && o.events == ApprovalEvents()
  {
    RequestIsValid(env);
    hide A.Validate, HashToken, Scope.Print, Pkce.S256Challenge, Verifier, Sorted, Asked;
    var t, v := Registered().tables, Validated(env);
    var granted := A.GrantConsent(t, USER, 1, v.scope, 0);
    assert granted.Ok? && granted.value == t.(consents := granted.value.consents);
    hide A.GrantConsent;
    assert map[][1 := StoredCode(env)] == map[1 := StoredCode(env)];
  }

  lemma ConsentStepLeaves(env: Env)
    ensures var o := A.CompleteConsent(env, Registered().tables, Asked(env), true, SESSION, Fresh(1, CODE, 0, 0), 0);
            Next(env, Registered(), Approval(env), 0) == World(o.tables, 0, [] + o.events)
  {
    FormIsRead(env);
    hide A.CompleteConsent, FormFields, FromParams, Params.Collected, Params.Get, Asked;
  }

  lemma Approves(env: Env) returns (w: World)
    requires Configured(env)
    ensures w == Next(env, Registered(), Approval(env), 0) && WhenApproved(env, w)
  {
    w := Next(env, Registered(), Approval(env), 0);
    BothRegister(env);
    ConsentStepLeaves(env);
    ApprovalLeaves(env);
    NoChain(ApprovalEvents()[0], ApprovalEvents()[1]);
    hide Reachable, Next, A.CompleteConsent, StoredCode, Configured, Chain;
    NextIsReachable(env, Registered(), Approval(env), 0);
    assert [] + ApprovalEvents() == ApprovalEvents() == [ApprovalEvents()[0], ApprovalEvents()[1]];
  }

  lemma NoChain(e: Event, f: Event)
    requires e.Approved? && f.CodeIssued?
    ensures Chain([e, f], 1) == []
  {
    assert [e, f][..1] == [e] && [e][..0] == [];
    assert Chain([], 1) == [] && Chain([e], 1) == [];
  }

  // ------------------------------------------------------------- redeemed by the first

  /** The token request of a client that presents the code. */
  function Presentation(name: string, drawn: Fresh): Step {
    TokenRequest(NoBasic,
                 [("grant_type", "authorization_code"), ("client_id", name), ("code", CODE), ("redirect_uri", URI),
                  ("code_verifier", Verifier())],
                 drawn, true)
  }

  lemma NamesDiffer(name: string, drawn: Fresh)
    ensures Params.Distinct(Presentation(name, drawn).pairs)
    ensures forall pair <- Presentation(name, drawn).pairs :: pair.0 != "client_secret"
  {
    hide Verifier;
    assert |"grant_type"| == 10 && |"client_id"| == 9 && |"code"| == 4 && |"redirect_uri"| == 12
           && |"code_verifier"| == 13;
    assert |"client_secret"| == 13 && "client_secret"[1] != "code_verifier"[1];
  }

  lemma Given(pairs: Params.Pairs, i: nat)
    requires Params.Distinct(pairs) && i < |pairs| && pairs[i].1 != ""
    ensures Params.Collected(pairs).Ok? && Params.Get(Params.Collected(pairs).value, pairs[i].0) == Some(pairs[i].1)
  {
    Params.CollectedMeaning(pairs);
    assert pairs[i] == (pairs[i].0, pairs[i].1) && pairs[i] in pairs;
  }

  lemma NotGiven(pairs: Params.Pairs, name: string)
    requires Params.Distinct(pairs) && forall pair <- pairs :: pair.0 != name
    ensures Params.Collected(pairs).Ok? && Params.Get(Params.Collected(pairs).value, name) == None
  {
    Params.CollectedMeaning(pairs);
    assert forall value :: (name, value) !in pairs;
  }

  lemma RedemptionIsRead(name: string, drawn: Fresh)
    requires name != ""
    ensures Params.Collected(Presentation(name, drawn).pairs).Ok?
    ensures var params := Params.Collected(Presentation(name, drawn).pairs).value;
            && Params.Get(params, "grant_type") == Some("authorization_code")
            && Params.Get(params, "client_id") == Some(name)
            && Params.Get(params, "code") == Some(CODE) && Params.Get(params, "redirect_uri") == Some(URI)
            && Params.Get(params, "code_verifier") == Some(Verifier()) && Params.Get(params, "client_secret") == None
  {
    var pairs := Presentation(name, drawn).pairs;
    hide Verifier, Zeros, Params.Collected, Params.Get, Params.Distinct;
    NamesDiffer(name, drawn);
    VerifierShape();
    assert pairs[0].1 != "" && pairs[2].1 != "" && pairs[3].1 != "" && pairs[4].1 != "";
    Given(pairs, 0);
    Given(pairs, 1);
    Given(pairs, 2);
    Given(pairs, 3);
    Given(pairs, 4);
    NotGiven(pairs, "client_secret");
  }

  lemma VerifierShape()
    ensures Verifier() != ""
  {
    SecretShape(Zeros(32), Zeros(32));
  }

  lemma Authenticates(env: Env, t: Tables, id: Id, name: string, drawn: Fresh)
    requires t.clients == Registered().tables.clients
    requires (id == 1 && name == "a") || (id == 2 && name == "b")
    ensures var step := Presentation(name, drawn);
            && Params.Collected(step.pairs).Ok?
            && T.AuthenticatedClient(env, t, step.header, Params.Collected(step.pairs).value)
                 == Ok(PublicClient(id, name))
  {
    RedemptionIsRead(name, drawn);
    FindsClient(id, name);
    TwoNames();
    SameClients(t, Registered().tables, name);
    hide Params.Collected, Params.Get, ClientByName, Registered, Verifier, Constraints;
  }

  lemma SameClients(t: Tables, t': Tables, name: string)
    requires t.clients == t'.clients && ClientKeys(t)
    ensures ClientByName(t, name) == ClientByName(t', name)
  {
  }

  /** The world after the first client redeemed the code: it is used, and one unrevoked token descends from it. */
  ghost predicate WhenRedeemed(env: Env, w: World) {
    && Reachable(env, w) && w.tables.clients == Registered().tables.clients
    && 1 in w.tables.codes && w.tables.codes[1].usedAt.Some? && w.tables.codes[1].clientId == 1
    && w.tables.codes[1].codeHash == HashToken(env.sha256, CODE)
    && 1 in w.tables.tokens && w.tables.tokens[1].codeId == Some(1) && w.tables.tokens[1].revokedAt.None?
  }

  lemma RedemptionLeaves(env: Env, w: World, drawn: Fresh)
    requires WhenApproved(env, w)
    ensures var client := PublicClient(1, "a");
            var o := T.RedeemCode(env, w.tables, client, HashToken(env.sha256, CODE), URI, Verifier(), drawn, true, 0);
            && o.response.Ok? && o.tables.clients == w.tables.clients
            && o.tables.codes == w.tables.codes[1 := StoredCode(env).(usedAt := Some(0))]
            && drawn.rowId in o.tables.tokens && o.tables.tokens[drawn.rowId].codeId == Some(1)
            && o.tables.tokens[drawn.rowId].revokedAt.None?
  {
    OnlyScope();
    Matches(env);
    hide Reachable, T.RedeemCode, T.BindingError, HashToken, Scope.Print, Scope.Parsed, Pkce.S256Challenge, Verifier;
    assert Scope.Names(Scope.OFFLINE_ACCESS) == {Scope.OFFLINE_ACCESS} by { OnlyName(); }
    hide Scope.Names;
    RedeemedCode(env, w, 1, PublicClient(1, "a"), URI, Verifier(), drawn, true, 0);
  }

  lemma OnlyName()
    ensures Scope.Names(Scope.OFFLINE_ACCESS) == {Scope.OFFLINE_ACCESS}
  {
    OnlyScope();
  }

  lemma Matches(env: Env)
    ensures T.BindingError(env, StoredCode(env), PublicClient(1, "a"), URI, Verifier(), 0).None?
  {
    Pkce.GeneratedSecretIsVerifier(env.sha256, Zeros(32));
    hide Pkce.VerifyS256, Pkce.S256Challenge, HashToken, Scope.Print;
  }

  lemma Redeems(env: Env, w: World) returns (w': World)
    requires WhenApproved(env, w)
    ensures w' == Next(env, w, Presentation("a", Fresh(1, "t", 1, 0)), 0) && WhenRedeemed(env, w')
  {
    var drawn := Fresh(1, "t", 1, 0);
    var step, client := Presentation("a", drawn), PublicClient(1, "a");
    var to := A.Redirection(URI, CODE, "s", env.issuer);
    w' := Next(env, w, step, 0);
    RedemptionIsRead("a", drawn);
    Authenticates(env, w.tables, 1, "a", drawn);
    RedemptionLeaves(env, w, drawn);
    hide Reachable, T.RedeemCode, T.HandleToken, T.AuthenticatedClient, Params.Collected, Params.Get, HashToken,
      Scope.Print, Verifier;
    assert Allowed(w, step, 0);
    NextIsReachable(env, w, step, 0);
    assert HonestRequest(env, w.tables, step, client, to, Verifier());
    HonestIsRedemption(env, w.tables, step, 0, client, to, Verifier());
  }

  // ------------------------------------------------------------- presented again by the second

  /**
   * Isolation fails: in every configuration that lets two clients register for the scope
   * `offline_access`, there are a reachable state and a token request of the second client that
   * revokes a token of the first. All it needs is the code, once used.
   */
  lemma ForeignTokensAreRevoked(env: Env)
    requires Configured(env)
    ensures exists w, step ::
              && Reachable(env, w) && ActsAs(env, w.tables, step, 2)
              && RowsOfOthers(Next(env, w, step, 0).tables.tokens, 2) != RowsOfOthers(w.tables.tokens, 2)
  {
    var w := Approves(env);
    var w' := Redeems(env, w);
    var step := Presentation("b", Fresh(2, "u", 2, 0));
    RedemptionIsRead("b", Fresh(2, "u", 2, 0));
    Authenticates(env, w'.tables, 2, "b", Fresh(2, "u", 2, 0));
    hide Reachable, Next, T.AuthenticatedClient, Params.Collected, Params.Get, RowsOfOthers, Configured;
    var hash := HashToken(env.sha256, CODE);
    assert PresentsCode(env, w'.tables, step, PublicClient(2, "b"), hash);
    assert ForeignReplay(w'.tables, 2, hash);
    assert ActsAs(env, w'.tables, step, 2);
    StepIsolation(env, w', step, 0, 2);
  }
}
