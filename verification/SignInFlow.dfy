/**
 * The browser round trips of one authorization request: `/oauth/authorize`, the sign-in page,
 * the consent page, and back. What other users do meanwhile is arbitrary: every hop sees its own
 * tables and time.
 */
module SignInFlow {
  import opened Wrappers
  import opened Schema
  import opened Statements
  import opened AuthorizationRequests
  import opened Authorization
  import Params
  import Scope
  import Pkce
  import Text

  /** The form-urlencoded serializer and parser of the url crate. */
  datatype Codec = Codec(serialize: Params.Pairs -> string, parse: string -> Params.Pairs)

  /** What one page sends, the next reads; and the output is plain ASCII. */
  ghost predicate Faithful(codec: Codec) {
    forall pairs :: codec.parse(codec.serialize(pairs)) == pairs
                    && forall c <- codec.serialize(pairs) :: IsFormUrlencodedChar(c)
  }

  datatype Page =
    | Link(query: Params.Pairs)
    | SignInForm(returnTo: AuthorizationRequest)
    | ConsentForm(request: AuthorizationRequest)
    | Finished(response: BrowserResponse)
    | Elsewhere

  /** The page the browser shows, and the session its cookie names. */
  datatype Browser = Browser(page: Page, session: Option<Session>)

  datatype Action =
    | Visit(tables: Tables, drawn: Fresh, now: Time)
    | SignsIn(session: Session)
    | Answer(csrfToken: string, csrfOk: bool, decision: string, tables: Tables, drawn: Fresh, now: Time)
    | SessionBecomes(current: Option<Session>)

  function Shown(response: BrowserResponse): Page {
    match response
    case ToSignIn(returnTo) => SignInForm(returnTo)
    case ConsentPage(request, _) => ConsentForm(request)
    case _ => Finished(response)
  }

  const AUTHORIZE_PATH := "/oauth/authorize?"

  /** Following a redirect to a path of this server. */
  function Followed(codec: Codec, path: string): Page {
    if AUTHORIZE_PATH <= path then Link(codec.parse(path[|AUTHORIZE_PATH|..])) else Elsewhere
  }

  /** The consent form's fields: the CSRF token, the request, and the button pressed. */
  function FormFields(r: AuthorizationRequest, csrfToken: string, decision: string): Params.Pairs {
    [("csrf_token", csrfToken)] + ToPairs(r) + [("decision", decision)]
  }

  predicate Enabled(b: Browser, a: Action) {
    match a
    case Visit(_, _, _) => b.page.Link?
    case SignsIn(_) => b.page.SignInForm?
    case Answer(_, _, _, _, _, _) => b.page.ConsentForm?
    case SessionBecomes(_) => true
  }

  /** The browser after the consent form's answer to a button. */
  ghost function Answered(env: Env, b: Browser, csrfToken: string, csrfOk: bool, decision: string, t: Tables,
                          drawn: Fresh, now: Time): Browser
    requires b.page.ConsentForm?
  {
    var fields := FormFields(b.page.request, csrfToken, decision);
    b.(page := Shown(Consented(env, t, fields, csrfOk, b.session, drawn, now).response))
  }

  /** One hop. After signing in, the browser goes where `safe_return_to` lets it. */
  ghost function Hop(codec: Codec, env: Env, b: Browser, a: Action): Browser
    requires Enabled(b, a)
  {
    match a
    case Visit(t, drawn, now) =>
      b.(page := Shown(Authorize(env, t, b.page.query, b.session, drawn, now).response))
    case SignsIn(session) =>
      Browser(Followed(codec, SafeReturnTo(ToPath(codec.serialize, b.page.returnTo))), Some(session))
    case Answer(csrfToken, csrfOk, decision, t, drawn, now) =>
      Answered(env, b, csrfToken, csrfOk, decision, t, drawn, now)
    case SessionBecomes(current) => b.(session := current)
  }

  // ------------------------------------------------------------- the request is carried along

  function Requested(query: Params.Pairs): Option<AuthorizationRequest> {
    match Params.Collected(query) case Ok(params) => Some(FromParams(params)) case Err(_) => None
  }

  /** The request as it came, or without its demands for a fresh sign-in. */
  predicate Carries(original: AuthorizationRequest, r: AuthorizationRequest) {
    r == original || r == WithoutReauthentication(original)
  }

  /** Where the original request may send the browser: to its own redirect URI with its own state. */
  predicate Answers(original: AuthorizationRequest, response: BrowserResponse) {
    match response
    case ToClient(to) => original.redirectUri == Some(to.uri) && original.state == Some(to.state)
    case Failed(Redirect(uri, state, _, _)) => original.redirectUri == Some(uri) && original.state == state
    case _ => true
  }

  ghost predicate OnTrack(original: AuthorizationRequest, b: Browser) {
    match b.page
    case Link(query) => Requested(query).Some? && Carries(original, Requested(query).value)
    case SignInForm(r) => Carries(original, r) && Reproducible(r)
    case ConsentForm(r) => Carries(original, r) && Reproducible(r)
    case Finished(response) => Answers(original, response)
    case Elsewhere => false
  }

  lemma ReadRequest(query: Params.Pairs)
    requires Requested(query).Some?
    ensures var r := Requested(query).value;
            Reproducible(r) <==> !r.hasRequestObject && !r.hasRequestUri
  {
  }

  lemma StaysReproducible(r: AuthorizationRequest)
    requires Reproducible(r)
    ensures Reproducible(WithoutReauthentication(r))
  {
  }

  lemma CarriesWithout(original: AuthorizationRequest, r: AuthorizationRequest)
    requires Carries(original, r)
    ensures Carries(original, WithoutReauthentication(r))
  {
    WithoutReauthenticationTwice(original);
  }

  /** The link reached after signing in carries exactly the request the sign-in page was opened with. */
  lemma LinkAfterSignIn(codec: Codec, r: AuthorizationRequest)
    requires Faithful(codec) && Reproducible(r)
    ensures Followed(codec, SafeReturnTo(ToPath(codec.serialize, r))) == Link(ToPairs(r))
    ensures Requested(ToPairs(r)) == Some(r)
  {
    ReturnPathSurvives(codec.serialize, r);
    var path := ToPath(codec.serialize, r);
    assert path[|AUTHORIZE_PATH|..] == codec.serialize(ToPairs(r));
    RequestRoundTrip(r, [], []);
    assert [] + ToPairs(r) + [] == ToPairs(r);
  }

  /** The consent form sends back exactly the request it was rendered with. */
  lemma FormCarriesRequest(r: AuthorizationRequest, csrfToken: string, decision: string)
    requires Reproducible(r)
    ensures Requested(FormFields(r, csrfToken, decision)) == Some(r)
  {
    var before, after := [("csrf_token", csrfToken)], [("decision", decision)];
    assert before + after == [("csrf_token", csrfToken), ("decision", decision)];
    FormNamesAreForeign(r, csrfToken, decision);
    RequestRoundTrip(r, before, after);
  }

  lemma FormNamesAreForeign(r: AuthorizationRequest, csrfToken: string, decision: string)
    ensures ForeignNames([("csrf_token", csrfToken), ("decision", decision)], AllFields(r))
  {
    var none: Option<string> := None;
    assert AllFields(r) == [
      ("client_id", r.clientId), ("redirect_uri", r.redirectUri), ("response_type", r.responseType),
      ("response_mode", r.responseMode), ("scope", r.scope), ("state", r.state),
      ("code_challenge", r.codeChallenge), ("code_challenge_method", r.codeChallengeMethod),
      ("nonce", r.nonce), ("prompt", r.prompt), ("max_age", r.maxAge), ("request", none), ("request_uri", none)];
  }

  // ------------------------------------------------------------- one request

  lemma ProtocolKeepsRequest(client: Client, uri: string, r: AuthorizationRequest)
    ensures match ValidateProtocol(client, uri, r)
            case Ok(v) =>
              uri == v.redirectUri && r.state == Some(v.state) && !r.hasRequestObject && !r.hasRequestUri
            case Err(Redirect(to, state, _, _)) => uri == to && r.state == state
            case Err(_) => true
  {
    hide ParsedPrompt, Scope.Parsed, ParseU32, Text.Utf8Len, Pkce.IsValidS256Challenge;
  }

  lemma ValidationKeepsRequest(env: Env, t: Tables, r: AuthorizationRequest)
    ensures match Validate(env, t, r)
            case Ok(v) =>
              r.redirectUri == Some(v.redirectUri) && r.state == Some(v.state) && !r.hasRequestObject
              && !r.hasRequestUri
            case Err(Redirect(uri, state, _, _)) => r.redirectUri == Some(uri) && r.state == state
            case Err(_) => true
  {
    hide ValidateProtocol;
    if r.clientId.Some? && r.redirectUri.Some? {
      var client := ClientByName(t, r.clientId.value);
      if client.Some? {
        ProtocolKeepsRequest(client.value, r.redirectUri.value, r);
      }
    }
  }

  lemma IssuedRedirection(env: Env, t: Tables, v: ValidatedRequest, session: Session, drawn: Fresh, now: Time)
    ensures match IssueCode(env, t, v, session, drawn, now).response
            case Ok(to) => to.uri == v.redirectUri && to.state == v.state
            case Err(e) => e == Internal
  {
  }

  /** What `decide` may answer, in terms of the request alone. */
  lemma DecideKeepsRequest(env: Env, t: Tables, r: AuthorizationRequest, session: Option<Session>, drawn: Fresh,
                           now: Time)
    ensures match Decide(env, t, r, session, drawn, now).response
            case Ok(SignIn(returnTo)) =>
              returnTo == WithoutReauthentication(r) && !r.hasRequestObject && !r.hasRequestUri
            case Ok(AskConsent(_)) => session.Some? && !r.hasRequestObject && !r.hasRequestUri
            case Ok(RedirectToClient(to)) => r.redirectUri == Some(to.uri) && r.state == Some(to.state)
            case Err(Redirect(uri, state, _, _)) => r.redirectUri == Some(uri) && r.state == state
            case Err(_) => true
  {
    hide Validate, IssueCode, WithoutReauthentication;
    ValidationKeepsRequest(env, t, r);
    if Validate(env, t, r).Ok? && session.Some? {
      IssuedRedirection(env, t, Validate(env, t, r).value, session.value, drawn, now);
    }
  }

  /** What `complete_consent` may answer, in terms of the request alone. */
  lemma ConsentKeepsRequest(env: Env, t: Tables, r: AuthorizationRequest, approved: bool, session: Session,
                            drawn: Fresh, now: Time)
    ensures match CompleteConsent(env, t, r, approved, session, drawn, now).response
            case Ok(to) => r.redirectUri == Some(to.uri) && r.state == Some(to.state)
            case Err(Redirect(uri, state, _, _)) => r.redirectUri == Some(uri) && r.state == state
            case Err(_) => true
  {
    hide Validate, IssueCode, GrantConsent;
    ValidationKeepsRequest(env, t, r);
    if Validate(env, t, r).Ok? {
      var v := Validate(env, t, r).value;
      var granted := GrantConsent(t, session.user, v.client.id, v.scope, now);
      if granted.Ok? {
        IssuedRedirection(env, granted.value, v, session, drawn, now);
      }
    }
  }

  // ------------------------------------------------------------- the invariant

  lemma VisitStaysOnTrack(original: AuthorizationRequest, env: Env, b: Browser, t: Tables, drawn: Fresh, now: Time)
    requires OnTrack(original, b) && b.page.Link?
    ensures OnTrack(original, b.(page := Shown(Authorize(env, t, b.page.query, b.session, drawn, now).response)))
  {
    hide Decide, WithoutReauthentication, Reproducible;
    var r := Requested(b.page.query).value;
    DecideKeepsRequest(env, t, r, b.session, drawn, now);
    ReadRequest(b.page.query);
    CarriesWithout(original, r);
    if Reproducible(r) {
      StaysReproducible(r);
    }
    AnswerFields(original, r);
  }

  lemma AnswerFields(original: AuthorizationRequest, r: AuthorizationRequest)
    requires Carries(original, r)
    ensures r.redirectUri == original.redirectUri && r.state == original.state
  {
  }

  lemma AnswerStaysOnTrack(original: AuthorizationRequest, env: Env, b: Browser, csrfToken: string, csrfOk: bool,
                           decision: string, t: Tables, drawn: Fresh, now: Time)
    requires OnTrack(original, b) && b.page.ConsentForm?
    ensures OnTrack(original, Answered(env, b, csrfToken, csrfOk, decision, t, drawn, now))
  {
    hide CompleteConsent, WithoutReauthentication, Reproducible, FormFields;
    var r := b.page.request;
    FormCarriesRequest(r, csrfToken, decision);
    AnswerFields(original, r);
    if b.session.Some? {
      ConsentKeepsRequest(env, t, r, true, b.session.value, drawn, now);
      ConsentKeepsRequest(env, t, r, false, b.session.value, drawn, now);
    }
  }

  /** Every page of the flow carries the original request, with or without its demands for a fresh sign-in. */
  lemma HopStaysOnTrack(codec: Codec, original: AuthorizationRequest, env: Env, b: Browser, a: Action)
    requires Faithful(codec) && OnTrack(original, b) && Enabled(b, a)
    ensures OnTrack(original, Hop(codec, env, b, a))
  {
    hide Authorize, Consented, Reproducible, WithoutReauthentication;
    match a {
      case Visit(t, drawn, now) => VisitStaysOnTrack(original, env, b, t, drawn, now);
      case SignsIn(session) => LinkAfterSignIn(codec, b.page.returnTo);
      case Answer(csrfToken, csrfOk, decision, t, drawn, now) =>
        AnswerStaysOnTrack(original, env, b, csrfToken, csrfOk, decision, t, drawn, now);
      case SessionBecomes(current) =>
    }
  }

  // ------------------------------------------------------------- termination

  /** The request forces a fresh sign-in, or may. */
  ghost predicate Demanding(r: AuthorizationRequest) {
    "login" in PromptValues(r.prompt) || r.maxAge.Some?
  }

  /** How many more hops there can be, if the session lasts. */
  ghost function Rank(b: Browser): nat {
    match b.page
    case Link(query) =>
      if b.session.None? then 4
      else if Requested(query).Some? && Demanding(Requested(query).value) then 4
      else 2
    case SignInForm(r) => if Demanding(r) then 5 else 3
    case ConsentForm(r) => if b.session.Some? then 1 else if Demanding(r) then 6 else 4
    case Finished(_) => 0
    case Elsewhere => 0
  }

  lemma WithoutIsUndemanding(r: AuthorizationRequest)
    ensures !Demanding(WithoutReauthentication(r))
  {
    WithoutLoginValues(r.prompt);
  }

  lemma VisitDescends(env: Env, b: Browser, t: Tables, drawn: Fresh, now: Time)
    requires b.page.Link?
    ensures Rank(b.(page := Shown(Authorize(env, t, b.page.query, b.session, drawn, now).response))) < Rank(b)
  {
    hide Decide, WithoutReauthentication, Demanding;
    if Requested(b.page.query).Some? {
      var r := Requested(b.page.query).value;
      DecideKeepsRequest(env, t, r, b.session, drawn, now);
      WithoutIsUndemanding(r);
      if b.session.Some? {
        UndemandingIsNotSentToSignIn(env, t, r, b.session.value, drawn, now);
      }
    }
  }

  lemma UndemandingIsValidatedSo(env: Env, t: Tables, r: AuthorizationRequest)
    requires Validate(env, t, r).Ok? && !Demanding(r)
    ensures var v := Validate(env, t, r).value; !v.prompt.login && v.maxAge.None?
  {
    hide Scope.Parsed;
  }

  lemma UndemandingIsNotSentToSignIn(env: Env, t: Tables, r: AuthorizationRequest, session: Session, drawn: Fresh,
                                     now: Time)
    ensures !Demanding(r) ==>
              match Decide(env, t, r, Some(session), drawn, now).response case Ok(SignIn(_)) => false case _ => true
  {
    hide Validate, IssueCode, Demanding;
    if Validate(env, t, r).Ok? && !Demanding(r) {
      UndemandingIsValidatedSo(env, t, r);
    }
  }

  /** Having signed in, the user is not asked to sign in again, whatever changed meanwhile. */
  lemma NeverAskedTwice(env: Env, t: Tables, r: AuthorizationRequest, session: Session, drawn: Fresh, now: Time)
    ensures match Decide(env, t, WithoutReauthentication(r), Some(session), drawn, now).response
            case Ok(SignIn(_)) => false
            case _ => true
  {
    hide Decide, WithoutReauthentication, Demanding;
    WithoutIsUndemanding(r);
    UndemandingIsNotSentToSignIn(env, t, WithoutReauthentication(r), session, drawn, now);
  }

  lemma AnswerDescends(env: Env, b: Browser, csrfToken: string, csrfOk: bool, decision: string, t: Tables, drawn: Fresh,
                       now: Time)
    requires b.page.ConsentForm? && Reproducible(b.page.request)
    ensures Rank(Answered(env, b, csrfToken, csrfOk, decision, t, drawn, now)) < Rank(b)
  {
    hide CompleteConsent, Reproducible, FormFields, Demanding;
    FormCarriesRequest(b.page.request, csrfToken, decision);
  }

  /** How much further away the end gets when the session is lost. */
  const LOSS := 5

  predicate IsHop(a: Action) { !a.SessionBecomes? }

  predicate LosesSession(b: Browser, a: Action) { a.SessionBecomes? && a.current.None? && b.session.Some? }

  /** Every hop brings the end closer; losing the session costs at most LOSS hops. */
  lemma HopDescends(codec: Codec, original: AuthorizationRequest, env: Env, b: Browser, a: Action)
    requires Faithful(codec) && OnTrack(original, b) && Enabled(b, a)
    ensures IsHop(a) ==> Rank(Hop(codec, env, b, a)) < Rank(b)
    ensures !IsHop(a) ==> Rank(Hop(codec, env, b, a)) <= Rank(b) + if LosesSession(b, a) then LOSS else 0
  {
    hide Authorize, Consented, Reproducible, WithoutReauthentication, Demanding;
    match a {
      case Visit(t, drawn, now) => VisitDescends(env, b, t, drawn, now);
      case SignsIn(session) => LinkAfterSignIn(codec, b.page.returnTo);
      case Answer(csrfToken, csrfOk, decision, t, drawn, now) =>
        AnswerDescends(env, b, csrfToken, csrfOk, decision, t, drawn, now);
      case SessionBecomes(current) =>
    }
  }

  // ------------------------------------------------------------- whole flows

  ghost predicate Flow(codec: Codec, env: Env, b: Browser, actions: seq<Action>)
    decreases |actions|
  {
    actions == [] || (Enabled(b, actions[0]) && Flow(codec, env, Hop(codec, env, b, actions[0]), actions[1..]))
  }

  ghost function End(codec: Codec, env: Env, b: Browser, actions: seq<Action>): Browser
    requires Flow(codec, env, b, actions)
    decreases |actions|
  {
    if actions == [] then b else End(codec, env, Hop(codec, env, b, actions[0]), actions[1..])
  }

  function Hops(actions: seq<Action>): nat {
    if actions == [] then 0 else (if IsHop(actions[0]) then 1 else 0) + Hops(actions[1..])
  }

  ghost function Losses(codec: Codec, env: Env, b: Browser, actions: seq<Action>): nat
    requires Flow(codec, env, b, actions)
    decreases |actions|
  {
    if actions == [] then 0
    else (if LosesSession(b, actions[0]) then 1 else 0)
         + Losses(codec, env, Hop(codec, env, b, actions[0]), actions[1..])
  }

  lemma {:induction false} FlowDescends(codec: Codec, original: AuthorizationRequest, env: Env, b: Browser,
                                        actions: seq<Action>)
    requires Faithful(codec) && OnTrack(original, b) && Flow(codec, env, b, actions)
    ensures OnTrack(original, End(codec, env, b, actions))
    ensures Rank(End(codec, env, b, actions)) + Hops(actions) <= Rank(b) + LOSS * Losses(codec, env, b, actions)
    decreases |actions|
  {
    hide Hop, Rank, OnTrack, Enabled;
    if actions != [] {
      var next := Hop(codec, env, b, actions[0]);
      HopStaysOnTrack(codec, original, env, b, actions[0]);
      HopDescends(codec, original, env, b, actions[0]);
      FlowDescends(codec, original, env, next, actions[1..]);
    }
  }

  /**
   * A request with readable parameters never loops: there are at most four hops, and five more
   * for every time the session is lost. The flow ends only at the request's own redirect URI
   * with its own state, or on an error page of this server.
   */
  lemma FlowTerminates(codec: Codec, env: Env, query: Params.Pairs, session: Option<Session>, actions: seq<Action>)
    requires Faithful(codec) && Requested(query).Some?
    requires Flow(codec, env, Browser(Link(query), session), actions)
    ensures var start := Browser(Link(query), session);
            && Hops(actions) <= 4 + LOSS * Losses(codec, env, start, actions)
            && OnTrack(Requested(query).value, End(codec, env, start, actions))
  {
    FlowDescends(codec, Requested(query).value, env, Browser(Link(query), session), actions);
  }
}
