/** `oauth/services/client.rs` and `developer/services/apps.rs`: the client registry. */
module Clients {
  import opened Wrappers
  import opened Text
  import opened Secret
  import opened Schema
  import opened Statements
  import Params

  const MAX_NAME_LEN := 80
  const MAX_REDIRECT_URIS := 10
  const MAX_APPS_PER_USER := 25

  // ------------------------------------------------------------- details

  datatype ClientDetails = ClientDetails(name: string, redirectUris: seq<string>, scopes: set<string>)

  datatype RegistrationError =
    | EmptyName
    | NameTooLong
    | NoRedirectUris
    | TooManyRedirectUris
    | InvalidRedirectUri(uri: string, reason: string)
    | NoScopes
    | UnknownScopes(names: seq<string>)
    | Database

  /** `validate_redirect_uri_for_registration`: why a URI is refused, or None. */
  function RedirectUriProblem(env: Env, uri: string): Option<string> {
    match env.parseUrl(uri)
    case None => Some("must be an absolute URL")
    case Some(url) =>
      if url.fragment.Some? then Some("must not contain a fragment (#...)")
      else if url.username != "" || url.password.Some? then Some("must not contain credentials")
      else if url.scheme == "https" || (url.scheme == "http" && url.loopback) then None
      else Some("must use https (http is only allowed for localhost)")
  }

  /** Each URI once, at the place of its first occurrence. */
  function FirstOccurrences(uris: seq<string>): seq<string> {
    if uris == [] then []
    else
      var kept := FirstOccurrences(uris[..|uris| - 1]);
      var last := uris[|uris| - 1];
      if last in kept then kept else kept + [last]
  }

  ghost predicate NoDuplicates(items: seq<string>) {
    forall i, j :: 0 <= i < j < |items| ==> items[i] != items[j]
  }

  /** The position of the first occurrence of a member. */
  ghost function IndexOf(items: seq<string>, x: string): (i: nat)
    requires x in items
    ensures i < |items| && items[i] == x && x !in items[..i]
  {
    if items[0] == x then 0 else 1 + IndexOf(items[1..], x)
  }

  lemma {:induction false} IndexInPrefix(items: seq<string>, n: nat, x: string)
    requires n <= |items| && x in items[..n]
    ensures IndexOf(items[..n], x) == IndexOf(items, x)
  {
    if items[0] != x {
      assert items[1..][..n - 1] == items[..n][1..];
      IndexInPrefix(items[1..], n - 1, x);
    }
  }

  /** Deduplication keeps the same URIs, once each, in the order the developer typed them. */
  lemma {:induction false} FirstOccurrencesMeaning(uris: seq<string>)
    ensures forall x :: x in FirstOccurrences(uris) <==> x in uris
    ensures NoDuplicates(FirstOccurrences(uris))
    ensures forall i, j :: 0 <= i < j < |FirstOccurrences(uris)| ==>
              IndexOf(uris, FirstOccurrences(uris)[i]) < IndexOf(uris, FirstOccurrences(uris)[j])
  {
    if uris != [] {
      var n := |uris| - 1;
      var front, kept := uris[..n], FirstOccurrences(uris[..n]);
      assert uris == front + [uris[n]];
      FirstOccurrencesMeaning(front);
      forall x | x in front ensures IndexOf(uris, x) == IndexOf(front, x) {
        IndexInPrefix(uris, n, x);
      }
      forall i | 0 <= i < |kept| ensures kept[i] in front {}
      if uris[n] !in kept {
        assert uris[n] !in front;
        assert forall i :: 0 <= i < n ==> uris[i] in front;
      }
    }
  }

  function FirstBadUri(env: Env, uris: seq<string>): (bad: Option<string>)
    ensures bad.Some? ==> bad.value in uris && RedirectUriProblem(env, bad.value).Some?
  {
    if uris == [] then None
    else if RedirectUriProblem(env, uris[0]).Some? then Some(uris[0])
    else FirstBadUri(env, uris[1..])
  }

  /** What `validate_details` returns, check by check. */
  function CheckedDetails(env: Env, d: ClientDetails): Result<ClientDetails, RegistrationError> {
    var name := Trim(d.name);
    var uris := FirstOccurrences(d.redirectUris);
    var bad := FirstBadUri(env, uris);
    if name == "" then Err(EmptyName)
    else if |name| > MAX_NAME_LEN then Err(NameTooLong)
    else if uris == [] then Err(NoRedirectUris)
    else if |uris| > MAX_REDIRECT_URIS then Err(TooManyRedirectUris)
    else if bad.Some? then Err(InvalidRedirectUri(bad.value, RedirectUriProblem(env, bad.value).value))
    else if d.scopes == {} then Err(NoScopes)
    else if !(d.scopes <= env.registry) then Err(UnknownScopes(Sorted(d.scopes - env.registry)))
    else Ok(ClientDetails(name, uris, d.scopes))
  }

  /** `validate_details`. */
  method ValidateDetails(env: Env, d: ClientDetails) returns (r: Result<ClientDetails, RegistrationError>)
    ensures r == CheckedDetails(env, d)
  {
    var name := Trim(d.name);
    if name == "" { return Err(EmptyName); }
    if |name| > MAX_NAME_LEN { return Err(NameTooLong); }

    var uris: seq<string> := [];
    for i := 0 to |d.redirectUris|
      invariant uris == FirstOccurrences(d.redirectUris[..i])
    {
      assert d.redirectUris[..i + 1][..i] == d.redirectUris[..i];
      if d.redirectUris[i] !in uris {
        uris := uris + [d.redirectUris[i]];
      }
    }
    assert d.redirectUris[..|d.redirectUris|] == d.redirectUris;
    if uris == [] { return Err(NoRedirectUris); }
    if |uris| > MAX_REDIRECT_URIS { return Err(TooManyRedirectUris); }
    for i := 0 to |uris|
      invariant FirstBadUri(env, uris) == FirstBadUri(env, uris[i..])
    {
      var problem := RedirectUriProblem(env, uris[i]);
      if problem.Some? { return Err(InvalidRedirectUri(uris[i], problem.value)); }
      assert uris[i..][1..] == uris[i + 1..];
    }

    if d.scopes == {} { return Err(NoScopes); }
    var unknown := d.scopes - env.registry;
    if unknown != {} { return Err(UnknownScopes(Sorted(unknown))); }
    assert d.scopes <= env.registry by {
      forall s | s in d.scopes ensures s in env.registry { assert s !in unknown; }
    }
    return Ok(ClientDetails(name, uris, d.scopes));
  }

  /** The registry rules for what a developer chooses about a client. */
  ghost predicate ProperDetails(env: Env, name: string, uris: seq<string>, scopes: set<string>) {
    && 0 < |name| <= MAX_NAME_LEN
    && 0 < |uris| <= MAX_REDIRECT_URIS
    && NoDuplicates(uris)
    && (forall uri <- uris :: RedirectUriProblem(env, uri) == None)
    && scopes != {} && scopes <= env.registry
  }

  lemma {:induction false} FirstBadUriMeaning(env: Env, uris: seq<string>)
    ensures FirstBadUri(env, uris).None? <==> forall uri <- uris :: RedirectUriProblem(env, uri) == None
  {
    if uris != [] {
      FirstBadUriMeaning(env, uris[1..]);
      assert uris == [uris[0]] + uris[1..];
    }
  }

  /** Details are accepted exactly when, trimmed and deduplicated, they obey the registry rules. */
  lemma AcceptedDetails(env: Env, d: ClientDetails)
    ensures CheckedDetails(env, d).Ok? <==>
            ProperDetails(env, Trim(d.name), FirstOccurrences(d.redirectUris), d.scopes)
    ensures CheckedDetails(env, d).Ok? ==>
              var checked := CheckedDetails(env, d).value;
              ProperDetails(env, checked.name, checked.redirectUris, checked.scopes)
  {
    FirstOccurrencesMeaning(d.redirectUris);
    FirstBadUriMeaning(env, FirstOccurrences(d.redirectUris));
  }

  /** Which details are refused, and why: the first rule broken, in this order. */
  lemma RefusedExactly(env: Env, d: ClientDetails)
    requires CheckedDetails(env, d).Err?
    ensures var e, name, uris := CheckedDetails(env, d).error, Trim(d.name), FirstOccurrences(d.redirectUris);
            && (e == EmptyName <==> name == "")
            && (e == NameTooLong <==> |name| > 80)
            && (e == NoRedirectUris <==> 0 < |name| <= 80 && d.redirectUris == [])
            && (e == TooManyRedirectUris <==> 0 < |name| <= 80 && |uris| > 10)
            && (e.InvalidRedirectUri? <==>
                && 0 < |name| <= 80 && 0 < |uris| <= 10
                && exists uri <- d.redirectUris :: RedirectUriProblem(env, uri).Some?)
            && (e.InvalidRedirectUri? ==> e.uri in d.redirectUris && RedirectUriProblem(env, e.uri) == Some(e.reason))
            && (e == NoScopes ==> d.scopes == {})
            && (e.UnknownScopes? ==> forall s :: s in e.names <==> s in d.scopes && s !in env.registry)
            && e != Database
  {
    hide RedirectUriProblem;
    FirstOccurrencesMeaning(d.redirectUris);
    FirstBadUriMeaning(env, FirstOccurrences(d.redirectUris));
    if d.redirectUris != [] {
      assert d.redirectUris[0] in FirstOccurrences(d.redirectUris);
    }
  }

  // ------------------------------------------------------------- registration

  datatype NewClient = NewClient(details: ClientDetails, confidential: bool, owner: Option<Id>)

  /** Values drawn for a new client: row id, public identifier, secret. */
  datatype ClientFresh = ClientFresh(id: Id, clientId: string, secret: string)

  datatype RegistryResponse =
    | Registered(client: Client, secret: Option<string>)
    | Saved
    | NewSecret(secret: Option<string>)
    | Deleted
    | NotFound
    | NotConfirmed
    | LimitReached
    | Refused(error: RegistrationError)

  function ClientRow(env: Env, checked: ClientDetails, request: NewClient, drawn: ClientFresh, now: Time): Client {
    Client(drawn.id, drawn.clientId, if request.confidential then Some(HashToken(env.sha256, drawn.secret)) else None,
           checked.name, checked.redirectUris, Sorted(checked.scopes), now, now, None, request.owner)
  }

  /** `client::register`, as the command line calls it. */
  ghost function Register(env: Env, t: Tables, request: NewClient, drawn: ClientFresh, now: Time): (Tables,
                          RegistryResponse) {
    match CheckedDetails(env, request.details)
    case Err(e) => (t, Refused(e))
    case Ok(checked) =>
      var row := ClientRow(env, checked, request, drawn, now);
      match InsertClient(t, row)
      case Err(_) => (t, Refused(Database))
      case Ok(t') => (t', Registered(row, if request.confidential then Some(drawn.secret) else None))
  }

  /** `apps::create`: the portal adds an owner and a limit. */
  ghost function CreateApp(env: Env, t: Tables, owner: Id, details: ClientDetails, confidential: bool,
                           drawn: ClientFresh, now: Time)
    : (Tables, RegistryResponse)
  {
    if |ClientsOwnedBy(t, owner)| >= MAX_APPS_PER_USER then (t, LimitReached)
    else Register(env, t, NewClient(details, confidential, Some(owner)), drawn, now)
  }

  ghost function UpdateApp(env: Env, t: Tables, owner: Id, clientId: string, details: ClientDetails, now: Time)
    : (Tables, RegistryResponse)
  {
    match OwnedClient(t, owner, clientId)
    case None => (t, NotFound)
    case Some(app) =>
      match CheckedDetails(env, details)
      case Err(e) => (t, Refused(e))
      case Ok(checked) =>
        (UpdateClientDetails(t, app.id, checked.name, checked.redirectUris, Sorted(checked.scopes), now), Saved)
  }

  ghost function RotateSecret(env: Env, t: Tables, owner: Id, clientId: string, secret: string, now: Time)
    : (Tables, RegistryResponse)
  {
    match OwnedClient(t, owner, clientId)
    case None => (t, NotFound)
    case Some(app) =>
      if !app.IsConfidential() then (t, NewSecret(None))
      else (UpdateClientSecret(t, app.id, HashToken(env.sha256, secret), now), NewSecret(Some(secret)))
  }

  ghost function DeleteApp(t: Tables, owner: Id, clientId: string, confirmed: bool): (Tables, RegistryResponse) {
    match OwnedClient(t, owner, clientId)
    case None => (t, NotFound)
    case Some(app) =>
      if !confirmed then (t, NotConfirmed)
      else
        match DeleteClient(t, app.id)
        case Err(_) => (t, Refused(Database))
        case Ok(t') => (t', Deleted)
  }

  // ------------------------------------------------------------- authentication

  /** The Authorization header: another scheme or none, a Basic header that does not decode, or credentials. */
  datatype BasicHeader = NoBasic | Undecodable | Basic(id: string, secret: string)

  datatype Credentials = Credentials(clientId: string, secret: Option<string>)

  datatype CredentialError = TwoMethods | BadClient

  /** `extract_credentials`. */
  function ExtractCredentials(header: BasicHeader, params: map<string, string>): Result<Credentials, CredentialError> {
    var bodySecret := Params.Get(params, "client_secret");
    var bodyId := Params.Get(params, "client_id");
    match header
    case Undecodable => Err(BadClient)
    case Basic(id, secret) =>
      if bodySecret.Some? then Err(TwoMethods)
      else if bodyId.Some? && bodyId.value != id then Err(BadClient)
      else Ok(Credentials(id, Some(secret)))
    case NoBasic =>
      if bodyId.None? then Err(BadClient) else Ok(Credentials(bodyId.value, bodySecret))
  }

  /** `authenticate`. */
  ghost function Authenticate(env: Env, t: Tables, c: Credentials): Option<Client> {
    var found := ClientByName(t, c.clientId);
    if found.None? || !found.value.IsActive() then None
    else
      match c.secret
      case Some(secret) =>
        if found.value.secretHash == Some(HashToken(env.sha256, secret)) then found else None
      case None => if found.value.IsConfidential() then None else found
  }

  /**
   * Exactly who authenticates: an active client of that name whose stored digest is that of the
   * presented secret, and, without a secret, only a public one.
   */
  lemma AuthenticatedExactly(env: Env, t: Tables, c: Credentials, id: Id)
    requires Constraints(t) && id in t.clients
    ensures Authenticate(env, t, c) == Some(t.clients[id]) <==>
            && t.clients[id].clientId == c.clientId
            && t.clients[id].disabledAt.None?
            && (c.secret.None? <==> t.clients[id].secretHash.None?)
            && (c.secret.Some? ==> HashToken(env.sha256, c.secret.value) == t.clients[id].secretHash.value)
  {
    FindClient(t, id);
  }

  /** After a rotation the old secret stops working at once, unless it has the same digest as the new one. */
  lemma RotationReplacesSecret(env: Env, t: Tables, id: Id, owner: Id, clientId: string, secret: string, now: Time,
                               c: Credentials)
    requires Constraints(t) && id in t.clients
    requires t.clients[id].clientId == clientId && t.clients[id].owner == Some(owner)
    requires t.clients[id].secretHash.Some? && t.clients[id].disabledAt.None?
    requires c.clientId == clientId
    ensures Authenticate(env, RotateSecret(env, t, owner, clientId, secret, now).0, c).Some? <==>
            c.secret.Some? && env.sha256(c.secret.value) == env.sha256(secret)
  {
    FindClient(t, id);
    var app := t.clients[id];
    var t' := RotateSecret(env, t, owner, clientId, secret, now).0;
    ReplaceClientKeeps(t, app.id, t'.clients[app.id]);
    FindClient(t', app.id);
    if c.secret.Some? {
      SecretShape(env.sha256(c.secret.value), env.sha256(secret));
    }
  }
}
