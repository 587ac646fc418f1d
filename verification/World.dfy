/**
 * The grant lifecycle as a state machine: one step per request, any number of steps per run.
 *
 * Beside the tables a world records the clock and the history of grant events. The chain of a
 * token family is read off that history: the rows issued for it, in the order of issue.
 */
module World {
  import opened Wrappers
  import opened Schema
  import opened Events
  import opened Clients
  import Params
  import Pkce
  import Scope
  import Statements
  import A = Authorization
  import T = TokenEndpoint

  datatype World = World(tables: Tables, clock: Time, history: seq<Event>)

  datatype Step =
    | TokenRequest(header: BasicHeader, pairs: Params.Pairs, drawn: Fresh, signs: bool)
    | RevocationRequest(header: BasicHeader, pairs: Params.Pairs)
    | AuthorizeRequest(pairs: Params.Pairs, session: Option<A.Session>, drawn: Fresh)
    | ConsentAnswer(pairs: Params.Pairs, csrfOk: bool, session: Option<A.Session>, drawn: Fresh)
    | RegisterByOperator(details: ClientDetails, confidential: bool, client: ClientFresh)
    | RegisterApp(owner: Id, details: ClientDetails, confidential: bool, client: ClientFresh)
    | UpdateApp(owner: Id, clientId: string, details: ClientDetails)
    | RotateAppSecret(owner: Id, clientId: string, secret: string)
    | DeleteApp(owner: Id, clientId: string, confirmed: bool)

  ghost function Effect(env: Env, t: Tables, step: Step, now: Time): (Tables, seq<Event>) {
    match step
    case TokenRequest(header, pairs, drawn, signs) =>
      var o := T.HandleToken(env, t, header, pairs, drawn, signs, now);
      (o.tables, o.events)
    case RevocationRequest(header, pairs) =>
      var o := T.HandleRevocation(env, t, header, pairs, now);
      (o.tables, o.events)
    case AuthorizeRequest(pairs, session, drawn) =>
      var o := A.Authorize(env, t, pairs, session, drawn, now);
      (o.tables, o.events)
    case ConsentAnswer(pairs, csrfOk, session, drawn) =>
      var o := A.Consented(env, t, pairs, csrfOk, session, drawn, now);
      (o.tables, o.events)
    case RegisterByOperator(details, confidential, client) =>
      (Register(env, t, NewClient(details, confidential, None), client, now).0, [])
    case RegisterApp(owner, details, confidential, client) =>
      (CreateApp(env, t, owner, details, confidential, client, now).0, [])
    case UpdateApp(owner, clientId, details) =>
      (Clients.UpdateApp(env, t, owner, clientId, details, now).0, [])
    case RotateAppSecret(owner, clientId, secret) =>
      (RotateSecret(env, t, owner, clientId, secret, now).0, [])
    case DeleteApp(owner, clientId, confirmed) =>
      (Clients.DeleteApp(t, owner, clientId, confirmed).0, [])
  }

  ghost function Next(env: Env, w: World, step: Step, now: Time): World {
    var (t, events) := Effect(env, w.tables, step, now);
    World(t, now, w.history + events)
  }

  /** The rows issued for a family, oldest first. */
  function Chain(history: seq<Event>, family: Id): seq<Id> {
    if history == [] then []
    else
      var front, last := Chain(history[..|history| - 1], family), history[|history| - 1];
      if last.RefreshIssued? && last.family == family then front + [last.row] else front
  }

  /**
   * What a run may assume of its surroundings: the clock does not go back, and a family id is
   * never drawn twice (no constraint of the schema enforces that). Row ids, secrets and
   * everything a request carries are arbitrary.
   */
  ghost predicate Allowed(w: World, step: Step, now: Time) {
    && w.clock <= now
    && (step.TokenRequest? ==> Chain(w.history, step.drawn.familyId) == [])
  }

  type Run = seq<(Step, Time)>

  ghost function After(env: Env, w: World, run: Run): World
    decreases |run|
  {
    if run == [] then w else After(env, Next(env, w, run[0].0, run[0].1), run[1..])
  }

  ghost predicate AllowedRun(env: Env, w: World, run: Run)
    decreases |run|
  {
    run == [] ||
    (Allowed(w, run[0].0, run[0].1) && AllowedRun(env, Next(env, w, run[0].0, run[0].1), run[1..]))
  }

  function Initial(clock: Time): World { World(Tables(map[], map[], map[], map[]), clock, []) }

  /** The second world comes after the first in some run. */
  ghost predicate Later(env: Env, w: World, w': World) {
    exists run :: AllowedRun(env, w, run) && w' == After(env, w, run)
  }

  /** A state the server can get into, starting from empty tables. */
  ghost predicate Reachable(env: Env, w: World) {
    exists clock :: Later(env, Initial(clock), w)
  }

  // ------------------------------------------------------------- the invariant

  /** The first row was exchanged for the second, before it expired. */
  ghost predicate Follows(rows: map<Id, RefreshToken>, a: Id, b: Id) {
    && a in rows && b in rows
    && rows[a].rotatedTo == Some(b)
    && rows[a].createdAt <= rows[b].createdAt < rows[a].expiresAt
  }

  /** The ids are the whole family, each once, and each row points at the next. */
  ghost predicate IsChain(rows: map<Id, RefreshToken>, family: Id, ids: seq<Id>) {
    && |ids| > 0
    && (forall i :: 0 <= i < |ids| ==> ids[i] in rows && rows[ids[i]].familyId == family)
    && (forall i, j :: 0 <= i < j < |ids| ==> ids[i] != ids[j])
    && (forall k :: k in rows && rows[k].familyId == family ==> k in ids)
    && (forall i, j :: 0 <= i && j == i + 1 && j < |ids| ==> Follows(rows, ids[i], ids[j]))
    && rows[ids[|ids| - 1]].rotatedTo.None?
  }

  ghost predicate ChainsOk(rows: map<Id, RefreshToken>, history: seq<Event>) {
    forall k :: k in rows ==> IsChain(rows, rows[k].familyId, Chain(history, rows[k].familyId))
  }

  /** A refresh token carries what its code carried, and that code was redeemed. */
  ghost predicate RowOk(t: Tables, row: RefreshToken, clock: Time) {
    && row.codeId.Some? && row.codeId.value in t.codes
    && (var code := t.codes[row.codeId.value];
        && code.usedAt.Some?
        && row.clientId == code.clientId && row.userId == code.userId
        && row.scope == code.scope && row.authTime == code.authTime)
    && Scope.OFFLINE_ACCESS in Scope.Names(row.scope)
    && row.expiresAt == row.createdAt + T.REFRESH_TOKEN_TTL
    && row.createdAt <= clock
  }

  ghost predicate RowsOk(t: Tables, clock: Time) {
    forall k :: k in t.tokens ==> RowOk(t, t.tokens[k], clock)
  }

  /** One family per code and one code per family; a family is revoked as a whole. */
  ghost predicate FamiliesOk(rows: map<Id, RefreshToken>) {
    forall a, b :: a in rows && b in rows ==>
      && (rows[a].familyId == rows[b].familyId <==> rows[a].codeId == rows[b].codeId)
      && (rows[a].familyId == rows[b].familyId ==> rows[a].revokedAt == rows[b].revokedAt)
  }

  /** The user approved this scope for this client. */
  ghost predicate HasApproval(history: seq<Event>, user: Id, client: Id, scope: string) {
    exists j :: 0 <= j < |history| && history[j].Approved?
                && history[j].user == user && history[j].client == client && scope in history[j].scopes
  }

  /** A code with at least these scopes was issued to this client for this user. */
  ghost predicate HasIssued(history: seq<Event>, user: Id, client: Id, scopes: set<string>) {
    exists j :: 0 <= j < |history| && history[j].CodeIssued?
                && history[j].user == user && history[j].client == client && scopes <= history[j].scopes
  }

  ghost predicate CodeOk(history: seq<Event>, code: Code, clock: Time) {
    && Scope.IsStored(code.scope)
    && HasIssued(history, code.userId, code.clientId, Scope.Names(code.scope))
    && code.codeChallengeMethod == Pkce.S256
    && Pkce.IsValidS256Challenge(code.codeChallenge)
    && code.redirectUri != ""
    && code.expiresAt == code.createdAt + A.AUTHORIZATION_CODE_TTL
    && code.createdAt <= clock
  }

  ghost predicate CodesOk(t: Tables, history: seq<Event>, clock: Time) {
    forall id :: id in t.codes ==> CodeOk(history, t.codes[id], clock)
  }

  ghost predicate ConsentsOk(t: Tables, history: seq<Event>) {
    forall key, s :: key in t.consents && s in t.consents[key].scopes ==> HasApproval(history, key.0, key.1, s)
  }

  /** What justifies an event, given what came before it. */
  ghost predicate Justified(before: seq<Event>, e: Event) {
    match e
    case Approved(_, _, _) => true
    case RefreshIssued(_, _) => true
    case CodeIssued(user, client, scopes, allowed) =>
      scopes <= allowed && forall s :: s in scopes ==> HasApproval(before, user, client, s)
    case TokensIssued(user, client, scopes, access) =>
      && HasIssued(before, user, client, scopes)
      && Scope.IsScopeSet(scopes)
      && access.sub == user && access.scope == Scope.Print(scopes)
  }

  ghost predicate HistoryOk(history: seq<Event>) {
    history == [] ||
    (HistoryOk(history[..|history| - 1]) && Justified(history[..|history| - 1], history[|history| - 1]))
  }

  ghost predicate ClientOk(env: Env, c: Client) {
    ProperDetails(env, c.name, c.redirectUris, c.AllowedScopes()) && c.IsActive()
  }

  ghost predicate ClientsOk(env: Env, t: Tables) {
    && (forall id :: id in t.clients ==> ClientOk(env, t.clients[id]))
    && (forall owner :: |Statements.ClientsOwnedBy(t, owner)| <= MAX_APPS_PER_USER)
  }

  ghost predicate Inv(env: Env, w: World) {
    && Constraints(w.tables)
    && ClientsOk(env, w.tables)
    && ConsentsOk(w.tables, w.history)
    && CodesOk(w.tables, w.history, w.clock)
    && RowsOk(w.tables, w.clock)
    && FamiliesOk(w.tables.tokens)
    && ChainsOk(w.tables.tokens, w.history)
    && HistoryOk(w.history)
  }

  lemma InitialInv(env: Env, clock: Time)
    ensures Inv(env, Initial(clock))
  {
    forall owner ensures |Statements.ClientsOwnedBy(Initial(clock).tables, owner)| == 0 {
      assert Statements.ClientsOwnedBy(Initial(clock).tables, owner) == {};
    }
  }
}
