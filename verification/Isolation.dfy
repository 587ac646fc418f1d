/** What the requests of one client can do to the refresh tokens of another. */
module Isolation {
  import opened Wrappers
  import opened Schema
  import opened Secret
  import opened Statements
  import opened World
  import opened Preservation
  import opened Steps
  import opened Changes
  import opened Families
  import opened Effects
  import Params
  import Scope
  import T = TokenEndpoint

  // ------------------------------------------------------------- refreshes and revocations

  /** The rows of every other client. */
  ghost function RowsOfOthers(rows: map<Id, RefreshToken>, client: Id): map<Id, RefreshToken> {
    map k | k in rows && rows[k].clientId != client :: rows[k]
  }

  /** Revoking a family of the client's own touches no row of another client. */
  lemma RevokingOwnFamily(env: Env, w: World, k: Id, now: Time)
    requires Inv(env, w) && k in w.tables.tokens
    ensures RowsOfOthers(RevokeFamilies(w.tables, {w.tables.tokens[k].familyId}, now).tokens,
                         w.tables.tokens[k].clientId)
            == RowsOfOthers(w.tables.tokens, w.tables.tokens[k].clientId)
  {
    hide ClientsOk, ConsentsOk, CodesOk, RowsOk, FamiliesOk, ChainsOk, HistoryOk, Constraints, Chain;
    forall other | other in w.tables.tokens && w.tables.tokens[other].familyId == w.tables.tokens[k].familyId
      ensures w.tables.tokens[other].clientId == w.tables.tokens[k].clientId
    {
      SameFamilySameClient(w.tables, w.clock, k, other);
    }
  }

  lemma RefreshIsolation(env: Env, w: World, client: Client, hash: string, requested: Option<set<string>>, drawn: Fresh,
                         signs: bool, now: Time)
    requires Inv(env, w)
    ensures RowsOfOthers(T.Rotate(env, w.tables, client, hash, requested, drawn, signs, now).tables.tokens, client.id)
            == RowsOfOthers(w.tables.tokens, client.id)
  {
    hide ClientsOk, ConsentsOk, CodesOk, RowsOk, FamiliesOk, ChainsOk, HistoryOk, T.Rotate, RowsOfOthers,
      RevokeFamilies;
    var c := RotateChange(env, w.tables, client, hash, requested, drawn, signs, now);
    var rows, rows' :=
        w.tables.tokens, T.Rotate(env, w.tables, client, hash, requested, drawn, signs, now).tables.tokens;
    if c.RevokedFamilies? {
      var k := TokenByHash(w.tables, hash).value.id;
      RevokingOwnFamily(env, w, k, now);
      SameRevocation(w.tables, {rows[k].familyId}, rows', now);
    } else if c.Rotated? {
      RotationOfOwn(rows, rows', c, now);
    }
  }

  lemma SameRevocation(t: Tables, families: set<Id>, rows': map<Id, RefreshToken>, now: Time)
    requires ChangedBy(t.tokens, rows', RevokedFamilies(families), now)
    ensures rows' == RevokeFamilies(t, families, now).tokens
  {
  }

  lemma RotationOfOwn(rows: map<Id, RefreshToken>, rows': map<Id, RefreshToken>, c: TokenChange, now: Time)
    requires c.Rotated? && ChangedBy(rows, rows', c, now)
    ensures RowsOfOthers(rows', c.record.clientId) == RowsOfOthers(rows, c.record.clientId)
  {
  }

  // ------------------------------------------------------------- codes

  /**
   * The one path without a client check: what replaying a used code does to the tables does not
   * depend on which client presents it, so it also revokes the tokens of the code's own client.
   */
  lemma CodeReplayIgnoresPresenter(env: Env, t: Tables, id: Id, a: Client, b: Client, uri: string, verifier: string,
                                   drawn: Fresh, signs: bool, now: Time)
    requires Constraints(t) && id in t.codes && t.codes[id].usedAt.Some?
    ensures T.RedeemCode(env, t, a, t.codes[id].codeHash, uri, verifier, drawn, signs, now)
            == T.RedeemCode(env, t, b, t.codes[id].codeHash, uri, verifier, drawn, signs, now)
  {
    FindCode(t, id);
  }

  /** The hash is that of a used code of another client that still has an unrevoked row. */
  ghost predicate ForeignReplay(t: Tables, client: Id, hash: string) {
    exists id, k ::
      && id in t.codes && t.codes[id].codeHash == hash && t.codes[id].usedAt.Some? && t.codes[id].clientId != client
      && k in t.tokens && t.tokens[k].codeId == Some(id) && t.tokens[k].revokedAt.None?
  }

  lemma ForeignReplayRevokes(env: Env, w: World, client: Client, hash: string, uri: string, verifier: string,
                             drawn: Fresh, signs: bool, now: Time)
    requires Reachable(env, w) && ForeignReplay(w.tables, client.id, hash)
    ensures RowsOfOthers(T.RedeemCode(env, w.tables, client, hash, uri, verifier, drawn, signs,
                                      now).tables.tokens, client.id)
            != RowsOfOthers(w.tables.tokens, client.id)
  {
    hide Reachable, Inv, T.RedeemCode;
    var t, t' := w.tables, T.RedeemCode(env, w.tables, client, hash, uri, verifier, drawn, signs, now).tables;
    var id, k :|
      && id in t.codes && t.codes[id].codeHash == hash && t.codes[id].usedAt.Some? && t.codes[id].clientId != client.id
      && k in t.tokens && t.tokens[k].codeId == Some(id) && t.tokens[k].revokedAt.None?;
    ReplayedCode(env, w, id, client, uri, verifier, drawn, signs, now);
    OwnerOfRow(env, w, k);
    assert k in RowsOfOthers(t.tokens, client.id) && RowsOfOthers(t.tokens, client.id)[k].revokedAt.None?;
    assert t'.tokens[k].revokedAt.Some?;
  }

  /** A row belongs to the client of its code. */
  lemma OwnerOfRow(env: Env, w: World, k: Id)
    requires Reachable(env, w) && k in w.tables.tokens
    ensures var row := w.tables.tokens[k];
            row.codeId.Some? && row.codeId.value in w.tables.codes
            && row.clientId == w.tables.codes[row.codeId.value].clientId
  {
    hide Reachable, ClientsOk, ConsentsOk, CodesOk, FamiliesOk, ChainsOk, HistoryOk, Constraints;
    ReachableInv(env, w);
    RowIsOk(w, k);
  }

  lemma OtherwiseIsolated(env: Env, w: World, client: Client, hash: string, uri: string, verifier: string,
                          drawn: Fresh, signs: bool, now: Time)
    requires Reachable(env, w) && !ForeignReplay(w.tables, client.id, hash)
    ensures RowsOfOthers(T.RedeemCode(env, w.tables, client, hash, uri, verifier, drawn, signs,
                                      now).tables.tokens, client.id)
            == RowsOfOthers(w.tables.tokens, client.id)
  {
    hide Reachable, Inv, T.RedeemCode, ForeignReplay, RevokedExactly, RowsOfOthers;
    ReachableInv(env, w);
    KeptConstraints(env, w);
    var rows, o := w.tables.tokens, T.RedeemCode(env, w.tables, client, hash, uri, verifier, drawn, signs, now);
    var c := RedeemChange(env, w.tables, client, hash, uri, verifier, drawn, signs, now);
    if c.RevokedFamilies? {
      var code := CodeByHash(w.tables, hash).value;
      FoundCode(w.tables, hash);
      ReplayedCode(env, w, code.id, client, uri, verifier, drawn, signs, now);
      OwnRowsRevoked(env, w, code.id, o.tables, client.id, now);
    } else if c.Started? {
      OwnRowStarted(rows, o.tables.tokens, c, client.id, now);
    }
  }

  lemma FoundCode(t: Tables, hash: string)
    requires Constraints(t) && CodeByHash(t, hash).Some?
    ensures var code := CodeByHash(t, hash).value;
            code.id in t.codes && t.codes[code.id] == code && code.codeHash == hash
  {
  }

  lemma OwnRowsRevoked(env: Env, w: World, id: Id, t': Tables, client: Id, now: Time)
    requires Reachable(env, w) && id in w.tables.codes && w.tables.codes[id].usedAt.Some?
    requires !ForeignReplay(w.tables, client, w.tables.codes[id].codeHash)
    requires RevokedExactly(w.tables, t', RowsOfCode(w.tables, id), now)
    ensures RowsOfOthers(t'.tokens, client) == RowsOfOthers(w.tables.tokens, client)
  {
    hide Reachable;
    forall k | k in w.tables.tokens && w.tables.tokens[k].clientId != client
      ensures t'.tokens[k] == w.tables.tokens[k] {
      OwnerOfRow(env, w, k);
    }
  }

  lemma OwnRowStarted(rows: map<Id, RefreshToken>, rows': map<Id, RefreshToken>, c: TokenChange, client: Id, now: Time)
    requires c.Started? && ChangedBy(rows, rows', c, now) && c.row.clientId == client
    ensures RowsOfOthers(rows', client) == RowsOfOthers(rows, client)
  {
  }

  /**
   * The code grant of one client leaves the rows of all others as they are, exactly if the hash
   * is not that of a used code of another client that still has an unrevoked row.
   */
  lemma CodeGrantIsolation(env: Env, w: World, client: Client, hash: string, uri: string, verifier: string,
                           drawn: Fresh, signs: bool, now: Time)
    requires Reachable(env, w)
    ensures RowsOfOthers(T.RedeemCode(env, w.tables, client, hash, uri, verifier, drawn, signs,
                                      now).tables.tokens, client.id)
            == RowsOfOthers(w.tables.tokens, client.id)
            <==> !ForeignReplay(w.tables, client.id, hash)
  {
    hide Reachable, T.RedeemCode, RowsOfOthers, ForeignReplay;
    if ForeignReplay(w.tables, client.id, hash) {
      ForeignReplayRevokes(env, w, client, hash, uri, verifier, drawn, signs, now);
    } else {
      OtherwiseIsolated(env, w, client, hash, uri, verifier, drawn, signs, now);
    }
  }

  // ------------------------------------------------------------- one request

  /** A token or revocation request that authenticates as this client, or not at all. */
  ghost predicate ActsAs(env: Env, t: Tables, step: Step, client: Id) {
    (step.TokenRequest? || step.RevocationRequest?) &&
    match Params.Collected(step.pairs)
    case Err(_) => true
    case Ok(params) =>
      match T.AuthenticatedClient(env, t, step.header, params) case Ok(c) => c.id == client case Err(_) => true
  }

  /** The request presents a used code of another client whose tokens are not revoked yet. */
  ghost predicate Trespasses(env: Env, t: Tables, step: Step) {
    exists client, hash :: PresentsCode(env, t, step, client, hash) && ForeignReplay(t, client.id, hash)
  }

  lemma RevocationIsolation(env: Env, w: World, step: Step, now: Time, client: Id)
    requires Inv(env, w) && ActsAs(env, w.tables, step, client) && step.RevocationRequest?
    ensures RowsOfOthers(Next(env, w, step, now).tables.tokens, client) == RowsOfOthers(w.tables.tokens, client)
  {
    hide ClientsOk, ConsentsOk, CodesOk, RowsOk, FamiliesOk, ChainsOk, HistoryOk, RowsOfOthers, T.AuthenticatedClient;
    hide CodeKeys, ConsentKeys, ClientKeys;
    if Params.Collected(step.pairs).Ok? {
      var token := Params.Get(Params.Collected(step.pairs).value, "token");
      if token.Some? && TokenByHash(w.tables, HashToken(env.sha256, token.value)).Some? {
        RevokingOwnFamily(env, w, TokenByHash(w.tables, HashToken(env.sha256, token.value)).value.id, now);
      }
    }
  }

  lemma RefreshGrantIsolation(env: Env, w: World, c: Client, params: map<string, string>, drawn: Fresh, signs: bool,
                              now: Time)
    requires Inv(env, w)
    ensures RowsOfOthers(T.ExchangeRefresh(env, w.tables, c, params, drawn, signs, now).tables.tokens, c.id)
            == RowsOfOthers(w.tables.tokens, c.id)
  {
    hide Inv, RowsOfOthers, T.Rotate, Scope.Parsed;
    var raw, scope := Params.Get(params, "refresh_token"), Params.Get(params, "scope");
    if raw.Some? && scope.None? {
      RefreshIsolation(env, w, c, HashToken(env.sha256, raw.value), None, drawn, signs, now);
    } else if raw.Some? && Scope.Parsed(scope.value).Ok? {
      RefreshIsolation(env, w, c, HashToken(env.sha256, raw.value), Some(Scope.Parsed(scope.value).value), drawn,
                       signs, now);
    }
  }

  lemma TokenRequestIsolation(env: Env, w: World, step: Step, now: Time, client: Id)
    requires Reachable(env, w) && ActsAs(env, w.tables, step, client) && step.TokenRequest?
    ensures RowsOfOthers(Next(env, w, step, now).tables.tokens, client) == RowsOfOthers(w.tables.tokens, client)
            <==> !Trespasses(env, w.tables, step)
  {
    hide Reachable, Inv, RowsOfOthers, T.RedeemCode, T.ExchangeRefresh, T.AuthenticatedClient, ForeignReplay;
    ReachableInv(env, w);
    if Params.Collected(step.pairs).Ok? {
      var params := Params.Collected(step.pairs).value;
      var c := T.AuthenticatedClient(env, w.tables, step.header, params);
      var code, uri, verifier :=
          Params.Get(params, "code"), Params.Get(params, "redirect_uri"), Params.Get(params, "code_verifier");
      if c.Ok? {
        RefreshGrantIsolation(env, w, c.value, params, step.drawn, step.signs, now);
        if code.Some? && uri.Some? && verifier.Some? {
          var hash := HashToken(env.sha256, code.value);
          CodeGrantIsolation(env, w, c.value, hash, uri.value, verifier.value, step.drawn, step.signs, now);
          if ForeignReplay(w.tables, c.value.id, hash)
          && Params.Get(params, "grant_type") == Some("authorization_code") {
            assert PresentsCode(env, w.tables, step, c.value, hash);
          }
        }
      }
    }
  }

  /**
   * Any token or revocation request of one client leaves the refresh-token rows of all others
   * as they are, exactly unless it replays a code of another client whose tokens live.
   */
  lemma StepIsolation(env: Env, w: World, step: Step, now: Time, client: Id)
    requires Reachable(env, w) && ActsAs(env, w.tables, step, client)
    ensures RowsOfOthers(Next(env, w, step, now).tables.tokens, client) == RowsOfOthers(w.tables.tokens, client)
            <==> !Trespasses(env, w.tables, step)
  {
    hide Reachable, Inv, Next, RowsOfOthers, ForeignReplay, T.AuthenticatedClient;
    if step.TokenRequest? {
      TokenRequestIsolation(env, w, step, now, client);
    } else {
      ReachableInv(env, w);
      RevocationIsolation(env, w, step, now, client);
    }
  }

  // ------------------------------------------------------------- whole runs

  ghost predicate AllActAs(env: Env, w: World, run: Run, client: Id)
    decreases |run|
  {
    run == [] ||
    (ActsAs(env, w.tables, run[0].0, client) && AllActAs(env, Next(env, w, run[0].0, run[0].1), run[1..], client))
  }

  /** Some request of the run trespasses, at its turn. */
  ghost predicate SomeTrespasses(env: Env, w: World, run: Run)
    decreases |run|
  {
    run != [] &&
    (Trespasses(env, w.tables, run[0].0) || SomeTrespasses(env, Next(env, w, run[0].0, run[0].1), run[1..]))
  }

  /** A row of another client that was unrevoked is revoked. */
  ghost predicate Revoked(rows: map<Id, RefreshToken>, rows': map<Id, RefreshToken>, client: Id, k: Id) {
    && k in rows && rows[k].clientId != client && rows[k].revokedAt.None?
    && k in rows' && rows'[k].clientId != client && rows'[k].revokedAt.Some?
  }

  lemma TrespassRevokes(env: Env, w: World, step: Step, now: Time, client: Id) returns (k: Id)
    requires Reachable(env, w) && Allowed(w, step, now) && ActsAs(env, w.tables, step, client)
             && Trespasses(env, w.tables, step)
    ensures Revoked(w.tables.tokens, Next(env, w, step, now).tables.tokens, client, k)
  {
    hide Reachable, Inv, Effect, T.AuthenticatedClient;
    var presenter, hash :| PresentsCode(env, w.tables, step, presenter, hash)
        && ForeignReplay(w.tables, presenter.id, hash);
    var t := w.tables;
    var id, row :|
      && id in t.codes && t.codes[id].codeHash == hash && t.codes[id].usedAt.Some?
      && t.codes[id].clientId != presenter.id
      && row in t.tokens && t.tokens[row].codeId == Some(id) && t.tokens[row].revokedAt.None?;
    k := row;
    OwnerOfRow(env, w, k);
    CodeReplayKillsFamily(env, w, step, now, presenter, k);
    RowsAreKept(env, w, step, now, client, k);
  }

  /** Requests of a client keep every row, and a revoked row stays revoked. */
  lemma RowsAreKept(env: Env, w: World, step: Step, now: Time, client: Id, k: Id)
    requires Reachable(env, w) && Allowed(w, step, now) && ActsAs(env, w.tables, step, client) && k in w.tables.tokens
    ensures var rows' := Next(env, w, step, now).tables.tokens;
            k in rows' && Evolves(w.tables.tokens[k], rows'[k])
  {
    hide Reachable, Inv, T.HandleToken, T.HandleRevocation, Allowed, ActsAs, ChangedBy, Evolves;
    ReachableInv(env, w);
    KeptConstraints(env, w);
    var c := Kept;
    if step.TokenRequest? {
      c := TokenRequestChange(env, w.tables, step.header, step.pairs, step.drawn, step.signs, now);
    } else {
      assert step.RevocationRequest? by { ActsAsKind(env, w.tables, step, client); }
      c := RevocationChange(env, w.tables, step.header, step.pairs, now);
    }
    ChangeEvolves(w.tables.tokens, Next(env, w, step, now).tables.tokens, c, now, k);
  }

  lemma ActsAsKind(env: Env, t: Tables, step: Step, client: Id)
    requires ActsAs(env, t, step, client)
    ensures step.TokenRequest? || step.RevocationRequest?
  {
    hide T.AuthenticatedClient;
  }

  lemma ChangeEvolves(rows: map<Id, RefreshToken>, rows': map<Id, RefreshToken>, c: TokenChange, now: Time, k: Id)
    requires ChangedBy(rows, rows', c, now) && !c.Dropped? && k in rows
    ensures k in rows' && Evolves(rows[k], rows'[k])
  {
  }

  lemma KeptConstraints(env: Env, w: World)
    requires Inv(env, w)
    ensures Constraints(w.tables)
  {
  }

  lemma {:induction false} RevokedStays(env: Env, w: World, run: Run, client: Id, k: Id)
    requires Reachable(env, w) && AllowedRun(env, w, run) && AllActAs(env, w, run, client)
    requires k in w.tables.tokens && w.tables.tokens[k].clientId != client && w.tables.tokens[k].revokedAt.Some?
    ensures k in After(env, w, run).tables.tokens && After(env, w, run).tables.tokens[k].revokedAt.Some?
    ensures After(env, w, run).tables.tokens[k].clientId != client
    decreases |run|
  {
    hide Reachable, Next, ActsAs;
    if run != [] {
      RowsAreKept(env, w, run[0].0, run[0].1, client, k);
      NextIsReachable(env, w, run[0].0, run[0].1);
      RevokedStays(env, Next(env, w, run[0].0, run[0].1), run[1..], client, k);
    }
  }

  /**
   * Client isolation: a run of token and revocation requests by one client, of any length,
   * leaves all refresh-token rows of the other clients as they were, exactly if none of its
   * requests trespasses.
   */
  lemma {:induction false} ClientIsolation(env: Env, w: World, run: Run, client: Id)
    requires Reachable(env, w) && AllowedRun(env, w, run) && AllActAs(env, w, run, client)
    ensures RowsOfOthers(After(env, w, run).tables.tokens, client) == RowsOfOthers(w.tables.tokens, client)
            <==> !SomeTrespasses(env, w, run)
    decreases |run|
  {
    hide Reachable, Next, ActsAs, Trespasses, RowsOfOthers, Revoked;
    if run != [] {
      var (step, now) := run[0];
      var w' := Next(env, w, step, now);
      NextIsReachable(env, w, step, now);
      if Trespasses(env, w.tables, step) {
        var k := TrespassRevokes(env, w, step, now, client);
        TrespassShows(env, w, w', run[1..], client, k);
      } else {
        StepIsolation(env, w, step, now, client);
        ClientIsolation(env, w', run[1..], client);
      }
    }
  }

  lemma TrespassShows(env: Env, w: World, w': World, run: Run, client: Id, k: Id)
    requires Reachable(env, w') && AllowedRun(env, w', run) && AllActAs(env, w', run, client)
    requires Revoked(w.tables.tokens, w'.tables.tokens, client, k)
    ensures RowsOfOthers(After(env, w', run).tables.tokens, client) != RowsOfOthers(w.tables.tokens, client)
  {
    hide Reachable, AllowedRun, AllActAs, After;
    RevokedStays(env, w', run, client, k);
    assert RowsOfOthers(w.tables.tokens, client)[k].revokedAt.None?;
    assert RowsOfOthers(After(env, w', run).tables.tokens, client)[k].revokedAt.Some?;
  }
}
