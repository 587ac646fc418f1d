/** Refresh-token families: one chain each, killed as a whole, and dead for ever. */
module Families {
  import opened Wrappers
  import opened Schema
  import opened Secret
  import opened Statements
  import opened World
  import opened Preservation
  import opened Steps
  import opened Changes
  import Params
  import Scope
  import T = TokenEndpoint

  // ------------------------------------------------------------- one chain

  /**
   * In every reachable state the rows of a family are exactly the rows that were issued for it,
   * in that order, each pointing at the next; so one row is first, one is unrotated, no two
   * share a successor, and nothing points backwards.
   */
  lemma FamilyIsOneChain(env: Env, w: World, k: Id)
    requires Reachable(env, w) && k in w.tables.tokens
    ensures var ids := Chain(w.history, w.tables.tokens[k].familyId);
            IsChain(w.tables.tokens, w.tables.tokens[k].familyId, ids)
            && (forall other ::
                other in w.tables.tokens && w.tables.tokens[other].familyId == w.tables.tokens[k].familyId ==>
                  (w.tables.tokens[other].rotatedTo.None? <==> other == ids[|ids| - 1]))
  {
    hide Reachable, ClientsOk, ConsentsOk, CodesOk, RowsOk, FamiliesOk, HistoryOk, Constraints, Chain;
    ReachableInv(env, w);
    var rows, family := w.tables.tokens, w.tables.tokens[k].familyId;
    var ids := Chain(w.history, family);
    forall other | other in rows && rows[other].familyId == family && rows[other].rotatedTo.None?
      ensures other == ids[|ids| - 1]
    {
      UnrotatedIsLast(rows, family, ids, other);
    }
  }

  /** Two rows never share a successor. */
  lemma SuccessorsAreDistinct(env: Env, w: World, a: Id, b: Id)
    requires Reachable(env, w) && a in w.tables.tokens && b in w.tables.tokens
    requires w.tables.tokens[a].rotatedTo.Some? && w.tables.tokens[a].rotatedTo == w.tables.tokens[b].rotatedTo
    ensures a == b
  {
    hide Reachable, ClientsOk, ConsentsOk, CodesOk, RowsOk, FamiliesOk, HistoryOk, Constraints, Chain;
    ReachableInv(env, w);
    var rows := w.tables.tokens;
    var family := rows[a].familyId;
    var ids := Chain(w.history, family);
    SuccessorInFamily(rows, family, ids, a);
    SuccessorInFamily(rows, rows[b].familyId, Chain(w.history, rows[b].familyId), b);
    var i :| 0 <= i < |ids| && ids[i] == a;
    var j :| 0 <= j < |ids| && ids[j] == b;
    SuccessorIsNext(rows, family, ids, i);
    SuccessorIsNext(rows, family, ids, j);
  }

  lemma SuccessorIsNext(rows: map<Id, RefreshToken>, family: Id, ids: seq<Id>, i: nat)
    requires IsChain(rows, family, ids) && i < |ids| && rows[ids[i]].rotatedTo.Some?
    ensures i + 1 < |ids| && rows[ids[i]].rotatedTo.value == ids[i + 1]
  {
    assert i + 1 < |ids|;
    assert Follows(rows, ids[i], ids[i + 1]);
  }

  /** At most one token of a family is usable, whoever asks and whenever. */
  lemma AtMostOneUsable(env: Env, w: World, a: Id, b: Id, clientA: Id, clientB: Id, now: Time, later: Time)
    requires Reachable(env, w) && a in w.tables.tokens && b in w.tables.tokens
    requires w.tables.tokens[a].familyId == w.tables.tokens[b].familyId
    requires T.CheckUsable(w.tables.tokens[a], clientA, now).None?
    requires T.CheckUsable(w.tables.tokens[b], clientB, later).None?
    ensures a == b
  {
    hide Reachable;
    FamilyIsOneChain(env, w, a);
  }

  /**
   * Lifetime along a chain: each token is issued before its predecessor expires, so the one at
   * depth n expires no later than n + 1 times thirty days after the first was issued.
   */
  lemma ChainLifetime(env: Env, w: World, k: Id, n: nat)
    requires Reachable(env, w) && k in w.tables.tokens
    requires n < |Chain(w.history, w.tables.tokens[k].familyId)|
    ensures var ids, rows := Chain(w.history, w.tables.tokens[k].familyId), w.tables.tokens;
            ids[n] in rows && ids[0] in rows
            && rows[ids[n]].expiresAt <= rows[ids[0]].createdAt + (n + 1) * T.REFRESH_TOKEN_TTL
  {
    hide Reachable, ClientsOk, ConsentsOk, CodesOk, FamiliesOk, HistoryOk, Constraints, Chain, IsChain;
    ReachableInv(env, w);
    var rows, family := w.tables.tokens, w.tables.tokens[k].familyId;
    assert IsChain(rows, family, Chain(w.history, family));
    forall r | r in rows ensures rows[r].expiresAt == rows[r].createdAt + T.REFRESH_TOKEN_TTL {
      RowIsOk(w, r);
    }
    LifetimeAt(rows, family, Chain(w.history, family), n);
  }

  lemma {:induction false} LifetimeAt(rows: map<Id, RefreshToken>, family: Id, ids: seq<Id>, n: nat)
    requires IsChain(rows, family, ids) && n < |ids|
    requires forall r :: r in rows ==> rows[r].expiresAt == rows[r].createdAt + T.REFRESH_TOKEN_TTL
    ensures ids[n] in rows && ids[0] in rows
    ensures rows[ids[n]].expiresAt <= rows[ids[0]].createdAt + (n + 1) * T.REFRESH_TOKEN_TTL
  {
    if n > 0 {
      LifetimeAt(rows, family, ids, n - 1);
      assert Follows(rows, ids[n - 1], ids[n]);
    }
  }

  // ------------------------------------------------------------- dead families

  /** A family that exists or existed, and none of whose rows is unrevoked. */
  ghost predicate Dead(w: World, family: Id) {
    && Chain(w.history, family) != []
    && forall k :: k in w.tables.tokens && w.tables.tokens[k].familyId == family ==> w.tables.tokens[k].revokedAt.Some?
  }

  /** Every row of the family in the later tables was already there, unchanged. */
  ghost predicate Frozen(rows: map<Id, RefreshToken>, rows': map<Id, RefreshToken>, family: Id) {
    forall k :: k in rows' && rows'[k].familyId == family ==> k in rows && rows'[k] == rows[k]
  }

  lemma StepKeepsDead(env: Env, w: World, step: Step, now: Time, family: Id)
    requires Inv(env, w) && Allowed(w, step, now) && Dead(w, family)
    ensures Dead(Next(env, w, step, now), family)
    ensures Frozen(w.tables.tokens, Next(env, w, step, now).tables.tokens, family)
  {
    hide Inv, Effect, Chain;
    var c := StepChange(env, w, step, now);
    var w' := Next(env, w, step, now);
    ChainGrows(w.history, Effect(env, w.tables, step, now).1, family);
    if c.Rotated? {
      assert c.record.familyId != family;
    }
  }

  lemma {:induction false} RunKeepsDead(env: Env, w: World, run: Run, family: Id)
    requires Inv(env, w) && AllowedRun(env, w, run) && Dead(w, family)
    ensures Dead(After(env, w, run), family)
    ensures Frozen(w.tables.tokens, After(env, w, run).tables.tokens, family)
    decreases |run|
  {
    hide Inv, Chain, Next;
    if run != [] {
      StepKeepsDead(env, w, run[0].0, run[0].1, family);
      StepKeepsInv(env, w, run[0].0, run[0].1);
      RunKeepsDead(env, Next(env, w, run[0].0, run[0].1), run[1..], family);
    }
  }

  /**
   * Dead families stay dead: no run of any length adds a row to one, changes a row of one, or
   * makes a token of one usable by any client at any time.
   */
  lemma DeadFamilyStaysDead(env: Env, w: World, w': World, family: Id)
    requires Reachable(env, w) && Later(env, w, w') && Dead(w, family)
    ensures Dead(w', family)
    ensures Frozen(w.tables.tokens, w'.tables.tokens, family)
    ensures forall k, client, now :: k in w'.tables.tokens && w'.tables.tokens[k].familyId == family ==>
              T.CheckUsable(w'.tables.tokens[k], client, now).Some?
  {
    hide Inv, Chain, Reachable, AllowedRun, After;
    ReachableInv(env, w);
    var run :| AllowedRun(env, w, run) && w' == After(env, w, run);
    RunKeepsDead(env, w, run, family);
  }

  /** In every reachable state a family is revoked as a whole, at one time, or not at all. */
  lemma RevokedAsAWhole(env: Env, w: World, a: Id, b: Id)
    requires Reachable(env, w) && a in w.tables.tokens && b in w.tables.tokens
    requires w.tables.tokens[a].familyId == w.tables.tokens[b].familyId
    ensures w.tables.tokens[a].revokedAt == w.tables.tokens[b].revokedAt
    ensures w.tables.tokens[a].revokedAt.Some? ==> Dead(w, w.tables.tokens[a].familyId)
  {
    hide Reachable, ClientsOk, ConsentsOk, CodesOk, RowsOk, HistoryOk, Constraints, Chain;
    ReachableInv(env, w);
    assert IsChain(w.tables.tokens, w.tables.tokens[a].familyId, Chain(w.history, w.tables.tokens[a].familyId));
  }

  // ------------------------------------------------------------- three ways to die

  lemma RevokedIsDead(env: Env, w: World, families: set<Id>, now: Time, k: Id)
    requires Inv(env, w) && k in w.tables.tokens && w.tables.tokens[k].familyId in families
    ensures Dead(World(RevokeFamilies(w.tables, families, now), now, w.history + []), w.tables.tokens[k].familyId)
  {
    hide ClientsOk, ConsentsOk, CodesOk, RowsOk, FamiliesOk, HistoryOk, Constraints, Chain;
    assert w.history + [] == w.history;
    assert IsChain(w.tables.tokens, w.tables.tokens[k].familyId, Chain(w.history, w.tables.tokens[k].familyId));
  }

  /** The form parameters of a refresh by this client with this token. */
  ghost predicate PresentsToken(env: Env, t: Tables, step: Step, client: Client, hash: string) {
    && step.TokenRequest? && Params.Collected(step.pairs).Ok?
    && (var params := Params.Collected(step.pairs).value;
        && Params.Get(params, "grant_type") == Some("refresh_token")
        && T.AuthenticatedClient(env, t, step.header, params) == Ok(client)
        && Params.Get(params, "refresh_token").Some?
        && HashToken(env.sha256, Params.Get(params, "refresh_token").value) == hash
        && (Params.Get(params, "scope").Some? ==> Scope.Parsed(Params.Get(params, "scope").value).Ok?))
  }

  /** Presenting a rotated token again kills its family, in the same request. */
  lemma TokenReplayKillsFamily(env: Env, w: World, step: Step, now: Time, client: Client, k: Id)
    requires Reachable(env, w) && Allowed(w, step, now)
    requires k in w.tables.tokens && PresentsToken(env, w.tables, step, client, w.tables.tokens[k].tokenHash)
    requires T.CheckUsable(w.tables.tokens[k], client.id, now) == Some(T.AlreadyRotated)
    ensures Dead(Next(env, w, step, now), w.tables.tokens[k].familyId)
  {
    hide Reachable, ClientsOk, ConsentsOk, CodesOk, RowsOk, FamiliesOk, ChainsOk, HistoryOk, Chain,
      T.AuthenticatedClient, T.RotateUsable;
    ReachableInv(env, w);
    FindToken(w.tables, k);
    RevokedIsDead(env, w, {w.tables.tokens[k].familyId}, now, k);
  }

  /** A code, its redirect URI and a verifier, from an authenticated client. */
  ghost predicate PresentsCode(env: Env, t: Tables, step: Step, client: Client, hash: string) {
    && step.TokenRequest? && Params.Collected(step.pairs).Ok?
    && (var params := Params.Collected(step.pairs).value;
        && Params.Get(params, "grant_type") == Some("authorization_code")
        && T.AuthenticatedClient(env, t, step.header, params) == Ok(client)
        && Params.Get(params, "code").Some? && HashToken(env.sha256, Params.Get(params, "code").value) == hash
        && Params.Get(params, "redirect_uri").Some? && Params.Get(params, "code_verifier").Some?)
  }

  /** Presenting a used code again kills the family it started, whichever client presents it. */
  lemma CodeReplayKillsFamily(env: Env, w: World, step: Step, now: Time, client: Client, k: Id)
    requires Reachable(env, w) && Allowed(w, step, now)
    requires k in w.tables.tokens && w.tables.tokens[k].codeId.Some?
             && w.tables.tokens[k].codeId.value in w.tables.codes
    requires PresentsCode(env, w.tables, step, client, w.tables.codes[w.tables.tokens[k].codeId.value].codeHash)
    ensures Dead(Next(env, w, step, now), w.tables.tokens[k].familyId)
  {
    hide Reachable, ClientsOk, ConsentsOk, CodesOk, FamiliesOk, ChainsOk, HistoryOk, Chain, T.AuthenticatedClient;
    ReachableInv(env, w);
    var code := w.tables.codes[w.tables.tokens[k].codeId.value];
    RowIsOk(w, k);
    FindCode(w.tables, code.id);
    RevokedIsDead(env, w, FamiliesOfCode(w.tables, code.id), now, k);
  }

  /** `/oauth/revoke` with any token of a family, current or not, kills the family. */
  lemma RevocationKillsFamily(env: Env, w: World, step: Step, now: Time, client: Client, k: Id)
    requires Reachable(env, w) && Allowed(w, step, now)
    requires k in w.tables.tokens && w.tables.tokens[k].clientId == client.id
    requires step.RevocationRequest? && Params.Collected(step.pairs).Ok?
    requires T.AuthenticatedClient(env, w.tables, step.header, Params.Collected(step.pairs).value) == Ok(client)
    requires Params.Get(Params.Collected(step.pairs).value, "token").Some?
    requires HashToken(env.sha256, Params.Get(Params.Collected(step.pairs).value, "token").value)
               == w.tables.tokens[k].tokenHash
    ensures Dead(Next(env, w, step, now), w.tables.tokens[k].familyId)
  {
    hide Reachable, ClientsOk, ConsentsOk, CodesOk, RowsOk, FamiliesOk, ChainsOk, HistoryOk, Chain,
      T.AuthenticatedClient;
    ReachableInv(env, w);
    FindToken(w.tables, k);
    RevokedIsDead(env, w, {w.tables.tokens[k].familyId}, now, k);
  }

  // ------------------------------------------------------------- provenance

  /**
   * Every row of a family carries its code's client, user, scope and sign-in time; a code starts
   * at most one family; and the family subquery selects exactly the rows of that code.
   */
  lemma Provenance(env: Env, w: World, k: Id)
    requires Reachable(env, w) && k in w.tables.tokens
    ensures var rows, row := w.tables.tokens, w.tables.tokens[k];
            && row.codeId.Some? && row.codeId.value in w.tables.codes
            && (var code := w.tables.codes[row.codeId.value];
                && code.usedAt.Some? && row.clientId == code.clientId && row.userId == code.userId
                && row.scope == code.scope && row.authTime == code.authTime)
            && (forall other ::
                other in rows ==> (rows[other].familyId == row.familyId <==> rows[other].codeId == row.codeId))
            && FamiliesOfCode(w.tables, row.codeId.value) == {row.familyId}
  {
    hide Reachable, ClientsOk, ConsentsOk, CodesOk, ChainsOk, HistoryOk, Constraints;
    ReachableInv(env, w);
    RowIsOk(w, k);
    var code := w.tables.tokens[k].codeId.value;
    assert w.tables.tokens[k].familyId in FamiliesOfCode(w.tables, code);
  }

  // ------------------------------------------------------------- unusable stays unusable

  /** The only columns that ever change in a stored row, and only from NULL to a value. */
  ghost predicate Evolves(a: RefreshToken, b: RefreshToken) {
    && b == a.(revokedAt := b.revokedAt, rotatedTo := b.rotatedTo)
    && (a.revokedAt.Some? ==> b.revokedAt == a.revokedAt)
    && (a.rotatedTo.Some? ==> b.rotatedTo == a.rotatedTo)
  }

  /** The run never draws this row id again (it may be free again once its client is deleted). */
  predicate NeverDrawn(run: Run, k: Id) {
    forall i :: 0 <= i < |run| && run[i].0.TokenRequest? ==> run[i].0.drawn.rowId != k
  }

  lemma {:induction false} RowsOnlyEvolve(env: Env, w: World, run: Run, k: Id)
    requires Inv(env, w) && AllowedRun(env, w, run) && NeverDrawn(run, k)
    ensures k in After(env, w, run).tables.tokens ==>
              k in w.tables.tokens && Evolves(w.tables.tokens[k], After(env, w, run).tables.tokens[k])
    decreases |run|
  {
    hide Inv, Next;
    if run != [] {
      var (step, now) := run[0];
      var c := StepChange(env, w, step, now);
      StepKeepsInv(env, w, step, now);
      assert forall i :: 0 <= i < |run| - 1 ==> run[1..][i] == run[i + 1];
      RowsOnlyEvolve(env, Next(env, w, step, now), run[1..], k);
    }
  }

  /** The second world comes after the first, and the row id was not drawn in between. */
  ghost predicate LaterWithout(env: Env, w: World, w': World, k: Id) {
    exists run :: AllowedRun(env, w, run) && NeverDrawn(run, k) && w' == After(env, w, run)
  }

  /** Once a token is unusable for a client it stays unusable for it, in every later state. */
  lemma UnusableStaysUnusable(env: Env, w: World, w': World, k: Id, client: Id, now: Time, later: Time)
    requires Reachable(env, w) && LaterWithout(env, w, w', k) && now <= later
    requires k in w.tables.tokens && T.CheckUsable(w.tables.tokens[k], client, now).Some?
    requires k in w'.tables.tokens
    ensures T.CheckUsable(w'.tables.tokens[k], client, later).Some?
  {
    hide Inv, Reachable, AllowedRun, After, NeverDrawn, Next;
    ReachableInv(env, w);
    var run :| AllowedRun(env, w, run) && NeverDrawn(run, k) && w' == After(env, w, run);
    RowsOnlyEvolve(env, w, run, k);
  }
}
