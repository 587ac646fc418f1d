/** What the user approved bounds everything that is issued later. */
module ConsentBounds {
  import opened Schema
  import opened Events
  import opened World
  import opened Steps
  import Scope
  import T = TokenEndpoint

  /**
   * A code with this scope was issued for the user and client while the client was allowed to
   * request it, and before that the user had approved it for that client.
   */
  ghost predicate ApprovedAndAllowed(history: seq<Event>, user: Id, client: Id, scope: string) {
    exists i, j :: 0 <= j < i < |history|
      && history[i].CodeIssued? && history[i].user == user && history[i].client == client
      && scope in history[i].scopes && scope in history[i].allowed
      && history[j].Approved? && history[j].user == user && history[j].client == client && scope in history[j].scopes
  }

  lemma {:induction false} JustifiedAt(history: seq<Event>, i: nat)
    requires HistoryOk(history) && i < |history|
    ensures HistoryOk(history[..i]) && Justified(history[..i], history[i])
  {
    var n := |history| - 1;
    if i < n {
      JustifiedAt(history[..n], i);
      assert history[..n][..i] == history[..i];
    }
  }

  lemma IssuedIsBounded(history: seq<Event>, user: Id, client: Id, scopes: set<string>, s: string)
    requires HistoryOk(history) && HasIssued(history, user, client, scopes) && s in scopes
    ensures ApprovedAndAllowed(history, user, client, s)
  {
    hide HistoryOk;
    var i :| 0 <= i < |history| && history[i].CodeIssued?
             && history[i].user == user && history[i].client == client && scopes <= history[i].scopes;
    JustifiedAt(history, i);
    assert HasApproval(history[..i], user, client, s);
    var j :| 0 <= j < |history[..i]| && history[..i][j].Approved?
             && history[..i][j].user == user && history[..i][j].client == client && s in history[..i][j].scopes;
    assert history[..i][j] == history[j];
  }

  /** Every scope of a stored code was approved, and allowed to the client when it was issued. */
  lemma CodesAreBounded(env: Env, w: World, id: Id, s: string)
    requires Reachable(env, w) && id in w.tables.codes && s in Scope.Names(w.tables.codes[id].scope)
    ensures ApprovedAndAllowed(w.history, w.tables.codes[id].userId, w.tables.codes[id].clientId, s)
  {
    hide Reachable, ClientsOk, ConsentsOk, RowsOk, FamiliesOk, ChainsOk, HistoryOk, Constraints;
    ReachableInv(env, w);
    var code := w.tables.codes[id];
    IssuedIsBounded(w.history, code.userId, code.clientId, Scope.Names(code.scope), s);
  }

  /** So was every scope of a refresh token, however long its rotation chain. */
  lemma RefreshTokensAreBounded(env: Env, w: World, k: Id, s: string)
    requires Reachable(env, w) && k in w.tables.tokens && s in Scope.Names(w.tables.tokens[k].scope)
    ensures ApprovedAndAllowed(w.history, w.tables.tokens[k].userId, w.tables.tokens[k].clientId, s)
  {
    hide Reachable, ClientsOk, ConsentsOk, CodesOk, FamiliesOk, ChainsOk, HistoryOk, Constraints;
    ReachableInv(env, w);
    RowIsOk(w, k);
    CodesAreBounded(env, w, w.tables.tokens[k].codeId.value, s);
  }

  /**
   * And so was every scope of an access token ever issued, before it was issued. Reading its
   * claim back never falls back to the empty set.
   */
  lemma AccessTokensAreBounded(env: Env, w: World, i: nat, s: string)
    requires Reachable(env, w) && i < |w.history| && w.history[i].TokensIssued?
    ensures T.ClaimedScopes(w.history[i].access) == w.history[i].scopes != {}
    ensures s in T.ClaimedScopes(w.history[i].access) ==>
              ApprovedAndAllowed(w.history[..i], w.history[i].access.sub, w.history[i].client, s)
  {
    hide Reachable, ClientsOk, ConsentsOk, CodesOk, RowsOk, FamiliesOk, ChainsOk, HistoryOk, Constraints;
    ReachableInv(env, w);
    JustifiedAt(w.history, i);
    var e := w.history[i];
    Scope.PrintThenParse(e.scopes);
    if s in e.scopes {
      IssuedIsBounded(w.history[..i], e.user, e.client, e.scopes, s);
    }
  }

  /** A stored scope always parses, so the token endpoint never reports it as malformed. */
  lemma StoredScopesParse(env: Env, w: World, id: Id, k: Id)
    requires Reachable(env, w)
    ensures id in w.tables.codes ==>
              Scope.Parsed(w.tables.codes[id].scope).Ok?
              && Scope.Print(Scope.Parsed(w.tables.codes[id].scope).value) == w.tables.codes[id].scope
    ensures k in w.tables.tokens ==>
              Scope.Parsed(w.tables.tokens[k].scope).Ok?
              && Scope.Print(Scope.Parsed(w.tables.tokens[k].scope).value) == w.tables.tokens[k].scope
  {
    hide Reachable, ClientsOk, ConsentsOk, CodesOk, RowsOk, FamiliesOk, ChainsOk, HistoryOk, Constraints;
    ReachableInv(env, w);
    if id in w.tables.codes {
      CodeIsOk(w, id);
    }
    if k in w.tables.tokens {
      RowIsOk(w, k);
      CodeIsOk(w, w.tables.tokens[k].codeId.value);
    }
  }
}
