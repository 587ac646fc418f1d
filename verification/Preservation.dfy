/** Every step keeps the invariant: one lemma per kind of table change, then one per endpoint. */
module Preservation {
  import opened Wrappers
  import opened Schema
  import opened Statements
  import opened Events
  import opened Clients
  import opened World
  import Scope
  import A = Authorization
  import T = TokenEndpoint

  // ------------------------------------------------------------- history

  lemma ChainAppend(history: seq<Event>, e: Event, family: Id)
    ensures Chain(history + [e], family)
            == if e.RefreshIssued? && e.family == family then Chain(history, family) + [e.row]
            else Chain(history, family)
  {
    assert (history + [e])[..|history|] == history;
  }

  lemma HistoryAppend(history: seq<Event>, e: Event)
    requires HistoryOk(history) && Justified(history, e)
    ensures HistoryOk(history + [e])
  {
    assert (history + [e])[..|history|] == history;
  }

  lemma ApprovalStays(history: seq<Event>, more: seq<Event>, user: Id, client: Id, scope: string)
    requires HasApproval(history, user, client, scope)
    ensures HasApproval(history + more, user, client, scope)
  {
    var j :| 0 <= j < |history| && history[j].Approved?
             && history[j].user == user && history[j].client == client && scope in history[j].scopes;
    assert (history + more)[j] == history[j];
  }

  lemma IssuedStays(history: seq<Event>, more: seq<Event>, user: Id, client: Id, scopes: set<string>)
    requires HasIssued(history, user, client, scopes)
    ensures HasIssued(history + more, user, client, scopes)
  {
    var j :| 0 <= j < |history| && history[j].CodeIssued?
             && history[j].user == user && history[j].client == client && scopes <= history[j].scopes;
    assert (history + more)[j] == history[j];
  }

  lemma ConsentsStay(t: Tables, history: seq<Event>, more: seq<Event>)
    requires ConsentsOk(t, history)
    ensures ConsentsOk(t, history + more)
  {
    forall key, s | key in t.consents && s in t.consents[key].scopes
      ensures HasApproval(history + more, key.0, key.1, s)
    {
      ApprovalStays(history, more, key.0, key.1, s);
    }
  }

  lemma CodesStay(t: Tables, history: seq<Event>, more: seq<Event>, clock: Time, now: Time)
    requires CodesOk(t, history, clock) && clock <= now
    ensures CodesOk(t, history + more, now)
  {
    forall id | id in t.codes ensures CodeOk(history + more, t.codes[id], now) {
      var code := t.codes[id];
      IssuedStays(history, more, code.userId, code.clientId, Scope.Names(code.scope));
    }
  }

  /** Appending an event that starts no token row keeps everything that was kept. */
  lemma EventKeeps(env: Env, w: World, e: Event, now: Time)
    requires Inv(env, w) && w.clock <= now
    requires Justified(w.history, e) && !e.RefreshIssued?
    ensures Inv(env, World(w.tables, now, w.history + [e]))
  {
    var t := w.tables;
    ConsentsStay(t, w.history, [e]);
    CodesStay(t, w.history, [e], w.clock, now);
    HistoryAppend(w.history, e);
    forall k | k in t.tokens
      ensures IsChain(t.tokens, t.tokens[k].familyId, Chain(w.history + [e], t.tokens[k].familyId))
    {
      ChainAppend(w.history, e, t.tokens[k].familyId);
    }
    assert RowsOk(t, now);
  }

  lemma ClockKeeps(env: Env, w: World, now: Time)
    requires Inv(env, w) && w.clock <= now
    ensures Inv(env, World(w.tables, now, w.history))
  {
    assert w.history + [] == w.history;
    CodesStay(w.tables, w.history, [], w.clock, now);
  }

  // ------------------------------------------------------------- codes

  lemma InsertCodeInv(env: Env, w: World, code: Code)
    requires Inv(env, w) && InsertCode(w.tables, code).Ok?
    requires CodeOk(w.history, code, w.clock)
    ensures Inv(env, World(InsertCode(w.tables, code).value, w.clock, w.history))
  {
    hide Constraints, ClientOk, RowsOk, ConsentsOk, CodeOk, FamiliesOk, ChainsOk, HistoryOk;
    var t, t' := w.tables, InsertCode(w.tables, code).value;
    InsertCodeKeeps(t, code);
    InsertCodeRows(t, w.clock, code);
    SameConsents(t, t', w.history);
    forall owner: Id ensures ClientsOwnedBy(t', owner) == ClientsOwnedBy(t, owner) {}
  }

  lemma InsertCodeRows(t: Tables, clock: Time, code: Code)
    requires RowsOk(t, clock) && InsertCode(t, code).Ok?
    ensures RowsOk(InsertCode(t, code).value, clock)
  {
    hide Scope.Names;
    var t' := InsertCode(t, code).value;
    forall k | k in t'.tokens ensures RowOk(t', t'.tokens[k], clock) {
      assert RowOk(t, t.tokens[k], clock);
    }
  }

  lemma SameConsents(t: Tables, t': Tables, history: seq<Event>)
    requires ConsentsOk(t, history) && t'.consents == t.consents
    ensures ConsentsOk(t', history)
  {
  }

  lemma ClaimCodeInv(env: Env, w: World, hash: string, now: Time)
    requires Inv(env, w)
    ensures Inv(env, World(ClaimCode(w.tables, hash, now).0, w.clock, w.history))
  {
    var t, t' := w.tables, ClaimCode(w.tables, hash, now).0;
    ClaimCodeKeeps(t, hash, now);
    CodesClaimed(t, hash, w.history, w.clock, now);
    forall owner: Id ensures ClientsOwnedBy(t', owner) == ClientsOwnedBy(t, owner) {}
    assert ClientsOk(env, t') && ConsentsOk(t', w.history);
  }

  lemma CodesClaimed(t: Tables, hash: string, history: seq<Event>, clock: Time, now: Time)
    requires Constraints(t) && CodesOk(t, history, clock) && RowsOk(t, clock)
    ensures CodesOk(ClaimCode(t, hash, now).0, history, clock)
    ensures RowsOk(ClaimCode(t, hash, now).0, clock)
  {
    var t' := ClaimCode(t, hash, now).0;
    forall id | id in t'.codes
      ensures t'.codes[id] == t.codes[id].(usedAt := t'.codes[id].usedAt)
      ensures t.codes[id].usedAt.Some? ==> t'.codes[id] == t.codes[id]
    {
    }
    forall id | id in t'.codes ensures CodeOk(history, t'.codes[id], clock) {
      assert CodeOk(history, t.codes[id], clock);
    }
    forall k | k in t'.tokens ensures RowOk(t', t'.tokens[k], clock) {
      assert RowOk(t, t.tokens[k], clock);
    }
  }

  // ------------------------------------------------------------- consents

  lemma GrantConsentInv(env: Env, w: World, user: Id, client: Id, scopes: set<string>, now: Time)
    requires Inv(env, w) && w.clock <= now
    requires A.GrantConsent(w.tables, user, client, scopes, now).Ok?
    ensures Inv(env, World(A.GrantConsent(w.tables, user, client, scopes, now).value, now,
                           w.history + [Approved(user, client, scopes)]))
  {
    var t, t' := w.tables, A.GrantConsent(w.tables, user, client, scopes, now).value;
    var e := Approved(user, client, scopes);
    var history := w.history + [e];
    EventKeeps(env, w, e, now);
    var existing := ActiveConsent(t, user, client);
    UpsertConsentKeeps(t, user, client, t'.consents[(user, client)].scopes, now);
    forall key, s | key in t'.consents && s in t'.consents[key].scopes
      ensures HasApproval(history, key.0, key.1, s)
    {
      if key == (user, client) && s in scopes {
        assert history[|w.history|] == e;
      } else {
        assert s in t.consents[key].scopes;
        ApprovalStays(w.history, [e], key.0, key.1, s);
      }
    }
    forall k | k in t'.tokens ensures RowOk(t', t'.tokens[k], now) {
      assert RowOk(t, t.tokens[k], now);
    }
    forall owner: Id ensures ClientsOwnedBy(t', owner) == ClientsOwnedBy(t, owner) {}
  }

  // ------------------------------------------------------------- refresh tokens

  /** Only the refresh-token table and the history changed. */
  lemma TokensReplaced(env: Env, w: World, t': Tables, more: seq<Event>)
    requires Inv(env, w) && t' == w.tables.(tokens := t'.tokens)
    requires Constraints(t') && RowsOk(t', w.clock) && FamiliesOk(t'.tokens)
    requires ChainsOk(t'.tokens, w.history + more) && HistoryOk(w.history + more)
    ensures Inv(env, World(t', w.clock, w.history + more))
  {
    hide RowOk, RowsOk, FamiliesOk, IsChain, ChainsOk, HistoryOk, CodeOk;
    ConsentsStay(w.tables, w.history, more);
    CodesStay(w.tables, w.history, more, w.clock, w.clock);
    forall owner: Id ensures ClientsOwnedBy(t', owner) == ClientsOwnedBy(w.tables, owner) {}
  }

  /** A family none of whose rows changed, except for `revokedAt`, is still the same chain. */
  lemma ChainFrame(rows: map<Id, RefreshToken>, rows': map<Id, RefreshToken>, family: Id, ids: seq<Id>)
    requires IsChain(rows, family, ids)
    requires forall k :: k in rows && rows[k].familyId == family ==>
               k in rows' && rows'[k] == rows[k].(revokedAt := rows'[k].revokedAt)
    requires forall k :: k in rows' && rows'[k].familyId == family ==> k in rows && rows[k].familyId == family
    ensures IsChain(rows', family, ids)
  {
  }

  lemma StartFamilyInv(env: Env, w: World, row: RefreshToken)
    requires Inv(env, w) && InsertToken(w.tables, row).Ok?
    requires RowOk(w.tables, row, w.clock) && row.revokedAt.None? && row.rotatedTo.None?
    requires Chain(w.history, row.familyId) == []
    requires forall k :: k in w.tables.tokens ==> w.tables.tokens[k].codeId != row.codeId
    ensures Inv(env,
                World(InsertToken(w.tables, row).value, w.clock, w.history + [RefreshIssued(row.id, row.familyId)]))
  {
    var t, t', e := w.tables, InsertToken(w.tables, row).value, RefreshIssued(row.id, row.familyId);
    InsertTokenKeeps(t, row);
    HistoryAppend(w.history, e);
    forall k | k in t'.tokens ensures RowOk(t', t'.tokens[k], w.clock) {
      assert k != row.id ==> RowOk(t, t.tokens[k], w.clock);
    }
    StartFamilyChains(t.tokens, w.history, row);
    TokensReplaced(env, w, t', [e]);
  }

  lemma StartFamilyChains(rows: map<Id, RefreshToken>, history: seq<Event>, row: RefreshToken)
    requires ChainsOk(rows, history) && FamiliesOk(rows) && row.id !in rows && row.rotatedTo.None?
    requires Chain(history, row.familyId) == []
    requires forall k :: k in rows ==> rows[k].codeId != row.codeId
    ensures ChainsOk(rows[row.id := row], history + [RefreshIssued(row.id, row.familyId)])
    ensures FamiliesOk(rows[row.id := row])
  {
    hide Chain, IsChain;
    var rows', e := rows[row.id := row], RefreshIssued(row.id, row.familyId);
    forall k | k in rows ensures rows[k].familyId != row.familyId {
      ChainIsNonEmpty(rows, rows[k].familyId, Chain(history, rows[k].familyId));
    }
    forall k | k in rows'
      ensures IsChain(rows', rows'[k].familyId, Chain(history + [e], rows'[k].familyId))
    {
      ChainAppend(history, e, rows'[k].familyId);
      if k != row.id {
        ChainFrame(rows, rows', rows[k].familyId, Chain(history, rows[k].familyId));
      } else {
        OneRowChain(rows', row);
      }
    }
    assert FamiliesOk(rows');
  }

  lemma ChainIsNonEmpty(rows: map<Id, RefreshToken>, family: Id, ids: seq<Id>)
    requires IsChain(rows, family, ids)
    ensures ids != []
  {
  }

  lemma OneRowChain(rows: map<Id, RefreshToken>, row: RefreshToken)
    requires row.id in rows && rows[row.id] == row && row.rotatedTo.None?
    requires forall k :: k in rows && rows[k].familyId == row.familyId ==> k == row.id
    ensures IsChain(rows, row.familyId, [] + [row.id])
  {
  }

  lemma UnrotatedIsLast(rows: map<Id, RefreshToken>, family: Id, ids: seq<Id>, k: Id)
    requires IsChain(rows, family, ids)
    requires k in rows && rows[k].familyId == family && rows[k].rotatedTo.None?
    ensures ids[|ids| - 1] == k
  {
    forall i | 0 <= i < |ids| - 1 ensures rows[ids[i]].rotatedTo.Some? {
      assert Follows(rows, ids[i], ids[i + 1]);
    }
  }

  /** Rotation extends the chain of the family by one row. */
  lemma ChainExtended(rows: map<Id, RefreshToken>, family: Id, ids: seq<Id>, old_: Id, row: RefreshToken)
    requires IsChain(rows, family, ids)
    requires old_ in rows && rows[old_].familyId == family && rows[old_].rotatedTo.None?
    requires row.id !in rows && row.familyId == family && row.rotatedTo.None?
    requires rows[old_].createdAt <= row.createdAt < rows[old_].expiresAt
    ensures IsChain(rows[row.id := row][old_ := rows[old_].(rotatedTo := Some(row.id))], family, ids + [row.id])
  {
    var rows' := rows[row.id := row][old_ := rows[old_].(rotatedTo := Some(row.id))];
    var ids' := ids + [row.id];
    var last := |ids| - 1;
    UnrotatedIsLast(rows, family, ids, old_);
    forall j, j' | 0 <= j && j' == j + 1 && j' < |ids'|
      ensures Follows(rows', ids'[j], ids'[j'])
    {
      if j < last {
        assert Follows(rows, ids[j], ids[j']);
      }
    }
  }

  lemma RotateInv(env: Env, w: World, record: RefreshToken, row: RefreshToken)
    requires Inv(env, w)
    requires record.id in w.tables.tokens && w.tables.tokens[record.id] == record
    requires record.revokedAt.None? && record.rotatedTo.None?
    requires InsertToken(w.tables, row).Ok?
    requires row == record.(id := row.id, tokenHash := row.tokenHash, createdAt := row.createdAt,
                            expiresAt := row.expiresAt)
    requires row.createdAt <= w.clock < record.expiresAt && record.createdAt <= row.createdAt
    requires row.expiresAt == row.createdAt + T.REFRESH_TOKEN_TTL
    ensures MarkRotated(InsertToken(w.tables, row).value, record.id, row.id).Ok?
    ensures Inv(env, World(MarkRotated(InsertToken(w.tables, row).value, record.id, row.id).value, w.clock,
                           w.history + [RefreshIssued(row.id, row.familyId)]))
  {
    hide IsChain, ChainsOk, FamiliesOk, RowsOk, CodeOk, CodesOk, ConsentsOk, ClientsOk, HistoryOk;
    var t, t1 := w.tables, InsertToken(w.tables, row).value;
    var t', e := MarkRotated(t1, record.id, row.id).value, RefreshIssued(row.id, row.familyId);
    InsertTokenKeeps(t, row);
    MarkRotatedKeeps(t1, record.id, row.id);
    HistoryAppend(w.history, e);
    RotateRows(t, t', record, row, w.clock);
    RotateFamilies(t.tokens, t'.tokens, record, row);
    RotateChains(t.tokens, t'.tokens, w.history, record, row);
    TokensReplaced(env, w, t', [e]);
  }

  lemma RotateChains(rows: map<Id, RefreshToken>, rows': map<Id, RefreshToken>, history: seq<Event>,
                     record: RefreshToken, row: RefreshToken)
    requires ChainsOk(rows, history) && record.id in rows && rows[record.id] == record && row.id !in rows
    requires rows' == rows[row.id := row][record.id := record.(rotatedTo := Some(row.id))]
    requires record.rotatedTo.None? && row.rotatedTo.None? && row.familyId == record.familyId
    requires record.createdAt <= row.createdAt < record.expiresAt
    ensures ChainsOk(rows', history + [RefreshIssued(row.id, row.familyId)])
  {
    hide IsChain, Chain;
    var e := RefreshIssued(row.id, row.familyId);
    forall k | k in rows'
      ensures IsChain(rows', rows'[k].familyId, Chain(history + [e], rows'[k].familyId))
    {
      var family := rows'[k].familyId;
      ChainAppend(history, e, family);
      if family == record.familyId {
        ChainExtended(rows, family, Chain(history, family), record.id, row);
      } else {
        ChainFrame(rows, rows', family, Chain(history, family));
      }
    }
  }

  lemma RotateRows(t: Tables, t': Tables, record: RefreshToken, row: RefreshToken, clock: Time)
    requires RowsOk(t, clock) && record.id in t.tokens && t.tokens[record.id] == record
    requires row == record.(id := row.id, tokenHash := row.tokenHash, createdAt := row.createdAt,
                            expiresAt := row.expiresAt)
    requires row.createdAt <= clock && row.expiresAt == row.createdAt + T.REFRESH_TOKEN_TTL
    requires t' == t.(tokens := t.tokens[row.id := row][record.id := record.(rotatedTo := Some(row.id))])
    ensures RowsOk(t', clock)
  {
    assert RowOk(t, record, clock);
    forall k | k in t'.tokens ensures RowOk(t', t'.tokens[k], clock) {
      assert k != row.id ==> RowOk(t, t.tokens[k], clock);
    }
  }

  lemma RotateFamilies(rows: map<Id, RefreshToken>, rows': map<Id, RefreshToken>, record: RefreshToken,
                       row: RefreshToken)
    requires FamiliesOk(rows) && record.id in rows && rows[record.id] == record
    requires rows' == rows[row.id := row][record.id := record.(rotatedTo := Some(row.id))]
    requires row.familyId == record.familyId && row.codeId == record.codeId && row.revokedAt == record.revokedAt
    ensures FamiliesOk(rows')
  {
    forall a, b | a in rows' && b in rows'
      ensures rows'[a].familyId == rows'[b].familyId <==> rows'[a].codeId == rows'[b].codeId
      ensures rows'[a].familyId == rows'[b].familyId ==> rows'[a].revokedAt == rows'[b].revokedAt
    {
      var a', b' := if a == row.id then record.id else a, if b == row.id then record.id else b;
      assert a' in rows && b' in rows;
    }
  }

  lemma RevokeInv(env: Env, w: World, families: set<Id>, now: Time)
    requires Inv(env, w)
    ensures Inv(env, World(RevokeFamilies(w.tables, families, now), w.clock, w.history))
  {
    hide IsChain, ChainsOk, FamiliesOk, CodeOk, HistoryOk;
    var t, t' := w.tables, RevokeFamilies(w.tables, families, now);
    RevokeFamiliesKeeps(t, families, now);
    forall k | k in t'.tokens ensures RowOk(t', t'.tokens[k], w.clock) {
      assert RowOk(t, t.tokens[k], w.clock);
    }
    RevokeChains(t, families, w.history, now);
    assert w.history + [] == w.history;
    TokensReplaced(env, w, t', []);
  }

  lemma RevokeChains(t: Tables, families: set<Id>, history: seq<Event>, now: Time)
    requires ChainsOk(t.tokens, history) && FamiliesOk(t.tokens)
    ensures ChainsOk(RevokeFamilies(t, families, now).tokens, history)
    ensures FamiliesOk(RevokeFamilies(t, families, now).tokens)
  {
    hide IsChain, Chain;
    var rows, rows' := t.tokens, RevokeFamilies(t, families, now).tokens;
    forall k | k in rows'
      ensures rows'[k]
                == rows[k].(revokedAt :=
                            if rows[k].familyId in families && rows[k].revokedAt.None? then Some(now)
                            else rows[k].revokedAt)
    {
    }
    forall k | k in rows' ensures IsChain(rows', rows'[k].familyId, Chain(history, rows'[k].familyId)) {
      ChainFrame(rows, rows', rows[k].familyId, Chain(history, rows[k].familyId));
    }
  }

  // ------------------------------------------------------------- clients

  lemma InsertClientInv(env: Env, w: World, c: Client)
    requires Inv(env, w) && InsertClient(w.tables, c).Ok? && ClientOk(env, c)
    requires c.owner.Some? ==> |ClientsOwnedBy(w.tables, c.owner.value)| < MAX_APPS_PER_USER
    ensures Inv(env, World(InsertClient(w.tables, c).value, w.clock, w.history))
  {
    hide IsChain, ChainsOk, FamiliesOk, CodeOk, CodesOk, RowsOk, HistoryOk, ClientOk, ConsentsOk, Constraints;
    var t, t' := w.tables, InsertClient(w.tables, c).value;
    InsertClientKeeps(t, c);
    forall owner: Id ensures |ClientsOwnedBy(t', owner)| <= MAX_APPS_PER_USER {
      if c.owner == Some(owner) {
        assert ClientsOwnedBy(t', owner) == ClientsOwnedBy(t, owner) + {c.id};
      } else {
        assert ClientsOwnedBy(t', owner) == ClientsOwnedBy(t, owner);
      }
    }
    ClientsReplaced(env, w, t');
  }

  lemma ReplaceClientInv(env: Env, w: World, id: Id, c: Client)
    requires Inv(env, w) && id in w.tables.clients && ClientOk(env, c)
    requires c.id == id && c.clientId == w.tables.clients[id].clientId && c.owner == w.tables.clients[id].owner
    ensures Inv(env, World(w.tables.(clients := w.tables.clients[id := c]), w.clock, w.history))
  {
    hide IsChain, ChainsOk, FamiliesOk, CodeOk, CodesOk, HistoryOk;
    var t, t' := w.tables, w.tables.(clients := w.tables.clients[id := c]);
    ReplaceClientKeeps(t, id, c);
    forall owner: Id ensures ClientsOwnedBy(t', owner) == ClientsOwnedBy(t, owner) {}
    ClientsReplaced(env, w, t');
  }

  /** Only the client table changed. */
  lemma ClientsReplaced(env: Env, w: World, t': Tables)
    requires Inv(env, w) && t' == w.tables.(clients := t'.clients)
    requires Constraints(t') && ClientsOk(env, t')
    ensures Inv(env, World(t', w.clock, w.history))
  {
    hide ClientsOk, Constraints, IsChain, ChainsOk, FamiliesOk, CodeOk, HistoryOk;
    assert RowsOk(t', w.clock) by {
      forall k | k in t'.tokens ensures RowOk(t', t'.tokens[k], w.clock) {
        assert RowOk(w.tables, w.tables.tokens[k], w.clock);
      }
    }
  }

  /**
   * The rows of a family belong to one client, so deleting a client never leaves a surviving
   * token pointing at a deleted one: the statement cannot fail, and detaches no code.
   */
  lemma DeleteClientSucceeds(env: Env, w: World, id: Id)
    requires Inv(env, w)
    ensures DeleteClient(w.tables, id).Ok?
    ensures DeleteClient(w.tables, id).value.tokens
            == map k | k in w.tables.tokens && w.tables.tokens[k].clientId != id :: w.tables.tokens[k]
  {
    hide IsChain, ChainsOk, FamiliesOk, RowOk, RowsOk, CodesOk, ConsentsOk, ClientsOk, HistoryOk, Constraints;
    SuccessorsSameClient(w.tables, w.clock, w.history);
    CodesSameClient(w.tables, w.clock);
  }

  lemma SuccessorsSameClient(t: Tables, clock: Time, history: seq<Event>)
    requires ChainsOk(t.tokens, history) && FamiliesOk(t.tokens) && RowsOk(t, clock)
    ensures forall k :: k in t.tokens && t.tokens[k].rotatedTo.Some? ==>
              t.tokens[k].rotatedTo.value in t.tokens
              && t.tokens[t.tokens[k].rotatedTo.value].clientId == t.tokens[k].clientId
  {
    hide IsChain, Chain, FamiliesOk, RowsOk;
    var rows := t.tokens;
    forall k | k in rows && rows[k].rotatedTo.Some?
      ensures rows[k].rotatedTo.value in rows && rows[rows[k].rotatedTo.value].clientId == rows[k].clientId
    {
      SuccessorInFamily(rows, rows[k].familyId, Chain(history, rows[k].familyId), k);
      SameFamilySameClient(t, clock, k, rows[k].rotatedTo.value);
    }
  }

  lemma CodesSameClient(t: Tables, clock: Time)
    requires RowsOk(t, clock)
    ensures forall k :: k in t.tokens ==>
              t.tokens[k].codeId.Some? && t.tokens[k].codeId.value in t.codes
              && t.codes[t.tokens[k].codeId.value].clientId == t.tokens[k].clientId
  {
    forall k | k in t.tokens
      ensures t.tokens[k].codeId.Some? && t.tokens[k].codeId.value in t.codes
      ensures t.codes[t.tokens[k].codeId.value].clientId == t.tokens[k].clientId
    {
      assert RowOk(t, t.tokens[k], clock);
    }
  }

  lemma SuccessorInFamily(rows: map<Id, RefreshToken>, family: Id, ids: seq<Id>, k: Id)
    requires IsChain(rows, family, ids) && k in rows && rows[k].familyId == family && rows[k].rotatedTo.Some?
    ensures Follows(rows, k, rows[k].rotatedTo.value) && rows[rows[k].rotatedTo.value].familyId == family
  {
    var i :| 0 <= i < |ids| && ids[i] == k;
    assert Follows(rows, ids[i], ids[i + 1]);
  }

  lemma SameFamilySameClient(t: Tables, clock: Time, a: Id, b: Id)
    requires RowsOk(t, clock) && FamiliesOk(t.tokens)
    requires a in t.tokens && b in t.tokens && t.tokens[a].familyId == t.tokens[b].familyId
    ensures t.tokens[a].clientId == t.tokens[b].clientId && t.tokens[a].userId == t.tokens[b].userId
    ensures t.tokens[a].scope == t.tokens[b].scope && t.tokens[a].authTime == t.tokens[b].authTime
    ensures t.tokens[a].codeId == t.tokens[b].codeId && t.tokens[a].revokedAt == t.tokens[b].revokedAt
  {
    assert RowOk(t, t.tokens[a], clock) && RowOk(t, t.tokens[b], clock);
  }

  lemma DeleteClientInv(env: Env, w: World, id: Id)
    requires Inv(env, w)
    ensures DeleteClient(w.tables, id).Ok?
    ensures Inv(env, World(DeleteClient(w.tables, id).value, w.clock, w.history))
  {
    hide IsChain, ChainsOk, FamiliesOk, CodeOk, HistoryOk, Constraints, ClientOk, RowOk;
    DeleteClientSucceeds(env, w, id);
    var t, t' := w.tables, DeleteClient(w.tables, id).value;
    DeleteClientKeeps(t, id);
    DeleteClientRows(t, w.clock, id);
    DeleteClientChains(t, w.clock, w.history, id, t'.tokens);
    forall owner: Id ensures |ClientsOwnedBy(t', owner)| <= MAX_APPS_PER_USER {
      SubsetCardinality(ClientsOwnedBy(t', owner), ClientsOwnedBy(t, owner));
    }
    forall key, s | key in t'.consents && s in t'.consents[key].scopes ensures HasApproval(w.history, key.0, key.1, s) {
      assert s in t.consents[key].scopes;
    }
  }

  lemma DeleteClientRows(t: Tables, clock: Time, id: Id)
    requires Constraints(t) && RowsOk(t, clock) && DeleteClient(t, id).Ok?
    ensures RowsOk(DeleteClient(t, id).value, clock)
  {
    hide ConsentKeys, ClientKeys, Dangling, ConsentsWithout, Scope.Names;
    var t' := DeleteClient(t, id).value;
    forall k | k in t'.tokens ensures RowOk(t', t'.tokens[k], clock) {
      assert RowOk(t, t.tokens[k], clock);
    }
  }

  lemma {:induction false} SubsetCardinality(a: set<Id>, b: set<Id>)
    requires a <= b
    ensures |a| <= |b|
  {
    if a != {} {
      var x :| x in a;
      SubsetCardinality(a - {x}, b - {x});
    }
  }

  lemma DeleteClientChains(t: Tables, clock: Time, history: seq<Event>, id: Id, rows': map<Id, RefreshToken>)
    requires ChainsOk(t.tokens, history) && FamiliesOk(t.tokens) && RowsOk(t, clock)
    requires rows' == map k | k in t.tokens && t.tokens[k].clientId != id :: t.tokens[k]
    ensures ChainsOk(rows', history) && FamiliesOk(rows')
  {
    hide IsChain, Chain;
    forall k | k in rows' ensures IsChain(rows', rows'[k].familyId, Chain(history, rows'[k].familyId)) {
      forall other | other in t.tokens && t.tokens[other].familyId == t.tokens[k].familyId ensures other in rows' {
        SameFamilySameClient(t, clock, k, other);
      }
      ChainFrame(t.tokens, rows', t.tokens[k].familyId, Chain(history, t.tokens[k].familyId));
    }
  }
}
