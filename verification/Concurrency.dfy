/** What holds of concurrent requests, whatever the interleaving, and what does not. */
module Concurrency {
  import opened Wrappers
  import opened Schema
  import opened Statements
  import opened RowLocks
  import opened LockDiscipline
  import opened Secret
  import Scope
  import E = Effects
  import T = TokenEndpoint

  // ------------------------------------------------------------- one successor

  /**
   * At most one successor: whatever the interleaving, no token has two committed rotations; and
   * until its family is deleted, the row of a rotated token names the successor of its one
   * rotation, which is there.
   */
  lemma AtMostOneSuccessor(env: Env, s: State, i: nat, j: nat)
    requires Reachable(env, s) && i < |s.log| && j < |s.log| && s.log[i].Rotation? && s.log[j].Rotation?
    ensures i != j ==> s.log[i].target != s.log[j].target || s.log[i].family != s.log[j].family
    ensures var e := s.log[i];
            Removed(s.log, e.family) ||
            (e.target in s.rows && s.rows[e.target].rotatedTo == Some(e.successor) && e.successor in s.rows)
  {
    hide Reachable, RowsOk, RevokedOk, TxsOk, Removed;
    ReachableInv(env, s);
    assert RotationOk(s, i);
    assert !SameToken(s.log[if i < j then i else j], s.log[if i < j then j else i]) || i == j;
  }

  /** A token that was rotated is never found usable again: who locks it later takes the replay branch. */
  lemma LoserTakesReplayBranch(env: Env, s: State, loser: TxId, i: nat)
    requires Reachable(env, s) && EnabledOp(s, loser, Lock)
    requires i < |s.log| && s.log[i].Rotation? && s.log[i].target == s.txs[loser].request.target
             && !Removed(s.log, s.log[i].family)
    ensures var s' := ApplyOp(env, s, loser, Lock);
            var tx := s'.txs[loser];
            && tx.phase.Locked? && tx.phase.seen.rotatedTo == Some(s.log[i].successor)
            && !EnabledOp(s', loser, Insert)
            && (tx.request.client == tx.phase.seen.clientId && tx.phase.seen.revokedAt.None? ==>
                EnabledOp(s', loser, StartRevoke))
  {
    hide Reachable, RowsOk, RevokedOk, TxsOk, Removed, PendingElsewhere, BeingDeleted, Started;
    ReachableInv(env, s);
    assert RotationOk(s, i);
  }

  /** While a transaction works on a token, no other can lock its row. */
  lemma HolderExcludes(env: Env, s: State, holder: TxId, other: TxId)
    requires Reachable(env, s) && holder in s.txs && other in s.txs && holder != other
    requires s.txs[holder].request.Refresh? && s.txs[other].request.Refresh?
             && s.txs[holder].request.target == s.txs[other].request.target
    requires HoldsTarget(s.txs[holder].phase) || s.txs[holder].phase.Revoking?
    ensures !EnabledOp(s, other, Lock) && !HoldsTarget(s.txs[other].phase) && !s.txs[other].phase.Revoking?
  {
    hide Reachable, RowsOk, RevokedOk, LogOk, PrivateOk, FreshOk, DeletingOk, Started, SnapshotOk;
    ReachableInv(env, s);
    assert TxOk(env, s, holder) && TxOk(env, s, other);
  }

  /** The statements of a whole refresh. */
  function WholeRefresh(id: TxId): seq<Step> { [Run(id, Lock), Run(id, Insert), Run(id, Update), Run(id, Finish)] }

  /** The row of a waiting refresh is free and usable, and its successor can be stored. */
  ghost predicate MayWin(s: State, id: TxId) {
    && EnabledOp(s, id, Lock)
    && (var tx := s.txs[id];
        && T.CheckUsable(s.rows[tx.request.target], tx.request.client, tx.now).None?
        && tx.request.drawn.rowId !in s.rows && !PendingElsewhere(s, id, tx.request.drawn.rowId)
        && !BeingDeleted(s, tx.request.client))
  }

  /** A waiting transaction whose row is free and usable can run to its commit. */
  lemma WaiterMayWin(env: Env, s: State, id: TxId)
    requires MayWin(s, id)
    ensures EnabledRun(env, s, WholeRefresh(id))
    ensures var tx := s.txs[id];
            After(env, s, WholeRefresh(id)).log
            == s.log + [Rotation(tx.request.target, tx.request.drawn.rowId, s.rows[tx.request.target].familyId)]
  {
    var run := WholeRefresh(id);
    var s2 := ApplyOp(env, s, id, Lock);
    StillAlone(s, s2, id, Successor(env, s.txs[id], s.rows[s.txs[id].request.target]));
    var s3 := ApplyOp(env, s2, id, Insert);
    var s4 := ApplyOp(env, s3, id, Update);
    var s5 := ApplyOp(env, s4, id, Finish);
    hide EnabledOp, ApplyOp, PendingElsewhere, BeingDeleted;
    OneMore(env, s5, s4, Run(id, Finish), []);
    OneMore(env, s4, s3, Run(id, Update), [Run(id, Finish)]);
    OneMore(env, s3, s2, Run(id, Insert), [Run(id, Update), Run(id, Finish)]);
    OneMore(env, s2, s, Run(id, Lock), [Run(id, Insert), Run(id, Update), Run(id, Finish)]);
    assert run == [Run(id, Lock)] + [Run(id, Insert), Run(id, Update), Run(id, Finish)];
    assert [Run(id, Insert)] + [Run(id, Update), Run(id, Finish)]
             == [Run(id, Insert), Run(id, Update), Run(id, Finish)];
    assert [Run(id, Update)] + [Run(id, Finish)] == [Run(id, Update), Run(id, Finish)];
    assert [Run(id, Finish)] + [] == [Run(id, Finish)];
  }

  /** An abort leaves no trace in the rows, and the next transaction waiting for that row may win. */
  lemma AfterAbortNextMayWin(env: Env, s: State, holder: TxId, next: TxId)
    requires Reachable(env, s) && holder in s.txs && next in s.txs && holder != next
    requires s.txs[holder].request.Refresh? && HoldsTarget(s.txs[holder].phase)
    requires s.txs[next].request.Refresh? && s.txs[next].phase.Waiting?
             && s.txs[next].request.target == s.txs[holder].request.target
    requires var tx := s.txs[next];
             && tx.request.target in s.rows && T.CheckUsable(s.rows[tx.request.target], tx.request.client, tx.now).None?
             && tx.request.drawn.rowId !in s.rows && !PendingElsewhere(s, next, tx.request.drawn.rowId)
             && !BeingDeleted(s, tx.request.client)
    ensures EnabledOp(s, holder, Abort)
    ensures var s' := ApplyOp(env, s, holder, Abort);
            && s'.rows == s.rows && s'.log == s.log && MayWin(s', next)
  {
    hide Reachable, RowsOk, RevokedOk, LogOk, PrivateOk, FreshOk, RevokingOk, DeletingOk;
    ReachableInv(env, s);
    assert TxOk(env, s, holder);
    var s', tx := ApplyOp(env, s, holder, Abort), s.txs[next];
    forall third | third in s'.txs
      ensures third != next ==>
                Private(s'.txs[third]).None? || Private(s'.txs[third]).value.id != tx.request.drawn.rowId
      ensures !(s'.txs[third].phase.Deleting? && s'.txs[third].request == Delete(tx.request.client))
    {
      if third != holder {
        assert s'.txs[third] == s.txs[third];
      }
    }
  }

  /** Tables whose refresh-token rows are the committed ones, with the rows these refer to. */
  ghost predicate HoldsRows(t: Tables, s: State, row: RefreshToken) {
    && t.tokens == s.rows && row.clientId in t.clients && row.codeId.Some? && row.codeId.value in t.codes
    && Scope.Parsed(row.scope) == Ok(Scope.Names(row.scope))
    && forall k :: k in t.tokens ==> TokenByHash(t, t.tokens[k].tokenHash) == Some(t.tokens[k])
  }

  /**
   * Refinement: at the instant a winner commits, its whole interleaved transaction has exactly
   * the effect of the atomic refresh of the endpoint model on the committed rows, for whatever
   * part of the grant it asked.
   */
  lemma WinnerIsAtomicRefresh(env: Env, s: State, id: TxId, t: Tables, client: Client, requested: Option<set<string>>)
    requires Reachable(env, s) && EnabledOp(s, id, Finish) && s.txs[id].request.Refresh? && s.txs[id].phase.Updated?
    requires HoldsRows(t, s, s.txs[id].phase.seen) && client.id == s.txs[id].request.client
    requires requested.Some? ==> requested.value <= Scope.Names(s.txs[id].phase.seen.scope)
    requires forall k ::
               k in t.tokens ==> t.tokens[k].tokenHash != HashToken(env.sha256, s.txs[id].request.drawn.secret)
    ensures var tx := s.txs[id];
            var o := T.Rotate(env, t, client, tx.phase.seen.tokenHash, requested, tx.request.drawn, true, tx.now);
            && o.response.Ok? && o.tables.tokens == ApplyOp(env, s, id, Finish).rows
            && o.response.value.refreshToken == Some(tx.request.drawn.secret)
  {
    hide Reachable, Inv, Scope.Parsed, Scope.Names, T.RotateUsable, HashToken, Scope.Print;
    ReachableInv(env, s);
    var tx := s.txs[id];
    WinnerHolds(env, s, id);
    E.RotatedUsable(env, t, tx.phase.seen, client, requested, tx.request.drawn, true, tx.now);
    assert T.Rotate(env, t, client, tx.phase.seen.tokenHash, requested, tx.request.drawn, true, tx.now)
           == T.RotateUsable(env, t, client, tx.phase.seen, requested, tx.request.drawn, true, tx.now);
  }

  // ------------------------------------------------------------- revoking a family

  /** No unrevoked row of the family is left. */
  predicate AllRevoked(s: State, family: Id) {
    forall k :: k in s.rows && s.rows[k].familyId == family ==> s.rows[k].revokedAt.Some?
  }

  /** A family that has begun, and none of whose rows is unrevoked. */
  ghost predicate Dead(s: State, family: Id) { Started(s, family) && AllRevoked(s, family) }

  /** A rotation of the family was committed after the snapshot of the revocation. */
  predicate RotatedSince(log: seq<Commit>, family: Id, from: nat) {
    exists i :: from <= i < |log| && log[i].Rotation? && log[i].family == family
  }

  /** And neither a later revocation saw its successor, nor was the family deleted. */
  ghost predicate EscapedSince(log: seq<Commit>, family: Id, from: nat) {
    exists i :: from <= i < |log| && log[i].Rotation? && log[i].family == family
                && !CoveredSince(log, family, i) && !Removed(log, family)
  }

  lemma RevokedFamilyStarted(env: Env, s: State, id: TxId)
    requires Reachable(env, s) && EnabledOp(s, id, Finish) && s.txs[id].phase.Revoking?
    ensures Started(ApplyOp(env, s, id, Finish), s.txs[id].phase.family)
  {
    hide Reachable, RowsOk, RevokedOk, LogOk, TargetOk, PrivateOk, FreshOk, DeletingOk, SnapshotOk;
    ReachableInv(env, s);
    assert TxOk(env, s, id);
  }

  /**
   * When a revocation commits (a replay, or `/oauth/revoke`, or the replay of a code), an
   * unrevoked row of its family is left exactly when a rotation slipped in between its snapshot
   * and its commit, and nothing caught that one.
   */
  lemma RevocationLeavesExactly(env: Env, s: State, id: TxId)
    requires Reachable(env, s) && EnabledOp(s, id, Finish) && s.txs[id].phase.Revoking?
    ensures var s', phase := ApplyOp(env, s, id, Finish), s.txs[id].phase;
            && Started(s', phase.family)
            && (AllRevoked(s', phase.family) <==> !EscapedSince(s.log, phase.family, phase.from))
  {
    RevokedFamilyStarted(env, s, id);
    hide Reachable, Inv, ApplyOp, EnabledOp, Started;
    ReachableInv(env, s);
    LeftoverEscaped(env, s, id);
    EscapedIsLeft(env, s, id);
  }

  lemma LeftoverEscaped(env: Env, s: State, id: TxId)
    requires Inv(env, s) && EnabledOp(s, id, Finish) && s.txs[id].phase.Revoking?
    ensures !EscapedSince(s.log, s.txs[id].phase.family, s.txs[id].phase.from) ==>
              AllRevoked(ApplyOp(env, s, id, Finish), s.txs[id].phase.family)
  {
    hide LogOk, TargetOk, PrivateOk, FreshOk, DeletingOk, Started, CoveredSince, Removed;
    assert TxOk(env, s, id);
    var s', phase := ApplyOp(env, s, id, Finish), s.txs[id].phase;
    forall k | k in s'.rows && s'.rows[k].familyId == phase.family && s'.rows[k].revokedAt.None?
      ensures EscapedSince(s.log, phase.family, phase.from)
    {
      assert SnapshotOk(s, phase, k);
      assert s.log[s.born[k]].Rotation?;
    }
  }

  lemma EscapedIsLeft(env: Env, s: State, id: TxId)
    requires Inv(env, s) && EnabledOp(s, id, Finish) && s.txs[id].phase.Revoking?
    ensures EscapedSince(s.log, s.txs[id].phase.family, s.txs[id].phase.from) ==>
              !AllRevoked(ApplyOp(env, s, id, Finish), s.txs[id].phase.family)
  {
    hide TargetOk, PrivateOk, FreshOk, DeletingOk, Started, CoveredSince, Removed, SnapshotOk, StoredBy;
    assert TxOk(env, s, id);
    var s', phase := ApplyOp(env, s, id, Finish), s.txs[id].phase;
    if EscapedSince(s.log, phase.family, phase.from) {
      var i :| phase.from <= i < |s.log| && s.log[i].Rotation? && s.log[i].family == phase.family
               && !CoveredSince(s.log, phase.family, i) && !Removed(s.log, phase.family);
      assert RotationOk(s, i);
      assert s'.rows[s.log[i].successor].revokedAt.None?;
    }
  }

  /**
   * A replayed refresh token kills its family exactly when no rotation of that family was
   * committed between the snapshot of its UPDATE and its own commit.
   */
  lemma ReplayKillsExactly(env: Env, s: State, id: TxId)
    requires Reachable(env, s) && EnabledOp(s, id, Finish) && s.txs[id].phase.Revoking? && s.txs[id].request.Refresh?
    ensures var phase := s.txs[id].phase;
            Dead(ApplyOp(env, s, id, Finish), phase.family) <==> !RotatedSince(s.log, phase.family, phase.from)
  {
    RevocationLeavesExactly(env, s, id);
    ReachableInv(env, s);
    hide Reachable, TargetOk, PrivateOk, FreshOk, DeletingOk, Started, SnapshotOk, LogOk, ApplyOp, AllRevoked,
      EnabledOp, StoredBy;
    assert TxOk(env, s, id);
    var phase, target := s.txs[id].phase, s.txs[id].request.target;
    assert target in s.rows && s.rows[target].familyId == phase.family && s.born[target] < phase.from;
    forall i | phase.from <= i < |s.log| ensures !CoveredSince(s.log, phase.family, i) {
      CoveredEarlier(s.log, phase.family, i, s.born[target]);
    }
  }

  lemma CoveredEarlier(log: seq<Commit>, family: Id, late: int, early: int)
    requires early <= late
    ensures CoveredSince(log, family, late) ==> CoveredSince(log, family, early)
  {
  }

  /** The rows after a revocation: those locked are revoked. */
  ghost predicate LockedRevoked(s: State, s': State, tx: Tx)
    requires tx.phase.Revoking?
  {
    && s'.rows.Keys == s.rows.Keys
    && forall k :: k in s.rows ==>
         && s'.rows[k] == (if k in tx.phase.locked then Revoked(s.rows[k], tx.now) else s.rows[k])
         && (k in tx.phase.locked ==> s.rows[k].familyId == tx.phase.family)
  }

  lemma RevocationRevokesLocked(env: Env, s: State, id: TxId)
    requires Inv(env, s) && EnabledOp(s, id, Finish) && s.txs[id].phase.Revoking?
    ensures LockedRevoked(s, ApplyOp(env, s, id, Finish), s.txs[id])
  {
    hide RowsOk, LogOk, RevokedOk, TargetOk, PrivateOk, FreshOk, DeletingOk, Started, SnapshotOk, Revoked;
    assert TxOk(env, s, id);
  }

  /** A revocation has the effect of the atomic one, at its commit, exactly in the same cases. */
  lemma RevocationIsAtomicExactly(env: Env, s: State, id: TxId, t: Tables)
    requires Reachable(env, s) && EnabledOp(s, id, Finish) && s.txs[id].phase.Revoking? && t.tokens == s.rows
    ensures var phase := s.txs[id].phase;
            ApplyOp(env, s, id, Finish).rows == RevokeFamilies(t, {phase.family}, s.txs[id].now).tokens
            <==> !EscapedSince(s.log, phase.family, phase.from)
  {
    hide Reachable, Inv, ApplyOp, EscapedSince, LockedRevoked, AllRevoked;
    RevocationLeavesExactly(env, s, id);
    ReachableInv(env, s);
    RevocationRevokesLocked(env, s, id);
    AtomicExactly(s, ApplyOp(env, s, id, Finish), s.txs[id], t);
  }

  lemma AtomicExactly(s: State, s': State, tx: Tx, t: Tables)
    requires t.tokens == s.rows && tx.phase.Revoking? && LockedRevoked(s, s', tx)
    ensures s'.rows == RevokeFamilies(t, {tx.phase.family}, tx.now).tokens <==> AllRevoked(s', tx.phase.family)
  {
    var atomic := RevokeFamilies(t, {tx.phase.family}, tx.now).tokens;
    if AllRevoked(s', tx.phase.family) {
      forall k | k in s.rows ensures s'.rows[k] == atomic[k] {}
    } else {
      var k :| k in s'.rows && s'.rows[k].familyId == tx.phase.family && s'.rows[k].revokedAt.None?;
      assert s'.rows[k] != atomic[k];
    }
  }

  // ------------------------------------------------------------- dead families

  /** Every row of the family in the later state was already there, unchanged. */
  ghost predicate Frozen(s: State, s': State, family: Id) {
    forall k :: k in s'.rows && s'.rows[k].familyId == family ==> k in s.rows && s'.rows[k] == s.rows[k]
  }

  lemma QuietKeepsDead(s: State, s': State, id: TxId, family: Id)
    requires SameRows(s, s') && OnlyMoved(s, s', id) && Considerate(s, s', id) && Dead(s, family)
    ensures Dead(s', family) && Frozen(s, s', family)
  {
    hide Started;
    StartedStays(s, s', id, family);
    hide Considerate, OnlyMoved;
  }

  lemma CommitKeepsDead(s: State, s': State, id: TxId, family: Id)
    requires CommittedBy(s, s', id) && Dead(s, family)
    ensures Dead(s', family) && Frozen(s, s', family)
  {
    hide Removed, CoveredSince;
    forall k | k in s'.rows && k !in s.rows ensures s'.rows[k].familyId != family {
      assert NewRow(s, s', id, k);
    }
    forall k | k in s.rows && k in s'.rows ensures Evolved(s.rows[k], s'.rows[k]) {}
    forall tx | tx in s'.txs ensures !MayStart(s'.txs[tx], family) {
      if tx != id {
        assert s'.txs[tx] == s.txs[tx];
      }
    }
  }

  lemma StepKeepsDead(env: Env, s: State, step: Step, family: Id)
    requires Inv(env, s) && Enabled(s, step) && Dead(s, family)
    ensures Dead(Apply(env, s, step), family) && Frozen(s, Apply(env, s, step), family)
  {
    hide Inv, EnabledOp, ApplyOp, Dead, Frozen, SameRows, OnlyMoved, Considerate, CommittedBy;
    match step {
      case Begin(tx, _, _) =>
        ArrivalIsQuiet(env, s, step);
        QuietKeepsDead(s, Apply(env, s, step), tx, family);
      case Run(id, Finish) =>
        CommitIsOwn(env, s, id);
        CommitKeepsDead(s, ApplyOp(env, s, id, Finish), id, family);
      case Run(id, op) =>
        QuietOp(env, s, id, op);
        QuietKeepsDead(s, ApplyOp(env, s, id, op), id, family);
    }
  }

  lemma {:induction false} RunKeepsDead(env: Env, s: State, run: seq<Step>, family: Id)
    requires Inv(env, s) && EnabledRun(env, s, run) && Dead(s, family)
    ensures Dead(After(env, s, run), family) && Frozen(s, After(env, s, run), family)
    decreases |run|
  {
    hide Inv, Enabled, Apply, Dead;
    if run != [] {
      StepKeepsDead(env, s, run[0], family);
      StepKeeps(env, s, run[0]);
      RunKeepsDead(env, Apply(env, s, run[0]), run[1..], family);
    }
  }

  /**
   * Dead families stay dead under every interleaving: once no row of a family is unrevoked, no
   * transaction, however far it had come, adds a row to it or changes one, and no token of it is
   * usable by any client at any time.
   */
  lemma DeadFamilyStaysDead(env: Env, s: State, run: seq<Step>, family: Id)
    requires Reachable(env, s) && EnabledRun(env, s, run) && Dead(s, family)
    ensures var s' := After(env, s, run);
            && Dead(s', family) && Frozen(s, s', family)
            && forall k, client, now ::
                 k in s'.rows && s'.rows[k].familyId == family ==> T.CheckUsable(s'.rows[k], client, now).Some?
  {
    hide Reachable, Inv, EnabledRun, After, Started;
    ReachableInv(env, s);
    RunKeepsDead(env, s, run, family);
  }

  // ------------------------------------------------------------- one usable token

  /** No family has two rows that were not rotated. */
  predicate OneCurrent(rows: map<Id, RefreshToken>) {
    forall a, b :: a in rows && b in rows && rows[a].rotatedTo.None? && rows[b].rotatedTo.None? ==>
      rows[a].familyId == rows[b].familyId ==> a == b
  }

  lemma RotationKeepsCurrent(env: Env, s: State, id: TxId)
    requires Inv(env, s) && EnabledOp(s, id, Finish) && s.txs[id].phase.Updated? && OneCurrent(s.rows)
    ensures OneCurrent(ApplyOp(env, s, id, Finish).rows)
  {
    hide Inv, HashToken;
    WinnerHolds(env, s, id);
  }

  lemma FirstRowKeepsCurrent(env: Env, s: State, id: TxId)
    requires Inv(env, s) && EnabledOp(s, id, Finish) && s.txs[id].phase.Stored? && OneCurrent(s.rows)
    ensures OneCurrent(ApplyOp(env, s, id, Finish).rows)
  {
    hide RowsOk, RevokedOk, LogOk, TargetOk, PrivateOk, RevokingOk, DeletingOk;
    assert TxOk(env, s, id);
  }

  lemma OtherCommitKeepsCurrent(env: Env, s: State, id: TxId)
    requires EnabledOp(s, id, Finish) && (s.txs[id].phase.Revoking? || s.txs[id].phase.Deleting?) && OneCurrent(s.rows)
    ensures OneCurrent(ApplyOp(env, s, id, Finish).rows)
  {
  }

  lemma StepKeepsCurrent(env: Env, s: State, step: Step)
    requires Inv(env, s) && Enabled(s, step) && OneCurrent(s.rows)
    ensures OneCurrent(Apply(env, s, step).rows)
  {
    hide Inv, ApplyOp, OneCurrent;
    match step {
      case Begin(_, _, _) =>
      case Run(id, Finish) =>
        if s.txs[id].phase.Updated? {
          RotationKeepsCurrent(env, s, id);
        } else if s.txs[id].phase.Stored? {
          FirstRowKeepsCurrent(env, s, id);
        } else {
          OtherCommitKeepsCurrent(env, s, id);
        }
      case Run(id, op) => QuietOp(env, s, id, op);
    }
  }

  lemma {:induction false} RunKeepsCurrent(env: Env, s: State, run: seq<Step>)
    requires Inv(env, s) && EnabledRun(env, s, run) && OneCurrent(s.rows)
    ensures OneCurrent(After(env, s, run).rows)
    decreases |run|
  {
    hide Inv, Enabled, Apply, OneCurrent;
    if run != [] {
      StepKeepsCurrent(env, s, run[0]);
      StepKeeps(env, s, run[0]);
      RunKeepsCurrent(env, Apply(env, s, run[0]), run[1..]);
    }
  }

  /**
   * At most one token of a family is usable, by any client at any times, under every
   * interleaving that starts with at most one unrotated row in each family.
   */
  lemma AtMostOneUsable(env: Env, s: State, run: seq<Step>, a: Id, b: Id, clientA: Id, clientB: Id, now: Time,
                        later: Time)
    requires Reachable(env, s) && EnabledRun(env, s, run) && OneCurrent(s.rows)
    requires a in After(env, s, run).rows && b in After(env, s, run).rows
    requires After(env, s, run).rows[a].familyId == After(env, s, run).rows[b].familyId
    requires T.CheckUsable(After(env, s, run).rows[a], clientA, now).None?
    requires T.CheckUsable(After(env, s, run).rows[b], clientB, later).None?
    ensures a == b
  {
    hide Reachable, Inv, EnabledRun, After;
    ReachableInv(env, s);
    RunKeepsCurrent(env, s, run);
  }

  // ------------------------------------------------------------- serial execution

  /** What a step does to the rows if each transaction is executed as a whole when it commits. */
  ghost function SerialStep(s: State, step: Step, rows: map<Id, RefreshToken>): map<Id, RefreshToken>
    requires Enabled(s, step)
  {
    if !(step.Run? && step.op.Finish?) then rows
    else
      var tx := s.txs[step.tx];
      match tx.phase
      case Updated(_, successor) =>
        if tx.request.target !in rows then rows
        else
          var pointed := rows[tx.request.target].(rotatedTo := Some(successor.id));
          rows[successor.id := successor][tx.request.target := pointed]
      case Revoking(family, _, _, _) => RevokeFamilies(Tables(map[], map[], map[], rows), {family}, tx.now).tokens
      case Stored => rows[tx.request.first.id := tx.request.first]
      case _ => map k | k in rows && rows[k].clientId != tx.request.client :: rows[k]
  }

  /** The rows of the run are at every moment those of the serial execution in commit order. */
  ghost predicate InStep(env: Env, s: State, run: seq<Step>, rows: map<Id, RefreshToken>)
    requires EnabledRun(env, s, run)
    decreases |run|
  {
    && rows == s.rows
    && (run != [] ==> InStep(env, Apply(env, s, run[0]), run[1..], SerialStep(s, run[0], rows)))
  }

  /** The step commits a revocation that a rotation has escaped. */
  ghost predicate EscapesAt(s: State, step: Step) {
    && step.Run? && step.op.Finish? && step.tx in s.txs && s.txs[step.tx].phase.Revoking?
    && EscapedSince(s.log, s.txs[step.tx].phase.family, s.txs[step.tx].phase.from)
  }

  ghost predicate SomeEscape(env: Env, s: State, run: seq<Step>)
    requires EnabledRun(env, s, run)
    decreases |run|
  {
    run != [] && (EscapesAt(s, run[0]) || SomeEscape(env, Apply(env, s, run[0]), run[1..]))
  }

  lemma CommitIsSerial(env: Env, s: State, id: TxId)
    requires Reachable(env, s) && EnabledOp(s, id, Finish) && !s.txs[id].phase.Revoking?
    ensures SerialStep(s, Run(id, Finish), s.rows) == ApplyOp(env, s, id, Finish).rows
  {
    hide Reachable, Inv, HashToken, T.CheckUsable;
    ReachableInv(env, s);
    if s.txs[id].phase.Updated? {
      WinnerHolds(env, s, id);
    }
  }

  lemma StepIsSerialExactly(env: Env, s: State, step: Step)
    requires Reachable(env, s) && Enabled(s, step)
    ensures SerialStep(s, step, s.rows) == Apply(env, s, step).rows <==> !EscapesAt(s, step)
  {
    hide Reachable, ApplyOp, EscapedSince, RevokeFamilies;
    match step {
      case Begin(_, _, _) =>
      case Run(id, Finish) =>
        if s.txs[id].phase.Revoking? {
          RevocationIsAtomicExactly(env, s, id, Tables(map[], map[], map[], s.rows));
        } else {
          CommitIsSerial(env, s, id);
        }
      case Run(id, op) => QuietOp(env, s, id, op);
    }
  }

  /**
   * Serializability: a concurrent run keeps step with the serial execution of its transactions,
   * in commit order and by the atomic statements, exactly if no revocation that it commits has
   * been escaped by a rotation.
   */
  lemma {:induction false} SerialExactly(env: Env, s: State, run: seq<Step>)
    requires Reachable(env, s) && EnabledRun(env, s, run)
    ensures InStep(env, s, run, s.rows) <==> !SomeEscape(env, s, run)
    decreases |run|
  {
    hide Reachable, Enabled, Apply, SerialStep, EscapesAt;
    if run != [] {
      StepIsSerialExactly(env, s, run[0]);
      NextIsReachable(env, s, run[0]);
      SerialExactly(env, Apply(env, s, run[0]), run[1..]);
    }
  }

  /** The rows after the serial execution of a run. */
  ghost function Serial(env: Env, s: State, run: seq<Step>, rows: map<Id, RefreshToken>): map<Id, RefreshToken>
    requires EnabledRun(env, s, run)
    decreases |run|
  {
    if run == [] then rows else Serial(env, Apply(env, s, run[0]), run[1..], SerialStep(s, run[0], rows))
  }

  /** And then it ends with the same rows. */
  lemma {:induction false} SerialEnd(env: Env, s: State, run: seq<Step>)
    requires Reachable(env, s) && EnabledRun(env, s, run) && !SomeEscape(env, s, run)
    ensures After(env, s, run).rows == Serial(env, s, run, s.rows)
    decreases |run|
  {
    hide Reachable, Enabled, Apply, SerialStep, EscapesAt;
    if run != [] {
      StepIsSerialExactly(env, s, run[0]);
      NextIsReachable(env, s, run[0]);
      SerialEnd(env, Apply(env, s, run[0]), run[1..]);
    }
  }
}
