/** Every statement of every transaction keeps the invariant of `RowLocks`. */
module LockDiscipline {
  import opened Wrappers
  import opened Schema
  import opened RowLocks
  import opened Secret
  import T = TokenEndpoint

  // ------------------------------------------------------------- statements that commit nothing

  /** The same committed rows, with the same history. */
  ghost predicate SameRows(s: State, s': State) {
    s'.rows == s.rows && s'.born == s.born && s'.log == s.log && s.families <= s'.families
  }

  lemma SameRowsKeep(s: State, s': State)
    requires RowsOk(s) && RevokedOk(s) && LogOk(s) && SameRows(s, s')
    ensures RowsOk(s') && RevokedOk(s') && LogOk(s')
  {
    hide CoveredSince, Removed, StoredBy, SameToken;
    forall i | 0 <= i < |s'.log| && s'.log[i].Rotation? ensures RotationOk(s', i) {
      assert RotationOk(s, i);
    }
  }

  /** One transaction moved or arrived; the others and the locks they hold are as before. */
  ghost predicate OnlyMoved(s: State, s': State, id: TxId) {
    && id in s'.txs && s'.txs.Keys == s.txs.Keys + {id}
    && (forall other :: other in s.txs && other != id ==> s'.txs[other] == s.txs[other])
    && (forall row :: row in s.locks && s.locks[row] != id ==> row in s'.locks && s'.locks[row] == s.locks[row])
  }

  /**
   * What the mover may do to the others: insert a row no other has, delete a client no other inserts for, draw a
   * new family.
   */
  ghost predicate Considerate(s: State, s': State, id: TxId) {
    && id in s'.txs
    && (Private(s'.txs[id]).Some? ==>
          (id in s.txs && Private(s.txs[id]) == Private(s'.txs[id]))
          || !PendingElsewhere(s, id, Private(s'.txs[id]).value.id))
    && (s'.txs[id].phase.Deleting? && s'.txs[id].request.Delete? ==>
          (id in s.txs && s.txs[id].phase.Deleting? && s.txs[id].request == s'.txs[id].request)
          || !PendingFor(s, s'.txs[id].request.client))
    && (forall family ::
        MayStart(s'.txs[id], family) ==> (id in s.txs && MayStart(s.txs[id], family)) || family !in s.families)
  }

  lemma PendingStays(s: State, s': State, id: TxId, other: TxId)
    requires OnlyMoved(s, s', id) && Considerate(s, s', id) && other in s.txs && other != id
             && Private(s.txs[other]).Some?
    requires !PendingElsewhere(s, other, Private(s.txs[other]).value.id)
             && !BeingDeleted(s, Private(s.txs[other]).value.clientId)
    ensures !PendingElsewhere(s', other, Private(s.txs[other]).value.id)
            && !BeingDeleted(s', Private(s.txs[other]).value.clientId)
  {
    var row := Private(s.txs[other]).value;
    forall third | third in s'.txs && third != other
      ensures Private(s'.txs[third]).None? || Private(s'.txs[third]).value.id != row.id {
      if third != id {
        assert s'.txs[third] == s.txs[third];
      }
    }
    forall third | third in s'.txs
      ensures !(s'.txs[third].phase.Deleting? && s'.txs[third].request == Delete(row.clientId)) {
      if third != id {
        assert s'.txs[third] == s.txs[third];
      }
    }
  }

  lemma StartedStays(s: State, s': State, id: TxId, family: Id)
    requires OnlyMoved(s, s', id) && Considerate(s, s', id) && s.families <= s'.families && Started(s, family)
    ensures Started(s', family)
  {
  }

  lemma FreshStays(s: State, s': State, id: TxId, other: TxId)
    requires OnlyMoved(s, s', id) && Considerate(s, s', id) && SameRows(s, s') && other in s.txs && other != id
    requires FreshOk(s, other, s.txs[other])
    ensures FreshOk(s', other, s.txs[other])
  {
    hide Removed, Private;
  }

  lemma OtherStays(env: Env, s: State, s': State, id: TxId, other: TxId)
    requires SameRows(s, s') && OnlyMoved(s, s', id) && Considerate(s, s', id) && other in s.txs && other != id
    requires TxOk(env, s, other)
    ensures TxOk(env, s', other)
  {
    hide PendingElsewhere, BeingDeleted, Started, Considerate, Removed, T.CheckUsable, Successor, MayStart;
    var tx := s.txs[other];
    if Private(tx).Some? {
      PendingStays(s, s', id, other);
    }
    if tx.phase.Revoking? {
      StartedStays(s, s', id, tx.phase.family);
      forall k | k in s'.rows && k in s'.born ensures SnapshotOk(s', tx.phase, k) {
        assert SnapshotOk(s, tx.phase, k);
      }
    }
    FreshStays(s, s', id, other);
    hide FreshOk;
  }

  lemma QuietOp(env: Env, s: State, id: TxId, op: Op)
    requires EnabledOp(s, id, op) && !op.Finish?
    ensures var s' := ApplyOp(env, s, id, op); SameRows(s, s') && OnlyMoved(s, s', id) && Considerate(s, s', id)
  {
    hide T.CheckUsable, HashToken, BeingDeleted, Started, PendingElsewhere, PendingFor;
    match op {
      case Insert =>
      case StartRevoke =>
      case LockRow(_) =>
      case _ =>
    }
  }

  lemma MovedRefresh(env: Env, s: State, id: TxId, op: Op)
    requires Inv(env, s) && EnabledOp(s, id, op) && (op.Lock? || op.Insert? || op.Update?)
    ensures TxOk(env, ApplyOp(env, s, id, op), id)
  {
    hide RowsOk, RevokedOk, LogOk, Removed, T.CheckUsable;
    var s' := ApplyOp(env, s, id, op);
    assert TxOk(env, s, id);
    if Private(s'.txs[id]).Some? {
      var row := Private(s'.txs[id]).value;
      assert !PendingElsewhere(s, id, row.id) && !BeingDeleted(s, row.clientId);
      StillAlone(s, s', id, row);
    }
  }

  lemma StillAlone(s: State, s': State, id: TxId, row: RefreshToken)
    requires OnlyMovedTo(s, s', id) && !s'.txs[id].phase.Deleting?
    requires !PendingElsewhere(s, id, row.id) && !BeingDeleted(s, row.clientId)
    ensures !PendingElsewhere(s', id, row.id) && !BeingDeleted(s', row.clientId)
  {
  }

  ghost predicate OnlyMovedTo(s: State, s': State, id: TxId) {
    id in s'.txs && forall other :: other in s'.txs && other != id ==> other in s.txs && s'.txs[other] == s.txs[other]
  }

  /** No redemption is outstanding for a family that has a row. */
  lemma RowMeansStarted(env: Env, s: State, k: Id)
    requires Inv(env, s) && k in s.rows
    ensures Started(s, s.rows[k].familyId)
  {
    hide RevokedOk, LogOk, Removed;
    forall tx | tx in s.txs ensures !MayStart(s.txs[tx], s.rows[k].familyId) {
      assert TxOk(env, s, tx);
      assert FreshOk(s, tx, s.txs[tx]);
    }
  }

  /** A transaction that only takes locks, or has ended, has no private row and no target to guard. */
  lemma NothingPrivate(env: Env, s: State, id: TxId, tx: Tx)
    requires tx.phase.Revoking? || tx.phase.Deleting? || tx.phase.Committed? || tx.phase.Aborted?
    ensures TargetOk(env, s, id, tx) && PrivateOk(s, id, tx) && FreshOk(s, id, tx)
  {
  }

  lemma MovedToRevoke(env: Env, s: State, id: TxId)
    requires Inv(env, s) && EnabledOp(s, id, StartRevoke)
    ensures TxOk(env, ApplyOp(env, s, id, StartRevoke), id)
  {
    hide RevokedOk, LogOk, Removed, Started, TargetOk, PrivateOk, FreshOk;
    var s', tx := ApplyOp(env, s, id, StartRevoke), s.txs[id];
    assert TxOk(env, s, id);
    NothingPrivate(env, s', id, s'.txs[id]);
    QuietOp(env, s, id, StartRevoke);
    hide Considerate;
    if tx.request.Refresh? {
      SeenUnrevoked(env, s, id);
    }
    if tx.request.Refresh? {
      RowMeansStarted(env, s, tx.request.target);
    }
    StartedStays(s, s', id, s'.txs[id].phase.family);
  }

  lemma SeenUnrevoked(env: Env, s: State, id: TxId)
    requires id in s.txs && TargetOk(env, s, id, s.txs[id]) && s.txs[id].phase.Locked?
    requires s.txs[id].request.Refresh?
             && T.CheckUsable(s.txs[id].phase.seen, s.txs[id].request.client, s.txs[id].now) == Some(T.AlreadyRotated)
    ensures Holds(s, id, s.txs[id].request.target) && s.rows[s.txs[id].request.target] == s.txs[id].phase.seen
    ensures s.txs[id].phase.seen.revokedAt.None?
  {
  }

  lemma MovedByLock(env: Env, s: State, id: TxId, row: Id)
    requires Inv(env, s) && EnabledOp(s, id, LockRow(row))
    ensures TxOk(env, ApplyOp(env, s, id, LockRow(row)), id)
  {
    hide RowsOk, RevokedOk, LogOk, Removed, Started, TargetOk, PrivateOk, FreshOk;
    var s', tx := ApplyOp(env, s, id, LockRow(row)), s.txs[id];
    assert TxOk(env, s, id);
    NothingPrivate(env, s', id, s'.txs[id]);
    QuietOp(env, s, id, LockRow(row));
    hide Considerate;
    if tx.phase.Revoking? {
      StartedStays(s, s', id, tx.phase.family);
      forall k | k in s'.rows && k in s'.born ensures SnapshotOk(s', s'.txs[id].phase, k) {
        assert SnapshotOk(s, tx.phase, k);
      }
    }
  }

  lemma StoredHoldsNothing(env: Env, s: State, id: TxId)
    requires id in s.txs && s.txs[id].phase.Stored?
    ensures TargetOk(env, s, id, s.txs[id])
  {
  }

  lemma MovedOtherwise(env: Env, s: State, id: TxId, op: Op)
    requires Inv(env, s) && EnabledOp(s, id, op) && (op.Store? || op.StartDelete? || op.Abort?)
    ensures TxOk(env, ApplyOp(env, s, id, op), id)
  {
    hide RowsOk, RevokedOk, LogOk, Removed, T.CheckUsable, TargetOk, Started;
    var s' := ApplyOp(env, s, id, op);
    assert TxOk(env, s, id);
    if op.Store? {
      hide BeingDeleted, PendingElsewhere;
      assert TargetOk(env, s', id, s'.txs[id]) by { StoredHoldsNothing(env, s', id); }
      StillAlone(s, s', id, s.txs[id].request.first);
    } else {
      NothingPrivate(env, s', id, s'.txs[id]);
    }
  }

  lemma QuietOpKeeps(env: Env, s: State, id: TxId, op: Op)
    requires Inv(env, s) && EnabledOp(s, id, op) && !op.Finish?
    ensures Inv(env, ApplyOp(env, s, id, op))
  {
    hide RowsOk, RevokedOk, LogOk, TxOk, EnabledOp, ApplyOp, Considerate;
    var s' := ApplyOp(env, s, id, op);
    QuietOp(env, s, id, op);
    SameRowsKeep(s, s');
    match op {
      case Lock => MovedRefresh(env, s, id, op);
      case Insert => MovedRefresh(env, s, id, op);
      case Update => MovedRefresh(env, s, id, op);
      case StartRevoke => MovedToRevoke(env, s, id);
      case LockRow(row) => MovedByLock(env, s, id, row);
      case _ => MovedOtherwise(env, s, id, op);
    }
    forall other | other in s'.txs && other != id ensures TxOk(env, s', other) {
      OtherStays(env, s, s', id, other);
    }
  }

  lemma ArrivalKeeps(env: Env, s: State, step: Step)
    requires Inv(env, s) && Enabled(s, step) && step.Begin?
    ensures Inv(env, Apply(env, s, step))
  {
    var s' := Apply(env, s, step);
    ArrivalIsQuiet(env, s, step);
    hide RevokedOk, LogOk, Considerate;
    SameRowsKeep(s, s');
    assert TxOk(env, s', step.tx) by {
      ArrivedOk(env, s, step);
    }
    forall other | other in s'.txs && other != step.tx ensures TxOk(env, s', other) {
      hide TxOk;
      OtherStays(env, s, s', step.tx, other);
    }
  }

  lemma ArrivalIsQuiet(env: Env, s: State, step: Step)
    requires Enabled(s, step) && step.Begin?
    ensures var s' := Apply(env, s, step); SameRows(s, s') && OnlyMoved(s, s', step.tx) && Considerate(s, s', step.tx)
  {
  }

  lemma ArrivedOk(env: Env, s: State, step: Step)
    requires Inv(env, s) && Enabled(s, step) && step.Begin?
    ensures TxOk(env, Apply(env, s, step), step.tx)
  {
    hide RevokedOk, RotationOk, PendingElsewhere, BeingDeleted;
    var s' := Apply(env, s, step);
    if step.request.Redeem? {
      var family := step.request.first.familyId;
      assert !Removed(s.log, family);
      forall other | other in s.txs ensures !MayStart(s.txs[other], family) {
        assert TxOk(env, s, other);
        assert FreshOk(s, other, s.txs[other]);
      }
      assert FreshOk(s', step.tx, s'.txs[step.tx]);
    }
  }

  // ------------------------------------------------------------- commits, seen by the others

  /** A later version of a row: the same token, and nothing changes any more once it is revoked. */
  predicate Evolved(a: RefreshToken, b: RefreshToken) {
    b == a.(revokedAt := b.revokedAt, rotatedTo := b.rotatedTo) && (a.revokedAt.Some? ==> b == a)
  }

  /** Only rows the transaction held are changed or gone, and at most its private row is new. */
  ghost predicate CommittedBy(s: State, s': State, id: TxId) {
    && id in s.txs && s'.families == s.families && s'.locks == Released(s, id) && s'.txs == Moved(s, id, Committed)
    && |s'.log| == |s.log| + 1 && s'.log == s.log + [s'.log[|s.log|]]
    && s.born.Keys == s.rows.Keys && s'.born.Keys == s'.rows.Keys
    && (forall k :: k in s.rows && !Holds(s, id, k) ==> k in s'.rows && s'.rows[k] == s.rows[k])
    && (forall k :: k in s.rows && k in s'.rows ==> s'.born[k] == s.born[k] && Evolved(s.rows[k], s'.rows[k]))
    && (forall k :: k in s'.rows && k !in s.rows ==> NewRow(s, s', id, k))
    && (s'.log[|s.log|].Removal? ==>
          forall family :: family in s'.log[|s.log|].families ==>
                   exists k :: k in s.rows && s.rows[k].familyId == family)
  }

  ghost predicate NewRow(s: State, s': State, id: TxId, k: Id)
    requires id in s.txs && k in s'.rows && k in s'.born && |s'.log| > |s.log|
  {
    && Private(s.txs[id]) == Some(s'.rows[k]) && s'.rows[k].id == k && s'.born[k] == |s.log|
    && (if s'.log[|s.log|].Rotation?
        then (exists old_ ::
              old_ in s.rows && s.rows[old_].familyId == s'.rows[k].familyId && s.rows[old_].revokedAt.None?)
        else MayStart(s.txs[id], s'.rows[k].familyId))
  }

  lemma OtherHoldsStay(s: State, s': State, id: TxId, other: TxId, k: Id)
    requires CommittedBy(s, s', id) && other != id && Holds(s, other, k)
    ensures Holds(s', other, k) && s'.rows[k] == s.rows[k]
  {
  }

  lemma OtherTarget(env: Env, s: State, s': State, id: TxId, other: TxId)
    requires CommittedBy(s, s', id) && other in s.txs && other != id && TargetOk(env, s, other, s.txs[other])
    ensures TargetOk(env, s', other, s'.txs[other])
  {
    hide T.CheckUsable, Successor;
    if HoldsTarget(s.txs[other].phase) {
      OtherHoldsStay(s, s', id, other, s.txs[other].request.target);
    }
    hide CommittedBy, Holds;
    assert s'.txs[other] == s.txs[other] by { OtherUnmoved(s, s', id, other); }
  }

  lemma OtherUnmoved(s: State, s': State, id: TxId, other: TxId)
    requires CommittedBy(s, s', id) && other in s.txs && other != id
    ensures other in s'.txs && s'.txs[other] == s.txs[other]
  {
  }

  lemma OtherPrivate(s: State, s': State, id: TxId, other: TxId)
    requires CommittedBy(s, s', id) && other in s.txs && other != id && PrivateOk(s, other, s.txs[other])
    ensures PrivateOk(s', other, s'.txs[other])
  {
    OtherUnmoved(s, s', id, other);
    if Private(s.txs[other]).Some? {
      var row := Private(s.txs[other]).value;
      forall k | k in s'.rows && k !in s.rows ensures PendingElsewhere(s, other, k) {
        assert NewRow(s, s', id, k);
      }
      AloneAfterCommit(s, s', id, other, row);
    }
  }

  lemma AloneAfterCommit(s: State, s': State, id: TxId, other: TxId, row: RefreshToken)
    requires CommittedBy(s, s', id) && !PendingElsewhere(s, other, row.id) && !BeingDeleted(s, row.clientId)
    ensures !PendingElsewhere(s', other, row.id) && !BeingDeleted(s', row.clientId)
  {
    forall third | third in s'.txs
      ensures third != other ==> Private(s'.txs[third]).None? || Private(s'.txs[third]).value.id != row.id
      ensures !(s'.txs[third].phase.Deleting? && s'.txs[third].request == Delete(row.clientId))
    {
      if third != id {
        assert s'.txs[third] == s.txs[third];
      }
    }
  }

  lemma OtherFresh(s: State, s': State, id: TxId, other: TxId)
    requires CommittedBy(s, s', id) && other in s.txs && other != id && FreshOk(s, other, s.txs[other])
    ensures FreshOk(s', other, s'.txs[other])
  {
    OtherUnmoved(s, s', id, other);
    var tx := s.txs[other];
    if tx.request.Redeem? && (tx.phase.Waiting? || tx.phase.Stored?) {
      var family := tx.request.first.familyId;
      RemovedAppend(s.log, s'.log[|s.log|], family);
      assert !MayStart(s.txs[id], family);
      forall k | k in s'.rows ensures s'.rows[k].familyId != family {
        if k !in s.rows {
          assert NewRow(s, s', id, k);
        }
      }
      forall third | third in s'.txs && third != other ensures !MayStart(s'.txs[third], family) {
        if third != id {
          assert s'.txs[third] == s.txs[third];
        }
      }
    }
  }

  lemma OtherRevoking(s: State, s': State, id: TxId, other: TxId)
    requires CommittedBy(s, s', id) && other in s.txs && other != id && RevokingOk(s, other, s.txs[other])
    ensures RevokingOk(s', other, s'.txs[other])
  {
    hide PendingElsewhere, BeingDeleted, Removed;
    OtherUnmoved(s, s', id, other);
    var phase := s.txs[other].phase;
    if phase.Revoking? {
      assert Started(s', phase.family);
      forall k | k in s'.rows && k in s'.born ensures SnapshotOk(s', phase, k) {
        SnapshotStays(s, s', id, phase, k);
      }
      forall k | k in phase.locked
        ensures Holds(s', other, k) && k in s'.born && s'.born[k] < phase.from && s'.rows[k] == s.rows[k]
      {
        OtherHoldsStay(s, s', id, other, k);
      }
    }
  }

  lemma SnapshotStays(s: State, s': State, id: TxId, phase: Phase, k: Id)
    requires CommittedBy(s, s', id) && phase.Revoking? && Started(s, phase.family) && phase.from <= |s.log|
    requires k in s'.rows && k in s'.born && (k in s.rows ==> SnapshotOk(s, phase, k))
    ensures SnapshotOk(s', phase, k)
  {
    if k !in s.rows {
      assert NewRow(s, s', id, k);
    } else {
      assert Evolved(s.rows[k], s'.rows[k]);
      assert forall i :: 0 <= i < |s.log| ==> s'.log[i] == s.log[i];
    }
  }

  lemma OtherDeleting(s: State, s': State, id: TxId, other: TxId)
    requires CommittedBy(s, s', id) && other in s.txs && other != id && DeletingOk(s, other, s.txs[other])
    ensures DeletingOk(s', other, s'.txs[other])
  {
    OtherUnmoved(s, s', id, other);
    if s.txs[other].phase.Deleting? {
      forall k | k in s.txs[other].phase.locked ensures Holds(s', other, k) {
        OtherHoldsStay(s, s', id, other, k);
      }
    }
  }

  lemma TxsAfterCommit(env: Env, s: State, s': State, id: TxId)
    requires TxsOk(env, s) && CommittedBy(s, s', id)
    ensures TxsOk(env, s')
  {
    hide CommittedBy, TargetOk, PrivateOk, FreshOk, RevokingOk, DeletingOk;
    assert id in s'.txs && s'.txs[id].phase.Committed? && s'.txs.Keys == s.txs.Keys by { MoverCommitted(s, s', id); }
    forall other | other in s'.txs ensures TxOk(env, s', other) {
      if other == id {
        NothingPrivate(env, s', id, s'.txs[id]);
        NothingHeld(s', id, s'.txs[id]);
      } else {
        assert TxOk(env, s, other);
        OtherTarget(env, s, s', id, other);
        OtherPrivate(s, s', id, other);
        OtherFresh(s, s', id, other);
        OtherRevoking(s, s', id, other);
        OtherDeleting(s, s', id, other);
      }
    }
  }

  lemma MoverCommitted(s: State, s': State, id: TxId)
    requires CommittedBy(s, s', id)
    ensures id in s'.txs && s'.txs[id].phase.Committed? && s'.txs.Keys == s.txs.Keys
  {
  }

  lemma NothingHeld(s: State, id: TxId, tx: Tx)
    requires tx.phase.Committed?
    ensures RevokingOk(s, id, tx) && DeletingOk(s, id, tx)
  {
  }

  // ------------------------------------------------------------- the four commits

  lemma WinnerHolds(env: Env, s: State, id: TxId)
    requires Inv(env, s) && EnabledOp(s, id, Finish) && s.txs[id].phase.Updated?
    ensures var tx := s.txs[id];
            && tx.request.Refresh? && Holds(s, id, tx.request.target) && s.rows[tx.request.target] == tx.phase.seen
            && tx.phase.seen.id == tx.request.target && tx.phase.seen.revokedAt.None?
            && T.CheckUsable(tx.phase.seen, tx.request.client, tx.now).None?
            && tx.phase.successor == Successor(env, tx, tx.phase.seen)
            && tx.phase.successor.id !in s.rows && s.born.Keys == s.rows.Keys
  {
    hide RevokedOk, LogOk, FreshOk, RevokingOk, DeletingOk, Removed, StoredBy;
    assert TxOk(env, s, id);
  }

  lemma RotationIsOwn(env: Env, s: State, id: TxId)
    requires Inv(env, s) && EnabledOp(s, id, Finish) && s.txs[id].phase.Updated?
    ensures CommittedBy(s, ApplyOp(env, s, id, Finish), id)
  {
    hide Inv, T.CheckUsable, HashToken;
    WinnerHolds(env, s, id);
  }

  lemma RevocationIsOwn(env: Env, s: State, id: TxId)
    requires Inv(env, s) && EnabledOp(s, id, Finish) && s.txs[id].phase.Revoking?
    ensures CommittedBy(s, ApplyOp(env, s, id, Finish), id)
  {
    hide RevokedOk, LogOk, CoveredSince, Removed, PendingElsewhere, BeingDeleted, Started, TargetOk, PrivateOk, FreshOk,
      SnapshotOk;
    assert TxOk(env, s, id);
  }

  lemma FirstRowIsOwn(env: Env, s: State, id: TxId)
    requires Inv(env, s) && EnabledOp(s, id, Finish) && s.txs[id].phase.Stored?
    ensures CommittedBy(s, ApplyOp(env, s, id, Finish), id)
  {
    hide RevokedOk, LogOk, CoveredSince, Removed, PendingElsewhere, BeingDeleted, Started, TargetOk, RevokingOk,
      DeletingOk;
    assert TxOk(env, s, id);
  }

  lemma DeleterHoldsAll(env: Env, s: State, id: TxId)
    requires Inv(env, s) && EnabledOp(s, id, Finish) && s.txs[id].phase.Deleting?
    ensures s.txs[id].request.Delete? && s.born.Keys == s.rows.Keys
    ensures forall k :: k in s.rows && s.rows[k].clientId == s.txs[id].request.client ==> Holds(s, id, k)
  {
    hide RevokedOk, LogOk, Removed, StoredBy, TargetOk, PrivateOk, FreshOk, RevokingOk;
    assert TxOk(env, s, id);
    forall k | k in s.rows && s.rows[k].clientId == s.txs[id].request.client ensures Holds(s, id, k) {
      assert OfClient(s, k, s.txs[id].request.client);
    }
  }

  lemma RemovalIsOwn(env: Env, s: State, id: TxId)
    requires Inv(env, s) && EnabledOp(s, id, Finish) && s.txs[id].phase.Deleting?
    ensures CommittedBy(s, ApplyOp(env, s, id, Finish), id)
  {
    hide Inv, Holds;
    DeleterHoldsAll(env, s, id);
  }

  lemma CommitIsOwn(env: Env, s: State, id: TxId)
    requires Inv(env, s) && EnabledOp(s, id, Finish)
    ensures CommittedBy(s, ApplyOp(env, s, id, Finish), id)
  {
    hide Inv, ApplyOp, CommittedBy;
    if s.txs[id].phase.Updated? {
      RotationIsOwn(env, s, id);
    } else if s.txs[id].phase.Revoking? {
      RevocationIsOwn(env, s, id);
    } else if s.txs[id].phase.Stored? {
      FirstRowIsOwn(env, s, id);
    } else {
      RemovalIsOwn(env, s, id);
    }
  }

  lemma RotationRows(env: Env, s: State, id: TxId)
    requires Inv(env, s) && EnabledOp(s, id, Finish) && s.txs[id].phase.Updated?
    ensures RowsOk(ApplyOp(env, s, id, Finish))
  {
    hide RevokedOk, LogOk, CoveredSince, PendingElsewhere, BeingDeleted, Started, Removed, FreshOk, RevokingOk,
      DeletingOk;
    var s', tx := ApplyOp(env, s, id, Finish), s.txs[id];
    assert TxOk(env, s, id);
    forall k | k in s.rows ensures !Removed(s'.log, s.rows[k].familyId) {
      RemovedAppend(s.log, s'.log[|s.log|], s.rows[k].familyId);
    }
  }

  lemma RotationLog(env: Env, s: State, id: TxId)
    requires Inv(env, s) && EnabledOp(s, id, Finish) && s.txs[id].phase.Updated?
    ensures LogOk(ApplyOp(env, s, id, Finish))
  {
    hide RevokedOk, CoveredSince, PendingElsewhere, BeingDeleted, Started, Removed;
    var s', tx := ApplyOp(env, s, id, Finish), s.txs[id];
    assert TxOk(env, s, id);
    forall i | 0 <= i < |s.log| && s.log[i].Rotation?
      ensures RotationOk(s', i) && !SameToken(s.log[i], s'.log[|s.log|])
    {
      assert RotationOk(s, i);
      RemovedAppend(s.log, s'.log[|s.log|], s.log[i].family);
    }
    assert RotationOk(s', |s.log|);
  }

  lemma RotationRevoked(env: Env, s: State, id: TxId)
    requires Inv(env, s) && EnabledOp(s, id, Finish) && s.txs[id].phase.Updated?
    ensures RevokedOk(ApplyOp(env, s, id, Finish))
  {
    hide CoveredSince, PendingElsewhere, BeingDeleted, Started, Removed, RotationOk, SameToken;
    var s', tx := ApplyOp(env, s, id, Finish), s.txs[id];
    assert TxOk(env, s, id);
    var e := s'.log[|s.log|];
    forall k | k in s'.rows
      ensures CoveredSince(s'.log, s'.rows[k].familyId, s'.born[k])
              <==> CoveredSince(s.log, s'.rows[k].familyId, s'.born[k])
    {
      CoveredAppend(s.log, e, s'.rows[k].familyId, s'.born[k]);
    }
    NotYetCovered(s, tx.phase.successor.familyId);
  }

  /** No revocation saw what is only now being stored. */
  lemma NotYetCovered(s: State, family: Id)
    requires LogOk(s)
    ensures !CoveredSince(s.log, family, |s.log|)
  {
  }

  lemma FirstRowRows(env: Env, s: State, id: TxId)
    requires Inv(env, s) && EnabledOp(s, id, Finish) && s.txs[id].phase.Stored?
    ensures RowsOk(ApplyOp(env, s, id, Finish))
  {
    hide RevokedOk, LogOk, CoveredSince, PendingElsewhere, BeingDeleted, Started, Removed, TargetOk, RevokingOk,
      DeletingOk, MayStart;
    var s', tx := ApplyOp(env, s, id, Finish), s.txs[id];
    assert TxOk(env, s, id);
    RemovedAppend(s.log, s'.log[|s.log|], tx.request.first.familyId);
    forall k | k in s.rows ensures !Removed(s'.log, s.rows[k].familyId) {
      RemovedAppend(s.log, s'.log[|s.log|], s.rows[k].familyId);
    }
  }

  lemma FirstRowLog(env: Env, s: State, id: TxId)
    requires Inv(env, s) && EnabledOp(s, id, Finish) && s.txs[id].phase.Stored?
    ensures LogOk(ApplyOp(env, s, id, Finish))
  {
    hide RevokedOk, CoveredSince, PendingElsewhere, BeingDeleted, Started, Removed, TargetOk, FreshOk;
    var s' := ApplyOp(env, s, id, Finish);
    assert TxOk(env, s, id);
    forall i | 0 <= i < |s.log| && s.log[i].Rotation? ensures RotationOk(s', i) {
      assert RotationOk(s, i);
      RemovedAppend(s.log, s'.log[|s.log|], s.log[i].family);
    }
  }

  lemma FirstRowRevoked(env: Env, s: State, id: TxId)
    requires Inv(env, s) && EnabledOp(s, id, Finish) && s.txs[id].phase.Stored?
    ensures RevokedOk(ApplyOp(env, s, id, Finish))
  {
    hide CoveredSince, PendingElsewhere, BeingDeleted, Started, Removed, RotationOk, SameToken, TargetOk;
    var s', tx := ApplyOp(env, s, id, Finish), s.txs[id];
    assert TxOk(env, s, id);
    forall k | k in s'.rows
      ensures CoveredSince(s'.log, s'.rows[k].familyId, s'.born[k])
              <==> CoveredSince(s.log, s'.rows[k].familyId, s'.born[k])
    {
      CoveredAppend(s.log, s'.log[|s.log|], s'.rows[k].familyId, s'.born[k]);
    }
    NotYetCovered(s, tx.request.first.familyId);
  }

  lemma RevocationRows(env: Env, s: State, id: TxId)
    requires Inv(env, s) && EnabledOp(s, id, Finish) && s.txs[id].phase.Revoking?
    ensures RowsOk(ApplyOp(env, s, id, Finish))
  {
    hide RevokedOk, LogOk, CoveredSince, Removed, TxsOk, StoredBy;
    var s' := ApplyOp(env, s, id, Finish);
    forall k | k in s.rows ensures !Removed(s'.log, s.rows[k].familyId) {
      RemovedAppend(s.log, s'.log[|s.log|], s.rows[k].familyId);
    }
  }

  lemma RevocationLog(env: Env, s: State, id: TxId)
    requires Inv(env, s) && EnabledOp(s, id, Finish) && s.txs[id].phase.Revoking?
    ensures LogOk(ApplyOp(env, s, id, Finish))
  {
    hide RevokedOk, CoveredSince, Removed, Started, TargetOk, PrivateOk, FreshOk, SnapshotOk;
    var s' := ApplyOp(env, s, id, Finish);
    assert TxOk(env, s, id);
    forall i | 0 <= i < |s.log| && s.log[i].Rotation? ensures RotationOk(s', i) {
      assert RotationOk(s, i);
      RemovedAppend(s.log, s'.log[|s.log|], s.log[i].family);
    }
  }

  /** After the commit exactly the rows stored before the snapshot are covered by it, and they are revoked. */
  lemma RevocationRevoked(env: Env, s: State, id: TxId)
    requires Inv(env, s) && EnabledOp(s, id, Finish) && s.txs[id].phase.Revoking?
    ensures RevokedOk(ApplyOp(env, s, id, Finish))
  {
    hide LogOk, CoveredSince, Removed, Started, TargetOk, PrivateOk, FreshOk, StoredBy;
    var s', phase := ApplyOp(env, s, id, Finish), s.txs[id].phase;
    assert TxOk(env, s, id);
    forall k | k in s'.rows
      ensures && (CoveredSince(s'.log, s'.rows[k].familyId, s'.born[k]) ==> s'.rows[k].revokedAt.Some?)
              && (s'.born[k] >= 0 && s'.rows[k].revokedAt.Some? ==>
                  CoveredSince(s'.log, s'.rows[k].familyId, s'.born[k]))
    {
      CoveredAppend(s.log, s'.log[|s.log|], s.rows[k].familyId, s.born[k]);
      assert SnapshotOk(s, phase, k);
    }
  }

  lemma RemovalRows(env: Env, s: State, id: TxId)
    requires Inv(env, s) && EnabledOp(s, id, Finish) && s.txs[id].phase.Deleting?
    ensures RowsOk(ApplyOp(env, s, id, Finish))
  {
    hide RevokedOk, LogOk, CoveredSince, Removed, TxsOk;
    var s' := ApplyOp(env, s, id, Finish);
    forall k | k in s'.rows ensures !Removed(s'.log, s'.rows[k].familyId) {
      RemovedAppend(s.log, s'.log[|s.log|], s.rows[k].familyId);
    }
  }

  lemma RemovalLog(env: Env, s: State, id: TxId)
    requires Inv(env, s) && EnabledOp(s, id, Finish) && s.txs[id].phase.Deleting?
    ensures LogOk(ApplyOp(env, s, id, Finish))
  {
    hide RevokedOk, CoveredSince, Removed, TxsOk, StoredBy;
    var s' := ApplyOp(env, s, id, Finish);
    forall i | 0 <= i < |s.log| && s.log[i].Rotation? ensures RotationOk(s', i) {
      assert RotationOk(s, i);
      RemovedAppend(s.log, s'.log[|s.log|], s.log[i].family);
    }
  }

  lemma RemovalRevoked(env: Env, s: State, id: TxId)
    requires Inv(env, s) && EnabledOp(s, id, Finish) && s.txs[id].phase.Deleting?
    ensures RevokedOk(ApplyOp(env, s, id, Finish))
  {
    hide LogOk, CoveredSince, Removed, TxsOk, StoredBy;
    var s' := ApplyOp(env, s, id, Finish);
    forall k | k in s'.rows
      ensures CoveredSince(s'.log, s'.rows[k].familyId, s'.born[k])
              <==> CoveredSince(s.log, s'.rows[k].familyId, s'.born[k])
    {
      CoveredAppend(s.log, s'.log[|s.log|], s'.rows[k].familyId, s'.born[k]);
    }
  }

  lemma CommitKeeps(env: Env, s: State, id: TxId)
    requires Inv(env, s) && EnabledOp(s, id, Finish)
    ensures Inv(env, ApplyOp(env, s, id, Finish))
  {
    hide ApplyOp, RowsOk, RevokedOk, LogOk, TxsOk, CommittedBy;
    if s.txs[id].phase.Updated? {
      RotationRows(env, s, id);
      RotationRevoked(env, s, id);
      RotationLog(env, s, id);
    } else if s.txs[id].phase.Revoking? {
      RevocationRows(env, s, id);
      RevocationRevoked(env, s, id);
      RevocationLog(env, s, id);
    } else if s.txs[id].phase.Stored? {
      FirstRowRows(env, s, id);
      FirstRowRevoked(env, s, id);
      FirstRowLog(env, s, id);
    } else {
      RemovalRows(env, s, id);
      RemovalRevoked(env, s, id);
      RemovalLog(env, s, id);
    }
    CommitIsOwn(env, s, id);
    TxsAfterCommit(env, s, ApplyOp(env, s, id, Finish), id);
  }

  /** Every statement of every transaction keeps the discipline. */
  lemma StepKeeps(env: Env, s: State, step: Step)
    requires Inv(env, s) && Enabled(s, step)
    ensures Inv(env, Apply(env, s, step))
  {
    hide Inv, EnabledOp, ApplyOp;
    match step {
      case Begin(_, _, _) => ArrivalKeeps(env, s, step);
      case Run(id, Finish) => CommitKeeps(env, s, id);
      case Run(id, op) => QuietOpKeeps(env, s, id, op);
    }
  }

  // ------------------------------------------------------------- runs

  lemma {:induction false} RunKeeps(env: Env, s: State, run: seq<Step>)
    requires Inv(env, s) && EnabledRun(env, s, run)
    ensures Inv(env, After(env, s, run))
    decreases |run|
  {
    hide Inv, Enabled, Apply;
    if run != [] {
      StepKeeps(env, s, run[0]);
      RunKeeps(env, Apply(env, s, run[0]), run[1..]);
    }
  }

  lemma QuietInv(env: Env, s: State)
    requires Quiet(s)
    ensures Inv(env, s)
  {
  }

  lemma ReachableInv(env: Env, s: State)
    requires Reachable(env, s)
    ensures Inv(env, s)
  {
    hide Inv, EnabledRun, After, Quiet;
    var s0, run :| Quiet(s0) && EnabledRun(env, s0, run) && s == After(env, s0, run);
    QuietInv(env, s0);
    RunKeeps(env, s0, run);
  }

  lemma OneMore(env: Env, s': State, s: State, step: Step, rest: seq<Step>)
    requires Enabled(s, step) && s' == Apply(env, s, step) && EnabledRun(env, s', rest)
    ensures EnabledRun(env, s, [step] + rest) && After(env, s, [step] + rest) == After(env, s', rest)
  {
    assert ([step] + rest)[1..] == rest;
  }

  lemma {:induction false} RunsJoin(env: Env, s: State, run: seq<Step>, more: seq<Step>)
    requires EnabledRun(env, s, run) && EnabledRun(env, After(env, s, run), more)
    ensures EnabledRun(env, s, run + more) && After(env, s, run + more) == After(env, After(env, s, run), more)
    decreases |run|
  {
    hide Enabled, Apply;
    if run == [] {
      assert run + more == more;
    } else {
      assert (run + more)[1..] == run[1..] + more;
      RunsJoin(env, Apply(env, s, run[0]), run[1..], more);
    }
  }

  /** What an interleaving reaches from a reachable state is reachable. */
  lemma LaterIsReachable(env: Env, s: State, more: seq<Step>)
    requires Reachable(env, s) && EnabledRun(env, s, more)
    ensures Reachable(env, After(env, s, more))
  {
    hide EnabledRun, After, Quiet;
    var s0, run :| Quiet(s0) && EnabledRun(env, s0, run) && s == After(env, s0, run);
    RunsJoin(env, s0, run, more);
    assert EnabledRun(env, s0, run + more);
  }

  lemma NextIsReachable(env: Env, s: State, step: Step)
    requires Reachable(env, s) && Enabled(s, step)
    ensures Reachable(env, Apply(env, s, step))
  {
    hide Enabled, Apply, Reachable;
    assert EnabledRun(env, s, [step]) && After(env, s, [step]) == Apply(env, s, step) by {
      assert [step][1..] == [];
    }
    LaterIsReachable(env, s, [step]);
  }
}
