/**
 * Concurrent requests on the refresh-token table, statement by statement: any number of
 * transactions, any interleaving.
 *
 * A refresh locks the row of its token (SELECT … FOR UPDATE), which waits for the lock and then
 * reads the committed row; it inserts and updates privately; and it commits or aborts, which
 * releases its locks. A replay, like `/oauth/revoke`, updates a family: the statement fixes the
 * committed rows that match as its snapshot, and then locks them one by one, waiting where it
 * must. Redeeming a code inserts the first row of a family, and deleting a client removes its
 * rows, holding the client so that no row is inserted for it meanwhile.
 */
module RowLocks {
  import opened Wrappers
  import opened Schema
  import opened Statements
  import T = TokenEndpoint

  type TxId = nat

  datatype Request =
    | Refresh(client: Id, target: Id, drawn: Fresh)
    | Revoke(family: Id)
    | Redeem(first: RefreshToken)
    | Delete(client: Id)

  datatype Phase =
    | Waiting
    | Locked(seen: RefreshToken)
    | Inserted(seen: RefreshToken, successor: RefreshToken)
    | Updated(seen: RefreshToken, successor: RefreshToken)
    | Revoking(family: Id, from: nat, snapshot: set<Id>, locked: set<Id>)
    | Stored
    | Deleting(locked: set<Id>)
    | Committed
    | Aborted

  /** One request, with its clock reading and how far it has come. */
  datatype Tx = Tx(request: Request, now: Time, phase: Phase)

  /** What a commit did; `from` counts the commits before the snapshot of a revocation. */
  datatype Commit =
    | Rotation(target: Id, successor: Id, family: Id)
    | FirstRow(row: Id, family: Id)
    | Revocation(family: Id, from: nat)
    | Removal(families: set<Id>)

  /**
   * The committed rows, each with the position in the log of the commit that stored it (-1 for
   * those that were there before); the row locks; every family id ever drawn.
   */
  datatype State = State(
    rows: map<Id, RefreshToken>,
    born: map<Id, int>,
    locks: map<Id, TxId>,
    txs: map<TxId, Tx>,
    families: set<Id>,
    log: seq<Commit>)

  /** The next statement of one transaction. */
  datatype Op = Lock | Insert | Update | StartRevoke | Store | StartDelete | LockRow(row: Id) | Finish | Abort

  datatype Step = Begin(tx: TxId, request: Request, now: Time) | Run(tx: TxId, op: Op)

  function Successor(env: Env, tx: Tx, seen: RefreshToken): RefreshToken
    requires tx.request.Refresh?
  {
    T.NewRow(env, seen.familyId, seen.codeId, tx.request.client, seen.userId, seen.scope, seen.authTime,
             tx.request.drawn, tx.now)
  }

  /** The row a transaction has inserted but not committed. */
  function Private(tx: Tx): Option<RefreshToken> {
    if tx.phase.Inserted? || tx.phase.Updated? then Some(tx.phase.successor)
    else if tx.phase.Stored? && tx.request.Redeem? then Some(tx.request.first)
    else None
  }

  ghost predicate PendingElsewhere(s: State, tx: TxId, id: Id) {
    exists other :: other in s.txs && other != tx && Private(s.txs[other]).Some? && Private(s.txs[other]).value.id == id
  }

  ghost predicate PendingFor(s: State, client: Id) {
    exists tx :: tx in s.txs && Private(s.txs[tx]).Some? && Private(s.txs[tx]).value.clientId == client
  }

  ghost predicate BeingDeleted(s: State, client: Id) {
    exists tx :: tx in s.txs && s.txs[tx].phase.Deleting? && s.txs[tx].request == Delete(client)
  }

  /** A redemption that may still commit the first row of this family. */
  predicate MayStart(tx: Tx, family: Id) {
    tx.request.Redeem? && tx.request.first.familyId == family && (tx.phase.Waiting? || tx.phase.Stored?)
  }

  /** The family was drawn, and its first row is not outstanding. */
  ghost predicate Started(s: State, family: Id) {
    family in s.families && forall tx :: tx in s.txs ==> !MayStart(s.txs[tx], family)
  }

  function UnrevokedOf(rows: map<Id, RefreshToken>, family: Id): set<Id> { UnrevokedRows(rows, {family}) }

  predicate OfClient(s: State, row: Id, client: Id) { row in s.rows && s.rows[row].clientId == client }

  ghost predicate EnabledOp(s: State, id: TxId, op: Op) {
    id in s.txs &&
    var tx := s.txs[id];
    match op
    case Lock =>
      tx.request.Refresh? && tx.phase.Waiting? && tx.request.target in s.rows && tx.request.target !in s.locks
    case Insert =>
      && tx.request.Refresh? && tx.phase.Locked? && T.CheckUsable(tx.phase.seen, tx.request.client, tx.now).None?
      && tx.request.drawn.rowId !in s.rows && !PendingElsewhere(s, id, tx.request.drawn.rowId)
      && !BeingDeleted(s, tx.request.client)
    case Update => tx.phase.Inserted?
    case StartRevoke =>
      || (tx.request.Refresh? && tx.phase.Locked?
          && T.CheckUsable(tx.phase.seen, tx.request.client, tx.now) == Some(T.AlreadyRotated))
      || (tx.request.Revoke? && tx.phase.Waiting? && Started(s, tx.request.family))
    case Store =>
      && tx.request.Redeem? && tx.phase.Waiting?
      && tx.request.first.id !in s.rows && !PendingElsewhere(s, id, tx.request.first.id)
      && !BeingDeleted(s, tx.request.first.clientId)
    case StartDelete =>
      tx.request.Delete? && tx.phase.Waiting? && !PendingFor(s, tx.request.client)
      && !BeingDeleted(s, tx.request.client)
    case LockRow(row) =>
      && row in s.rows && row in s.born && row !in s.locks
      && (|| (tx.phase.Revoking? && row in tx.phase.snapshot && s.born[row] < tx.phase.from)
          || (tx.request.Delete? && tx.phase.Deleting? && s.rows[row].clientId == tx.request.client))
    case Finish =>
      || (tx.request.Refresh? && tx.phase.Updated?)
      || (tx.phase.Revoking? &&
          forall row :: row in tx.phase.snapshot && row in s.rows && row in s.born && s.born[row] < tx.phase.from ==>
                   row in tx.phase.locked)
      || (tx.request.Redeem? && tx.phase.Stored?)
      || (tx.request.Delete? && tx.phase.Deleting?
          && forall row :: OfClient(s, row, tx.request.client) ==> row in tx.phase.locked)
    case Abort => !tx.phase.Committed? && !tx.phase.Aborted?
  }

  ghost predicate Enabled(s: State, step: Step) {
    match step
    case Begin(tx, request, _) =>
      && tx !in s.txs
      && (request.Redeem? ==> IsFirst(request.first) && request.first.familyId !in s.families)
    case Run(tx, op) => EnabledOp(s, tx, op)
  }

  predicate IsFirst(row: RefreshToken) { row.revokedAt.None? && row.rotatedTo.None? }

  function Released(s: State, tx: TxId): map<Id, TxId> {
    map row | row in s.locks && s.locks[row] != tx :: s.locks[row]
  }

  function Revoked(row: RefreshToken, now: Time): RefreshToken {
    if row.revokedAt.None? then row.(revokedAt := Some(now)) else row
  }

  function Moved(s: State, id: TxId, phase: Phase): map<TxId, Tx>
    requires id in s.txs
  {
    s.txs[id := s.txs[id].(phase := phase)]
  }

  ghost function ApplyOp(env: Env, s: State, id: TxId, op: Op): State
    requires EnabledOp(s, id, op)
  {
    var tx := s.txs[id];
    match op
    case Lock => s.(locks := s.locks[tx.request.target := id], txs := Moved(s, id, Locked(s.rows[tx.request.target])))
    case Insert => s.(txs := Moved(s, id, Inserted(tx.phase.seen, Successor(env, tx, tx.phase.seen))))
    case Update => s.(txs := Moved(s, id, Updated(tx.phase.seen, tx.phase.successor)))
    case StartRevoke =>
      var family := if tx.request.Refresh? then tx.phase.seen.familyId else tx.request.family;
      s.(txs := Moved(s, id,
                      Revoking(family, |s.log|, UnrevokedOf(s.rows, family),
                               if tx.request.Refresh? then {tx.request.target} else {})))
    case Store => s.(txs := Moved(s, id, Stored))
    case StartDelete => s.(txs := Moved(s, id, Deleting({})))
    case LockRow(row) =>
      s.(locks := s.locks[row := id],
         txs := Moved(s, id,
                      if tx.phase.Revoking? then tx.phase.(locked := tx.phase.locked + {row})
                      else Deleting(tx.phase.locked + {row})))
    case Finish => Finished(s, id).(locks := Released(s, id), txs := Moved(s, id, Committed))
    case Abort => s.(locks := Released(s, id), txs := Moved(s, id, Aborted))
  }

  /** What a commit does to the rows and the log. */
  ghost function Finished(s: State, id: TxId): State
    requires EnabledOp(s, id, Finish)
  {
    var tx := s.txs[id];
    match tx.phase
    case Updated(seen, successor) =>
      s.(rows := s.rows[successor.id := successor][tx.request.target := seen.(rotatedTo := Some(successor.id))],
         born := s.born[successor.id := |s.log|],
         log := s.log + [Rotation(tx.request.target, successor.id, seen.familyId)])
    case Revoking(family, from, _, locked) =>
      s.(rows := map k | k in s.rows :: if k in locked then Revoked(s.rows[k], tx.now) else s.rows[k],
         log := s.log + [Revocation(family, from)])
    case Stored =>
      var row := tx.request.first;
      s.(rows := s.rows[row.id := row], born := s.born[row.id := |s.log|],
         log := s.log + [FirstRow(row.id, row.familyId)])
    case _ =>
      var gone := set k | k in s.rows && s.rows[k].clientId == tx.request.client;
      s.(rows := s.rows - gone, born := s.born - gone,
         log := s.log + [Removal(set k | k in gone :: s.rows[k].familyId)])
  }

  ghost function Apply(env: Env, s: State, step: Step): State
    requires Enabled(s, step)
  {
    match step
    case Begin(id, request, now) =>
      s.(txs := s.txs[id := Tx(request, now, Waiting)],
         families := if request.Redeem? then s.families + {request.first.familyId} else s.families)
    case Run(id, op) => ApplyOp(env, s, id, op)
  }

  // ------------------------------------------------------------- the log

  /** A revocation of the family was committed whose snapshot came after this commit. */
  ghost predicate CoveredSince(log: seq<Commit>, family: Id, position: int) {
    exists j :: 0 <= j < |log| && log[j].Revocation? && log[j].family == family && position < log[j].from
  }

  ghost predicate Removed(log: seq<Commit>, family: Id) {
    exists j :: 0 <= j < |log| && log[j].Removal? && family in log[j].families
  }

  lemma CoveredAppend(log: seq<Commit>, e: Commit, family: Id, position: int)
    ensures CoveredSince(log + [e], family, position) <==>
            CoveredSince(log, family, position) || (e.Revocation? && e.family == family && position < e.from)
  {
    var more := log + [e];
    assert forall j :: 0 <= j < |log| ==> more[j] == log[j];
    assert more[|log|] == e;
  }

  lemma RemovedAppend(log: seq<Commit>, e: Commit, family: Id)
    ensures Removed(log + [e], family) <==> Removed(log, family) || (e.Removal? && family in e.families)
  {
    var more := log + [e];
    assert forall j :: 0 <= j < |log| ==> more[j] == log[j];
    assert more[|log|] == e;
  }

  // ------------------------------------------------------------- the invariant

  /** The commit at this position stored the row. */
  predicate StoredBy(e: Commit, id: Id, family: Id) {
    e == FirstRow(id, family) || (e.Rotation? && e.successor == id && e.family == family)
  }

  /** Rows are filed under their id, in families that were drawn and not removed, one client a family. */
  ghost predicate RowsOk(s: State) {
    && s.born.Keys == s.rows.Keys
    && (forall k :: k in s.rows ==>
          && s.rows[k].id == k && s.rows[k].familyId in s.families && !Removed(s.log, s.rows[k].familyId)
          && -1 <= s.born[k] < |s.log|
          && (s.born[k] >= 0 ==> StoredBy(s.log[s.born[k]], k, s.rows[k].familyId)))
    && (forall a, b ::
        a in s.rows && b in s.rows && s.rows[a].familyId == s.rows[b].familyId ==>
          s.rows[a].clientId == s.rows[b].clientId)
  }

  /** A row stored during the run is revoked exactly if a revocation saw it. */
  ghost predicate RevokedOk(s: State) {
    forall k :: k in s.rows && k in s.born ==>
      && (CoveredSince(s.log, s.rows[k].familyId, s.born[k]) ==> s.rows[k].revokedAt.Some?)
      && (s.born[k] >= 0 && s.rows[k].revokedAt.Some? ==> CoveredSince(s.log, s.rows[k].familyId, s.born[k]))
  }

  /** Until its family is removed, a rotation stays in the rows: the token names its successor, and that is there. */
  ghost predicate RotationOk(s: State, i: int)
    requires 0 <= i < |s.log| && s.log[i].Rotation?
  {
    var e := s.log[i];
    Removed(s.log, e.family) ||
    (&& e.target in s.rows && s.rows[e.target].familyId == e.family && s.rows[e.target].rotatedTo == Some(e.successor)
     && e.successor in s.rows && s.rows[e.successor].familyId == e.family && e.successor in s.born
     && s.born[e.successor] == i)
  }

  /** A token is a row id within its family. */
  predicate SameToken(a: Commit, b: Commit) {
    a.Rotation? && b.Rotation? && a.target == b.target && a.family == b.family
  }

  ghost predicate LogOk(s: State) {
    && (forall i :: 0 <= i < |s.log| && s.log[i].Rotation? ==> RotationOk(s, i))
    && (forall i, j :: 0 <= i < j < |s.log| ==> !SameToken(s.log[i], s.log[j]))
    && (forall i :: 0 <= i < |s.log| && s.log[i].Revocation? ==> s.log[i].from <= i)
    && (forall i :: 0 <= i < |s.log| && s.log[i].Removal? ==> s.log[i].families <= s.families)
  }

  predicate HoldsTarget(phase: Phase) { phase.Locked? || phase.Inserted? || phase.Updated? }

  ghost predicate Holds(s: State, id: TxId, row: Id) { row in s.rows && row in s.locks && s.locks[row] == id }

  /** What a refresh saw under the lock is still what is committed. */
  ghost predicate TargetOk(env: Env, s: State, id: TxId, tx: Tx) {
    HoldsTarget(tx.phase) ==>
      && tx.request.Refresh? && Holds(s, id, tx.request.target) && s.rows[tx.request.target] == tx.phase.seen
      && (!tx.phase.Locked? ==>
            T.CheckUsable(tx.phase.seen, tx.request.client, tx.now).None?
            && tx.phase.successor == Successor(env, tx, tx.phase.seen))
  }

  ghost predicate PrivateOk(s: State, id: TxId, tx: Tx) {
    Private(tx).Some? ==>
      var row := Private(tx).value;
      row.id !in s.rows && !PendingElsewhere(s, id, row.id) && !BeingDeleted(s, row.clientId)
  }

  /** A redemption that may still commit has its family for itself. */
  ghost predicate FreshOk(s: State, id: TxId, tx: Tx) {
    tx.request.Redeem? && (tx.phase.Waiting? || tx.phase.Stored?) ==>
      var family := tx.request.first.familyId;
      && IsFirst(tx.request.first) && family in s.families && !Removed(s.log, family)
      && (forall k :: k in s.rows ==> s.rows[k].familyId != family)
      && (forall other :: other in s.txs && other != id ==> !MayStart(s.txs[other], family))
  }

  /** The rows of the family are in the snapshot, or revoked, or were stored by a rotation since. */
  ghost predicate SnapshotOk(s: State, phase: Phase, k: Id)
    requires phase.Revoking? && k in s.rows && k in s.born
  {
    && (s.rows[k].familyId == phase.family ==>
          if s.born[k] < phase.from then k in phase.snapshot || s.rows[k].revokedAt.Some?
          else s.born[k] < |s.log| && s.log[s.born[k]].Rotation?)
    && (k in phase.snapshot && s.born[k] < phase.from ==> s.rows[k].familyId == phase.family)
  }

  ghost predicate RevokingOk(s: State, id: TxId, tx: Tx) {
    tx.phase.Revoking? ==>
      && Started(s, tx.phase.family) && tx.phase.from <= |s.log|
      && (forall k :: k in s.rows && k in s.born ==> SnapshotOk(s, tx.phase, k))
      && (forall k :: k in tx.phase.locked ==>
            Holds(s, id, k) && k in s.born && s.born[k] < tx.phase.from && s.rows[k].familyId == tx.phase.family)
      && (tx.request.Refresh? ==> tx.request.target in tx.phase.locked && s.rows[tx.request.target].revokedAt.None?)
  }

  ghost predicate DeletingOk(s: State, id: TxId, tx: Tx) {
    tx.phase.Deleting? ==> forall k :: k in tx.phase.locked ==> Holds(s, id, k)
  }

  ghost predicate TxOk(env: Env, s: State, id: TxId)
    requires id in s.txs
  {
    && TargetOk(env, s, id, s.txs[id])
    && PrivateOk(s, id, s.txs[id])
    && FreshOk(s, id, s.txs[id])
    && RevokingOk(s, id, s.txs[id])
    && DeletingOk(s, id, s.txs[id])
  }

  ghost predicate TxsOk(env: Env, s: State) {
    forall id :: id in s.txs ==> TxOk(env, s, id)
  }

  ghost predicate Inv(env: Env, s: State) {
    RowsOk(s) && RevokedOk(s) && LogOk(s) && TxsOk(env, s)
  }

  // ------------------------------------------------------------- runs

  ghost predicate EnabledRun(env: Env, s: State, run: seq<Step>)
    decreases |run|
  {
    run == [] || (Enabled(s, run[0]) && EnabledRun(env, Apply(env, s, run[0]), run[1..]))
  }

  ghost function After(env: Env, s: State, run: seq<Step>): State
    requires EnabledRun(env, s, run)
    decreases |run|
  {
    if run == [] then s else After(env, Apply(env, s, run[0]), run[1..])
  }

  /** Committed rows and no transaction yet. */
  ghost predicate Quiet(s: State) {
    && s.locks == map[] && s.txs == map[] && s.log == []
    && s.born == (map k | k in s.rows :: -1)
    && (forall k :: k in s.rows ==> s.rows[k].id == k && s.rows[k].familyId in s.families)
    && (forall a, b ::
        a in s.rows && b in s.rows && s.rows[a].familyId == s.rows[b].familyId ==>
          s.rows[a].clientId == s.rows[b].clientId)
  }

  /** A state some interleaving leads to. */
  ghost predicate Reachable(env: Env, s: State) {
    exists s0, run :: Quiet(s0) && EnabledRun(env, s0, run) && s == After(env, s0, run)
  }
}
