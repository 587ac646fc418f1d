/** A concrete interleaving in which a replay does not kill its family. */
module EscapedSuccessor {
  import opened Wrappers
  import opened Schema
  import opened RowLocks
  import opened LockDiscipline
  import T = TokenEndpoint

  const FAMILY: Id := 7
  const OWNER: Id := 5

  /** A family of two rows: the token with id 1 was rotated to the one with id 2. */
  function StoredRow(id: Id, successor: Option<Id>): RefreshToken {
    RefreshToken(id, "", FAMILY, None, OWNER, 0, "", 0, 100, 0, None, successor)
  }

  const OLD: RefreshToken := StoredRow(1, Some(2))
  const CURRENT: RefreshToken := StoredRow(2, None)
  const FRESH: Fresh := Fresh(3, "", 0, 0)

  /** One transaction refreshes the current token, the other replays the old one; now is 0 for both. */
  const REFRESHER: TxId := 0
  const REPLAYER: TxId := 1

  function Refresher(phase: Phase): Tx { Tx(Refresh(OWNER, 2, FRESH), 0, phase) }
  function Replayer(phase: Phase): Tx { Tx(Refresh(OWNER, 1, FRESH), 0, phase) }

  function With(rows: map<Id, RefreshToken>, born: map<Id, int>, locks: map<Id, TxId>, a: Phase, b: Phase,
                log: seq<Commit>): State {
    State(rows, born, locks, map[REFRESHER := Refresher(a), REPLAYER := Replayer(b)], {FAMILY}, log)
  }

  const ROWS: map<Id, RefreshToken> := map[1 := OLD, 2 := CURRENT]
  const BORN: map<Id, int> := map[1 := -1, 2 := -1]

  function New(env: Env): RefreshToken { Successor(env, Refresher(Waiting), CURRENT) }

  const BEFORE: State := State(ROWS, BORN, map[], map[], {FAMILY}, [])
  const ARRIVED: State := With(ROWS, BORN, map[], Waiting, Waiting, [])

  function Refreshing(env: Env): State {
    With(ROWS, BORN, map[2 := REFRESHER], Inserted(CURRENT, New(env)), Waiting, [])
  }

  function Both(env: Env): State {
    With(ROWS, BORN, map[2 := REFRESHER, 1 := REPLAYER], Inserted(CURRENT, New(env)),
         Revoking(FAMILY, 0, {1, 2}, {1}), [])
  }

  function Rotated(env: Env): State {
    With(map[1 := OLD, 2 := CURRENT.(rotatedTo := Some(3)), 3 := New(env)], map[1 := -1, 2 := -1, 3 := 0],
         map[1 := REPLAYER], Committed, Revoking(FAMILY, 0, {1, 2}, {1}), [Rotation(2, 3, FAMILY)])
  }

  function Pointed(env: Env): State {
    With(ROWS, BORN, map[2 := REFRESHER, 1 := REPLAYER], Updated(CURRENT, New(env)),
         Revoking(FAMILY, 0, {1, 2}, {1}), [])
  }

  function AllLocked(env: Env): State {
    With(Rotated(env).rows, Rotated(env).born, map[1 := REPLAYER, 2 := REPLAYER],
         Committed, Revoking(FAMILY, 0, {1, 2}, {1, 2}), [Rotation(2, 3, FAMILY)])
  }

  function Left(env: Env): State {
    With(map[1 := Revoked(OLD, 0), 2 := Revoked(CURRENT.(rotatedTo := Some(3)), 0), 3 := New(env)],
         map[1 := -1, 2 := -1, 3 := 0], map[], Committed, Committed, [Rotation(2, 3, FAMILY), Revocation(FAMILY, 0)])
  }

  /** Both steps in turn lead from s to s'. */
  ghost predicate Leads(env: Env, s: State, a: Step, b: Step, s': State) {
    Enabled(s, a) && Enabled(Apply(env, s, a), b) && Apply(env, Apply(env, s, a), b) == s'
  }

  lemma BothArrive(env: Env)
    ensures Leads(env, BEFORE, Begin(REFRESHER, Refresh(OWNER, 2, FRESH), 0),
                  Begin(REPLAYER, Refresh(OWNER, 1, FRESH), 0), ARRIVED)
  {
  }

  lemma SuccessorIsInserted(env: Env)
    ensures Leads(env, ARRIVED, Run(REFRESHER, Lock), Run(REFRESHER, Insert), Refreshing(env))
  {
  }

  lemma SnapshotIsTaken(env: Env)
    ensures Leads(env, Refreshing(env), Run(REPLAYER, Lock), Run(REPLAYER, StartRevoke), Both(env))
  {
    assert UnrevokedOf(ROWS, FAMILY) == {1, 2};
  }

  lemma NewFacts(env: Env)
    ensures New(env).id == 3 && New(env).familyId == FAMILY
  {
  }

  lemma SuccessorIsCommitted(env: Env)
    ensures Leads(env, Both(env), Run(REFRESHER, Update), Run(REFRESHER, Finish), Rotated(env))
  {
    assert EnabledOp(Both(env), REFRESHER, Update) && Apply(env, Both(env), Run(REFRESHER, Update)) == Pointed(env);
    CommitsRotation(env);
    hide EnabledOp, ApplyOp;
  }

  lemma CommitsRotation(env: Env)
    ensures EnabledOp(Pointed(env), REFRESHER, Finish) && ApplyOp(env, Pointed(env), REFRESHER, Finish) == Rotated(env)
  {
    NewFacts(env);
    hide New, T.CheckUsable, UnrevokedOf, PendingElsewhere, PendingFor, BeingDeleted, Started;
    assert Released(Pointed(env), REFRESHER) == map[1 := REPLAYER];
    assert Finished(Pointed(env), REFRESHER).rows == Rotated(env).rows
           && Finished(Pointed(env), REFRESHER).born == Rotated(env).born;
  }

  lemma ReplayIsCommitted(env: Env)
    ensures Leads(env, Rotated(env), Run(REPLAYER, LockRow(2)), Run(REPLAYER, Finish), Left(env))
  {
    LocksLastRow(env);
    CommitsReplay(env);
    hide EnabledOp, ApplyOp;
  }

  lemma LocksLastRow(env: Env)
    ensures EnabledOp(Rotated(env), REPLAYER, LockRow(2))
            && ApplyOp(env, Rotated(env), REPLAYER, LockRow(2)) == AllLocked(env)
  {
    hide New, T.CheckUsable, UnrevokedOf, PendingElsewhere, PendingFor, BeingDeleted, Started;
    assert {1} + {2} == {1, 2};
    assert map[1 := REPLAYER][2 := REPLAYER] == map[1 := REPLAYER, 2 := REPLAYER];
  }

  lemma ReplayMayCommit(env: Env)
    ensures EnabledOp(AllLocked(env), REPLAYER, Finish)
  {
    hide New, T.CheckUsable, UnrevokedOf, PendingElsewhere, PendingFor, BeingDeleted, Started;
  }

  lemma CommitsReplay(env: Env)
    ensures EnabledOp(AllLocked(env), REPLAYER, Finish) && ApplyOp(env, AllLocked(env), REPLAYER, Finish) == Left(env)
  {
    ReplayMayCommit(env);
    hide New, EnabledOp;
    assert Released(AllLocked(env), REPLAYER) == map[];
    assert Finished(AllLocked(env), REPLAYER).rows == Left(env).rows;
  }

  const COMMIT_REPLAY: seq<Step> := [Run(REPLAYER, LockRow(2)), Run(REPLAYER, Finish)]
  const COMMIT_SUCCESSOR: seq<Step> := [Run(REFRESHER, Update), Run(REFRESHER, Finish)] + COMMIT_REPLAY
  const TAKE_SNAPSHOT: seq<Step> := [Run(REPLAYER, Lock), Run(REPLAYER, StartRevoke)] + COMMIT_SUCCESSOR
  const INSERT_SUCCESSOR: seq<Step> := [Run(REFRESHER, Lock), Run(REFRESHER, Insert)] + TAKE_SNAPSHOT

  /** The successor is inserted, the replay takes its snapshot, the successor is committed, and then the replay. */
  const ESCAPE: seq<Step> :=
    [Begin(REFRESHER, Refresh(OWNER, 2, FRESH), 0), Begin(REPLAYER, Refresh(OWNER, 1, FRESH), 0)] + INSERT_SUCCESSOR

  lemma TwoMore(env: Env, s: State, a: Step, b: Step, s': State, rest: seq<Step>)
    requires Leads(env, s, a, b, s') && EnabledRun(env, s', rest)
    ensures EnabledRun(env, s, [a, b] + rest) && After(env, s, [a, b] + rest) == After(env, s', rest)
  {
    hide Enabled, Apply;
    assert [a, b] + rest == [a] + ([b] + rest);
    OneMore(env, s', Apply(env, s, a), b, rest);
    OneMore(env, Apply(env, s, a), s, a, [b] + rest);
  }

  lemma EscapeRuns(env: Env)
    ensures EnabledRun(env, BEFORE, ESCAPE) && After(env, BEFORE, ESCAPE) == Left(env)
  {
    hide Leads, EnabledRun, After, BEFORE, ARRIVED, Refreshing, Both, Rotated, Left;
    BothArrive(env);
    SuccessorIsInserted(env);
    SnapshotIsTaken(env);
    SuccessorIsCommitted(env);
    ReplayIsCommitted(env);
    NothingMore(env, Left(env));
    assert COMMIT_REPLAY == COMMIT_REPLAY + [];
    TwoMore(env, Rotated(env), Run(REPLAYER, LockRow(2)), Run(REPLAYER, Finish), Left(env), []);
    TwoMore(env, Both(env), Run(REFRESHER, Update), Run(REFRESHER, Finish), Rotated(env), COMMIT_REPLAY);
    TwoMore(env, Refreshing(env), Run(REPLAYER, Lock), Run(REPLAYER, StartRevoke), Both(env), COMMIT_SUCCESSOR);
    TwoMore(env, ARRIVED, Run(REFRESHER, Lock), Run(REFRESHER, Insert), Refreshing(env), TAKE_SNAPSHOT);
    TwoMore(env, BEFORE, Begin(REFRESHER, Refresh(OWNER, 2, FRESH), 0), Begin(REPLAYER, Refresh(OWNER, 1, FRESH), 0),
            ARRIVED, INSERT_SUCCESSOR);
  }

  lemma NothingMore(env: Env, s: State)
    ensures EnabledRun(env, s, []) && After(env, s, []) == s
  {
  }

  /**
   * A replay that is detected and committed need not kill its family: in this run the two rows
   * it saw are revoked, and the successor it could not see is usable by its client.
   */
  lemma SuccessorEscapes(env: Env)
    ensures Quiet(BEFORE) && EnabledRun(env, BEFORE, ESCAPE)
    ensures var s := After(env, BEFORE, ESCAPE);
            && s.log == [Rotation(2, 3, FAMILY), Revocation(FAMILY, 0)]
            && s.rows.Keys == {1, 2, 3} && s.rows[1].revokedAt.Some? && s.rows[2].revokedAt.Some?
            && s.rows[3].familyId == FAMILY && T.CheckUsable(s.rows[3], OWNER, 0).None?
  {
    EscapeRuns(env);
  }
}
