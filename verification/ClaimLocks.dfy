/**
 * Concurrent redemptions of authorization codes, statement by statement, with the first row of
 * the token family in the same transaction.
 *
 * The claim is one UPDATE with the condition `used_at IS NULL`: it waits for the row lock, then
 * re-checks the condition against the committed row. Claim and first row become visible together
 * at commit; an internal error aborts and undoes both. Codes are issued meanwhile, and clients
 * deleted with their codes.
 */
module ClaimLocks {
  import opened Wrappers
  import opened Schema
  import opened Statements

  type TxId = nat

  datatype Request = Redeem(target: Id) | Delete(client: Id)

  datatype Phase =
    | Waiting
    | Claimed(seen: Code)
    | Stored(seen: Code, first: RefreshToken)
    | Missed(seen: Code)
    | Deleting(locked: set<Id>)
    | Committed
    | Aborted

  datatype Tx = Tx(request: Request, now: Time, phase: Phase)

  /** What a commit did: a redemption, with the family it began, a replay, or a deletion. */
  datatype Commit = Redeemed(code: Id, family: Option<Id>) | Replayed(code: Id) | Removed(codes: set<Id>)

  /** `issued` and `families` hold every id ever drawn; `spent` the codes that were used before. */
  datatype State = State(
    codes: map<Id, Code>,
    locks: map<Id, TxId>,
    txs: map<TxId, Tx>,
    issued: set<Id>,
    families: set<Id>,
    spent: set<Id>,
    log: seq<Commit>)

  datatype Step =
    | Issue(code: Code)
    | Begin(tx: TxId, request: Request, now: Time)
    | Claim(tx: TxId)
    | Store(tx: TxId, first: RefreshToken)
    | StartDelete(tx: TxId)
    | LockCode(tx: TxId, id: Id)
    | Finish(tx: TxId)
    | Abort(tx: TxId)

  predicate OfClient(s: State, code: Id, client: Id) { code in s.codes && s.codes[code].clientId == client }

  ghost predicate Enabled(s: State, step: Step) {
    match step
    case Issue(code) => code.id !in s.issued && code.usedAt.None?
    case Begin(id, _, _) => id !in s.txs
    case Claim(id) =>
      && id in s.txs && s.txs[id].request.Redeem? && s.txs[id].phase.Waiting?
      && s.txs[id].request.target in s.codes && s.txs[id].request.target !in s.locks
    case Store(id, first) =>
      && id in s.txs && s.txs[id].request.Redeem? && s.txs[id].phase.Claimed?
      && first.codeId == Some(s.txs[id].request.target) && first.familyId !in s.families
    case StartDelete(id) => id in s.txs && s.txs[id].request.Delete? && s.txs[id].phase.Waiting?
    case LockCode(id, code) =>
      && id in s.txs && s.txs[id].request.Delete? && s.txs[id].phase.Deleting?
      && OfClient(s, code, s.txs[id].request.client) && code !in s.locks
    case Finish(id) =>
      id in s.txs &&
      (var tx := s.txs[id];
       || (tx.request.Redeem? && (tx.phase.Claimed? || tx.phase.Stored? || tx.phase.Missed?))
       || (tx.request.Delete? && tx.phase.Deleting?
           && forall code :: OfClient(s, code, tx.request.client) ==> code in tx.phase.locked))
    case Abort(id) => id in s.txs && !s.txs[id].phase.Committed? && !s.txs[id].phase.Aborted?
  }

  function Used(code: Code, now: Time): Code { code.(usedAt := Some(now)) }

  function Moved(s: State, id: TxId, phase: Phase): map<TxId, Tx>
    requires id in s.txs
  {
    s.txs[id := s.txs[id].(phase := phase)]
  }

  function Released(s: State, tx: TxId): map<Id, TxId> {
    map code | code in s.locks && s.locks[code] != tx :: s.locks[code]
  }

  ghost function Finished(s: State, id: TxId): State
    requires Enabled(s, Finish(id))
  {
    var tx := s.txs[id];
    match tx.phase
    case Claimed(seen) =>
      s.(codes := s.codes[tx.request.target := Used(seen, tx.now)], log := s.log + [Redeemed(tx.request.target, None)])
    case Stored(seen, first) =>
      s.(codes := s.codes[tx.request.target := Used(seen, tx.now)],
         log := s.log + [Redeemed(tx.request.target, Some(first.familyId))])
    case Missed(_) => s.(log := s.log + [Replayed(tx.request.target)])
    case _ =>
      var gone := set code | code in s.codes && s.codes[code].clientId == tx.request.client;
      s.(codes := s.codes - gone, log := s.log + [Removed(gone)])
  }

  ghost function Apply(s: State, step: Step): State
    requires Enabled(s, step)
  {
    match step
    case Issue(code) => s.(codes := s.codes[code.id := code], issued := s.issued + {code.id})
    case Begin(id, request, now) => s.(txs := s.txs[id := Tx(request, now, Waiting)])
    case Claim(id) =>
      var target := s.txs[id].request.target;
      var seen := s.codes[target];
      if seen.usedAt.None? then s.(locks := s.locks[target := id], txs := Moved(s, id, Claimed(seen)))
      else s.(txs := Moved(s, id, Missed(seen)))
    case Store(id, first) =>
      s.(txs := Moved(s, id, Stored(s.txs[id].phase.seen, first)), families := s.families + {first.familyId})
    case StartDelete(id) => s.(txs := Moved(s, id, Deleting({})))
    case LockCode(id, code) =>
      s.(locks := s.locks[code := id], txs := Moved(s, id, Deleting(s.txs[id].phase.locked + {code})))
    case Finish(id) => Finished(s, id).(locks := Released(s, id), txs := Moved(s, id, Committed))
    case Abort(id) => s.(locks := Released(s, id), txs := Moved(s, id, Aborted))
  }

  // ------------------------------------------------------------- the invariant

  ghost predicate Holds(s: State, id: TxId, code: Id) { code in s.codes && code in s.locks && s.locks[code] == id }

  /** A claim under way holds its row, which is unused; its family is its own. */
  ghost predicate ClaimOk(s: State, id: TxId)
    requires id in s.txs
  {
    var tx := s.txs[id];
    && (tx.phase.Claimed? || tx.phase.Stored? ==>
          && tx.request.Redeem? && Holds(s, id, tx.request.target)
          && s.codes[tx.request.target] == tx.phase.seen && tx.phase.seen.usedAt.None?)
    && (tx.phase.Stored? ==>
          && tx.phase.first.codeId == Some(tx.request.target) && tx.phase.first.familyId in s.families
          && (forall i :: 0 <= i < |s.log| ==> !Begins(s.log[i], tx.phase.first.familyId))
          && (forall other :: other in s.txs && other != id && s.txs[other].phase.Stored? ==>
                s.txs[other].phase.first.familyId != tx.phase.first.familyId))
    && (tx.phase.Missed? ==> tx.phase.seen.usedAt.Some?)
    && (tx.phase.Deleting? ==> forall code :: code in tx.phase.locked ==> Holds(s, id, code))
  }

  predicate Begins(e: Commit, family: Id) { e.Redeemed? && e.family == Some(family) }

  predicate Redeems(e: Commit, code: Id) { e.Redeemed? && e.code == code }

  ghost predicate IsRedeemed(log: seq<Commit>, code: Id) {
    exists i :: 0 <= i < |log| && Redeems(log[i], code)
  }

  /** A code that was redeemed is used, or gone for good; and only such codes are used. */
  ghost predicate CodesOk(s: State) {
    && s.codes.Keys <= s.issued
    && (forall code :: code in s.codes ==> s.codes[code].id == code)
    && (forall i :: 0 <= i < |s.log| && s.log[i].Redeemed? ==>
          s.log[i].code in s.issued && (s.log[i].code in s.codes ==> s.codes[s.log[i].code].usedAt.Some?))
    && (forall code :: code in s.codes && s.codes[code].usedAt.Some? ==> code in s.spent || IsRedeemed(s.log, code))
  }

  ghost predicate LogOk(s: State) {
    && (forall i, j ::
        0 <= i < j < |s.log| && s.log[i].Redeemed? && s.log[j].Redeemed? ==> s.log[i].code != s.log[j].code)
    && (forall i, j :: 0 <= i < j < |s.log| && s.log[i].Redeemed? && s.log[j].Redeemed? && s.log[i].family.Some? ==>
          s.log[i].family != s.log[j].family)
    && (forall i ::
        0 <= i < |s.log| && s.log[i].Redeemed? && s.log[i].family.Some? ==> s.log[i].family.value in s.families)
  }

  ghost predicate Inv(s: State) {
    CodesOk(s) && LogOk(s) && forall id :: id in s.txs ==> ClaimOk(s, id)
  }

  lemma RedeemedAppend(log: seq<Commit>, e: Commit, code: Id)
    ensures IsRedeemed(log + [e], code) <==> IsRedeemed(log, code) || Redeems(e, code)
  {
    var more := log + [e];
    assert forall i :: 0 <= i < |log| ==> more[i] == log[i];
    assert more[|log|] == e;
  }

  lemma QuietStepKeepsCodes(s: State, step: Step)
    requires CodesOk(s) && LogOk(s) && Enabled(s, step) && !step.Finish?
    ensures CodesOk(Apply(s, step)) && LogOk(Apply(s, step))
  {
    hide IsRedeemed;
  }

  lemma StoreKeeps(s: State, step: Step)
    requires Inv(s) && Enabled(s, step) && step.Store?
    ensures forall id :: id in s.txs ==> ClaimOk(Apply(s, step), id)
  {
    hide CodesOk, IsRedeemed;
    forall id | id in s.txs ensures ClaimOk(Apply(s, step), id) {
      assert ClaimOk(s, id);
    }
  }

  lemma OtherStepKeeps(s: State, step: Step)
    requires Inv(s) && Enabled(s, step) && !step.Finish? && !step.Store?
    ensures forall id :: id in Apply(s, step).txs ==> ClaimOk(Apply(s, step), id)
  {
    hide IsRedeemed, LogOk, Begins;
    var s' := Apply(s, step);
    forall id | id in s'.txs ensures ClaimOk(s', id) {
      if id in s.txs {
        assert ClaimOk(s, id);
      }
    }
  }

  lemma QuietStepKeeps(s: State, step: Step)
    requires Inv(s) && Enabled(s, step) && !step.Finish?
    ensures Inv(Apply(s, step))
  {
    QuietStepKeepsCodes(s, step);
    hide CodesOk, LogOk, ClaimOk;
    if step.Store? {
      StoreKeeps(s, step);
      assert Apply(s, step).txs.Keys == s.txs.Keys;
    } else {
      OtherStepKeeps(s, step);
    }
  }

  lemma RedemptionKeeps(s: State, id: TxId)
    requires Inv(s) && Enabled(s, Finish(id)) && (s.txs[id].phase.Claimed? || s.txs[id].phase.Stored?)
    ensures Inv(Apply(s, Finish(id)))
  {
    var s' := Apply(s, Finish(id));
    hide IsRedeemed;
    assert ClaimOk(s, id);
    forall code | code in s'.codes && s'.codes[code].usedAt.Some? ensures code in s'.spent || IsRedeemed(s'.log, code) {
      RedeemedAppend(s.log, s'.log[|s.log|], code);
    }
    forall other | other in s'.txs ensures ClaimOk(s', other) {
      assert ClaimOk(s, other);
    }
  }

  lemma OtherFinishKeeps(s: State, id: TxId)
    requires Inv(s) && Enabled(s, Finish(id)) && (s.txs[id].phase.Missed? || s.txs[id].phase.Deleting?)
    ensures Inv(Apply(s, Finish(id)))
  {
    var s' := Apply(s, Finish(id));
    hide IsRedeemed;
    assert ClaimOk(s, id);
    forall code | code in s.codes && !Holds(s, id, code) ensures code in s'.codes {
      if s.txs[id].phase.Deleting? {
        assert OfClient(s, code, s.txs[id].request.client) ==> Holds(s, id, code);
      }
    }
    forall code | code in s'.codes && s'.codes[code].usedAt.Some? ensures code in s'.spent || IsRedeemed(s'.log, code) {
      RedeemedAppend(s.log, s'.log[|s.log|], code);
    }
    forall other | other in s'.txs ensures ClaimOk(s', other) {
      assert ClaimOk(s, other);
    }
  }

  lemma StepKeeps(s: State, step: Step)
    requires Inv(s) && Enabled(s, step)
    ensures Inv(Apply(s, step))
  {
    if !step.Finish? {
      QuietStepKeeps(s, step);
    } else if s.txs[step.tx].phase.Claimed? || s.txs[step.tx].phase.Stored? {
      RedemptionKeeps(s, step.tx);
    } else {
      OtherFinishKeeps(s, step.tx);
    }
    hide Inv, Apply;
  }

  // ------------------------------------------------------------- runs

  ghost predicate EnabledRun(s: State, run: seq<Step>)
    decreases |run|
  {
    run == [] || (Enabled(s, run[0]) && EnabledRun(Apply(s, run[0]), run[1..]))
  }

  ghost function After(s: State, run: seq<Step>): State
    requires EnabledRun(s, run)
    decreases |run|
  {
    if run == [] then s else After(Apply(s, run[0]), run[1..])
  }

  /** Committed codes, some of them used, and no transaction yet. */
  ghost predicate Quiet(s: State) {
    && s.locks == map[] && s.txs == map[] && s.log == [] && s.codes.Keys <= s.issued
    && s.spent == (set code | code in s.codes && s.codes[code].usedAt.Some?)
    && forall code :: code in s.codes ==> s.codes[code].id == code
  }

  lemma {:induction false} RunKeeps(s: State, run: seq<Step>)
    requires Inv(s) && EnabledRun(s, run)
    ensures Inv(After(s, run)) && After(s, run).spent == s.spent
    decreases |run|
  {
    hide Inv, Enabled;
    if run != [] {
      StepKeeps(s, run[0]);
      RunKeeps(Apply(s, run[0]), run[1..]);
    }
  }

  /** A state some interleaving leads to. */
  ghost predicate Reachable(s: State) {
    exists s0, run :: Quiet(s0) && EnabledRun(s0, run) && s == After(s0, run)
  }

  lemma ReachableInv(s: State)
    requires Reachable(s)
    ensures Inv(s)
  {
    hide EnabledRun, After;
    var s0, run :| Quiet(s0) && EnabledRun(s0, run) && s == After(s0, run);
    RunKeeps(s0, run);
  }

  // ------------------------------------------------------------- results

  /**
   * At most one redemption is committed for a code, under every interleaving, and so a code
   * begins at most one family; and no two redemptions begin the same.
   */
  lemma AtMostOneFamily(s: State, i: nat, j: nat)
    requires Reachable(s) && i < |s.log| && j < |s.log| && i != j && s.log[i].Redeemed? && s.log[j].Redeemed?
    ensures s.log[i].code != s.log[j].code
    ensures s.log[i].family.Some? ==> s.log[i].family != s.log[j].family
  {
    hide Reachable, CodesOk;
    ReachableInv(s);
    assert i < j || j < i;
  }

  /** Once a redemption is committed, every later claim of that code misses and sees it used: the replay branch. */
  lemma LateClaimMisses(s: State, id: TxId, i: nat)
    requires Reachable(s) && Enabled(s, Claim(id)) && i < |s.log| && Redeems(s.log[i], s.txs[id].request.target)
    ensures var tx := Apply(s, Claim(id)).txs[id];
            tx.phase.Missed? && tx.phase.seen == s.codes[tx.request.target] && tx.phase.seen.usedAt.Some?
  {
    hide Reachable, LogOk;
    ReachableInv(s);
  }

  /**
   * And only then: a claim misses exactly if the code was used before, or a redemption of it is
   * committed, its family with it. So whoever revokes for a replayed code finds the family begun.
   */
  lemma MissesExactly(s: State, id: TxId)
    requires Reachable(s) && Enabled(s, Claim(id)) && s.txs[id].request.target !in s.spent
    ensures Apply(s, Claim(id)).txs[id].phase.Missed? <==> IsRedeemed(s.log, s.txs[id].request.target)
  {
    hide Reachable, LogOk;
    ReachableInv(s);
  }

  /** While a claim is under way no other can be made; if it aborts, the code is as good as new, and no family began. */
  lemma AbortedClaimIsUndone(s: State, holder: TxId, next: TxId)
    requires Reachable(s) && holder in s.txs && (s.txs[holder].phase.Claimed? || s.txs[holder].phase.Stored?)
    requires next in s.txs && s.txs[next].request.Redeem? && s.txs[next].phase.Waiting?
    requires s.txs[holder].request.Redeem? && s.txs[next].request.target == s.txs[holder].request.target
    ensures !Enabled(s, Claim(next))
    ensures var s' := Apply(s, Abort(holder));
            && s'.codes == s.codes && s'.log == s.log
            && Enabled(s', Claim(next)) && Apply(s', Claim(next)).txs[next].phase.Claimed?
  {
    hide Reachable, LogOk, CodesOk;
    ReachableInv(s);
    assert ClaimOk(s, holder);
  }

  /** Refinement: a committed claim is the atomic claim statement of the endpoint model, at that instant. */
  lemma CommitIsAtomicClaim(s: State, id: TxId, t: Tables)
    requires Reachable(s) && Enabled(s, Finish(id)) && Constraints(t) && t.codes == s.codes
    requires s.txs[id].phase.Claimed? || s.txs[id].phase.Stored?
    ensures var tx := s.txs[id];
            var (t', claimed) := ClaimCode(t, tx.phase.seen.codeHash, tx.now);
            t'.codes == Apply(s, Finish(id)).codes && claimed == Some(Used(tx.phase.seen, tx.now))
  {
    hide Reachable, LogOk;
    ReachableInv(s);
    assert ClaimOk(s, id);
    FindCode(t, s.txs[id].request.target);
  }
}
