/** No protected file is ever deleted, over every interleaving; a deposed worker writes
    no row; and exactly when a release would break the first of these. */
module CleanupSafety {
  import opened Wrappers
  import opened CleanupRows
  import opened CleanupWorld

  // ---- the invariant -----------------------------------------------------------------------

  /** An outstanding DELETE implies an unfinished claim or an absent object; an unfinished
      claim implies unprotected; a recorded deletion is true. */
  ghost predicate RowInv(w: World, s: SubmissionId)
    requires s in w.rows
  {
    && w.rows[s].claim in w.statuses
    && (Unfinished(w.rows[s]) ==> !Protected(w, s))
    && (s in w.wire && s in w.objects ==> Unfinished(w.rows[s]))
    && (w.rows[s].deletedAt.Some? ==> s !in w.objects)
    && (w.rows[s].token.Some? ==> w.rows[s].token.value < w.next)
  }

  /** A worker that may still send a DELETE is covered by an unfinished claim. */
  ghost predicate WorkerInv(w: World, k: Token)
    requires k in w.workers
  {
    var s := w.workers[k].submission;
    && k < w.next
    && s in w.rows
    && (w.workers[k].stage.Claimed? && s in w.objects ==> Unfinished(w.rows[s]))
    && (w.workers[k].stage.Sent? ==> s in w.wire)
    && (w.workers[k].stage.Settled? ==> s !in w.objects)
  }

  ghost predicate HoldsItsLocks(w: World, t: Token)
    requires t in w.txs
  {
    var x := w.txs[t];
    && (LocksRow(x.kind) && !x.phase.Opened? ==>
          x.kind.submission in w.submissionLocks && w.submissionLocks[x.kind.submission] == t)
    && (LocksClaim(x.kind) && (x.phase.ClaimLocked? || x.phase.Passed?) ==>
          ClaimOf(w, x.kind).Some? && ClaimOf(w, x.kind).value in w.claimLocks && w.claimLocks[ClaimOf(w, x.kind).value] == t)
  }

  /** What a transaction found under its locks still holds when it commits. */
  ghost predicate TxInv(w: World, t: Token)
    requires t in w.txs
  {
    var x := w.txs[t];
    && t < w.next && t !in w.workers
    && ClaimOf(w, x.kind).Some? && ClaimOf(w, x.kind).value in w.statuses
    && (LocksRow(x.kind) ==> x.kind.submission in w.rows)
    && HoldsItsLocks(w, t)
    && (x.phase.Passed? && x.kind.Cleaning? ==>
          && !Protected(w, x.kind.submission) && w.rows[x.kind.submission].deletedAt.None?
          && !LeaseLive(w.rows[x.kind.submission], x.kind.now))
    && (x.phase.Passed? && (x.kind.Validating? || x.kind.Reviewing?) ==> Unclaimed(w, ClaimOf(w, x.kind).value))
    && (x.phase.Passed? && x.kind.Holding? ==> !Unfinished(w.rows[x.kind.submission]))
  }

  ghost predicate Unclaimed(w: World, c: ClaimId) {
    forall s :: s in w.rows && w.rows[s].claim == c ==> !Unfinished(w.rows[s])
  }

  ghost predicate Inv(w: World) {
    && w.wire <= w.rows.Keys && w.objects <= w.rows.Keys
    && (forall s :: s in w.rows ==> RowInv(w, s))
    && (forall k :: k in w.workers ==> WorkerInv(w, k))
    && (forall t :: t in w.txs ==> TxInv(w, t))
  }

  /** Releasing hands the row back with nobody left who could still delete its object. */
  ghost predicate SafeToRelease(w: World, k: Token)
    requires k in w.workers
  {
    var s := w.workers[k].submission;
    s in w.objects ==>
      s !in w.wire && forall j :: j in w.workers && j != k && w.workers[j].submission == s ==> !w.workers[j].stage.Claimed?
  }

  ghost predicate Careful(w: World, step: Step) {
    step.Release? && step.worker in w.workers && Rewrites(w, step.worker) ==> SafeToRelease(w, step.worker)
  }

  /** The worker's release or mark would match the row. */
  ghost predicate Rewrites(w: World, k: Token)
    requires k in w.workers
  {
    w.workers[k].submission in w.rows && Owns(w.rows[w.workers[k].submission], k)
  }

  // ---- every step keeps it -------------------------------------------------------------------

  lemma OpeningKeeps(w: World, step: Step)
    requires Inv(w) && Enabled(w, step) && (step.Begin? || step.LockSubmission? || step.LockClaim?)
    ensures Inv(Apply(w, step))
  {
    var v := Apply(w, step);
    forall t | t in v.txs ensures TxInv(v, t) {
      if t in w.txs {
        assert TxInv(w, t);
      }
    }
    forall k | k in v.workers ensures WorkerInv(v, k) { assert WorkerInv(w, k); }
    forall s | s in v.rows ensures RowInv(v, s) { assert RowInv(w, s); }
  }

  lemma EndKeeps(w: World, t: Token)
    requires Inv(w) && t in w.txs
    ensures Inv(End(w, t))
  {
    var v := End(w, t);
    forall u | u in v.txs ensures TxInv(v, u) { assert TxInv(w, u); }
    forall k | k in v.workers ensures WorkerInv(v, k) { assert WorkerInv(w, k); }
    forall s | s in v.rows ensures RowInv(v, s) { assert RowInv(w, s); }
  }

  lemma PassingKeeps(w: World, t: Token)
    requires Inv(w) && Enabled(w, Check(t))
    ensures Inv(Apply(w, Check(t)))
  {
    if GuardHolds(w, w.txs[t].kind) {
      var v := Apply(w, Check(t));
      assert TxInv(w, t);
      forall u | u in v.txs ensures TxInv(v, u) { assert TxInv(w, u); }
      forall k | k in v.workers ensures WorkerInv(v, k) { assert WorkerInv(w, k); }
      forall s | s in v.rows ensures RowInv(v, s) { assert RowInv(w, s); }
    } else {
      EndKeeps(w, t);
    }
  }

  /** The claim transaction commits: both locks were held since its guard read the rows,
      so no protection committed in between. */
  lemma ClaimCommitKeeps(w: World, t: Token, lease: nat)
    requires Inv(w) && Enabled(w, Commit(t, lease)) && w.txs[t].kind.Cleaning?
    ensures Inv(Apply(w, Commit(t, lease)))
  {
    var v := Apply(w, Commit(t, lease));
    assert TxInv(w, t);
    forall u | u in v.txs ensures TxInv(v, u) { assert TxInv(w, u); }
    forall k | k in v.workers ensures WorkerInv(v, k) { if k in w.workers { assert WorkerInv(w, k); } }
    forall s | s in v.rows ensures RowInv(v, s) { assert RowInv(w, s); }
  }

  /** A protection commits: the claim row it holds is one every cleanup claim needs. */
  lemma ProtectionCommitKeeps(w: World, t: Token, lease: nat)
    requires Inv(w) && Enabled(w, Commit(t, lease)) && (w.txs[t].kind.Validating? || w.txs[t].kind.Reviewing?)
    ensures Inv(Apply(w, Commit(t, lease)))
  {
    var v := Apply(w, Commit(t, lease));
    assert TxInv(w, t);
    forall u | u in v.txs ensures TxInv(v, u) { assert TxInv(w, u); }
    forall k | k in v.workers ensures WorkerInv(v, k) { assert WorkerInv(w, k); }
    forall s | s in v.rows ensures RowInv(v, s) { assert RowInv(w, s); }
  }

  lemma HoldCommitKeeps(w: World, t: Token, lease: nat)
    requires Inv(w) && Enabled(w, Commit(t, lease)) && w.txs[t].kind.Holding?
    ensures Inv(Apply(w, Commit(t, lease)))
  {
    var v := Apply(w, Commit(t, lease));
    assert TxInv(w, t);
    forall u | u in v.txs ensures TxInv(v, u) { assert TxInv(w, u); }
    forall k | k in v.workers ensures WorkerInv(v, k) { assert WorkerInv(w, k); }
    forall s | s in v.rows ensures RowInv(v, s) { assert RowInv(w, s); }
  }

  lemma ProviderStepKeeps(w: World, step: Step)
    requires Inv(w) && Enabled(w, step)
    requires step.HeadMissing? || step.Send? || step.Confirmed? || step.ProviderFails? || step.TakesEffect?
    ensures Inv(Apply(w, step))
  {
    var v := Apply(w, step);
    if !step.TakesEffect? {
      assert WorkerInv(w, step.worker);
    }
    forall t | t in v.txs ensures TxInv(v, t) { assert TxInv(w, t); }
    forall k | k in v.workers ensures WorkerInv(v, k) { assert WorkerInv(w, k); }
    forall s | s in v.rows ensures RowInv(v, s) { assert RowInv(w, s); }
  }

  lemma MarkKeeps(w: World, k: Token, at: int)
    requires Inv(w) && Enabled(w, Mark(k, at))
    ensures Inv(Apply(w, Mark(k, at)))
  {
    var v := Apply(w, Mark(k, at));
    assert WorkerInv(w, k);
    forall t | t in v.txs ensures TxInv(v, t) { assert TxInv(w, t); }
    forall j | j in v.workers ensures WorkerInv(v, j) { assert WorkerInv(w, j); }
    forall s | s in v.rows ensures RowInv(v, s) { assert RowInv(w, s); }
  }

  lemma ReleaseKeeps(w: World, k: Token)
    requires Inv(w) && Enabled(w, Release(k)) && (Rewrites(w, k) ==> SafeToRelease(w, k))
    ensures Inv(Apply(w, Release(k)))
  {
    var v := Apply(w, Release(k));
    assert WorkerInv(w, k);
    forall t | t in v.txs ensures TxInv(v, t) { assert TxInv(w, t); }
    forall j | j in v.workers ensures WorkerInv(v, j) { assert WorkerInv(w, j); }
    forall s | s in v.rows ensures RowInv(v, s) { assert RowInv(w, s); }
  }

  lemma FinalizeKeeps(w: World, s: SubmissionId, row: Row)
    requires Inv(w) && Enabled(w, Finalize(s, row))
    ensures Inv(Apply(w, Finalize(s, row)))
  {
    var v := Apply(w, Finalize(s, row));
    forall t | t in v.txs ensures TxInv(v, t) { assert TxInv(w, t); }
    forall k | k in v.workers ensures WorkerInv(v, k) { assert WorkerInv(w, k); }
    forall r | r in v.rows ensures RowInv(v, r) { if r in w.rows { assert RowInv(w, r); } }
  }

  lemma UnprotectingKeeps(w: World, step: Step)
    requires Inv(w) && Enabled(w, step) && (step.StatusMoves? || step.LiftHold?)
    ensures Inv(Apply(w, step))
  {
    var v := Apply(w, step);
    forall t | t in v.txs ensures TxInv(v, t) { assert TxInv(w, t); }
    forall k | k in v.workers ensures WorkerInv(v, k) { assert WorkerInv(w, k); }
    forall s | s in v.rows ensures RowInv(v, s) { assert RowInv(w, s); }
  }

  lemma StepKeeps(w: World, step: Step)
    requires Inv(w) && Enabled(w, step) && Careful(w, step)
    ensures Inv(Apply(w, step))
  {
    match step
    case Begin(_) | LockSubmission(_) | LockClaim(_) => OpeningKeeps(w, step);
    case Check(t) => PassingKeeps(w, t);
    case Commit(t, lease) =>
      if w.txs[t].kind.Cleaning? { ClaimCommitKeeps(w, t, lease); }
      else if w.txs[t].kind.Holding? { HoldCommitKeeps(w, t, lease); }
      else { ProtectionCommitKeeps(w, t, lease); }
    case Abort(t) => EndKeeps(w, t);
    case Mark(k, at) => MarkKeeps(w, k, at);
    case Release(k) => ReleaseKeeps(w, k);
    case Finalize(s, row) => FinalizeKeeps(w, s, row);
    case StatusMoves(_, _) | LiftHold(_) => UnprotectingKeeps(w, step);
    case _ => ProviderStepKeeps(w, step);
  }

  // ---- whole runs ------------------------------------------------------------------------------

  ghost predicate CarefulUpTo(trace: Trace, n: nat)
    requires trace.Valid() && n <= |trace.steps|
  {
    forall i: nat :: i < n ==> Careful(trace.worlds[i], trace.steps[i])
  }

  lemma {:induction false} Reachable(trace: Trace, i: nat)
    requires trace.Valid() && i <= |trace.steps| && CarefulUpTo(trace, i)
    ensures Inv(trace.worlds[i])
  {
    if i > 0 {
      Reachable(trace, i - 1);
      assert trace.StepAt(i - 1);
      StepKeeps(trace.worlds[i - 1], trace.steps[i - 1]);
    }
  }

  /** Whatever the interleaving of claims, expiries, takeovers, slow deletes, marks and
      protections, no step takes a protected file's object away. */
  lemma NoProtectedFileIsDeleted(trace: Trace, i: nat, s: SubmissionId)
    requires trace.Valid() && i < |trace.steps| && CarefulUpTo(trace, i)
    requires Protected(trace.worlds[i], s) && s in trace.worlds[i].objects
    ensures s in trace.worlds[i + 1].objects
  {
    Reachable(trace, i);
    assert trace.StepAt(i);
    assert RowInv(trace.worlds[i], s);
  }

  /** So a file that is there when its protection commits is there for as long as the
      protection lasts. */
  lemma {:induction false} ProtectedFilesSurvive(trace: Trace, i: nat, j: nat, s: SubmissionId)
    requires trace.Valid() && i <= j <= |trace.steps| && CarefulUpTo(trace, j)
    requires forall m: nat :: i <= m < j ==> Protected(trace.worlds[m], s)
    requires s in trace.worlds[i].objects
    ensures s in trace.worlds[j].objects
  {
    if i < j {
      ProtectedFilesSurvive(trace, i, j - 1, s);
      NoProtectedFileIsDeleted(trace, j - 1, s);
    }
  }

  /** `deleted_at` is never set over an object that is still there, and an unfinished
      claim and a protection never meet on one row. */
  lemma RowsTellTheTruth(trace: Trace, i: nat, s: SubmissionId)
    requires trace.Valid() && i <= |trace.steps| && CarefulUpTo(trace, i) && s in trace.worlds[i].rows
    ensures trace.worlds[i].rows[s].deletedAt.Some? ==> s !in trace.worlds[i].objects
    ensures !(Unfinished(trace.worlds[i].rows[s]) && Protected(trace.worlds[i], s))
    ensures s in trace.worlds[i].wire && s in trace.worlds[i].objects ==> Unfinished(trace.worlds[i].rows[s])
  {
    Reachable(trace, i);
    assert RowInv(trace.worlds[i], s);
  }

  /** A claim that is not finished is taken over only once its lease has expired; one
      without a known expiry is never taken over. */
  lemma TakeoverOnlyAfterExpiry(trace: Trace, i: nat, t: Token, lease: nat)
    requires trace.Valid() && i < |trace.steps| && CarefulUpTo(trace, i)
    requires trace.steps[i] == Commit(t, lease) && t in trace.worlds[i].txs && trace.worlds[i].txs[t].kind.Cleaning?
    ensures var (w, kind) := (trace.worlds[i], trace.worlds[i].txs[t].kind);
      kind.submission in w.rows && w.rows[kind.submission].deletedAt.None?
      && (w.rows[kind.submission].claimedAt.Some? ==>
            w.rows[kind.submission].leaseExpiresAt.Some? && w.rows[kind.submission].leaseExpiresAt.value <= kind.now)
  {
    Reachable(trace, i);
    assert trace.StepAt(i);
    assert TxInv(trace.worlds[i], t);
  }

  // ---- fencing ---------------------------------------------------------------------------------

  ghost predicate TokenInv(w: World) {
    && (forall t :: t in w.txs ==> t < w.next && t !in w.workers)
    && (forall k :: k in w.workers ==> k < w.next)
  }

  /** The worker's row carries another token, or none. */
  ghost predicate Deposed(w: World, k: Token) {
    k in w.workers && w.workers[k].submission in w.rows && w.rows[w.workers[k].submission].token != Some(k)
  }

  predicate IsWorkers(step: Step) {
    step.HeadMissing? || step.Send? || step.Confirmed? || step.ProviderFails? || step.Mark? || step.Release?
  }

  lemma WorkersMoveOn(w: World, step: Step)
    requires Enabled(w, step) && IsWorkers(step)
    ensures var v := Apply(w, step);
      v.txs == w.txs && v.next == w.next && v.workers.Keys == w.workers.Keys
      && forall k :: k in w.workers ==> v.workers[k].submission == w.workers[k].submission
  {}

  lemma TokenStep(w: World, step: Step)
    requires TokenInv(w) && Enabled(w, step)
    ensures TokenInv(Apply(w, step))
  {
    if IsWorkers(step) {
      WorkersMoveOn(w, step);
    }
  }

  lemma DeposedStep(w: World, step: Step, k: Token)
    requires TokenInv(w) && Deposed(w, k) && Enabled(w, step)
    ensures Deposed(Apply(w, step), k)
  {
    if IsWorkers(step) {
      WorkersMoveOn(w, step);
    }
  }

  lemma DeposedWritesNothing(w: World, step: Step, k: Token)
    requires Deposed(w, k) && Enabled(w, step) && (step == Release(k) || (step.Mark? && step.worker == k))
    ensures Apply(w, step).rows == w.rows
  {}

  lemma {:induction false} TokensReachable(trace: Trace, i: nat)
    requires trace.Valid() && i <= |trace.steps|
    ensures TokenInv(trace.worlds[i])
  {
    if i > 0 {
      TokensReachable(trace, i - 1);
      assert trace.StepAt(i - 1);
      TokenStep(trace.worlds[i - 1], trace.steps[i - 1]);
    }
  }

  lemma {:induction false} DeposedForGood(trace: Trace, i: nat, j: nat, k: Token)
    requires trace.Valid() && i <= j <= |trace.steps| && Deposed(trace.worlds[i], k)
    ensures Deposed(trace.worlds[j], k)
  {
    if i < j {
      DeposedForGood(trace, i, j - 1, k);
      TokensReachable(trace, j - 1);
      assert trace.StepAt(j - 1);
      DeposedStep(trace.worlds[j - 1], trace.steps[j - 1], k);
    }
  }

  /** Once the token on its row was rewritten or cleared, nothing a worker does later,
      however long it slept, changes any row.  Careless releases make no difference. */
  lemma DeposedWorkersWriteNothing(trace: Trace, i: nat, j: nat, k: Token)
    requires trace.Valid() && i <= j < |trace.steps|
    requires Deposed(trace.worlds[i], k)
    requires trace.steps[j] == Release(k) || (trace.steps[j].Mark? && trace.steps[j].worker == k)
    ensures trace.worlds[j + 1].rows == trace.worlds[j].rows
  {
    DeposedForGood(trace, i, j, k);
    assert trace.StepAt(j);
    DeposedWritesNothing(trace.worlds[j], trace.steps[j], k);
  }

  // ---- what releasing would cost ---------------------------------------------------------------

  ghost predicate DeletesProtected(w: World, step: Step) {
    step.TakesEffect? && step.submission in w.objects && Protected(w, step.submission)
  }

  /** The steps, none of them a release, can be taken from here and delete a protected file. */
  ghost predicate Endangers(w: World, steps: seq<Step>)
    decreases |steps|
  {
    && steps != [] && Enabled(w, steps[0]) && !steps[0].Release?
    && (DeletesProtected(w, steps[0]) || Endangers(Apply(w, steps[0]), steps[1..]))
  }

  lemma {:induction false} NoDanger(w: World, steps: seq<Step>)
    requires Inv(w)
    ensures !Endangers(w, steps)
    decreases |steps|
  {
    if steps != [] && Enabled(w, steps[0]) && !steps[0].Release? {
      if steps[0].TakesEffect? && steps[0].submission in w.objects {
        assert RowInv(w, steps[0].submission);
      }
      StepKeeps(w, steps[0]);
      NoDanger(Apply(w, steps[0]), steps[1..]);
    }
  }

  lemma Prepend(w: World, step: Step, steps: seq<Step>)
    requires Enabled(w, step) && !step.Release? && Endangers(Apply(w, step), steps)
    ensures Endangers(w, [step] + steps)
  {
    assert ([step] + steps)[1..] == steps;
  }

  /** An operator puts a hold on a row nobody claims: the transaction, run on its own. */
  ghost function AfterHold(w: World, s: SubmissionId): (v: World)
    requires s in w.rows && w.rows[s].claim in w.statuses && s !in w.submissionLocks && !Unfinished(w.rows[s])
    ensures v.rows == w.rows[s := w.rows[s].(legalHold := true)]
    ensures v.workers == w.workers && v.wire == w.wire && v.objects == w.objects && v.statuses == w.statuses
    ensures forall steps: seq<Step> :: Endangers(v, steps) ==> exists run: seq<Step> :: Endangers(w, run)
  {
    var t := w.next;
    var w1 := Apply(w, Begin(Holding(s)));
    var w2 := Apply(w1, LockSubmission(t));
    var w3 := Apply(w2, Check(t));
    var w4 := Apply(w3, Commit(t, 0));
    assert forall steps: seq<Step> :: Endangers(w4, steps) ==> exists run: seq<Step> :: Endangers(w, run) by {
      forall steps: seq<Step> | Endangers(w4, steps) ensures exists run: seq<Step> :: Endangers(w, run) {
        Prepend(w3, Commit(t, 0), steps);
        Prepend(w2, Check(t), [Commit(t, 0)] + steps);
        Prepend(w1, LockSubmission(t), [Check(t)] + ([Commit(t, 0)] + steps));
        Prepend(w, Begin(Holding(s)), [LockSubmission(t)] + ([Check(t)] + ([Commit(t, 0)] + steps)));
      }
    }
    w4
  }

  lemma StrikesAHeldFile(w: World, s: SubmissionId)
    requires s in w.rows && w.rows[s].legalHold && s in w.objects && s in w.wire
    ensures Endangers(w, [TakesEffect(s)])
  {}

  /** Why a provider failure keeps the claim: giving an owned claim back can lead to a
      protected file being deleted exactly when its object is there and a DELETE for it
      was sent by anyone, or another worker that claimed it earlier has yet to ask. */
  lemma ReleaseIsSafeExactlyWhen(w: World, k: Token)
    requires Inv(w) && Enabled(w, Release(k)) && Rewrites(w, k) && w.rows[w.workers[k].submission].claimedAt.Some?
    ensures SafeToRelease(w, k) <==> forall steps: seq<Step> :: !Endangers(Apply(w, Release(k)), steps)
  {
    var v := Apply(w, Release(k));
    if SafeToRelease(w, k) {
      ReleaseKeeps(w, k);
      forall steps: seq<Step> ensures !Endangers(v, steps) {
        NoDanger(v, steps);
      }
    } else {
      RecklessRelease(w, k);
    }
  }

  lemma RecklessRelease(w: World, k: Token)
    requires Inv(w) && Enabled(w, Release(k)) && Rewrites(w, k) && w.rows[w.workers[k].submission].claimedAt.Some?
    requires !SafeToRelease(w, k)
    ensures exists steps: seq<Step> :: Endangers(Apply(w, Release(k)), steps)
  {
    var s := w.workers[k].submission;
    assert RowInv(w, s);
    var v := AfterHold(Apply(w, Release(k)), s);
    if s in w.wire {
      StrikesAHeldFile(v, s);
    } else {
      var j :| j in w.workers && j != k && w.workers[j].submission == s && w.workers[j].stage.Claimed?;
      assert AtStage(v, j, Claimed);
      StrikesAHeldFile(Apply(v, Send(j)), s);
      Prepend(v, Send(j), [TakesEffect(s)]);
    }
  }
}
