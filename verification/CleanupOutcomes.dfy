/** What the cleanup's steps decide, said on the columns, and that a retained file is never
    touched: not a permanent one, and not one before its retention date. */
module CleanupOutcomes {
  import opened Wrappers
  import opened CleanupRows
  import opened CleanupWorld

  // ---- the guards on the columns ------------------------------------------------------------

  /** The cleanup may claim exactly an undeleted row that is not permanent or held, whose
      retention date is there and reached, with no lease running, of a claim not in review. */
  lemma ClaimableExactly(row: Row, status: ClaimStatus, now: int)
    ensures MayClaim(row, status, now) <==>
      && row.deletedAt.None? && !row.permanent && !row.legalHold
      && row.retentionUntil.Some? && row.retentionUntil.value <= now
      && (row.claimedAt.Some? ==> row.leaseExpiresAt.Some? && row.leaseExpiresAt.value <= now)
      && status !in {ClaimStatus.VALIDATING, UNDER_REVIEW}
  {}

  predicate BeingDeleted(w: World, s: SubmissionId)
    requires s in w.rows
  {
    w.rows[s].deletedAt.None? && (w.rows[s].claimedAt.Some? || w.rows[s].token.Some?)
  }

  /** A check passes or ends the transaction, on the columns it read under its locks. */
  lemma CheckExactly(w: World, t: Token)
    requires Enabled(w, Check(t)) && (LocksRow(w.txs[t].kind) ==> w.txs[t].kind.submission in w.rows)
    requires ClaimOf(w, w.txs[t].kind).Some? && ClaimOf(w, w.txs[t].kind).value in w.statuses
    ensures var (kind, c) := (w.txs[t].kind, ClaimOf(w, w.txs[t].kind).value);
      var free := forall s :: s in w.rows && w.rows[s].claim == c ==> !BeingDeleted(w, s);
      var passes :=
        match kind
        case Cleaning(s, now) => MayClaim(w.rows[s], w.statuses[c], now)
        case Validating(_) => free && w.statuses[c] in {CLAIMED, REVISION_REQUIRED}
        case Reviewing(_) => free && w.statuses[c] in {CLAIMED, ClaimStatus.VALIDATING, REVISION_REQUIRED}
        case Holding(s) => !BeingDeleted(w, s);
      Apply(w, Check(t)) == if passes then w.(txs := w.txs[t := Tx(kind, Passed)]) else End(w, t)
  {}

  // ---- what commits and results write -------------------------------------------------------

  /** A committed protection protects: every file of the claim, or the one put on hold. */
  lemma ProtectionProtects(w: World, t: Token, lease: nat, s: SubmissionId)
    requires Enabled(w, Commit(t, lease)) && !w.txs[t].kind.Cleaning?
    requires ClaimOf(w, w.txs[t].kind).Some?
    requires s in w.rows && w.rows[s].claim in w.statuses
    requires if w.txs[t].kind.Holding? then s == w.txs[t].kind.submission
             else w.rows[s].claim == ClaimOf(w, w.txs[t].kind).value
    ensures Protected(Apply(w, Commit(t, lease)), s)
    ensures Apply(w, Commit(t, lease)).objects == w.objects
  {}

  /** A committed claim writes its three columns and no other, and makes one worker. */
  lemma ClaimWrites(w: World, t: Token, lease: nat)
    requires Enabled(w, Commit(t, lease)) && w.txs[t].kind.Cleaning?
    ensures var (s, now, after) := (w.txs[t].kind.submission, w.txs[t].kind.now, Apply(w, Commit(t, lease)));
      && after.rows == w.rows[s := w.rows[s].(claimedAt := Some(now), leaseExpiresAt := Some(now + lease), token := Some(t))]
      && after.workers == w.workers[t := Worker(s, Claimed)]
      && after.statuses == w.statuses && after.objects == w.objects && after.wire == w.wire
  {}

  /** A transaction that ends, committed or not, keeps no lock and takes no other's. */
  lemma EndReleases(w: World, t: Token)
    ensures var after := End(w, t);
      && t !in after.txs && after.txs.Keys == w.txs.Keys - {t}
      && (forall s :: s in after.submissionLocks <==> s in w.submissionLocks && w.submissionLocks[s] != t)
      && (forall c :: c in after.claimLocks <==> c in w.claimLocks && w.claimLocks[c] != t)
      && after.rows == w.rows && after.statuses == w.statuses && after.objects == w.objects
  {}

  /** A mark records the instant exactly on the undeleted row that carries the worker's
      token; a provider failure writes nothing at all. */
  lemma ResultsWrite(w: World, k: Token, at: int)
    ensures Enabled(w, Mark(k, at)) ==>
      var s := w.workers[k].submission;
      Apply(w, Mark(k, at)).rows ==
        if w.rows[s].token == Some(k) && w.rows[s].deletedAt.None? then w.rows[s := w.rows[s].(deletedAt := Some(at))] else w.rows
    ensures Enabled(w, ProviderFails(k)) ==>
      var after := Apply(w, ProviderFails(k));
      after.rows == w.rows && after.wire == w.wire && after.objects == w.objects
  {}

  // ---- retained files ------------------------------------------------------------------------

  /** Permanent, without a date, or with a date no claim in the run has reached. */
  predicate Retained(row: Row, horizon: int) {
    row.permanent || row.retentionUntil.None? || row.retentionUntil.value > horizon
  }

  /** Every cleanup transaction of the submission works with a time up to the horizon. */
  ghost predicate Within(trace: Trace, s: SubmissionId, horizon: int)
    requires trace.Valid()
  {
    forall i :: 0 <= i < |trace.steps| ==> BeginsWithin(trace.steps[i], s, horizon)
  }

  predicate BeginsWithin(step: Step, s: SubmissionId, horizon: int) {
    step.Begin? && step.kind.Cleaning? && step.kind.submission == s ==> step.kind.now <= horizon
  }

  /** No worker has the submission, no DELETE was sent for it, and no claim is about to commit. */
  ghost predicate Untouched(w: World, s: SubmissionId, horizon: int) {
    && s !in w.wire
    && (forall k :: k in w.workers ==> w.workers[k].submission != s)
    && (forall t :: t in w.txs && w.txs[t].kind.Cleaning? && w.txs[t].kind.submission == s ==>
          w.txs[t].kind.now <= horizon && !w.txs[t].phase.Passed?)
  }

  predicate Transactional(step: Step) {
    step.Begin? || step.LockSubmission? || step.LockClaim? || step.Check? || step.Commit? || step.Abort?
  }

  lemma CommitKeepsRetention(w: World, t: Token, lease: nat, s: SubmissionId)
    requires Enabled(w, Commit(t, lease)) && s in w.rows
    ensures var after := Apply(w, Commit(t, lease));
      s in after.rows && after.rows[s].permanent == w.rows[s].permanent && after.rows[s].retentionUntil == w.rows[s].retentionUntil
  {}

  lemma TransactionKeepsRetention(w: World, step: Step, s: SubmissionId)
    requires Enabled(w, step) && s in w.rows && Transactional(step) && !step.Commit?
    ensures var after := Apply(w, step);
      s in after.rows && after.rows[s].permanent == w.rows[s].permanent && after.rows[s].retentionUntil == w.rows[s].retentionUntil
  {}

  lemma RetentionStays(w: World, step: Step, s: SubmissionId)
    requires Enabled(w, step) && s in w.rows
    ensures var after := Apply(w, step);
      s in after.rows && after.rows[s].permanent == w.rows[s].permanent && after.rows[s].retentionUntil == w.rows[s].retentionUntil
  {
    if step.Commit? {
      CommitKeepsRetention(w, step.tx, step.lease, s);
    } else if Transactional(step) {
      TransactionKeepsRetention(w, step, s);
    }
  }

  lemma UntouchedByCommit(w: World, t: Token, lease: nat, s: SubmissionId, horizon: int)
    requires Enabled(w, Commit(t, lease)) && Untouched(w, s, horizon)
    ensures Untouched(Apply(w, Commit(t, lease)), s, horizon)
  {}

  lemma UntouchedByTransaction(w: World, step: Step, s: SubmissionId, horizon: int)
    requires Enabled(w, step) && Untouched(w, s, horizon) && Transactional(step) && !step.Commit?
    requires s in w.rows ==> Retained(w.rows[s], horizon)
    requires BeginsWithin(step, s, horizon)
    ensures Untouched(Apply(w, step), s, horizon)
  {}

  lemma UntouchedStep(w: World, step: Step, s: SubmissionId, horizon: int)
    requires Enabled(w, step) && Untouched(w, s, horizon)
    requires s in w.rows ==> Retained(w.rows[s], horizon)
    requires BeginsWithin(step, s, horizon)
    ensures Untouched(Apply(w, step), s, horizon)
  {
    if step.Commit? {
      UntouchedByCommit(w, step.tx, step.lease, s, horizon);
    } else if Transactional(step) {
      UntouchedByTransaction(w, step, s, horizon);
    }
  }

  lemma {:induction false} RetainedIsUntouched(trace: Trace, i: nat, j: nat, s: SubmissionId, horizon: int)
    requires trace.Valid() && i <= j <= |trace.steps| && Within(trace, s, horizon)
    requires s in trace.worlds[j].rows && Retained(trace.worlds[j].rows[s], horizon)
    ensures s in trace.worlds[i].rows ==> Retained(trace.worlds[i].rows[s], horizon)
    ensures Untouched(trace.worlds[i], s, horizon)
    decreases i, j
  {
    RetainedBefore(trace, i, j, s, horizon);
    if i > 0 {
      RetainedIsUntouched(trace, i - 1, j, s, horizon);
      assert trace.StepAt(i - 1);
      UntouchedStep(trace.worlds[i - 1], trace.steps[i - 1], s, horizon);
    }
  }

  lemma {:induction false} RetainedBefore(trace: Trace, i: nat, j: nat, s: SubmissionId, horizon: int)
    requires trace.Valid() && i <= j <= |trace.steps|
    requires s in trace.worlds[j].rows && Retained(trace.worlds[j].rows[s], horizon)
    ensures s in trace.worlds[i].rows ==> Retained(trace.worlds[i].rows[s], horizon)
    decreases j - i
  {
    if i < j && s in trace.worlds[i].rows {
      assert trace.StepAt(i);
      RetentionStays(trace.worlds[i], trace.steps[i], s);
      RetainedBefore(trace, i + 1, j, s, horizon);
    }
  }

  /** In every interleaving, releases included, a file that is permanent, or whose retention
      date no cleanup transaction has reached, has no worker, no DELETE is ever sent for it,
      and once it is there it stays. */
  lemma {:induction false} NoRetainedFileIsDeleted(trace: Trace, i: nat, j: nat, s: SubmissionId, horizon: int)
    requires trace.Valid() && i <= j <= |trace.steps| && Within(trace, s, horizon)
    requires s in trace.worlds[j].rows && Retained(trace.worlds[j].rows[s], horizon)
    ensures forall k :: k in trace.worlds[j].workers ==> trace.worlds[j].workers[k].submission != s
    ensures s !in trace.worlds[j].wire
    ensures s in trace.worlds[i].objects ==> s in trace.worlds[j].objects
    decreases j - i
  {
    RetainedIsUntouched(trace, j, j, s, horizon);
    if i < j {
      assert trace.StepAt(i);
      RetainedIsUntouched(trace, i, j, s, horizon);
      NoRetainedFileIsDeleted(trace, i + 1, j, s, horizon);
    }
  }
}
