/** The deletion protocol as a step system: cleanup and protection transactions with
    explicit row locks, cleanup workers between their commits, and DELETE requests that
    may take effect at any time after they were sent, once or more often. */
module CleanupWorld {
  import opened Wrappers
  import opened CleanupRows

  /** A transaction is named by the token a cleanup claim writes; each is used once. */
  datatype Kind =
    | Cleaning(submission: SubmissionId, now: int)
    | Validating(submission: SubmissionId)
    | Reviewing(claim: ClaimId)
    | Holding(submission: SubmissionId)

  /** `Passed`: its guard held on the rows it read, and it has not committed yet. */
  datatype Phase = Opened | SubmissionLocked | ClaimLocked | Passed

  datatype Tx = Tx(kind: Kind, phase: Phase)

  /** Claimed: about to ask the provider.  Sent: the object was there and a DELETE went
      out.  Settled: the provider proved the object gone.  Done: gave up or returned. */
  datatype Stage = Claimed | Sent | Settled | Done

  datatype Worker = Worker(submission: SubmissionId, stage: Stage)

  /** `wire`: submissions for whose object some DELETE was ever sent. */
  datatype World = World(
    rows: map<SubmissionId, Row>,
    statuses: map<ClaimId, ClaimStatus>,
    submissionLocks: map<SubmissionId, Token>,
    claimLocks: map<ClaimId, Token>,
    txs: map<Token, Tx>,
    next: Token,
    workers: map<Token, Worker>,
    wire: set<SubmissionId>,
    objects: set<SubmissionId>)

  datatype Step =
    | Begin(kind: Kind)
    | LockSubmission(tx: Token)
    | LockClaim(tx: Token)
    | Check(tx: Token)
    | Commit(tx: Token, lease: nat)
    | Abort(tx: Token)
    | HeadMissing(worker: Token)
    | Send(worker: Token)
    | Confirmed(worker: Token)
    | ProviderFails(worker: Token)
    | TakesEffect(submission: SubmissionId)
    | Mark(worker: Token, at: int)
    | Release(worker: Token)
    | Finalize(submission: SubmissionId, row: Row)
    | StatusMoves(claim: ClaimId, status: ClaimStatus)
    | LiftHold(submission: SubmissionId)

  // ---- state predicates ------------------------------------------------------------------

  predicate Protected(w: World, s: SubmissionId) {
    s in w.rows &&
    (w.rows[s].legalHold
     || (w.rows[s].claim in w.statuses && w.statuses[w.rows[s].claim] in {ClaimStatus.VALIDATING, UNDER_REVIEW}))
  }

  predicate LocksRow(kind: Kind) {
    !kind.Reviewing?
  }

  predicate LocksClaim(kind: Kind) {
    !kind.Holding?
  }

  function ClaimOf(w: World, kind: Kind): Option<ClaimId> {
    if kind.Reviewing? then Some(kind.claim)
    else if kind.submission in w.rows then Some(w.rows[kind.submission].claim)
    else None
  }

  /** What the transaction's guard decides on the current rows. */
  ghost predicate GuardHolds(w: World, kind: Kind) {
    match kind
    case Cleaning(s, now) =>
      s in w.rows && w.rows[s].claim in w.statuses && MayClaim(w.rows[s], w.statuses[w.rows[s].claim], now)
    case Validating(s) =>
      && s in w.rows && w.rows[s].claim in w.statuses
      && w.statuses[w.rows[s].claim] in {CLAIMED, REVISION_REQUIRED}
      && EnsureNoActiveCleanupClaim(w.rows, w.rows[s].claim).Success?
    case Reviewing(c) =>
      && c in w.statuses
      && w.statuses[c] in {CLAIMED, ClaimStatus.VALIDATING, REVISION_REQUIRED}
      && EnsureNoActiveCleanupClaim(w.rows, c).Success?
    case Holding(s) => s in w.rows && !Unfinished(w.rows[s])
  }

  // ---- steps -----------------------------------------------------------------------------

  ghost predicate InPhase(w: World, t: Token, phase: Phase) {
    t in w.txs && w.txs[t].phase == phase
  }

  ghost predicate AtStage(w: World, k: Token, stage: Stage) {
    k in w.workers && w.workers[k].stage == stage
  }

  /** A statement that writes a submission row waits for the row's lock. */
  ghost predicate Enabled(w: World, step: Step) {
    match step
    case Begin(kind) =>
      && (LocksRow(kind) ==> kind.submission in w.rows)
      && ClaimOf(w, kind).Some? && ClaimOf(w, kind).value in w.statuses
    case LockSubmission(t) =>
      InPhase(w, t, Opened) && LocksRow(w.txs[t].kind) && w.txs[t].kind.submission !in w.submissionLocks
    case LockClaim(t) =>
      && t in w.txs && LocksClaim(w.txs[t].kind)
      && w.txs[t].phase == (if LocksRow(w.txs[t].kind) then SubmissionLocked else Opened)
      && ClaimOf(w, w.txs[t].kind).Some?
      && ClaimOf(w, w.txs[t].kind).value !in w.claimLocks
    case Check(t) =>
      t in w.txs && w.txs[t].phase == (if LocksClaim(w.txs[t].kind) then ClaimLocked else SubmissionLocked)
    case Commit(t, _) =>
      InPhase(w, t, Passed) && (LocksRow(w.txs[t].kind) ==> w.txs[t].kind.submission in w.rows)
    case Abort(t) => t in w.txs
    case HeadMissing(k) => AtStage(w, k, Claimed) && w.workers[k].submission !in w.objects
    case Send(k) => AtStage(w, k, Claimed) && w.workers[k].submission in w.objects
    case Confirmed(k) => AtStage(w, k, Sent) && w.workers[k].submission !in w.objects
    case ProviderFails(k) => AtStage(w, k, Claimed) || AtStage(w, k, Sent)
    case TakesEffect(s) => s in w.wire
    case Mark(k, _) =>
      AtStage(w, k, Settled) && w.workers[k].submission in w.rows && w.workers[k].submission !in w.submissionLocks
    case Release(k) =>
      && (AtStage(w, k, Claimed) || AtStage(w, k, Sent))
      && w.workers[k].submission in w.rows && w.workers[k].submission !in w.submissionLocks
    case Finalize(s, row) =>
      && s !in w.rows && row.claim in w.statuses
      && row.deletedAt.None? && row.claimedAt.None? && row.token.None?
    case StatusMoves(c, status) => c in w.statuses && c !in w.claimLocks && !InReview(status)
    case LiftHold(s) => s in w.rows && s !in w.submissionLocks
  }

  /** The transaction ends: its locks go with it. */
  function End(w: World, t: Token): World {
    w.(txs := w.txs - {t},
       submissionLocks := map s | s in w.submissionLocks && w.submissionLocks[s] != t :: w.submissionLocks[s],
       claimLocks := map c | c in w.claimLocks && w.claimLocks[c] != t :: w.claimLocks[c])
  }

  function Write(w: World, t: Token, kind: Kind, lease: nat): World
    requires LocksRow(kind) ==> kind.submission in w.rows
  {
    match kind
    case Cleaning(s, now) =>
      w.(rows := w.rows[s := WithClaim(w.rows[s], t, now, lease)], workers := w.workers[t := Worker(s, Claimed)])
    case Validating(s) => w.(statuses := w.statuses[w.rows[s].claim := ClaimStatus.VALIDATING])
    case Reviewing(c) => w.(statuses := w.statuses[c := UNDER_REVIEW])
    case Holding(s) => w.(rows := w.rows[s := w.rows[s].(legalHold := true)])
  }

  ghost function Apply(w: World, step: Step): World
    requires Enabled(w, step)
  {
    match step
    case Begin(kind) => w.(txs := w.txs[w.next := Tx(kind, Opened)], next := w.next + 1)
    case LockSubmission(t) =>
      w.(txs := w.txs[t := w.txs[t].(phase := SubmissionLocked)],
         submissionLocks := w.submissionLocks[w.txs[t].kind.submission := t])
    case LockClaim(t) =>
      w.(txs := w.txs[t := w.txs[t].(phase := ClaimLocked)],
         claimLocks := w.claimLocks[ClaimOf(w, w.txs[t].kind).value := t])
    case Check(t) =>
      if GuardHolds(w, w.txs[t].kind) then w.(txs := w.txs[t := w.txs[t].(phase := Passed)]) else End(w, t)
    case Commit(t, lease) =>
      End(Write(w, t, w.txs[t].kind, lease), t)
    case Abort(t) => End(w, t)
    case HeadMissing(k) => w.(workers := w.workers[k := w.workers[k].(stage := Settled)])
    case Send(k) =>
      w.(workers := w.workers[k := w.workers[k].(stage := Sent)], wire := w.wire + {w.workers[k].submission})
    case Confirmed(k) => w.(workers := w.workers[k := w.workers[k].(stage := Settled)])
    case ProviderFails(k) => w.(workers := w.workers[k := w.workers[k].(stage := Done)])
    case TakesEffect(s) => w.(objects := w.objects - {s})
    case Mark(k, at) =>
      var s := w.workers[k].submission;
      w.(rows := if Owns(w.rows[s], k) then w.rows[s := w.rows[s].(deletedAt := Some(at))] else w.rows,
         workers := w.workers[k := w.workers[k].(stage := Done)])
    case Release(k) =>
      var s := w.workers[k].submission;
      w.(rows := if Owns(w.rows[s], k) && w.rows[s].claimedAt.Some? then w.rows[s := WithoutClaim(w.rows[s])] else w.rows,
         workers := w.workers[k := w.workers[k].(stage := Done)])
    case Finalize(s, row) => w.(rows := w.rows[s := row], objects := w.objects + {s})
    case StatusMoves(c, status) => w.(statuses := w.statuses[c := status])
    case LiftHold(s) => w.(rows := w.rows[s := w.rows[s].(legalHold := false)])
  }

  // ---- runs ------------------------------------------------------------------------------

  /** No unfinished claim and nothing running; an undeleted row may or may not have its object. */
  ghost predicate Initial(w: World) {
    && w.submissionLocks == map[] && w.claimLocks == map[] && w.txs == map[] && w.workers == map[] && w.wire == {}
    && w.objects <= w.rows.Keys
    && forall s :: s in w.rows ==>
         && w.rows[s].claim in w.statuses
         && !Unfinished(w.rows[s])
         && (w.rows[s].token.Some? ==> w.rows[s].token.value < w.next)
         && (w.rows[s].deletedAt.Some? ==> s !in w.objects)
  }

  datatype Trace = Trace(worlds: seq<World>, steps: seq<Step>) {
    ghost predicate StepAt(i: nat)
      requires |worlds| == |steps| + 1 && i < |steps|
    {
      Enabled(worlds[i], steps[i]) && worlds[i + 1] == Apply(worlds[i], steps[i])
    }

    ghost predicate Valid() {
      |worlds| == |steps| + 1 && Initial(worlds[0]) && forall i: nat :: i < |steps| ==> StepAt(i)
    }
  }
}
