/** The rows the file-retention cleanup works on (`cleanup_files.py`,
    `cleanup_claim.py`), the guards evaluated over them, and the repository and
    service operations that update them in place. */
module CleanupRows {
  import opened Wrappers

  type SubmissionId = nat
  type ClaimId = nat
  type Token = nat

  datatype ClaimStatus =
    | CLAIMED | VALIDATING | UNDER_REVIEW | REVISION_REQUIRED | COMPLETED | ABANDONED | EXPIRED

  /** A submission row: its assignment claim, its retention snapshot and the three
      columns of the cleanup claim. */
  datatype Row = Row(
    claim: ClaimId,
    retentionUntil: Option<int>,
    permanent: bool,
    legalHold: bool,
    deletedAt: Option<int>,
    claimedAt: Option<int>,
    leaseExpiresAt: Option<int>,
    token: Option<Token>)

  predicate InReview(status: ClaimStatus) {
    status.VALIDATING? || status.UNDER_REVIEW?
  }

  predicate LeaseLive(row: Row, now: int) {
    row.claimedAt.Some? && row.deletedAt.None? && (row.leaseExpiresAt.None? || row.leaseExpiresAt.value > now)
  }

  /** Every guard re-evaluated under both row locks by the claim transaction. */
  predicate MayClaim(row: Row, status: ClaimStatus, now: int) {
    && row.deletedAt.None?
    && !row.permanent
    && !row.legalHold
    && row.retentionUntil.Some? && row.retentionUntil.value <= now
    && !LeaseLive(row, now)
    && !InReview(status)
  }

  /** The deletion of the file was claimed, by anyone, and has not been recorded as done. */
  predicate Unfinished(row: Row) {
    row.deletedAt.None? && (row.claimedAt.Some? || row.token.Some?)
  }

  function WithClaim(row: Row, token: Token, now: int, lease: nat): Row {
    row.(claimedAt := Some(now), leaseExpiresAt := Some(now + lease), token := Some(token))
  }

  function WithoutClaim(row: Row): Row {
    row.(claimedAt := None, leaseExpiresAt := None, token := None)
  }

  predicate Owns(row: Row, token: Token) {
    row.token == Some(token) && row.deletedAt.None?
  }

  /** The protection side: refuse, naming them, while any submission under the claim has
      an unfinished cleanup claim. The lease clock is not consulted. */
  function EnsureNoActiveCleanupClaim(rows: map<SubmissionId, Row>, claim: ClaimId): (r: Result<(), set<SubmissionId>>)
    ensures r.Success? <==> forall s :: s in rows && rows[s].claim == claim ==>
              rows[s].deletedAt.Some? || (rows[s].claimedAt.None? && rows[s].token.None?)
    ensures r.Failure? ==> forall s :: s in r.error <==>
              s in rows && rows[s].claim == claim && rows[s].deletedAt.None? && (rows[s].claimedAt.Some? || rows[s].token.Some?)
  {
    var claimed := set s | s in rows && rows[s].claim == claim && rows[s].deletedAt.None?
                                     && (rows[s].claimedAt.Some? || rows[s].token.Some?);
    assert forall s :: s in rows && rows[s].claim == claim && Unfinished(rows[s]) ==> s in claimed;
    if claimed == {} then Success(()) else Failure(claimed)
  }

  // ---- the repository ------------------------------------------------------------------

  datatype MarkOutcome = MARKED | ALREADY_DELETED | CLAIM_LOST | VANISHED

  datatype FileRecord = FileRecord(
    submission: SubmissionId,
    retentionUntil: Option<int>,
    permanent: bool,
    legalHold: bool,
    underReview: bool)

  datatype Outcome =
    | DELETED | DELETED_ALREADY | RECONCILED_MISSING
    | SKIPPED_PERMANENT | SKIPPED_LEGAL_HOLD | SKIPPED_UNDER_REVIEW | SKIPPED_RETENTION_NOT_DUE | SKIPPED_CLAIM_LOST
    | FAILED_TEMPORARY | FAILED_PERMANENT | FAILED_UNKNOWN

  /** What the storage adapter's delete call comes back with. */
  datatype ProviderAnswer = Deleted | FileNotFound | TemporaryFailure | PermanentFailure | UnknownOutcome

  /** The stale-listing defence over one record, in its fail-safe order: nothing passes but
      a record that is neither permanent, held nor under review and whose date is reached. */
  function Guard(record: FileRecord, now: int): (r: Option<Outcome>)
    ensures r.None? <==>
      && !record.permanent && !record.legalHold && !record.underReview
      && record.retentionUntil.Some? && record.retentionUntil.value <= now
    ensures r == Some(SKIPPED_PERMANENT) <==> record.permanent
    ensures r == Some(SKIPPED_LEGAL_HOLD) <==> !record.permanent && record.legalHold
    ensures r == Some(SKIPPED_UNDER_REVIEW) <==> !record.permanent && !record.legalHold && record.underReview
    ensures r.None? || r.value in {SKIPPED_PERMANENT, SKIPPED_LEGAL_HOLD, SKIPPED_UNDER_REVIEW, SKIPPED_RETENTION_NOT_DUE}
  {
    if record.permanent then Some(SKIPPED_PERMANENT)
    else if record.legalHold then Some(SKIPPED_LEGAL_HOLD)
    else if record.underReview then Some(SKIPPED_UNDER_REVIEW)
    else if record.retentionUntil.None? || record.retentionUntil.value > now then Some(SKIPPED_RETENTION_NOT_DUE)
    else None
  }

  class SubmissionCleanupRepository {
    const leaseSeconds: nat
    var rows: map<SubmissionId, Row>
    var statuses: map<ClaimId, ClaimStatus>
    var nextToken: Token

    /** Tokens already written came from this repository, so the next one is new. */
    ghost predicate Valid()
      reads this
    {
      forall s :: s in rows && rows[s].token.Some? ==> rows[s].token.value < nextToken
    }

    constructor (leaseSeconds: nat, rows: map<SubmissionId, Row>, statuses: map<ClaimId, ClaimStatus>, nextToken: Token)
      requires forall s :: s in rows && rows[s].token.Some? ==> rows[s].token.value < nextToken
      ensures Valid()
      ensures this.leaseSeconds == leaseSeconds && this.rows == rows && this.statuses == statuses
      ensures this.nextToken == nextToken
    {
      this.leaseSeconds, this.rows, this.statuses, this.nextToken := leaseSeconds, rows, statuses, nextToken;
    }

    method ClaimForCleanup(record: FileRecord, now: int) returns (token: Option<Token>)
      requires Valid()
      modifies this
      ensures Valid() && statuses == old(statuses)
      // Granted exactly to an undeleted row that is not permanent or held, whose retention
      // date is there and reached, with no lease still running, of a claim not in review.
      ensures token.Some? <==>
        && record.submission in old(rows) && old(rows)[record.submission].claim in statuses
        && var row := old(rows)[record.submission];
           && row.deletedAt.None? && !row.permanent && !row.legalHold
           && row.retentionUntil.Some? && row.retentionUntil.value <= now
           && (row.claimedAt.Some? ==> row.leaseExpiresAt.Some? && row.leaseExpiresAt.value <= now)
           && statuses[row.claim] !in {VALIDATING, UNDER_REVIEW}
      ensures token.None? ==> rows == old(rows)
      ensures token.Some? ==>
        && rows == old(rows)[record.submission := old(rows)[record.submission].(
             claimedAt := Some(now), leaseExpiresAt := Some(now + leaseSeconds), token := token)]
        && forall s :: s in old(rows) ==> old(rows)[s].token != token
    {
      var drawn := nextToken;
      nextToken := nextToken + 1;
      if record.submission !in rows {
        return None;
      }
      var submission := rows[record.submission];
      var leaseLive :=
        && submission.claimedAt.Some?
        && submission.deletedAt.None?
        && (submission.leaseExpiresAt.None? || submission.leaseExpiresAt.value > now);
      if submission.deletedAt.Some?
         || submission.permanent
         || submission.legalHold
         || submission.retentionUntil.None?
         || submission.retentionUntil.value > now
         || leaseLive
         || submission.claim !in statuses
         || statuses[submission.claim] in {VALIDATING, UNDER_REVIEW}
      {
        return None;
      }
      submission := submission.(claimedAt := Some(now));
      submission := submission.(leaseExpiresAt := Some(now + leaseSeconds));
      submission := submission.(token := Some(drawn));
      rows := rows[record.submission := submission];
      return Some(drawn);
    }

    /** The release compare-and-set: it touches a row only while the token is still on it. */
    method ReleaseCleanupClaim(record: FileRecord, token: Token) returns (matched: bool)
      requires Valid()
      modifies this`rows
      ensures Valid()
      ensures matched <==>
        && record.submission in old(rows) && old(rows)[record.submission].token == Some(token)
        && old(rows)[record.submission].claimedAt.Some? && old(rows)[record.submission].deletedAt.None?
      ensures rows == if matched
                      then old(rows)[record.submission := old(rows)[record.submission].(
                             claimedAt := None, leaseExpiresAt := None, token := None)]
                      else old(rows)
    {
      matched := false;
      if record.submission in rows {
        var row := rows[record.submission];
        if row.token == Some(token) && row.claimedAt.Some? && row.deletedAt.None? {
          rows := rows[record.submission := row.(claimedAt := None, leaseExpiresAt := None, token := None)];
          matched := true;
        }
      }
    }

    /** Record the deletion, unless it is recorded already or the row is another worker's. */
    method MarkDeleted(record: FileRecord, token: Token, deletedAt: int) returns (outcome: MarkOutcome)
      requires Valid()
      modifies this`rows
      ensures Valid()
      ensures outcome == VANISHED <==> record.submission !in old(rows)
      ensures outcome == MARKED <==>
        record.submission in old(rows)
        && old(rows)[record.submission].token == Some(token) && old(rows)[record.submission].deletedAt.None?
      ensures outcome == ALREADY_DELETED <==> record.submission in old(rows) && old(rows)[record.submission].deletedAt.Some?
      ensures rows == if outcome == MARKED
                      then old(rows)[record.submission := old(rows)[record.submission].(deletedAt := Some(deletedAt))]
                      else old(rows)
    {
      if record.submission !in rows {
        return VANISHED;
      }
      var row := rows[record.submission];
      if row.token == Some(token) && row.deletedAt.None? {
        rows := rows[record.submission := row.(deletedAt := Some(deletedAt))];
        return MARKED;
      }
      if row.deletedAt.Some? {
        return ALREADY_DELETED;
      }
      return CLAIM_LOST;
    }
  }

  /** One due-file snapshot: guards, claim, provider delete, mark. `answer` is what the
      provider call comes back with if it is made. */
  method CleanupExpiredFile(record: FileRecord, repo: SubmissionCleanupRepository, answer: ProviderAnswer, now: int)
    returns (outcome: Outcome)
    requires repo.Valid()
    modifies repo
    ensures repo.Valid()
    // A guard or a lost claim touches no row and makes no provider call.
    ensures Guard(record, now).Some? ==> outcome == Guard(record, now).value
    ensures outcome in SKIPS <==> repo.rows == old(repo.rows)
    // Otherwise the answer decides, and a retained row never gets that far.
    ensures outcome !in SKIPS ==>
      && outcome == (match answer
                     case Deleted => DELETED
                     case FileNotFound => RECONCILED_MISSING
                     case TemporaryFailure => FAILED_TEMPORARY
                     case PermanentFailure => FAILED_PERMANENT
                     case UnknownOutcome => FAILED_UNKNOWN)
      && record.submission in old(repo.rows)
      && var row := old(repo.rows)[record.submission];
         !row.permanent && !row.legalHold && row.retentionUntil.Some? && row.retentionUntil.value <= now
    // Once claimed, a provider failure of any kind keeps the unfinished claim ...
    ensures outcome in FAILURES ==>
      && old(repo.rows).Keys == repo.rows.Keys
      && record.submission in repo.rows && Unfinished(repo.rows[record.submission])
      && repo.rows[record.submission].leaseExpiresAt == Some(now + repo.leaseSeconds)
      && repo.rows[record.submission].token != old(repo.rows)[record.submission].token
    // ... and the deletion is recorded exactly when the provider proved the object gone.
    ensures outcome !in SKIPS ==>
      && record.submission in repo.rows
      && (repo.rows[record.submission].deletedAt == Some(now) <==> answer in {Deleted, FileNotFound})
      && forall s :: s in old(repo.rows) && s != record.submission ==> s in repo.rows && repo.rows[s] == old(repo.rows)[s]
  {
    var skipped := Guard(record, now);
    if skipped.Some? {
      return skipped.value;
    }
    var token := repo.ClaimForCleanup(record, now);
    if token.None? {
      return SKIPPED_CLAIM_LOST;
    }
    if answer == TemporaryFailure {
      return FAILED_TEMPORARY;
    }
    if answer == PermanentFailure {
      return FAILED_PERMANENT;
    }
    if answer == UnknownOutcome {
      return FAILED_UNKNOWN;
    }
    var marked := repo.MarkDeleted(record, token.value, now);
    if marked == ALREADY_DELETED {
      return DELETED_ALREADY;
    }
    return if answer == FileNotFound then RECONCILED_MISSING else DELETED;
  }

  const SKIPS :=
    {SKIPPED_PERMANENT, SKIPPED_LEGAL_HOLD, SKIPPED_UNDER_REVIEW, SKIPPED_RETENTION_NOT_DUE, SKIPPED_CLAIM_LOST}
  const FAILURES := {FAILED_TEMPORARY, FAILED_PERMANENT, FAILED_UNKNOWN}
}
