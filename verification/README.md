# Verification model of CampusQuest

This project models, in Dafny 4.11, the parts of the repository whose correctness rests on
interleavings, on arithmetic or on encodings, and proves what they are for:

* **The cross-tab access-token protocol** (`frontend/src/lib/accessToken.ts`) with the 401
  recovery of `frontend/src/lib/api.ts`. N browser tabs of one origin share a lock, a
  localStorage marker, broadcast channels and a cookie jar. Every `await` is a suspension
  point; what runs between two of them is one task. `TabCore` gives the tasks on values,
  `AccessTokenManager` is the module state updated in place, each method proved to be the
  task of the same name, `TabOutcomes` says on fields and in milliseconds what a task
  decides, `TabWorld` composes any number of tabs with the clock, the server
  and tabs that open and close at any moment. Posts on a channel are kept as sets that may
  be delivered late, repeatedly, in any order, or never, also to the poster itself.
* **The server-state cache** (`frontend/src/lib/dataCache.ts`): `DataCache` in place and on
  values, `DataCacheProof` against a reference that reads only the history of invalidations
  and loader outcomes.
* **The cleanup deletion claim** (migrations 0018 and 0019, `cleanup_files.py`,
  `cleanup_service.py`, `cleanup_claim.py`): `CleanupRows` holds the rows, the guards and
  the repository as it updates them; `CleanupWorld` runs transactions with explicit row
  locks, workers, and DELETE requests that may take effect at any later time, repeatedly;
  `CleanupSafety` proves that no interleaving deletes a protected file, `CleanupOutcomes`
  that none deletes a retained one.
* **The last-admin trigger** (migration 0031): `UserTable` for the operation on its own,
  `LastAdmin` for concurrent role changes.
* **Sequential algorithms**: the fixed-window limiter (`RateKeys`, `RateLimit`), clamd
  INSTREAM (`Clamd`), the base32 decoder (`BitWindows`, `Base32`), the canonical query
  (`CanonicalQuery`), the ZIP preflight (`ZipSafety`), and the string splitting the last
  two share (`Splitting`).

`dafny verify dfyconfig.toml` checks everything.

## What turned out false, and what is proved instead

* *One rotation per wave* does not hold of every run: after one failed POST the marker no
  longer names the wave, and a later cold tab rotates although a sibling still holds a good
  bearer (`RotationWitness.AFailedLeaderUnmarksTheWave`). In every world that a run with
  prompt probes reaches, whatever happened before, the wave can be rotated away while a tab
  holds it if and only if the marker does not name it for the jar's context
  (`RotationExact.RotationIsPossibleExactlyWhen`). So from the moment it is marked no tab
  rotates, as long as somebody holds it, no login is answered and no transition is answered or
  closed (`OneRotation.OneRotationPerWave`).
* *A replay never crosses accounts* fails in two ways. A transition whose answer changes the
  cookie may be closed unrecorded, as the registration caller does on a 201 without its
  envelope (`ReplayExact.AnUnrecordedLoginIsReplayed`). And five logins record themselves
  outside any transition: `acceptStaffInvitation`, `verifyUnifiedChallenge`,
  `unifiedChallengeTotp`, `fastLoginCookieOnly` (`features/auth/api.ts:225-241, 356-396,
  457-469`) and `registerViaMobileCode` (`mobileLoginApi.ts:33-54`); between their cookie and
  `recordLogin` a refused request of the old account refreshes as the new one
  (`ReplayExact.ABareLoginIsReplayed`). Both are one condition:
  after a step in the tab's own jar a crossing replay is possible if and only if, outside a
  transition, the jar now names somebody other than the account the tab works for
  (`ReplayExact.ReplayIsSafeExactlyWhen`).
* *Releasing a cleanup claim after a provider failure*, which the comments of migration 0019
  (lines 174-176) and the header of `cleanup_service.py` (lines 93-101) still describe, is
  unsafe. The code keeps the claim (`cleanup_service.py:497-521`) and the model follows the
  code; `CleanupSafety.ReleaseIsSafeExactlyWhen` says exactly which releases would be safe.
* *No committed demotion leaves zero active administrators* holds of role changes; a
  deactivation can break it, and `LastAdmin.StatusChangeIsSafeExactlyWhen` says exactly when.
* *The aggregate ratio violation* of the ZIP preflight is unreachable for every cap of at
  least zero and reachable below (`ZipSafety.TotalRatioFiresExactly`).

## Model

| member | source | states |
|---|---|---|
| AccessTokenManager.Manager.RefreshAccessToken | frontend/src/lib/accessToken.ts:772-788 | a call during a transition starts nothing, a call during a rotation joins it, any other starts one coroutine with the epoch of that moment |
| AccessTokenManager.Manager.AdoptOrRotate | frontend/src/lib/accessToken.ts:852-895 | the lock callback up to its first await leaves exactly the tab, marker and posts of the grant task |
| AccessTokenManager.Manager.ResolveWave | frontend/src/lib/accessToken.ts:490-541 | an observed mint of the wave resolves it at once; otherwise the resolver is armed and one probe is posted |
| AccessTokenManager.Manager.FeedAdoptionMessage | frontend/src/lib/accessToken.ts:557-585 | a heard mint replaces the observed slot and settles the armed resolver only if it is of its wave, fresh, usable and of its context |
| AccessTokenManager.Manager.AnswerProbe | frontend/src/lib/accessToken.ts:607-616 | a probe is answered only from the held slot, re-stamped only when the expiry is known |
| AccessTokenManager.Manager.WaveDead | frontend/src/lib/accessToken.ts:884-895 | after the probe window the tab clears the marker and POSTs without looking at the epoch again |
| AccessTokenManager.Manager.RotationFailed | frontend/src/lib/accessToken.ts:903-961 | a failed round trip clears the bearer only in its own epoch and never the held mint |
| AccessTokenManager.Manager.ReadBody | frontend/src/lib/accessToken.ts:687-712 | a good body of the same epoch stores the bearer and publishes one wave with the response's own label; of another epoch it changes nothing |
| AccessTokenManager.Manager.SettleRefresh | frontend/src/lib/api.ts:201-205 | settling frees the slot and re-sends or closes exactly the parked requests |
| AccessTokenManager.Manager.BeginAuthTransition | frontend/src/lib/accessToken.ts:973-983 | the epoch moves at once and begin waits exactly for a refresh in flight |
| AccessTokenManager.Manager.RecordLogin | frontend/src/lib/accessToken.ts:68-71 | recording a login on its own changes bearer and epoch and leaves slots, marker and siblings alone |
| AccessTokenManager.Manager.FinishLogin | frontend/src/features/auth/api.ts:126-152 | end, reset and login recorded in the caller's order |
| AccessTokenManager.Manager.FinishLogout | frontend/src/features/auth/api.ts:511-530 | logout recorded, end and reset in the caller's order |
| AccessTokenManager.Manager.BroadcastContextReset | frontend/src/lib/accessToken.ts:719-734 | both mint slots and the marker are cleared and one reset is posted |
| AccessTokenManager.Manager.OnContextReset | frontend/src/lib/accessToken.ts:640-657 | a sibling's reset drops bearer and mints and opens a new epoch |
| AccessTokenManager.Manager.SendRequest | frontend/src/lib/api.ts:126-135 | a request remembers the bearer and the epoch it was sent under |
| AccessTokenManager.Manager.OnUnauthorized | frontend/src/lib/api.ts:176-206 | a 401 is closed, retried with the newer bearer, or parked behind a rotation, as the recovery block decides |
| TabOutcomes.GrantTakesTheHeldFirst | frontend/src/lib/accessToken.ts:743-758 | a granted tab of its own epoch ends with a held mint that is under ten seconds old, more than five from a known expiry, labelled as the csrf cookie and not of another wave than its marker; only without one with an observed mint that fits; only without either it probes for the marked wave, or POSTs if none is marked for its context |
| TabOutcomes.UsableExactly | frontend/src/lib/accessToken.ts:323-366 | a bearer is usable until five seconds before its claim in seconds, one without a claim always |
| TabOutcomes.RefusedExactly | frontend/src/lib/api.ts:176-206 | a refused first attempt of the current epoch goes out at once with a bearer that replaced its own, waits for the one rotation if nothing replaced it and no transition is open, and every other 401 is final |
| TabOutcomes.LateRefusalStartsNothing | frontend/src/lib/api.ts:190-200 | over any run a 401 for a request whose bearer the tab has replaced since it was sent starts no rotation, and in the epoch of its sending the request is sent again with the newer bearer |
| TabOutcomes.ParkedShareTheOutcome | frontend/src/lib/api.ts:201-205 | however long the promise takes to settle after the rotation ended, every request still parked then is sent again with the bearer of that moment if a wave was published, and final after a failure |
| TabOutcomes.FailureForgetsTheBearer | frontend/src/lib/accessToken.ts:903-961 | a failed POST or a malformed body clears the bearer in its own epoch, leaves it in another, and keeps both mints |
| TabOutcomes.MintHeardExactly | frontend/src/lib/accessToken.ts:557-585 | every heard mint becomes the observed one; it is taken exactly by an armed resolver of its wave and label in the current epoch, sent at most 50 ms before the marker, young and usable |
| TabOutcomes.ProbeAnsweredExactly | frontend/src/lib/accessToken.ts:607-616 | a probe is answered exactly by a tab that holds the wave with a usable bearer, stamped anew exactly when the expiry is known |
| TabDiscipline.TaskKeepsDiscipline | frontend/src/lib/accessToken.ts:772-800 | every task keeps the tab's discipline: one coroutine exactly while a refresh is in flight, no epoch from the future |
| TabRuns.DrainHolds | frontend/src/lib/accessToken.ts:973-988 | from the moment begin resolves until the transition closes no refresh is in flight, none starts and none is answered, over any run |
| TabRuns.DeadWavePostsDuringDrain | frontend/src/lib/accessToken.ts:884-900 | a dead wave may still POST after begin was called, but begin does not resolve before it settled and its answer is dropped |
| TabRuns.SingleFlight | frontend/src/lib/accessToken.ts:772-788 | at most one coroutine is pending and its epoch never changes |
| TabRuns.EpochFence | frontend/src/lib/accessToken.ts:790-961 | a rotation writes or clears a credential only if the epoch equals its starting epoch at every task in between |
| TabRuns.ArmedUntilSettled | frontend/src/lib/accessToken.ts:490-541 | an armed resolver stays armed for its wave through everything but a mint of that wave that passes the guard or its own timer |
| TabRuns.SettledOnce | frontend/src/lib/accessToken.ts:490-541 | it is settled exactly once: the coroutine never waits for a wave again |
| TabRuns.HeldSlotSurvives | frontend/src/lib/accessToken.ts:557-585 | an unrelated mint never displaces the held one |
| TabRuns.AtMostOneRetry | frontend/src/lib/api.ts:102-111 | a request is on the wire at most twice and its retry is sent once |
| TabWorldInvariants.Reachable | frontend/src/lib/accessToken.ts:852-900 | in every reachable world of N tabs the lock, marker, probe and mint invariants hold |
| AdoptionSafety.MintIntegrity | frontend/src/lib/accessToken.ts:852-900 | every adopted bearer came from a successful refresh response, paired with that response's own csrf_token and expiry |
| AdoptionSafety.WaveAgreement | frontend/src/lib/accessToken.ts:607-616 | all mints of one wave, in flight, held or observed in any tab, carry the same credential |
| AdoptionSafety.NeverResurrected | frontend/src/lib/accessToken.ts:361-366 | through any chain of answers a known expiry binds the adopter's server-time estimate, an unknown one the original publication's ten seconds |
| AdoptionSafety.OnlyTheMarkedWave | frontend/src/lib/accessToken.ts:743-758 | while the marker for the jar's context names a wave no other wave is adopted, on either path |
| AdoptionSafety.LockExclusion | frontend/src/lib/accessToken.ts:790-828 | at most one tab is inside the lock callback |
| AdoptionSafety.MarkerTenure | frontend/src/lib/accessToken.ts:852-895 | while a tab keeps the lock nobody else replaces the marker |
| AdoptionSafety.GrantOutcome | frontend/src/lib/accessToken.ts:852-895 | a granted tab POSTs exactly when it has nothing to adopt and the marker is not its context's, and probes exactly when the marker is |
| OneRotation.NoPostOverALiveWave | frontend/src/lib/accessToken.ts:852-895 | with probes answered inside the window, no tab POSTs while the marker names a wave some tab holds with a usable bearer, whoever logs in, out or closes |
| OneRotation.OneRotationPerWave | frontend/src/lib/accessToken.ts:852-900 | from any moment the marker names a wave for the jar's context, no tab POSTs as long as somebody holds it with a usable bearer, no login is answered and no transition is answered or closed, whatever came before and whoever fails, closes or is reset meanwhile |
| OneRotation.PublishingMarks | frontend/src/lib/accessToken.ts:687-712 | the publisher holds its wave, and marks it exactly if the response carried the jar's own label |
| RotationExact.RotationIsPossibleExactlyWhen | frontend/src/lib/accessToken.ts:852-900 | in every world of a prompt run, a live wave held by a tab can be rotated away by a prompt continuation without logins and logouts if and only if the marker does not name it for the jar's context |
| UndisturbedRuns.NoHeldWaveIsRotated | frontend/src/lib/accessToken.ts:852-900 | in a run without failing leaders, logins or logouts no tab POSTs while any tab holds any wave with a usable bearer, also after it changed hands |
| RotationWitness.AFailedLeaderUnmarksTheWave | frontend/src/lib/accessToken.ts:884-899 | a run from the first tab on, with one failed POST, reaches a tab that holds a good bearer of the published wave which may be rotated away |
| ContextReset.NoOldContextReturns | frontend/src/lib/accessToken.ts:640-657 | from the delivery of a reset on, while the csrf cookie does not name a context, the tab holds no mint of it, waits for none and reads none, and each of its bearers came after the reset from its own login or from another context |
| ContextReset.NoOtherAccountReturns | frontend/src/lib/accessToken.ts:640-657 | and while the cookie names an account, and the tab signs in as nobody else, it holds no bearer of another account |
| ReplaySafety.ReplayNeverCrossesAccounts | frontend/src/lib/api.ts:107-206 | while the jar, changed only by the tab's own requests, names nobody but the account the tab works for, a request is re-sent at most once and never with a bearer of another account, also when the epoch moves during the grace |
| ReplayExact.ReplayIsSafeExactlyWhen | frontend/src/lib/api.ts:176-206 | after any step of the tab's own jar, some continuation replays a request across accounts if and only if the step left the jar naming somebody else outside a transition |
| ReplayExact.RefusedTransition | frontend/src/features/auth/api.ts:92-119 | a transition closed unrecorded is dangerous exactly when it left another account's cookie; an emptied jar is not |
| ReplayExact.BareLogin | frontend/src/features/auth/api.ts:268-272 | a login answered outside a transition is dangerous exactly when it signs in somebody else than the tab works for |
| ReplayExact.AnUnrecordedLoginIsReplayed | frontend/src/features/auth/api.ts:92-119 | for any two accounts, a run in the tab's own jar that closes a changed transition unrecorded and can then cross |
| ReplayExact.ABareLoginIsReplayed | frontend/src/features/auth/api.ts:355-396 | for any two accounts, a run in which a login is answered outside a transition and can then cross, with no transition anywhere |
| DataCache.SharedCache.InvalidateDataCache | frontend/src/lib/dataCache.ts:43-46 | a new generation with an empty store |
| DataCache.SharedCache.ReadCached | frontend/src/lib/dataCache.ts:76-131 | the whole new store and the answer; `DataCacheProof.AnswerExactly` and `ReadStartsExactly` determine both from the history |
| DataCache.SharedCache.LoaderResolved | frontend/src/lib/dataCache.ts:94-104 | a completed load is stored only in the generation it was started in |
| DataCache.SharedCache.LoaderFailed | frontend/src/lib/dataCache.ts:105-115 | a failed load frees only its own slot |
| DataCacheProof.SnapshotIsLastSuccess | frontend/src/lib/dataCache.ts:76-131 | whatever order loads settle in, a key's snapshot and age are those of the last successful load of this generation, its slot is its one unsettled load, and it has an entry exactly if this generation asked for it |
| DataCacheProof.ReadsAreCurrent | frontend/src/lib/dataCache.ts:43-46 | a read delivers, at once or through its promise, only loads started after the last invalidation |
| DataCacheProof.OldLoadsStayOld | frontend/src/lib/dataCache.ts:94-104 | nothing that happens later makes a load from before an invalidation current again |
| DataCacheProof.FreshExactly | frontend/src/lib/dataCache.ts:59-61 | an answer is fresh exactly when not forced and the last success is younger than the limit, or the clock itself is below it on a first load |
| DataCacheProof.AnswerExactly | frontend/src/lib/dataCache.ts:76-131 | the answer from the history alone: fresh with the last success's data when young enough, else stale with exactly that data when there is any, else absent, and the promise is the running load or the next one |
| DataCacheProof.ReadStartsExactly | frontend/src/lib/dataCache.ts:85-93 | a read starts a load exactly when it is not fresh and none of its key is running, and otherwise changes nothing |
| DataCacheProof.FailureKeepsSnapshots | frontend/src/lib/dataCache.ts:105-115 | a failed revalidation changes neither snapshot nor age of any key |
| CleanupRows.EnsureNoActiveCleanupClaim | backend/app/modules/submissions/cleanup_claim.py:97-145 | the guard passes exactly when no submission of the claim has an unfinished deletion, however old, and else names exactly those |
| CleanupRows.SubmissionCleanupRepository.ClaimForCleanup | backend/app/workers/jobs/cleanup_files.py:226-316 | a claim is granted exactly to an undeleted row that is neither permanent nor held, whose retention date is there and reached, with no lease running and its claim not in review; it writes the instant, the lease and a token no row carries, and a refusal changes nothing |
| CleanupRows.SubmissionCleanupRepository.ReleaseCleanupClaim | backend/app/workers/jobs/cleanup_files.py:318-360 | the release clears a row exactly while it carries the token |
| CleanupRows.SubmissionCleanupRepository.MarkDeleted | backend/app/workers/jobs/cleanup_files.py:362-429 | the four outcomes exactly, and the instant is written only on an owned unmarked row |
| CleanupRows.Guard | backend/app/modules/files/cleanup_service.py:423-440 | each skip exactly: permanent first, then legal hold, then review, then a missing or unreached date |
| CleanupRows.CleanupExpiredFile | backend/app/modules/files/cleanup_service.py:443-532 | each skip by its guard in order and touching nothing, every provider failure keeps the unfinished claim, and the deletion is recorded exactly when the provider proved the object gone |
| CleanupSafety.StepKeeps | backend/alembic/versions/0019_cleanup_claim_fencing.py:18-41 | every step keeps: an outstanding DELETE implies an unfinished claim or an absent object, and an unfinished claim implies unprotected |
| CleanupSafety.ProtectionCommitKeeps | backend/app/modules/submissions/validation_service.py:344-382 | a protection that passed its guard under the claim lock commits over no unfinished claim |
| CleanupSafety.NoProtectedFileIsDeleted | backend/alembic/versions/0019_cleanup_claim_fencing.py:34-41 | in every interleaving of claims, takeovers, slow deletes, marks and protections no step removes a protected file's object |
| CleanupSafety.ProtectedFilesSurvive | backend/app/core/config.py:98-108 | a file present when its protection commits is present as long as the protection lasts |
| CleanupSafety.RowsTellTheTruth | backend/app/modules/files/cleanup_service.py:74-78 | a recorded deletion is never of an object that is still there |
| CleanupSafety.TakeoverOnlyAfterExpiry | backend/alembic/versions/0018_cleanup_claim_leases.py:12-30 | an unfinished claim is taken over only after its lease expired, never without a known expiry |
| CleanupSafety.DeposedWorkersWriteNothing | backend/alembic/versions/0019_cleanup_claim_fencing.py:26-33 | once its token was rewritten or cleared, a worker's release or mark changes no row at any later time |
| CleanupSafety.ReleaseIsSafeExactlyWhen | backend/app/modules/files/cleanup_service.py:497-521 | giving an owned claim back can end in a deleted protected file exactly when the object is there and some DELETE was sent or another claimant has yet to ask |
| CleanupOutcomes.NoRetainedFileIsDeleted | backend/app/workers/jobs/cleanup_files.py:290-305 | in every interleaving a file that is permanent, undated, or with a date no cleanup transaction has reached has no worker, no DELETE is sent for it, and its object stays |
| CleanupOutcomes.ClaimableExactly | backend/app/workers/jobs/cleanup_files.py:284-305 | the guard under both locks, said of the columns |
| CleanupOutcomes.CheckExactly | backend/app/modules/submissions/cleanup_claim.py:97-145 | a transaction passes its check exactly when the rows and the status it locked allow its kind, and ends otherwise |
| CleanupOutcomes.ProtectionProtects | backend/app/modules/submissions/validation_service.py:344-382 | a committed validation or review protects every file of its claim, a committed hold its own file |
| UserTable.Users.GuardLastActiveAdmin | backend/alembic/versions/0031_last_admin_trigger.py:15-37 | the trigger raises exactly when an administrator loses the role and no other active one exists |
| UserTable.Users.ChangeRole | backend/app/modules/identity/admin_power_service.py:306-389 | the refusals exactly, the one changed row, and that run alone the trigger never has to object |
| LastAdmin.OthersRemain | backend/alembic/versions/0031_last_admin_trigger.py:19-29 | when one demotion commits, another that has already counted still has someone left |
| LastAdmin.DemotionLeavesAnAdmin | backend/alembic/versions/0031_last_admin_trigger.py:15-37 | in every interleaving a committed demotion leaves another user with role ADMIN and status ACTIVE |
| LastAdmin.RoleChangesKeepAnAdmin | backend/alembic/versions/0031_last_admin_trigger.py:1-8 | while statuses are left alone the table never runs out of active administrators |
| LastAdmin.StatusChangeIsSafeExactlyWhen | backend/alembic/versions/0031_last_admin_trigger.py:19-33 | a deactivation can make some demotion leave nobody exactly when one that has counted found only this user |
| LastAdmin.CountExactly | backend/alembic/versions/0031_last_admin_trigger.py:26-33 | the count lets a demotion through exactly when another user has role ADMIN and status ACTIVE, and otherwise undoes the transaction |
| LastAdmin.FireExactly | backend/alembic/versions/0031_last_admin_trigger.py:19-25 | exactly a demotion of an administrator has rows to lock: the active administrators beside its target |
| RateKeys.KeyIsInjective | backend/app/integrations/rate_limit.py:261 | keys of different buckets, identifiers or windows differ, whatever colons the identifiers contain |
| RateKeys.SecondColonsCollide | backend/app/integrations/rate_limit.py:261 | with a second colon in a bucket two requesters would share a key |
| RateLimit.Redis.Increment | backend/app/integrations/rate_limit.py:262 | INCR on counters that expire: a lapsed counter starts again at one |
| RateLimit.Redis.Expire | backend/app/integrations/rate_limit.py:263-266 | EXPIRE NX arms only a live counter without a deadline |
| RateLimit.RedisFixedWindowLimiter.Check | backend/app/integrations/rate_limit.py:257-275 | the two commands in order and a refusal exactly past the limit, armed also when refused |
| RateLimit.CounterIsExact | backend/app/integrations/rate_limit.py:257-275 | a window's counter equals the number of its requests and outlives the last of them, whatever is interleaved and whichever EXPIRE is lost |
| RateLimit.DeadlineIsExact | backend/app/integrations/rate_limit.py:263-266 | a counter expires two windows after the first EXPIRE that found a request counted; no later EXPIRE or request moves that, and without one it never expires |
| RateLimit.LateHitStartsOver | backend/app/integrations/rate_limit.py:263-266 | an INCR delayed to the end of the next window or beyond starts the counter over, so the bound on its delay is tight |
| RateLimit.ExactlyTheLimit | backend/app/integrations/rate_limit.py:14-22 | of n requests in an aligned window exactly min(limit, n) are admitted |
| RateLimit.AtMostTwiceTheLimit | backend/app/integrations/rate_limit.py:14-22 | no span of one window's length admits more than twice the limit |
| RateLimit.ShippedRulesAreATable | backend/app/integrations/rate_limit.py:111-229 | the shipped table meets what the bounds ask: one rule per bucket, one colon per name, positive limits and windows |
| RateLimit.DictionaryIsExact | backend/app/integrations/rate_limit.py:111-229 | the table knows exactly the declared buckets, each with the limit and the window of its last declaration |
| BitWindows.ShiftIn | frontend/e2e/fixtures.ts:336-337 | five bits enter at the bottom of the unmasked 32 and every bit not yet emitted survives |
| BitWindows.ShiftOut | frontend/e2e/fixtures.ts:338-341 | the byte read out is the eight bits above those that stay |
| Base32.SymbolIndexIsIndexOf | frontend/e2e/fixtures.ts:328-333 | a character's index is its one place in the alphabet, and -1 for exactly the others |
| Base32.Base32Decode | frontend/e2e/fixtures.ts:327-345 | the loop returns the whole bytes of the symbols' bit stream, or the first character outside the alphabet |
| Base32.Decoded | frontend/e2e/fixtures.ts:327-345 | the output has floor(5n/8) bytes |
| Base32.DecodedEncoding | frontend/e2e/fixtures.ts:326 | decoding the encoding of section 6 of RFC 4648 gives the bytes back, for every byte string |
| Base32.RoundTrip | frontend/e2e/fixtures.ts:331 | so does decoding it with any of the 26 letters written small, padded, unpadded or with any number of trailing signs |
| Clamd.SendFrames | backend/app/integrations/evidence_scanner_clamd.py:51-57 | what goes out is the framing of the content, every operation under a grant of its own |
| Clamd.ReadReply | backend/app/integrations/evidence_scanner_clamd.py:58-66 | the whole reply or nothing, each receive asking for 1 to 4097 bytes and never more than 4097 taken |
| Clamd.Request | backend/app/integrations/evidence_scanner_clamd.py:43-69 | a reply is returned only if it is complete with its one NUL at the end, and always if nothing fails and it is |
| Clamd.CompleteExactly | backend/app/integrations/evidence_scanner_clamd.py:58-69 | a complete reply is at most 4095 bytes without a NUL and one NUL after them |
| Clamd.FoundExactly | backend/app/integrations/evidence_scanner_clamd.py:90-93 | a threat is exactly the fixed words around one or more bytes from space to tilde |
| Clamd.Scan | backend/app/integrations/evidence_scanner_clamd.py:79-94 | it returns normally only after the exact framing and the exact clean reply; with nothing failing, exactly then; size errors and threats exactly |
| Clamd.FramesReadBack | backend/app/integrations/evidence_scanner_clamd.py:51-57 | reading length, bytes, until a zero length recovers the content exactly, in chunks of 1 to 65536 bytes |
| CanonicalQuery.Decoded | backend/app/integrations/sms_aliyun.py:124-127 | percent-encoding is undone by decoding and never contains a separator |
| CanonicalQuery.OnlySafeCharacters | backend/app/integrations/sms_aliyun.py:124-127 | the encoding uses only unreserved characters and percent signs, and leaves a text as it is exactly when it is all unreserved |
| CanonicalQuery.OneByte | backend/app/integrations/sms_aliyun.py:124-127 | the 66 unreserved characters stand for themselves, every other byte is a percent sign and two upper-case digits, high one first |
| CanonicalQuery.EncodesBytewise | backend/app/integrations/sms_aliyun.py:124-127 | a text is encoded byte by byte |
| CanonicalQuery.BelowExactly | backend/app/integrations/sms_aliyun.py:133 | one name is below another exactly when it is a proper prefix or has the smaller byte at the first difference |
| CanonicalQuery.Sorted | backend/app/integrations/sms_aliyun.py:130-134 | the names are each listed once, in ascending order |
| CanonicalQuery.QueryReadsBack | backend/app/integrations/sms_aliyun.py:130-134 | splitting on the two separators and decoding gives the parameters back |
| CanonicalQuery.QueryIsInjective | backend/app/integrations/sms_aliyun.py:130-134 | two different parameter maps never have the same canonical query |
| Splitting.PiecesAreStretches | backend/app/integrations/zip_safety.py:78 | the pieces of a split are exactly the separator-free stretches between separators or the ends |
| ZipSafety.SuspiciousExactly | backend/app/integrations/zip_safety.py:72-78 | which names are suspicious, said of the characters: empty, leading separator, colon in second place, two dots alone between separators |
| ZipSafety.Preflight | backend/app/integrations/zip_safety.py:81-141 | no violation exactly when there are at most so many entries, each with a harmless name, within the part cap unless in an exempt family and no `.rels` part, within the ratio, and the totals keep theirs; otherwise one that every earlier check passes |
| ZipSafety.TotalsAreSums | backend/app/integrations/zip_safety.py:105-127 | the totals are the sums of the declared sizes, over any cut of the archive |
| ZipSafety.FirstIsUnique | backend/app/integrations/zip_safety.py:91-93 | there is only one such violation, so the answer is determined |
| ZipSafety.TotalRatioFiresExactly | backend/app/integrations/zip_safety.py:133-140 | the aggregate ratio can fire exactly for a negative ratio cap |

## Left out

- OneRotation.OneRotationPerWave: holders of a probed wave hear the probe and their answers arrive inside the window, and no server-clock estimate exceeds a common bound; that is what the failure detector assumes. A moment in which nobody holds the wave ends the claim.
- UndisturbedRuns.NoHeldWaveIsRotated: excludes failed POSTs, malformed bodies, transitions, resets, logins of any kind, answers without a readable label and tabs closed with their POST on the wire, anywhere in the run; the two results above do not.
- ReplaySafety.ReplayNeverCrossesAccounts: a jar changed by a sibling's login before its reset arrives, and refresh answers without a readable label, are excluded; the code makes no cross-tab claim there.
- ContextReset.NoOtherAccountReturns: the tab's own logins as somebody else are excluded; `NoOldContextReturns` covers them.
- CleanupRows.CleanupExpiredFile: it is one delivery running alone; interleavings are those of `CleanupWorld`.
- UserTable.Users.ChangeRole: the unlocked first read and the audit row are left out; the locked row decides.
- Clamd.Scan: which version replies are acceptable is a parameter, the regular expression of the capability check is not part of this model.
- ZipSafety.Preflight: ratios are exact; the rounding of floating-point division is not part of this model.
- Base32.RoundTrip: upper-casing is that of ASCII letters; the few non-ASCII characters whose upper case is an ASCII letter are refused here.
- CanonicalQuery.QueryIsInjective: texts are UTF-8 bytes; the encoding from code points is not part of this model.
- RateLimit.AtMostTwiceTheLimit: the clock and Redis share one time line, an INCR arrives before the window after its own is over, and the rule table does not change during the run.
- The unlocked fallback when the lock service refuses, browsers without Web Locks or BroadcastChannel, and failing storage.
- The published-wave record in sessionStorage, the field holding the last response's label (folded into the task that reads it), `setAccessToken`, and every test seam.
- JWT decoding (a bearer carries its expiry), overlapping transitions, logins outside a transition that overlap one of the same tab, caller-owned Authorization headers, auth paths, request bodies and headers.
- Loaders that call back into the cache synchronously for their own key, and a clock below FRESH_MS except where `DataCacheProof.FreshExactly` covers it.
- The orphan-intent half of the cleanup, the candidate listing, batching, counters and logging; object keys are one per submission and never reused, as the unique constraint says.
- Deadlock detection (a transaction may abort at any moment), several role changes in one transaction, statements over many rows.
- The e2e login relief of the rate limiter and identifier masking.
- Redis, S3, SMTP, SMS and database transport, HMAC and hashing, and all other modules of the repository.
