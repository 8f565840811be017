# Verified model of the novel platform's session, reading, storage and identity logic

This project models, in Dafny, the parts of the platform whose correctness depends on several
functions, several clients or several steps at once, and proves what they keep over every run.

* **Token refresh in the web client** (`ClientProtocol`, `ClientTheorems`, `ClientOutcomes`, `ApiClient`).
  Any number of concurrent calls through `request`, `requestBlob`, `uploadImport` and `api.refresh` share the module
  variables of `client.ts`. One step is one stretch of code between two awaits; settling a refresh,
  clearing `refreshFlight` and waking every waiter is one microtask drain and therefore one step. The
  environment chooses all answers, their order and their losses. `ApiClient` is the same code as a
  class whose methods reassign those variables; each method's new state is the step function of the old
  one. `RefreshRotation` composes the page with the server's single-use refresh tokens; the page may be
  reloaded at any time, and a refresh it gave up on may still be handled at any later time.
  `RotationRules` says which refreshes are granted and what a refusal costs.
* **Saving the reading position** (`ReaderProgress`, `ReaderTheorems`, `ReaderAnswers`, `ReaderTab`,
  `ReaderPosition`). The server row is a register that saves compare against and increment; each tab has the refs and the
  promise-chain queue of `ReaderPage.tsx`, and a request the page gave up on may still reach the server.
  The position arithmetic is over `real`, with a separate result that allows one relative rounding error
  per operation.
* **Storage clean-up and the audit** (`Library`, `Cleanup`, `CollectorRaces`,
  `TemporaryRaces`, `RaceOutcomes`, `IntegrityAudit`). The collector is modelled as the script that runs
  alone, and as two state machines that interleave with writers, one object at a time: one for permanent files, one for
  temporary objects. The audit's accumulating loops are compared with a declarative predicate.
* **Identity** (`Identity`, `IdentityRuns`, `SignInRules`, `AccountRules`, `IdentityServices`, `Migration`,
  `AdminAccess`, `DeviceSessions`). Tables are maps and each committed transaction is one step. Runs mix initialization,
  conversion, recovery, reset, revocation, lock, unlock and the logins that interact with them.
  `IdentityServices` holds the services as methods that assign fields of the tables.
* **Codecs and the upload limiter** (`Base64Url`, `ClientInstance`, `UploadLimit`). `btoa` and `atob` are
  defined by sections 4 and 5 of RFC 4648, the identifier by section 5.4 of RFC 9562.

A step function (such as `ClientProtocol.Next`, `ReaderProgress.Next`, `Identity.Convert` or
`Cleanup.Cleaned`) says what the code does; the methods are proved to compute it, and the lemmas state
what follows from it over all inputs and all runs.

## What the proofs found

* **Signing out.** The failure handler runs once for a refused refresh, but again for each call whose
  last transmission carried the token into a final 401. `SignsOutOnceUnlessRetryRefused` gives the exact
  count and the guard behind it, `SignsOutTwice` a run with two calls of the handler for one token.
* **Replay detection.** One page gets its session revoked as a replay in two ways: it presents a cookie
  whose rotation was carried out but never got home (`ReplayOnlyAfterLostGrant`), or a refresh it gave up on
  is processed late, after its cookie has been rotated for another one (`LateReplayOnlyAfterRotation`).
  `ReplaysCounted` says that these are all; `LostGrantCostsTheSession` and the run of
  `LateRefreshCostsTheSession` say that both happen.
* **Conflict notices.** An ordinary save's conflict always leaves the tab behind the server. A second
  press of the override button need not: in the run of `SecondOverrideConflictsWithFirst` the notice stays
  although the tab is up to date. `ConflictLeavesBehind` is exact: the tab is behind if and only if the row
  is no longer the one it holds.
* **Grace period.** `commit_temporary` links the permanent name before it refreshes the modification time,
  so for a moment the new file shows the upload's age. The collector is safe in all interleavings exactly
  when no upload is older than the grace period at that moment and every commit follows within it
  (`GracePeriodSafety`); otherwise a committed row can lose its file (`CommittedFileDeleted`,
  `LateCommitLosesFile`).
* **Temporary objects.** An inspection writes an object before it commits the key. The sweep is safe exactly
  when no object waits longer than the grace period in between (`SweepSafety`, `LateKeyRefersToNothing`).
* **Audit.** The verdict is exact for every content of the storage if and only if no recorded checksum is
  replaced by a later recording of the same temporary key (`AuditExactIffNothingMasked`).
* **Lock time.** Beside `unlock`, completing a recovery with a new passkey lifts the emergency lock, as the
  run of `RecoveryLiftsLock` does; `LockTimeIsKept` says exactly when the first lock time stays.
* **Position.** At the very end of a section whose id is gone, the saved fraction restores the next
  section (`RestoresIndexFromFraction`).
* **Initialization.** With more than one account pending setup `one_or_none` raises, so `initialize` ends
  in an internal error instead of a refusal (`InitializeCrashesIff`). No step adds a pending account, so an
  installation that starts with at most one never gets there (`InitializeCanCrashIff`).

## Model

| member | source | states |
|---|---|---|
| `ClientTheorems.AtMostOneRefreshOutstanding` | apps/web/src/api/client.ts:104-126 | in every reachable state at most one refresh is outstanding, the variable names it, and every waiting call waits for it |
| `ClientTheorems.OneVerdictPerToken` | apps/web/src/api/client.ts:113-121 | for each access token at most one refresh is ever answered by a refusal or a usable body |
| `ClientTheorems.RetryAtMostOnce` | apps/web/src/api/client.ts:137-174 | every call of every run transmits at most twice and never again with the token just refused |
| `ClientTheorems.AnswersBoundedByStarts` | apps/web/src/api/client.ts:159-164 | n started calls cause at most 4n answers to be processed, refreshes included, whatever the server answers |
| `ClientTheorems.AnswerUsesPotential` | apps/web/src/api/client.ts:137-197 | each answer strictly lowers the termination measure; only starting a call raises it |
| `ClientTheorems.NoStrandedCall` | apps/web/src/api/client.ts:122-125 | while a call is unfinished an answer is still due to it, every possible answer moves it on, and every end of the refresh releases every waiter |
| `ClientTheorems.SignOutsCounted` | apps/web/src/api/client.ts:113-118 | over every run, handler calls on account of a token equal refused refreshes held on it plus 401 answers with it that reached the sign-out branch |
| `ClientTheorems.SignsOutOnceUnlessRetryRefused` | apps/web/src/api/client.ts:165-172 | after a refused refresh the handler ran exactly once for the token if and only if no 401 with it reached the sign-out branch, and otherwise once more for each that did |
| `ClientTheorems.FinalRefusalMeetsLastTransmission` | apps/web/src/api/client.ts:188-195 | such an answer meets the second transmission of a call, or a `requestBlob` on a path that is never refreshed |
| `ClientTheorems.SignsOutTwice` | apps/web/src/api/client.ts:239-256 | a concrete run in which one token calls the handler twice |
| `ClientTheorems.SignedOutStaysSignedOut` | apps/web/src/api/client.ts:176-197 | once signed out with no refresh outstanding, no late answer restores a token or starts a refresh, and further handler calls are bounded by the calls still carrying a token |
| `ClientTheorems.CookiePresentedAgainOnlyAfterLoss` | apps/web/src/api/client.ts:108-121 | a refresh presents a cookie already presented if and only if an earlier refresh presenting it ended without replacing or dropping it |
| `ClientOutcomes.CallsEndAsAnswered` | apps/web/src/api/client.ts:165-173 | over every run a call has ended exactly when one of the answers ended it: resolved by a success, or for `api.refresh` by a grant; signed out by a final 401 with a token; rejected by another status, a network error, any other final 401, or a refresh that granted nothing |
| `ClientOutcomes.TransmitsCurrentToken` | apps/web/src/api/client.ts:142-158 | a call transmits when it starts and when it retries, each time the token the page then holds, and at no other event |
| `ClientOutcomes.WaitsForRefresh` | apps/web/src/api/client.ts:159-164 | a call waits for a refresh exactly after a 401 it may retry with the token still current, and then for the one under way |
| `ClientOutcomes.RefreshStarts` | apps/web/src/api/client.ts:104-111 | a refresh starts only when none is under way, for the token then held and with the cookie of the jar |
| `ClientOutcomes.HoldsLastStored` | apps/web/src/api/client.ts:113-121 | over every run the page holds the token last stored or cleared and the jar the cookie last set or deleted, told from the events |
| `ClientProtocol.RunKeepsInv` | apps/web/src/api/client.ts:53-55 | single flight, retired tokens, rotated cookies and well-formed calls are kept by every run |
| `ApiClientModule.ApiClient.RefreshAccessToken` | apps/web/src/api/client.ts:104-111 | joins the flight in progress or starts one holding the current token and cookie |
| `ApiClientModule.ApiClient.StartCall` | apps/web/src/api/client.ts:142-158 | a call starts with the token current at that moment, or joins a refresh |
| `ApiClientModule.ApiClient.OnAnswer` | apps/web/src/api/client.ts:159-173 | the reaction to an answer is the protocol's step: retry, join, sign out or finish |
| `ApiClientModule.ApiClient.WakeWaiters` | apps/web/src/api/client.ts:160-163 | exactly the calls awaiting the flight go on, the retry with the token just stored |
| `ApiClientModule.ApiClient.OnRefreshAnswer` | apps/web/src/api/client.ts:113-124 | token, handler and flight after a refresh are the protocol's step, waiters included |
| `RefreshRotation.ReplayOnlyAfterLostGrant` | apps/server/src/novel_platform/application/auth/service.py:210-257 | over every run of page and server, reloads and late requests included, a processed refresh the page waits for counts as a replay if and only if its cookie was rotated with an answer that never gets home |
| `RefreshRotation.LateReplayOnlyAfterRotation` | apps/server/src/novel_platform/application/auth/service.py:241-257 | a refresh the page gave up on, processed late, counts as a replay if and only if its cookie has been rotated meanwhile |
| `RefreshRotation.ReplaysCounted` | apps/server/src/novel_platform/application/auth/service.py:241-257 | over every run sessions are revoked for replay exactly as often as such a cookie is processed |
| `RefreshRotation.NoFalseReplay` | apps/server/src/novel_platform/application/auth/service.py:241-270 | with no rotation answer lost and no given-up refresh processed late, no run of one page ever has its session revoked for replay |
| `RefreshRotation.LostGrantCostsTheSession` | apps/server/src/novel_platform/application/auth/service.py:241-257 | once the jar holds a cookie whose rotation never got home, the next processed refresh revokes every token of that session, which by `ReplayEndsSession` is for good |
| `RefreshRotation.LateRefreshCostsTheSession` | apps/web/src/api/client.ts:108-124 | a run in which no rotation answer is lost and a given-up refresh processed late revokes the session the page now uses |
| `RefreshRotation.RunKeepsWorld` | apps/server/src/novel_platform/api/routes/auth.py:306-332 | cookie jar, server rows, answers on the way and requests given up stay in step over every run, with 401 dropping the cookie |
| `RotationRules.RowsAfterHandling` | apps/server/src/novel_platform/application/auth/service.py:241-278 | every refresh-token row after a handled refresh: a grant, exactly for a known, unused, unrevoked token on its device, in time, of a session that may go on, uses it up and adds one row; a used token revokes its session, an expired one itself; nothing else changes |
| `RotationRules.AnswerToHandling` | apps/server/src/novel_platform/application/auth/service.py:258-268 | the answer is a grant exactly then, and otherwise a 401 unless the request was refused before the service looked at it |
| `RotationRules.AnswerDelivered` | apps/server/src/novel_platform/api/routes/auth.py:306-332 | what a delivered answer does to token and cookie of the page: a grant sets both, a 401 deletes both, another error only the token |
| `RotationRules.PageLeft` | apps/web/src/api/client.ts:104-126 | a lost answer and a reload leave cookie and rows alone; a refresh not yet handled stays on the network |
| `RotationRules.HandledLate` | apps/server/src/novel_platform/application/auth/service.py:210-240 | a request given up on is carried out once, unnoticed by the page |
| `RotationRules.RevokedForGood` | apps/server/src/novel_platform/application/auth/service.py:264-268 | over every run a revoked refresh token stays revoked, and is never rotated unless it had been |
| `RotationRules.ReplayEndsSession` | apps/server/src/novel_platform/application/auth/service.py:241-257 | after a detected replay no refresh presenting any cookie of that session is granted in any later run, and no row is added for it |
| `RotationRules.ExpiredForGood` | apps/server/src/novel_platform/application/auth/service.py:258-263 | an expired refresh token is refused and revoked, and never granted in any later run |
| `ReaderTheorems.NoLostUpdate` | apps/server/src/novel_platform/application/reader/service.py:212-295 | with any number of tabs, openings and saves answered late or never, and requests carried out after the page gave up on them, the row's changes form one version chain; an ordinary save replaced exactly the row its tab had received when it was sent, an override exactly the version reported; each wrote its own location for the present file, with the status asked for, or else finished exactly when the book had been or the place is in its last section at 0.995 or more |
| `ReaderTheorems.SaveAccepts` | apps/server/src/novel_platform/application/reader/service.py:241-295 | a save is accepted exactly for the version stored, 0 for a row not there yet; the refusal reports it, the acceptance has the next version and the status of the rule above |
| `ReaderTheorems.OpeningAnswers` | apps/server/src/novel_platform/application/reader/service.py:86-107 | opening creates the row or moves it off "not started", leaves a book already begun alone, and answers with the row as it then is |
| `ReaderTheorems.StaleStaysStale` | apps/web/src/pages/ReaderPage.tsx:239-273 | a tab that is behind stays behind and only overrides of it are accepted until it reloads or an override succeeds |
| `ReaderTheorems.LoadsBehind` | apps/web/src/pages/ReaderPage.tsx:125-140 | a tab starts out behind if and only if the row moved on while the answer to its opening was on the way |
| `ReaderTheorems.StartsOutBehind` | apps/web/src/pages/ReaderPage.tsx:125-140 | a run, for every edition and earlier row, that loads such a tab |
| `ReaderTheorems.ConflictLeavesBehind` | apps/web/src/pages/ReaderPage.tsx:262-273 | a conflict leaves its tab behind if and only if the row is no longer the one the tab holds, which is so after every ordinary save's conflict |
| `ReaderTheorems.SecondOverrideConflictsWithFirst` | apps/web/src/pages/ReaderPage.tsx:698-706 | for every edition and whatever row an earlier visit left, a run from two closed tabs in which pressing override twice leaves a notice on an up-to-date tab whose next save is accepted |
| `ReaderTheorems.LoadingRestoresPlace` | apps/web/src/pages/ReaderPage.tsx:126-140 | loading shows the saved place if and only if its section is still there and the file is the same or no block was saved; a surviving section is always the one shown |
| `ReaderTheorems.QueueSimulation` | apps/web/src/pages/ReaderPage.tsx:277-278 | at every point saves done plus saves ahead are the saves queued, and finishing them one by one gives the same row |
| `ReaderTheorems.QueueRefinesSequentialWriter` | apps/web/src/pages/ReaderPage.tsx:237-278 | one tab with every save answered: no conflict, first-in first-out, and the drained queue leaves exactly the sequential writer's row: the last location queued, the present file, and finished if and only if some save finished the book, or it was finished before, and none after that asked for another status |
| `ReaderTheorems.SequentialFinishes` | apps/server/src/novel_platform/application/reader/service.py:280-288 | that condition, for any sequence of saves one by one |
| `ReaderAnswers.ShowsLastAnswer` | apps/web/src/pages/ReaderPage.tsx:257-275 | at any point of any run a tab holds the row of the last acceptance it heard of since it was opened, and shows the notice exactly when the very last answer was a conflict, with that version |
| `ReaderAnswers.GivenUpSaveIsWritten` | apps/web/src/pages/ReaderPage.tsx:257-275 | a run, for every edition and earlier row, in which a save reported as failed is written afterwards and leaves its own tab behind |
| `ReaderTabModule.ReaderTab.Persist` | apps/web/src/pages/ReaderPage.tsx:230-238 | queues the location of that moment, or nothing when there is none |
| `ReaderTabModule.ReaderTab.RunTask` | apps/web/src/pages/ReaderPage.tsx:239-256 | the version sent is read when the task's turn comes, unless it is an override |
| `ReaderTabModule.ReaderTab.TaskAnswered` | apps/web/src/pages/ReaderPage.tsx:257-275 | success replaces row and clears the notice, a conflict only sets the notice, other failures change neither |
| `ReaderTabModule.ReaderTab.HandleScroll` | apps/web/src/pages/ReaderPage.tsx:306-328 | the place is the distance scrolled, clamped, as a fraction of the section; the position lies in the section's share of the book, scales back to i + f, and leads back to the section |
| `ReaderTabModule.ReaderTab.GoToSection` | apps/web/src/pages/ReaderPage.tsx:346-349 | moves exactly for an existing index, after queuing the place left |
| `ReaderTabModule.ReaderTab.ArriveAtSection` | apps/web/src/pages/ReaderPage.tsx:350-357 | the unclamped quotient stored equals the saved position of the section's start |
| `ReaderTabModule.ReaderTab.MarkFinished` | apps/web/src/pages/ReaderPage.tsx:395-402 | queues the present place at position 1 with status finished |
| `ReaderTabModule.ReaderTab.RestartReading` | apps/web/src/pages/ReaderPage.tsx:404-419 | queues the start of the first section with status reading |
| `ReaderPosition.OverallWithinSection` | apps/web/src/pages/ReaderPage.tsx:319-322 | the saved position of section i lies in [i/n, (i+1)/n] and scales back to i + f |
| `ReaderPosition.RestoresSavedSection` | apps/web/src/pages/ReaderPage.tsx:41-45 | a section whose id is unique is restored whatever the fraction |
| `ReaderPosition.RestoresIndexFromFraction` | apps/web/src/pages/ReaderPage.tsx:46-49 | with the id gone the fraction gives index i for f < 1 and min(i+1, n-1) for f = 1 |
| `ReaderPosition.RestoredSectionContains` | apps/web/src/pages/ReaderPage.tsx:46-49 | for any new number of sections the restored one contains the saved position |
| `ReaderPosition.RestoreIsMonotone` | apps/web/src/pages/ReaderPage.tsx:46-49 | a later position never restores an earlier section |
| `ReaderPosition.RestoresWithinOneSection` | apps/web/src/pages/ReaderPage.tsx:312-322 | with every operation off by a relative error of at most 2^-53 the restored section is within one, up to 2^50 sections |
| `ReaderPosition.FirstIndex` | apps/web/src/pages/ReaderPage.tsx:42-44 | the first section with the id, or -1 exactly when there is none |
| `Cleanup.StorageRoot.ExpireStale` | apps/server/scripts/cleanup_library_storage.py:43-84 | the rows afterwards are the specified ones; collected are exactly the keys of uncommitted rows older than the cutoff, and exactly these rows are counted |
| `Cleanup.StorageRoot.RemainingKeys` | apps/server/scripts/cleanup_library_storage.py:87-97 | the temporary keys some import still refers to |
| `Cleanup.StorageRoot.SweepTemporary` | apps/server/scripts/cleanup_library_storage.py:99-108 | what is deleted, preserved and swept as untracked among temporary objects |
| `Cleanup.StorageRoot.SweepPermanent` | apps/server/scripts/cleanup_library_storage.py:109-118 | orphans reported, deferred and deleted, and rows whose file is missing |
| `Cleanup.StorageRoot.CleanupTemporary` | apps/server/src/novel_platform/infrastructure/storage/local.py:211-239 | deletes exactly the objects older than the threshold and not preserved, and counts them |
| `Cleanup.StorageRoot.Clean` | apps/server/scripts/cleanup_library_storage.py:40-128 | the storage and rows afterwards and every count printed, from the sets before and after |
| `Cleanup.StorageRoot.Run` | apps/server/scripts/cleanup_library_storage.py:30-130 | refuses less than one hour untouched; exits with an error exactly then or when a referenced file is missing |
| `Cleanup.PrintedCountsAddUp` | apps/server/scripts/cleanup_library_storage.py:121-128 | the counts printed add up to the sets they split, and files reported deleted are the files gone |
| `Cleanup.RowsAfterCleaning` | apps/server/scripts/cleanup_library_storage.py:45-84 | every import row afterwards: committed rows and rows not older than the cutoff are as they were, any other has failed and refers to nothing, and one that had failed before keeps its error and time |
| `Cleanup.ObjectsAfterCleaning` | apps/server/scripts/cleanup_library_storage.py:99-118 | which temporary and permanent objects are left, for every key, in terms of the rows that refer to it and its age; those left are unchanged |
| `Cleanup.AgeDecides` | apps/server/scripts/cleanup_library_storage.py:33-40 | the same by age: more than the given number of hours, in seconds, before now |
| `Cleanup.KeepsReferenced` | apps/server/scripts/cleanup_library_storage.py:99-118 | no object any row still refers to afterwards is deleted or altered |
| `Cleanup.KeepsConsistent` | apps/server/scripts/cleanup_library_storage.py:64-118 | a consistent library stays consistent under every cutoff |
| `Cleanup.LeavesRecentOrphans` | apps/server/scripts/cleanup_library_storage.py:109-118 | with deletion on the unexpected files left are exactly the orphans not older than the cutoff, and the missing ones are unchanged |
| `Cleanup.CleanedTwice` | apps/server/src/novel_platform/application/library/cleanup.py:1-7 | a second run with the same cutoff changes nothing |
| `CollectorRaces.SafeWhenStampedInTime` | apps/server/src/novel_platform/application/library/commit_service.py:100-144 | in all interleavings no committed row loses its file if uploads are stamped within the grace period and committed within it after that |
| `CollectorRaces.CommittedFileDeleted` | apps/server/src/novel_platform/infrastructure/storage/local.py:116-147 | for every grace period a run in which an older upload is committed and then deleted |
| `CollectorRaces.LateCommitLosesFile` | apps/server/src/novel_platform/application/library/commit_service.py:100-144 | for every grace period a run in which a commit later than that refers to a deleted file |
| `CollectorRaces.GracePeriodSafety` | apps/server/scripts/cleanup_library_storage.py:40-118 | the collector never loses a committed file, over all runs, if and only if no upload is older than the grace period when it is stamped and no commit follows its stamp by more than that |
| `RaceOutcomes.ExpiryTurnsAway` | apps/server/scripts/cleanup_library_storage.py:45-84 | in every interleaving expiry turns away exactly the unlocked, uncommitted imports older than the cutoff: they never get a row, and every other writer goes on where it was |
| `RaceOutcomes.StampNeedsFile` | apps/server/src/novel_platform/infrastructure/storage/local.py:136-146 | a writer whose file was deleted before the stamp never commits; otherwise file and writer carry the time of the stamp |
| `TemporaryRaces.SafeWhenReferredInTime` | apps/server/src/novel_platform/application/library/inspection_service.py:76-87 | in all interleavings no temporary object that a committed import row refers to has been swept, if its key is committed within the grace period of its last write |
| `TemporaryRaces.LateKeyRefersToNothing` | apps/server/src/novel_platform/application/library/inspection_service.py:187-208 | for every grace period a run in which a key committed later than that refers to a deleted object |
| `TemporaryRaces.SweepSafety` | apps/server/scripts/cleanup_library_storage.py:86-108 | the sweep of temporary objects is safe over all runs if and only if no object waits longer than the grace period |
| `RaceOutcomes.NamesLeft` | apps/server/scripts/cleanup_library_storage.py:99-110 | in every interleaving a temporary object stays exactly until it is unlinked, purged or swept, and never comes back |
| `RaceOutcomes.ReferenceKept` | apps/server/scripts/cleanup_library_storage.py:49-74 | in every interleaving a reference is lost only by being released, or because its import row is older than the grace period |
| `RaceOutcomes.ExpiryClears` | apps/server/scripts/cleanup_library_storage.py:49-74 | expiry clears exactly the references of old rows that nobody holds locked, and changes no other object |
| `IntegrityAudit.Audit` | apps/server/src/novel_platform/application/auth/migration_service.py:239-279 | the report is the one defined by sets and counts without the loops, which the other results are about |
| `IntegrityAudit.CountsBalance` | apps/server/src/novel_platform/application/auth/migration_service.py:241-244 | database files less missing equal physical files less unexpected, for all inputs |
| `IntegrityAudit.VerdictIsLastRecordings` | apps/server/src/novel_platform/application/auth/migration_service.py:71-81 | the verdict holds if and only if permanent files match their rows and the last recording of each temporary key holds |
| `IntegrityAudit.AuditExactIffNothingMasked` | apps/server/src/novel_platform/application/auth/migration_service.py:251-268 | verdict and consistency agree for every storage content if and only if no checksum is masked by a later recording |
| `IntegrityAudit.MaskedRecordingFoolsAudit` | apps/server/src/novel_platform/application/auth/migration_service.py:260-261 | for any masked checksum a storage content that is reported consistent and is not |
| `IntegrityAudit.DistinctKeysMaskNothing` | apps/server/src/novel_platform/application/auth/migration_service.py:253-261 | nothing is masked when no temporary key is recorded twice |
| `IdentityRuns.SoleAdministrator` | apps/server/src/novel_platform/application/auth/admin_service.py:211-222 | over every run the configured owner is the only active administrator and the lookup never fails |
| `IdentityRuns.InitializesAtMostOnce` | apps/server/src/novel_platform/application/auth/admin_service.py:52-66 | initialization succeeds at most once in any run, and never once an owner is configured, by conversion or otherwise |
| `IdentityRuns.InitializesThePendingUser` | apps/server/src/novel_platform/application/auth/admin_service.py:67-79 | the one pending account becomes the active owner, none is pending afterwards, and every other account is untouched |
| `IdentityRuns.InitializeCrashesIff` | apps/server/src/novel_platform/infrastructure/repositories/users.py:34-38 | initialization fails internally if and only if two accounts are pending setup |
| `IdentityRuns.InitializeCanCrashIff` | apps/server/src/novel_platform/application/auth/admin_service.py:53-59 | some run leads to such a failure if and only if two accounts are pending at its start, as no step adds one |
| `IdentityRuns.OneRedeemableCredential` | apps/server/src/novel_platform/application/auth/admin_service.py:185-209 | at any point of any run at most one recovery credential can be redeemed, and it is the last issued to its user |
| `IdentityRuns.RedeemedOnce` | apps/server/src/novel_platform/application/auth/service.py:704-711 | a redeemed recovery credential is refused after every later run, by whatever steps |
| `SignInRules.RedeemRule` | apps/server/src/novel_platform/application/auth/service.py:704-711 | a recovery credential signs in if and only if it is unused, unrevoked, not yet at its expiry, and belongs to the configured, active administrator; it is then used up, and every row afterwards is given |
| `SignInRules.PasskeyRule` | apps/server/src/novel_platform/application/auth/service.py:127-136 | a passkey signs in if and only if it is unrevoked, belongs to the configured, active administrator, and there is no lock; what was live on the device is revoked |
| `SignInRules.ReaderRule` | apps/server/src/novel_platform/application/auth/service.py:689-702 | with a valid access credential a reader signs in if and only if an active member of an installation that is set up |
| `SignInRules.CompletionRule` | apps/server/src/novel_platform/application/auth/service.py:172-208 | a recovery is completed if and only if from a live recovery session of the configured, active administrator; new session, token and passkey, lock lifted |
| `SignInRules.IssuedCredential` | apps/server/src/novel_platform/application/auth/admin_service.py:185-209 | an issued credential belongs to the owner, has the purpose of its command and lasts from now for the given time; what was open for the owner is revoked now |
| `SignInRules.CredentialExpires` | apps/server/src/novel_platform/application/auth/service.py:704-711 | from the moment its time is over it signs nobody in, after any later run |
| `AccountRules.CreatedReadersSignIn` | apps/server/src/novel_platform/application/auth/service.py:689-702 | a reader created at any point of any run can sign in with a valid access credential at every later point, whatever modelled transactions happen in between, if and only if the installation has an owner by then |
| `AccountRules.PasswordsOnlyDisappear` | apps/server/src/novel_platform/application/auth/admin_service.py:52-88 | over every run no account gets a password, an owner never has one, and an installation with an owner is set up |
| `AccountRules.CommandsNeedOwner` | apps/server/src/novel_platform/application/auth/admin_service.py:211-222 | at any point of any run the five commands succeed exactly with an owner, refuse without one, and never fail internally |
| `AccountRules.InitializeAccepts` | apps/server/src/novel_platform/application/auth/admin_service.py:52-88 | initialization succeeds exactly with one account pending setup and nobody an active administrator |
| `AccountRules.ConversionRefusals` | apps/server/src/novel_platform/application/auth/migration_service.py:161-188 | which of the three refusals a conversion gives |
| `AccountRules.OwnersChangeOnlyByConversion` | apps/server/src/novel_platform/application/auth/migration_service.py:192-194 | over every run without a conversion every book, series, file and import keeps its owner, and none is lost |
| `AccountRules.ChangedRowsAreStamped` | apps/server/src/novel_platform/application/auth/migration_service.py:195-221 | every account, device and setting that a transaction changes carries the time of the change, and one that lost its password says when |
| `AccountRules.AuditRecordsCommits` | apps/server/src/novel_platform/application/auth/admin_service.py:84-152 | over every run the audit grows by exactly the entries of the transactions committed, in order |
| `IdentityRuns.IssuedIsTheOnlyOpen` | apps/server/src/novel_platform/application/auth/admin_service.py:90-122 | after a recovery or a reset the new credential is the only open one of the administrator |
| `IdentityRuns.LockedLeavesOnlyRecovery` | apps/server/src/novel_platform/application/auth/admin_service.py:137-145 | while locked every unrevoked session of the administrator is a recovery session |
| `IdentityRuns.LockTimeIsKept` | apps/server/src/novel_platform/application/auth/service.py:187-189 | over every run the first lock time stays throughout if and only if no attempt unlocks, or completes a recovery of, the configured administrator; refused attempts do no harm |
| `IdentityRuns.LockTimeStep` | apps/server/src/novel_platform/application/auth/admin_service.py:147-152 | the same for one attempt, with the guards of the two branches that lift the lock |
| `IdentityRuns.RecoveryLiftsLock` | apps/server/src/novel_platform/application/auth/service.py:172-189 | a run from a fresh installation that locks and ends unlocked without any unlock |
| `IdentityRuns.RunKeepsInv` | apps/server/src/novel_platform/application/auth/service.py:532-573 | sole administrator, one open credential and the lock rule are kept by every run, logins included |
| `AdminAccess.RevokeAllEndsSessions` | apps/server/src/novel_platform/application/auth/admin_service.py:124-135 | no session or token of the administrator stays live, other users' are untouched, earlier revocations keep their time |
| `AdminAccess.LockEndsSessions` | apps/server/src/novel_platform/application/auth/admin_service.py:137-145 | locking does the same and leaves the lock set |
| `AdminAccess.ResetEndsAccess` | apps/server/src/novel_platform/application/auth/admin_service.py:106-122 | a reset also revokes every passkey of the administrator and no other |
| `AdminAccess.ResetShutsOut` | apps/server/src/novel_platform/application/auth/service.py:117-136 | after a reset nobody holds a live session or passkey of the administrator, throughout every further run, if and only if no redemption succeeds and no conversion makes somebody else the owner |
| `AdminAccess.ResetEndsEarlierCredentials` | apps/server/src/novel_platform/application/auth/admin_service.py:188-196 | a recovery credential the administrator had before a reset is refused after every later run, so only later ones readmit |
| `AdminAccess.LockRefusesUnlockReadmits` | apps/server/src/novel_platform/application/auth/service.py:127-136 | a working passkey is refused after locking and accepted again after unlocking |
| `AdminAccess.CompletedRecoveryStandsAlone` | apps/server/src/novel_platform/application/auth/service.py:172-208 | a completed recovery leaves the administrator exactly one live session, an ordinary one, and lifts the lock; accounts, devices and everyone else's sessions, tokens and passkeys are as they were |
| `DeviceSessions.OneLiveSessionPerDevice` | apps/server/src/novel_platform/application/auth/service.py:146-154 | over every run of all kinds of sign-in a device has at most one live session, and it is its own user's |
| `DeviceSessions.RunKeepsSeparate` | apps/server/src/novel_platform/application/auth/service.py:553-562 | the invariant behind it, kept by every step |
| `IdentityServices.Tables.RevokeUserSessions` | apps/server/src/novel_platform/infrastructure/repositories/auth.py:101-126 | tokens and sessions of the user are revoked and the count is that of sessions live before |
| `IdentityServices.AdminService.FindSiteAdmin` | apps/server/src/novel_platform/application/auth/admin_service.py:211-222 | finds the owner, refuses without one, and fails internally if it is no administrator |
| `IdentityServices.AdminService.IssueCredential` | apps/server/src/novel_platform/application/auth/admin_service.py:185-209 | open credentials of the user are revoked and one with the right expiry and purpose is added |
| `IdentityServices.AdminService.Initialize` | apps/server/src/novel_platform/application/auth/admin_service.py:52-88 | commits the specified state, or refuses or fails with the tables untouched |
| `IdentityServices.AdminService.CreateRecovery` | apps/server/src/novel_platform/application/auth/admin_service.py:90-104 | the same for a recovery credential |
| `IdentityServices.AdminService.ResetCredentials` | apps/server/src/novel_platform/application/auth/admin_service.py:106-122 | the same for a credential reset |
| `IdentityServices.AdminService.RevokeAllSessions` | apps/server/src/novel_platform/application/auth/admin_service.py:124-135 | the same for revoking all sessions, returning exactly how many sessions of the whole table ended |
| `IdentityServices.AdminService.Lock` | apps/server/src/novel_platform/application/auth/admin_service.py:137-145 | the same for the emergency lock, which keeps an earlier lock time |
| `IdentityServices.AdminService.Unlock` | apps/server/src/novel_platform/application/auth/admin_service.py:147-152 | the same for unlocking |
| `IdentityServices.AuthMigrationService.Convert` | apps/server/src/novel_platform/application/auth/migration_service.py:155-237 | commits the specified conversion and returns its owner, or refuses with the tables untouched |
| `IdentityServices.AuthMigrationService.ChooseTarget` | apps/server/src/novel_platform/application/auth/migration_service.py:161-191 | which administrator is chosen, or which refusal is given |
| `Migration.Report` | apps/server/src/novel_platform/application/auth/migration_service.py:93-153 | owner counts are sorted, list every owner once with that owner's rows; active devices, sessions and tokens are counted, and the two flags are right |
| `Migration.ReportCountsEveryRow` | apps/server/src/novel_platform/application/auth/migration_service.py:104-124 | each column of the report adds up to the number of rows in its table |
| `AccountRules.ReportSplitsSessions` | apps/server/src/novel_platform/application/auth/migration_service.py:125-153 | active sessions and those revoked or expired are all there are, and likewise for refresh tokens |
| `Migration.ConversionConserves` | apps/server/src/novel_platform/application/auth/migration_service.py:192-194 | the four tables keep their rows and the single owner's counts afterwards are the column sums before |
| `Migration.ConvertAccepts` | apps/server/src/novel_platform/application/auth/migration_service.py:163-188 | a conversion is accepted if and only if it settles on one administrator and maps exactly the others |
| `Migration.ConversionSettlesRoles` | apps/server/src/novel_platform/application/auth/migration_service.py:195-206 | the owner becomes an active administrator, everyone else a member with the status held before; the lock is untouched |
| `Migration.ConversionSignsEveryoneOut` | apps/server/src/novel_platform/application/auth/migration_service.py:204-221 | no device, session, token or password stays usable, every active count is zero, and earlier revocation times are kept |
| `Migration.ConversionIsStable` | apps/server/src/novel_platform/application/auth/migration_service.py:151-188 | after any later run a conversion with no target and no mapping is accepted and changes no ownership, role, status or credential |
| `Migration.ConvertedTwice` | apps/server/src/novel_platform/application/auth/migration_service.py:193-235 | converting twice in a row differs from once only in timestamps and one audit event |
| `Base64Url.EncodeBase64Url` | apps/web/src/auth/webauthn.ts:9-14 | the string built byte by byte is one `btoa` accepts, and the result is the unpadded url text that decodes to the bytes |
| `Base64Url.EncodedIsUrlDigits` | apps/web/src/auth/webauthn.ts:13-13 | the output is the digits in the url alphabet, without '+', '/' or '=', of the exact length |
| `Base64Url.BtoaThrowsIff` | apps/web/src/auth/webauthn.ts:12-13 | `btoa` throws exactly when some character does not fit into a byte |
| `Base64Url.EncodedInAlphabet` | apps/web/src/auth/webauthn.ts:13-13 | each character is the digit of section 5 of RFC 4648 for its six bits: letters, numerals, "-" for 62 and "_" for 63 |
| `Base64Url.SextetsAreTheBits` | apps/web/src/auth/webauthn.ts:9-14 | these six bits are those of the bytes in order, the last character filled up with zero bits |
| `Base64Url.PaddingRestored` | apps/web/src/auth/webauthn.ts:2-3 | decoding restores exactly the padding encoding stripped |
| `Base64Url.RoundTrip` | apps/web/src/auth/webauthn.ts:1-14 | decoding the encoding of any bytes gives them back |
| `Base64Url.EncodingIsInjective` | apps/web/src/auth/webauthn.ts:9-14 | texts are equal exactly when the bytes are |
| `Base64Url.EncodesBackIffCanonical` | apps/web/src/auth/webauthn.ts:1-7 | decoding and encoding gives a text back if and only if it is canonical |
| `Base64Url.WhiteSpaceIsIgnored` | apps/web/src/auth/webauthn.ts:4-4 | ASCII white space anywhere in the padded text makes no difference to `atob` |
| `ClientInstance.MarksAreMasks` | apps/web/src/auth/AuthProvider.tsx:50-51 | the arithmetic marks are the source's bit masks, for every byte |
| `ClientInstance.UuidMatchesPattern` | apps/web/src/auth/AuthProvider.tsx:42-42 | every random value gives a version 4 identifier the page's own pattern accepts |
| `ClientInstance.PatternIsFiveGroups` | apps/web/src/auth/AuthProvider.tsx:42-43 | the pattern accepts exactly five groups of 8, 4, 4, 4 and 12 hexadecimal digits of either case, with version 1 to 5 and variant 8, 9, a or b |
| `ClientInstance.UuidKeepsRandomBits` | apps/web/src/auth/AuthProvider.tsx:49-53 | identifiers are equal if and only if the other 122 bits are |
| `ClientInstance.UuidSpellsBytes` | apps/web/src/auth/AuthProvider.tsx:49-53 | the identifier spells the sixteen bytes in order, two lower-case hexadecimal digits each, with only the six marked bits of bytes 6 and 8 fixed |
| `ClientInstance.FormatRandom` | apps/web/src/auth/AuthProvider.tsx:45-54 | the in-place change of bytes 6 and 8 and the resulting identifier |
| `ClientInstance.Page.ClientInstanceId` | apps/web/src/auth/AuthProvider.tsx:56-75 | remembers in memory first, reuses a valid stored value, otherwise stores the new one where storage works |
| `ClientInstance.CallsOfPage` | apps/web/src/auth/AuthProvider.tsx:56-75 | which identifier all calls of one page get, and what they leave in storage |
| `ClientInstance.VisitPages` | apps/web/src/auth/AuthProvider.tsx:56-75 | any number of pages one after another share one identifier where storage works, and otherwise keep to their own |
| `ClientInstance.SameIdAcrossCallsAndReloads` | apps/web/src/auth/AuthProvider.tsx:56-75 | any number of calls of a page get one identifier; with two visits and random values that all differ, all calls of all pages get one if and only if storage works |
| `UploadLimit.FindContentLength` | apps/server/src/novel_platform/api/middleware/upload_limits.py:62-71 | the first such header decides, unreadable counts as absent, negative as zero |
| `UploadLimit.Exchange.LimitedReceive` | apps/server/src/novel_platform/api/middleware/upload_limits.py:31-38 | counts body bytes and passes the message or raises |
| `UploadLimit.Exchange.ObservedSend` | apps/server/src/novel_platform/api/middleware/upload_limits.py:40-44 | passes every message on and remembers a response start |
| `UploadLimit.Handle` | apps/server/src/novel_platform/api/middleware/upload_limits.py:18-51 | the whole call around any application, in every branch |
| `UploadLimit.DeliversWithinLimit` | apps/server/src/novel_platform/api/middleware/upload_limits.py:31-38 | whatever the application does, exceptions swallowed included, it gets exactly the part of what it read that stays within the limit, never more bytes |
| `UploadLimit.TransparentWithinLimit` | apps/server/src/novel_platform/api/middleware/upload_limits.py:46-51 | within the limit, declared and actual, the middleware changes nothing |
| `UploadLimit.NeverAddsSecondStart` | apps/server/src/novel_platform/api/middleware/upload_limits.py:46-51 | the application's own messages come first and one rejection follows exactly when it gave up before starting a response |
| `UploadLimit.OversizeNeverComplete` | apps/server/src/novel_platform/api/middleware/upload_limits.py:34-37 | a body over the limit never reaches the application whole |
| `UploadLimit.InspectionIsLimited` | apps/server/src/novel_platform/api/middleware/upload_limits.py:18-59 | a POST to the import inspection, whatever its headers: never more bytes than the file limit and one mebibyte, never the whole of a larger body, and nothing at all with a larger declared length |
| `UploadLimit.OthersAreNotLimited` | apps/server/src/novel_platform/api/middleware/upload_limits.py:19-21 | any other scope is passed to the bare application, whatever the size |
| `UploadLimit.FirstLengthDecides` | apps/server/src/novel_platform/api/middleware/upload_limits.py:61-71 | the first header spelled content-length in any case is the one that counts |
| `UploadLimit.DirectReadsInOrder` | apps/server/src/novel_platform/api/middleware/upload_limits.py:46-47 | the bare application, which the transparent call equals, gets the stream in order as far as it reads |
| `UploadLimit.DirectSendsInOrder` | apps/server/src/novel_platform/api/middleware/upload_limits.py:40-47 | and everything it sends goes out, in order |
| `UploadLimit.KeepsRaising` | apps/server/src/novel_platform/api/middleware/upload_limits.py:34-37 | once over the limit, whatever the application goes on to do, every body message it reads raises again and only messages without a body are delivered |

## Left out

- The failure handler of `client.ts` is taken to be installed; `configureAuthFailure(null)` is not modelled.
- Response bodies, headers, upload progress and error texts of calls; an answer is success, 401, another status or a network error.
- Two tabs sharing one cookie jar: the rotation results are about one page. They start from a page load with no refresh under way and a cookie not rotated yet; later reloads, those that interrupt a refresh included, are steps.
- Logging in or out in the middle of a refresh is part of `ClientProtocol`, but the rotation results assume that the cookie a login sets is new.
- Session and token lifetimes, except as an open choice in the refresh endpoint and in the report, and as the expiry of recovery credentials.
- The checks of `save_progress` on the file revision and on the section id, whose refusals count as failed saves; timestamps, devices and the reader's settings.
- The fallback to the held version when a conflict reports no number, since the server always reports one.
- A reload or an edition change that overlaps a pending save or another reload: `ReaderProgress.Open` is possible only when the tab's queue is empty and no opening is under way.
- Block ids, timers and the restoring of the scroll offset; `HandleScroll` is given the visible block and the scroll measures.
- NaN, infinities and signed zero; positions are real numbers.
- Clean-up: error texts, and failures of the file system; the script running alone sees no locked rows. Removing empty directories.
- `CollectorRaces`: one file per import where a commit may link several; the restoring of temporary names after a failed commit, which only removes the permanent one. Clock readings are one common clock.
- `TemporaryRaces`: the rows' statuses and locks, for which any stale row may be skipped by expiry; a row deleted while its inspection goes on; the objects an import commit takes away itself.
- The audit is given rows and listings taken at one moment.
- Raw credential values, hashes, hints, user names, display names, device secrets, device limits of reader credentials, login throttling, the audit events of failed logins, and the metadata of audit events.
- Migration.Report: is given which sessions and tokens are expired or used; it does not pass on the reading rows' totals, the order of users by creation, and the schema revision, which are single counts or listings.
- `status`, which only reads single values.
- Registering or revoking passkeys inside an ordinary session, managing readers' access credentials, disabling readers, and ordinary logout.
- Database isolation: each service call is one transaction, serialized by the row locks it takes.
- Content-Length is given as the number `int()` reads from it; the syntax `int()` accepts is not modelled.
- The platform's own `randomUUID`, used where it exists, is a parameter that satisfies the pattern.
- Cryptography, WebAuthn ceremonies, cookie attributes, configuration, rendering and routing.
