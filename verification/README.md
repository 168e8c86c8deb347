# Postara, modelled and proved

Postara is a gateway that serves IMAP mailboxes over HTTP. Its web and database shells are plain, but inside them
stand several small state machines whose correctness is a matter of whole runs. This project models those
machines in Dafny and proves what they promise.

| file | component |
|---|---|
| `AuthProtection.dfy`, `AuthRuns.dfy`, `AuthAttempts.dfy`, `AuthAnswers.dfy` | the login and registration attempt limiter, its runs, the handlers that drive it, and what they answer |
| `RateLimit.dfy` | the sliding-window limiter of API keys and addresses |
| `Pagination.dfy` | listing messages page by page over a mailbox that changes meanwhile |
| `Executor.dfy` | the bounded worker pool with one semaphore per account, as interleaved steps |
| `Redaction.dfy`, `Outbox.dfy`, `AuditTrail.dfy` | audit redaction, the outbox that carries audit events between two databases, and what the delivered log says |
| `Accounts.dfy`, `AccountRuns.dfy`, `AccountLaws.dfy`, `Access.dfy` | the account service, its runs, what each operation answers, and what API keys can reach |
| `Crypto.dfy`, `Mailboxes.dfy`, `MailboxRuns.dfy`, `MailboxLaws.dfy` | key versions, the transactional account service, credentials over rotations, and what each transaction answers |
| `Health.dfy` | the debounced recording of mailbox health |
| `Sessions.dfy`, `SessionLaws.dfy` | users and their login sessions, and what the operations mean for who gets in |
| `OAuthState.dfy` | the signed state of the OAuth flow and its unpadded base64url text |
| `Common.dfy` | shared vocabulary: options, results, logs of instants |

Where the program changes things in place, a class with the same fields changes them in place, and each method is
proved to compute a function of the old state; the run-level theorems are lemmas about those functions. Instants
and durations are reals. Clock readings, random ids and tokens, the answers of remote services, and whether a
transaction commits are inputs. Encryption, HMAC, JSON and password hashing are ideal: a ciphertext opens under its
own key only, JSON text reads back, and a hash is compared with what it was made from.

Seven things the proofs brought to light:

* The settings do not check the signs of the two durations, and with some of them a purge is noticed. For arbitrary
  stores it is unobservable exactly if protection is off, or `window + lock >= 0` and either `lock >= 0` or challenges
  are off (`AuthRuns.PurgeIsUnobservable`, with the failing run in `AuthRuns.UnsafePurgesShow`); for the stores that
  runs reach, `AuthRuns.PurgeIsUnobservableFromScratch` gives the exact condition and both failing runs.
* `update_credentials_for_user` does not look at the kind of mailbox. On a mailbox connected through OAuth it makes
  the stored tokens unreadable once the active key has changed since the tokens were written, and in no other case
  (`MailboxRuns.PasswordStrandsTokens`, with a losing run in `MailboxRuns.StrandedTokens`). Whole runs keep every
  credential readable exactly when this, and the same condition on refreshing beside a stored password, is respected
  (`MailboxRuns.ReadableIffAlwaysSafe`).
* The repository service never counts a wrong verification code, although its code writes the count: the exception
  that reports the code leaves the transaction and rolls the write back. The limit of five holds of it exactly as long
  as fewer than five wrong codes are handed in (`MailboxRuns.WrongCodesAreRolledBack`); after any number of them the
  right one still succeeds (`MailboxRuns.GuessingIsNotStopped`). The in-memory service keeps the limit
  (`AccountRuns.VerificationLife`).
* Delivered audit rows have lost who acted. "to" is a sensitive fragment and occurs in "actor_type" and "actor_id",
  so the second pass of redaction, over the whole record, marks both (`Redaction.DeliveredRow`).
* One append that fails is enough for the delivered audit log to say that a deleted mailbox exists
  (`AuditTrail.DeletedMailboxComesBack`); the outbox itself always tells the truth. An order of delivery tells it for
  every run of the service exactly if it delivers every row and the last deliveries come in row order
  (`AuditTrail.AuditTellsIff`).
* The semaphores do not keep accounts apart: an account with as many unfinished tasks as there are workers can hold
  them all (`Executor.StarvationIff`), and a limit of 0 is accepted and blocks the pool (`Executor.NeverStuckIff`).
* GET /mailboxes looks at no scope: a key that may not read still lists (`Access.DiscoveryAgreesWithAccess`).

## Model

| member | source | states |
|---|---|---|
| AuthProtection.InMemoryAuthAttemptStore.PurgeExpired | src/postara/auth_protection.py:100-108 | the loop removes exactly the buckets whose window start and lock both lie before the cutoff, and returns how many went |
| AuthProtection.AuthAttemptLimiter.ActiveBucket | src/postara/auth_protection.py:217-226 | a bucket whose window and lock are both over is deleted on sight and reported absent; any other is returned and kept |
| AuthProtection.AuthAttemptLimiter.Check | src/postara/auth_protection.py:179-192 | the whole new store and the outcome of the scan over e-mail and address bucket, which stops at the first that objects: locked, challenge due, or challenge failed |
| AuthProtection.AuthAttemptLimiter.RecordBucketFailure | src/postara/auth_protection.py:228-246 | the bucket after one more failure (opened anew if dead), with count, lock, challenge and last failure, and whether it is locked now |
| AuthProtection.AuthAttemptLimiter.RecordFailure | src/postara/auth_protection.py:194-198 | records on the e-mail bucket and, only if that did not lock, on the address bucket |
| AuthProtection.AuthAttemptLimiter.Clear | src/postara/auth_protection.py:200-204 | removes both buckets of a subject when protection is enabled, and nothing otherwise |
| AuthProtection.AuthAttemptLimiter.PurgeExpired | src/postara/auth_protection.py:206-208 | purges with the cutoff window plus lock before now |
| AuthRuns.PurgesOnlyDeadIffSafe | src/postara/auth_protection.py:206-226 | every bucket the purge can take is one that `_active_bucket` treats as dead if and only if lock is not negative and neither is window plus lock |
| AuthRuns.PurgeIsUnobservable | src/postara/auth_protection.py:100-226 | for all stores, runs and purge times on a clock that does not run back: the answers to check, record_failure and clear are those of the same run without purges if and only if protection is off, or window plus lock is not negative and either lock is not negative or challenges are off |
| AuthRuns.PurgeIsUnobservableFromScratch | src/postara/auth_protection.py:100-226 | the same for runs from the empty store: unobservable if and only if protection is off, or lock and window plus lock are not negative, or the settings are silent (no bucket a run can make ever objects) |
| AuthRuns.UnsafePurgesShow | src/postara/auth_protection.py:206-226 | a store and a run of one purge and one check whose answer differs without the purge, for every other setting |
| AuthRuns.ForgottenChallenge | src/postara/auth_protection.py:206-246 | from the empty store: enough failures, a purge inside their window, and the challenge that was due is forgotten |
| AuthRuns.ForgottenLock | src/postara/auth_protection.py:206-246 | from the empty store: one failure that locks, a purge before the lock runs out, and the lock is forgotten |
| AuthRuns.StepKeepsSummary | src/postara/auth_protection.py:179-246 | with any settings, every operation keeps each bucket equal to the summary of its failure log, and an absent bucket means no failures or an epoch that is over |
| AuthRuns.SummaryOfOneMore | src/postara/auth_protection.py:228-244 | bumping a bucket computes the summary of the log with one more failure, whether that failure opens a new epoch or joins the current one |
| AuthRuns.BucketIsSummaryOfLog | src/postara/auth_protection.py:217-246 | with any settings, in every run: the count is the failures since the window began, the lock is last failure plus lock seconds exactly when the count exceeds the limit, and the challenge dates from the failure that met the threshold; the log restarts at a clear or when a purge takes a bucket alive |
| AuthAttempts.HandleEvent | src/postara/api.py:782-816 | the handler's order of check, credentials, then clear or record; a failed challenge is forgiven only when the token verifies |
| AuthAttempts.AdmittedMeansUnlocked | src/postara/auth_protection.py:182-192 | an attempt that check lets through comes after the lock of every earlier failure of its epoch, also when the bucket has been dropped |
| AuthAttempts.EpochBound | src/postara/auth_protection.py:242-246 | one epoch puts at most limit plus one failures into any stretch shorter than the lock |
| AuthAttempts.FailuresAreSpaced | src/postara/auth_protection.py:217-246 | any failure lies at least the shorter of window and lock after the one 2 * (limit + 1) places before it |
| AuthAttempts.FailedAttemptsAreBounded | src/postara/auth_protection.py:179-246 | in every serial run with purges anywhere, for every action and e-mail: an interval as long as the shorter of window and lock holds at most 2 * (failure_limit + 1) failed attempts with no accepted one among them |
| AuthAnswers.KeysKeepApart | src/postara/auth_protection.py:210-215 | two subjects share an e-mail bucket exactly if both or neither register and the e-mail is the same, an address bucket likewise, and never an e-mail bucket with an address bucket |
| AuthAnswers.CheckAnswers | src/postara/auth_protection.py:179-192 | in every run, from the failures logged for the e-mail and for the address: rate limited if and only if the lock of the first log that objects still holds; challenge required if and only if it has met the threshold in a live epoch, is not locked and no token came along; challenge failed in the same case with a token; passed otherwise |
| AuthAnswers.RecordAnswers | src/postara/auth_protection.py:194-246 | in every run, recording a failure answers rate limited if and only if this failure takes the e-mail's or the address's epoch past the limit and the lock has a length |
| AuthAnswers.HandlerAnswers | src/postara/api.py:630-645 | in every run, an attempt is refused if and only if a lock holds, or a challenge is due and no token came that verifies; any other is accepted with the right credentials and fails with wrong ones |
| AuthAnswers.HandlerRecords | src/postara/api.py:782-816 | an accepted attempt leaves both buckets absent, a failed one leaves what recording a failure leaves |
| RateLimit.InMemoryRateLimiter.AddOrRaise | src/postara/rate_limit.py:40-46 | prunes, refuses at the limit, and otherwise logs the second clock reading; no other bucket changes |
| RateLimit.InMemoryRateLimiter.Prune | src/postara/rate_limit.py:55-58 | the loop drops the longest front part of the queue that is not later than the cutoff |
| RateLimit.InMemoryRateLimiter.CheckApiKey | src/postara/rate_limit.py:31-32 | an admission by the key rule on the key's own bucket |
| RateLimit.InMemoryRateLimiter.CheckAuthFailures | src/postara/rate_limit.py:34-53 | looks without logging, but prunes |
| RateLimit.InMemoryRateLimiter.RecordAuthFailure | src/postara/rate_limit.py:37-38 | an admission by the failure rule on the address's own bucket |
| RateLimit.PrunedCountsRecent | src/postara/rate_limit.py:55-58 | the length of the pruned queue is the number of admissions in the whole history that are still in the window, and the queue remains an end of that history |
| RateLimit.QueueRefinesHistory | src/postara/rate_limit.py:40-58 | over every run on all buckets, every call is admitted or refused exactly as by a limiter that never forgets and counts the whole history |
| RateLimit.AdmissionKeepsRate | src/postara/rate_limit.py:40-46 | an admission keeps every entry of the history at least a window after the one `limit` places before it, although prune and append read the clock separately |
| RateLimit.AdmissionsAreBounded | src/postara/rate_limit.py:40-58 | in every run, every bucket admits at most k * limit calls in any interval of k windows |
| RateLimit.KeysAreLimited | src/postara/rate_limit.py:31-58 | in every run a call of an API key goes through if and only if fewer than the key rule's limit of that key's admissions lie in the key rule's window before it; and any k windows hold at most k limits |
| RateLimit.AddressesAreLimited | src/postara/rate_limit.py:34-58 | the same of an address by the failure rule, for looking and for recording alike |
| Pagination.Criteria | src/postara/providers/gmail.py:85-134 | builds the SEARCH keys part by part; a cursor that is not a positive number ends in message-not-found |
| Pagination.CriteriaMean | src/postara/providers/gmail.py:85-101 | a message meets the SEARCH keys if and only if it passes each filter that is given (unread, not before the since day, before the before day, the sender holds the address as a slice) and is below the cursor |
| Pagination.ListMessages | src/postara/providers/gmail.py:43-48 | one page: search, newest first, cut off at the limit |
| Pagination.PageIsNewestBelow | src/postara/providers/gmail.py:43-48 | on every folder a page is in descending UID order, holds only wanted messages below the cursor, and leaves out a wanted one only if the page is full and that one is older than all of it |
| Pagination.NextIsSmaller | src/postara/api.py:451-454 | the next cursor is absent or a positive number strictly below the one given, so following cursors ends |
| Pagination.WalkDescends | src/postara/providers/gmail.py:43-101 | whatever happens to the folder between fetches, all the pages together are in strictly descending UID order: no UID twice |
| Pagination.WalkIsComplete | src/postara/providers/gmail.py:43-101 | every message that matched at every fetch of the walk is returned by one of them |
| Pagination.WalkIsSound | src/postara/providers/gmail.py:43-101 | a returned message was in the folder and wanted at the fetch that returned it |
| Pagination.CursorResumes | src/postara/api.py:451-454 | asking below the UID of the match at some position gives exactly the matches after that position |
| Pagination.StillMailboxIsReadOnce | src/postara/api.py:451-454 | an unchanging folder with n matches takes exactly n / limit + 1 pages, and together they are those matches, newest first |
| Executor.ImapExecutor.LockFor | src/postara/imap_executor.py:23-28 | an account's semaphore is made once, with all its permits, and then kept |
| Executor.ImapExecutor.Run | src/postara/imap_executor.py:30-37 | makes the semaphore, then queues the task unless the pool has been shut down |
| Executor.ImapExecutor.WorkerTakes | src/postara/imap_executor.py:33-37 | an idle worker takes the first task not cancelled, or finds that none is queued |
| Executor.ImapExecutor.Enter | src/postara/imap_executor.py:33-35 | entering the function takes a permit of the account |
| Executor.ImapExecutor.Leave | src/postara/imap_executor.py:33-35 | leaving it gives the permit back |
| Executor.ImapExecutor.GiveUp | src/postara/imap_executor.py:38-42 | a timed-out caller cancels its task only while it is still queued |
| Executor.ImapExecutor.ShutDown | src/postara/imap_executor.py:44-45 | closes the pool and cancels exactly the queued tasks |
| Executor.StepKeepsValid | src/postara/imap_executor.py:23-45 | every atomic step keeps the conservation of permits, the bound on workers and the entry counts |
| Executor.ExecutorIsSafe | src/postara/imap_executor.py:17-45 | in every interleaving: at most max_workers tasks hold a worker; free permits plus running tasks of an account make up its limit, so no more than the limit run at once; and each task is entered once if it runs or is done, and otherwise never |
| Executor.CancelledIsNeverEntered | src/postara/imap_executor.py:38-45 | a cancelled task is never entered, whatever follows |
| Executor.SubmitQueuesOne | src/postara/imap_executor.py:30-37 | a submission queues one task for its account while the pool accepts, and none after shutdown |
| Executor.TakenInOrder | src/postara/imap_executor.py:33-37 | a task is taken only when none before it is queued any more |
| Executor.TimeOutCancelsQueued | src/postara/imap_executor.py:38-42 | a time-out cancels a task that is queued and leaves everything as it was on any other |
| Executor.TimedOutIsNeverEntered | src/postara/imap_executor.py:38-42 | in every run, once the caller of a queued task has given up, the task has never been entered, never will be, and ends cancelled |
| Executor.ClosedStaysClosed | src/postara/imap_executor.py:44-45 | after a shutdown no run accepts or adds a task again |
| Executor.ShutdownIsFinal | src/postara/imap_executor.py:44-45 | in every run, a shutdown cancels exactly the queued tasks, which end cancelled and are never entered; later submissions add none |
| Executor.OccupiedWorkersMove | src/postara/imap_executor.py:33-35 | with a worker occupied, some occupied worker can move if and only if the per-account limit is at least 1 |
| Executor.WorkIsPossible | src/postara/imap_executor.py:30-42 | exactly when some worker can move: as long as any task is queued, waiting or running; with a limit of 0, only while a task is queued and a worker is idle |
| Executor.WorkIsBounded | src/postara/imap_executor.py:30-45 | without new submissions, the work done in any interleaving and the work left never exceed the work there was |
| Executor.RestMeansDrained | src/postara/imap_executor.py:30-45 | a pool where no worker can move has finished or cancelled every task and has every permit back, if and only if the limit is at least 1 or no worker is occupied |
| Executor.PoolDrains | src/postara/imap_executor.py:30-45 | the workers alone can finish everything, in no more steps than the measure, if and only if the limit is at least 1 or there is nothing to do |
| Executor.NeverStuckIff | src/postara/imap_executor.py:17-45 | no pool reachable from a fresh one is stuck with unfinished tasks, if and only if the per-account limit is at least 1 |
| Executor.StarvationIff | src/postara/imap_executor.py:17-37 | for every pool size and limit: with k unfinished tasks one account can hold every worker, so that a queued task of another account with all its permits free waits until a function of the first returns, if and only if k is at least the number of workers |
| Executor.CrowdIsReached | src/postara/imap_executor.py:23-37 | the run of submissions, takings and entries that leads there |
| Redaction.SanitizeExtra | src/postara/audit.py:34-44 | the loops over dictionaries and lists compute the redacted tree |
| Redaction.SensitiveIff | src/postara/audit.py:9-31 | a key is sensitive if and only if one of the sixteen fragments is spelled in it at some position, in whatever case |
| Redaction.SanitizedIsClean | src/postara/audit.py:29-44 | at every depth, every value under a sensitive key is the mark and no raw instant is left |
| Redaction.CleanIffUnchanged | src/postara/audit.py:34-44 | redaction leaves a tree as it is if and only if the tree is clean |
| Redaction.SanitizingTwiceIsOnce | src/postara/audit.py:34-44 | redaction is idempotent |
| Redaction.HarmlessPathsSurvive | src/postara/audit.py:34-44 | a path of keys and positions through no sensitive key exists after redaction exactly if it did before, and leads to the redacted form of the same value |
| Redaction.HarmlessLeavesStay | src/postara/audit.py:34-44 | at the end of a path without a sensitive key, whatever is no container is kept as it is, and an instant becomes its text |
| Redaction.SensitivePathsAreCut | src/postara/audit.py:34-44 | a path that ends at its first sensitive key and existed before leads to the mark; every other path through a sensitive key leads nowhere |
| Redaction.OnlyActorFieldsAreSensitive | src/postara/audit.py:29-80 | of the ten field names of a record exactly actor_type and actor_id are sensitive |
| Redaction.DeliveredRow | src/postara/repositories.py:448-464 | what an enqueued event leaves in the audit table: every column as recorded and `extra` as sanitized on entry, but both actor columns redacted |
| Outbox.Databases.ListPending | src/postara/repositories.py:417-424 | the ids of the first `limit` undelivered rows in id order |
| Outbox.Databases.AppendEvent | src/postara/repositories.py:448-478 | one transaction on the audit database that appends the redacted row, or ends otherwise, by an exception or a cancellation, before or after its commit |
| Outbox.Databases.MarkDelivered | src/postara/repositories.py:426-431 | one transaction that marks the row and clears its error, or ends otherwise, by an exception or a cancellation, before or after its commit |
| Outbox.Databases.Deliver | src/postara/repositories.py:478-485 | the body of the `try`: append and then mark; an exception leaves the row to be noted as failed, a cancellation ends the dispatch |
| Outbox.Databases.MarkFailed | src/postara/repositories.py:433-441 | one transaction that counts the attempt and keeps the error, or an exception that escapes the dispatcher |
| Outbox.Databases.DispatchAuditOutbox | src/postara/repositories.py:471-489 | with every transaction free to fail or to be cancelled, the loop's effect on both databases is a run of the delivery protocol that ends idle; it returns the protocol's count, which is the newly delivered rows less the marks whose commit was not heard of, or an exception or the cancellation escaped and the run is counted as aborted |
| Outbox.StepKeepsValid | src/postara/repositories.py:411-489 | every step, failing or not, keeps the account of copies, the order of the work list and the balance of the count |
| Outbox.DeliveryIsAtLeastOnce | src/postara/repositories.py:411-489 | in every run: a row marked delivered is in the audit log at least once, every entry is what some row's event leaves, and copies of a row are at most its failed attempts plus one if delivered, plus aborted dispatches, plus one if in hand |
| Outbox.RowsTellTheirHistory | src/postara/repositories.py:426-441 | in every run: the attempts of a row are the failures noted on it, it is delivered if and only if it was marked, and its last error is that of the latest note, unless it was marked since |
| Outbox.EventsStay | src/postara/repositories.py:411-415 | in every run the outbox holds the events handed in, each once and in order, and none other |
| Outbox.PendingExactly | src/postara/repositories.py:417-424 | the pending ids are those of the undelivered rows, each once, in id order |
| Outbox.CountIsConserved | src/postara/repositories.py:471-489 | in every reachable state, also with rows enqueued meanwhile: a dispatch that returns has newly delivered as many rows as it counts plus the marks in its steps whose commit was not acknowledged; the count is exact if and only if there is no such mark |
| Outbox.UndisturbedIsScript | src/postara/repositories.py:471-489 | every run in which nothing fails, nothing dies and nothing is enqueued consists of whole dispatches, each of which begins, appends and marks its rows one after the other, and returns |
| Outbox.UndisturbedRunExists | src/postara/repositories.py:471-489 | from every idle state there is such a run with any number of dispatches |
| Outbox.DispatchesDrain | src/postara/repositories.py:417-489 | in every run in which nothing fails and nothing is enqueued, k dispatches append the events of the first k * limit pending rows in id order, each once, and leave the rest pending |
| Outbox.OutboxDrains | src/postara/repositories.py:417-489 | in every undisturbed run all rows are delivered if and only if at least n over limit dispatches, rounded up, have returned, n being the rows pending before; then the log has gained their events, each once, in id order |
| AuditTrail.RedactionKeepsTheWord | src/postara/repositories.py:448-464 | what the redacted audit row of an event says about a mailbox, added or removed and which, is what its record says |
| AuditTrail.AuditTellsIff | src/postara/repositories.py:411-489 | an order of delivery, with whatever repetitions, makes the replayed audit log yield exactly the live mailboxes for every run of the service with that many records, if and only if it delivers every row and the last deliveries of the rows come in row order |
| AuditTrail.GoodOrderTells | src/postara/repositories.py:411-489 | for such an order, and every service run, outbox and audit log with it: replaying the audit log yields exactly the live mailboxes |
| AuditTrail.MisleadingRun | src/postara/repositories.py:411-489 | for every other order, a run of the service, creating one mailbox and perhaps deleting it, about which it misleads |
| AuditTrail.OrderedAuditTells | src/postara/repositories.py:411-489 | so if all rows are delivered and no copy of a row comes after one of a later row, the audit log tells exactly which mailboxes exist |
| AuditTrail.UndisturbedAuditTells | src/postara/repositories.py:471-489 | so does the log after any run of enough dispatches in which nothing fails |
| AuditTrail.DeletedMailboxComesBack | src/postara/repositories.py:471-489 | a run of both protocols with one failed append: everything is delivered in the end, and the audit log says that a deleted mailbox exists |
| Accounts.AccountService.Create | src/postara/accounts.py:172-210 | the new state and result, with the errors in order: name, duplicate e-mail, duplicate name, provider |
| Accounts.AccountService.StartAppPasswordVerification | src/postara/accounts.py:241-278 | files a verification with the password encrypted, or refuses in the order of the checks |
| Accounts.AccountService.CompleteAppPasswordVerification | src/postara/accounts.py:280-313 | not found, expired, wrong code (counted, failed at five), or the account made and the verification closed |
| Accounts.AccountService.CreateWithOauth | src/postara/accounts.py:315-384 | reconnects the mailbox of that name or adds one, with both tokens under one key version |
| Accounts.AccountService.UpdateNameForUser | src/postara/accounts.py:452-458 | renames unless the name is bad, the account is another's, or another account of the user has the name |
| Accounts.AccountService.DeleteForUser | src/postara/accounts.py:501-508 | removes the user's account and nothing else |
| AccountRuns.StepKeepsSound | src/postara/accounts.py:172-508 | every operation keeps names and e-mails unique per user, never steps the id counter back and revives no deleted id |
| AccountRuns.AccountsAreUniqueAndFresh | src/postara/accounts.py:172-508 | in every run (user, name) and (user, e-mail) are unique and an id once deleted never names an account again |
| AccountRuns.VerificationLife | src/postara/accounts.py:241-313 | over every run: wrong codes are counted exactly, never more than five, failed exactly at five, verified exactly with a mailbox, the submission never changes, and no two verifications share a mailbox |
| AccountRuns.SettledForEver | src/postara/accounts.py:280-313 | a verification that has left "verifying" stays exactly as it is |
| AccountRuns.CompletionMakesTheAccount | src/postara/accounts.py:280-313 | a completion succeeds if and only if it is the user's, open, in time, met with its code and still free of conflicts; then a fresh account carries the submitted name, e-mail and password |
| AccountLaws.ValidNameIff | src/postara/accounts.py:35-40 | a name is valid if and only if it is not empty and has only ASCII letters, digits and hyphens |
| AccountLaws.ValidCodeIff | src/postara/security.py:124-140 | a code is valid if and only if it is six ASCII digits |
| AccountLaws.LookUpsAreRight | src/postara/accounts.py:404-408 | in sound states, looking up by name or e-mail finds the user's one account that has it, and nothing if there is none |
| AccountLaws.CreateAnswers | src/postara/accounts.py:172-210 | in every run, each refusal told by the accounts there are, in the order of the checks, changing nothing; a success adds one account with what was submitted and no other change |
| AccountLaws.StartAnswers | src/postara/accounts.py:241-278 | in every run, each refusal told by the accounts there are, in the order of the checks; a success files one open verification |
| AccountLaws.CompletionAnswers | src/postara/accounts.py:280-313 | in every run after a start: not found if another user's or settled; expired, and so settled, from the expiry on; failed for every text but the very code submitted, counted as one wrong code and settled as failed at the fifth |
| AccountLaws.ConnectAnswers | src/postara/accounts.py:315-384 | in every run: refused exactly for a bad name, an e-mail of another account, or a name taken by another kind or provider; otherwise the account of that name, or a new one, holds the e-mail and both tokens given, and no other changes |
| AccountLaws.RenameAnswers | src/postara/accounts.py:452-458 | in every run: the three refusals, each exactly when it is due, change nothing; otherwise the user's account has the new name and nothing else changes |
| AccountLaws.DeleteAnswers | src/postara/accounts.py:506-508 | the user's account goes and every other stays as it is, or the account is not the user's and nothing changes |
| Access.DiscoveryAgreesWithAccess | src/postara/api.py:565-582 | in every run, for every key: GET /mailboxes lists an account exactly when asking by its name returns that same account, for all accounts, if and only if the key is absent or disabled, or may read, or its owner has no account within its reach (the listing looks at no scope) |
| Access.ListsNothingIff | src/postara/api.py:990-994 | an enabled key lists nothing if and only if no account belongs to its owner and, for a scoped key, is its mailbox |
| Access.ListedIsReached | src/postara/api.py:980-994 | account by account and key by key: access by name returns the account if and only if it is listed and the key may read |
| Access.KeyNeverWidens | src/postara/api.py:565-582 | whatever happens after a key is made, it reaches only mailboxes of its owner, its own mailbox if it has one, and only for its scopes |
| Access.KeyDiesWithItsMailbox | src/postara/api.py:565-582 | once the mailbox of a scoped key is deleted, the key reaches and lists nothing ever again, under any name |
| Access.PerformKeepsOrder | src/postara/api.py:1471-1490 | creating, switching and deleting keys between account operations keeps keys tied to mailboxes that were given out |
| Access.CreateKeyAnswers | src/postara/api.py:1471-1490 | in every run: a key is made, with the mailbox and the scopes asked for, if and only if it names no mailbox or one of its user's |
| Access.KeyChangeAnswers | src/postara/api.py:1492-1521 | switching or deleting a key works on the user's own keys only, and on that one key only |
| Access.ReachAnswers | src/postara/api.py:565-582 | in every run, for every scope: which error, and the account returned exactly if the key is enabled, has the scope, and the account is its owner's, of that name and, for a scoped key, its mailbox |
| Access.ListedInOrder | src/postara/repositories.py:270-274 | in every run accounts are listed in ascending order of their ids, each once |
| Access.DisabledKeyIsDead | src/postara/api.py:565-582 | in every run, a key that has been disabled or deleted reaches and lists nothing until it is enabled again |
| Crypto.LoadVersionedSecret | src/postara/database.py:116-130 | the loop reads an unbroken row of key versions from 1, creating the first if missing, and the newest is active |
| Crypto.RestartExtends | src/postara/database.py:116-130 | restarting with more key files loses no version and never goes back to an older active one |
| Crypto.StillReadable | src/postara/crypto.py:29-41 | what decrypts under a version keeps decrypting to the same text as keys are added |
| Crypto.NewestEncrypts | src/postara/crypto.py:29-41 | after loading, what is encrypted opens to the same text under the newest version, is refused as invalid under any other key, and as unavailable under a missing version |
| Mailboxes.RepositoryAccountService.CreateForUser | src/postara/accounts.py:566-598 | row and audit record commit together, or the first failing check is raised and nothing changes; names and e-mails stay unique |
| Mailboxes.RepositoryAccountService.StartAppPasswordVerification | src/postara/accounts.py:619-654 | the verification, its password encrypted, and the audit record commit together, or the first failing check is raised |
| Mailboxes.RepositoryAccountService.CreateWithOauth | src/postara/repositories.py:98-170 | reconnects the one mailbox of that name, field by field, or adds a row; a taken e-mail, another kind of mailbox or provider is raised and nothing changes |
| Mailboxes.RepositoryAccountService.UpdateNameForUser | src/postara/accounts.py:746-769 | renames the user's mailbox with its audit record, or raises and changes nothing |
| Mailboxes.TransactKeepsUnique | src/postara/repositories.py:60-405 | every operation, unscoped deletion and the assignment of a user included, committing or not, keeps (user, name) and (user, e-mail) unique among the rows |
| Mailboxes.RepositoryAccountService.UpdateCredentialsForUser | src/postara/accounts.py:818-840 | the committed state of the transaction or the old one, and when it raises |
| Mailboxes.RepositoryAccountService.UpdateCredentials | src/postara/accounts.py:794-816 | the same by the holder of an API key, which must fit the mailbox |
| Mailboxes.RepositoryAccountService.ResolveRuntimeCredential | src/postara/accounts.py:896-963 | refreshes tokens about to expire in the same transaction, re-encrypting both, and returns the credential that is then stored; the errors are the source's, in its order: no refresher or refresh token, an undecryptable one, a failed exchange |
| Mailboxes.RepositoryAccountService.Delete | src/postara/accounts.py:965-980 | any mailbox, also one without a user, goes together with its audit record, or neither |
| Mailboxes.RepositoryAccountService.DeleteForUser | src/postara/accounts.py:982-997 | the row goes and its audit record is enqueued together, or neither |
| Mailboxes.RepositoryAccountService.CompleteAppPasswordVerification | src/postara/accounts.py:656-684 | account, verification and audit record commit together; every exception, the wrong code included, leaves the database as it was |
| MailboxRuns.RowsAreUnique | src/postara/accounts.py:542-997 | in every committed state of every run names and e-mails are unique per user |
| MailboxRuns.OutboxTellsWhatLives | src/postara/accounts.py:542-997 | from any state where replaying the outbox yields the live ids, every run of commits, rollbacks and restarts keeps it so |
| MailboxRuns.OutboxTellsWhatLivesFromScratch | src/postara/accounts.py:542-997 | in every committed state of every run, folding the outbox in order yields exactly the ids of the live mailboxes |
| MailboxRuns.BodyIsReadableIffSafe | src/postara/accounts.py:542-997 | one committed operation leaves every credential readable, under its mailbox's one key version, if and only if it met its condition on what was stored before |
| MailboxRuns.ReadableIffAlwaysSafe | src/postara/accounts.py:542-997 | over every run of transactions, rollbacks and restarts that add keys: all stored credentials open to the plaintexts last written, after every event, if and only if every committed password update and token refresh met its condition |
| MailboxRuns.CredentialsSurviveRotation | src/postara/accounts.py:896-963 | over every run of transactions and restarts that add keys, with passwords updated on password mailboxes only: the password or both tokens decrypt under the one key version to the plaintexts last written, and the runtime gets exactly that |
| MailboxRuns.PasswordStrandsTokens | src/postara/repositories.py:339-345 | storing a password keeps all credentials readable if and only if there are no tokens or they are sealed under the active key |
| MailboxRuns.RefreshStrandsPassword | src/postara/repositories.py:347-365 | refreshing keeps a stored password readable if and only if there is none or its key is still active |
| MailboxRuns.StrandedTokens | src/postara/repositories.py:339-345 | a run from the empty database: a mailbox is connected, a key is added, its password is updated, and its access token, readable before, is undecryptable |
| MailboxRuns.WrongCodesAreRolledBack | src/postara/accounts.py:656-684 | in every run: no attempt is counted, so the attempts stored are the wrong codes handed in if and only if there were none, and the promise of at most five, failed at the fifth, holds if and only if fewer than five were handed in |
| MailboxRuns.WrongCodesChangeNothing | src/postara/accounts.py:656-684 | any sequence of wrong codes, each answered with that error, leaves the whole service as it was |
| MailboxRuns.CompletionMakesTheMailbox | src/postara/accounts.py:656-684 | in every run, whatever wrong codes came before: a completion succeeds if and only if it is the user's, open, in time, met with its code and free of conflicts; then the new mailbox carries the submitted name and e-mail, and the runtime is given the submitted password |
| MailboxRuns.GuessingIsNotStopped | src/postara/accounts.py:656-684 | for every n, a run from the empty database with n wrong codes and then the right one, which ends verified |
| MailboxLaws.TakenMeansUsed | src/postara/repositories.py:391-402 | a name or e-mail counts as taken if and only if another mailbox of the user has it |
| MailboxLaws.CreateAnswers | src/postara/repositories.py:60-96 | each refusal told by the rows there are, in the order of the checks; a success adds one row with what was submitted, its password readable, and one record |
| MailboxLaws.StartAnswers | src/postara/repositories.py:172-219 | the same of a verification and what it keeps |
| MailboxLaws.CompletionAnswers | src/postara/repositories.py:221-258 | in every run after a start: not found if another user's or verified, expired from the expiry on, and failed for every text but the very code submitted |
| MailboxLaws.ConnectAnswers | src/postara/repositories.py:98-170 | with unique rows: refused exactly when the name is bad, of another kind or provider, or the e-mail is another mailbox's; otherwise that one row, or a new one, holds the e-mail and both tokens given |
| MailboxLaws.RenameAnswers | src/postara/repositories.py:367-379 | the three refusals, each exactly when it is due; otherwise the user's row has the new name, nothing else changes, and one record is added |
| MailboxLaws.UpdateAnswers | src/postara/repositories.py:331-345 | a user changes the password of a mailbox of their own and of no other, a key holder of the key's mailbox; only that row's password and key version change |
| MailboxLaws.DeleteAnswers | src/postara/repositories.py:381-389 | a user deletes a mailbox of their own and no other; the one row goes and one record is added |
| MailboxLaws.AssignAnswers | src/postara/repositories.py:260-264 | a missing mailbox is not found; one whose name or e-mail the user has already is a conflict; any other becomes the user's and is otherwise as before |
| MailboxLaws.OthersChangeNothing | src/postara/accounts.py:542-997 | in every run of what other users do, a user's mailbox stays, with its name, e-mail, kind and password |
| MailboxLaws.ResolveAnswers | src/postara/accounts.py:896-963 | without an access token a reconnect is asked for; a token that expires within five minutes is refreshed, with the errors in source order and both new tokens readable; any other is handed out as it is |
| MailboxLaws.ResolvePasswordAnswers | src/postara/accounts.py:896-915 | a password mailbox hands out its password, or reports a missing or unreadable one, and never changes by it |
| Health.HealthColumns.SetMailboxHealth | src/postara/accounts.py:495-499 | the plain form: writes status, detail and time on every call |
| Health.HealthColumns.RecordMailboxHealth | src/postara/accounts.py:863-894 | the debounced form: writes unless nothing changed and the last check is less than ten minutes old |
| Health.DebouncingIsFaithful | src/postara/accounts.py:863-894 | after every call of every run both forms show the status and detail of that call, and the debounced check time lags by less than ten minutes |
| Health.WritesAreEarned | src/postara/accounts.py:863-894 | every write is the first, a change of outcome, or paid for by ten minutes without a write |
| Health.WritesAreBounded | src/postara/accounts.py:863-894 | a run of length T writes at most 1 + outcome changes + T / 10 minutes, rounded down, times |
| Sessions.UserService.Register | src/postara/users.py:114-129 | a new user with a session, an owner if and only if the first, unless the e-mail is taken |
| Sessions.UserService.Login | src/postara/users.py:131-140 | a new session and login time for an enabled user with the right password; otherwise nothing changes |
| Sessions.UserService.AuthenticateSession | src/postara/users.py:152-167 | who a token stands for, or which error, in the order of the checks |
| Sessions.UserService.RevokeSession | src/postara/users.py:169-173 | stamps the session of the token's prefix, without looking at the secret |
| Sessions.UserService.RevokeOtherSessions | src/postara/users.py:218-228 | the loop, in any order of the dictionary, stamps exactly the unrevoked sessions of the user except the current prefix |
| Sessions.UserService.ChangePassword | src/postara/users.py:175-187 | with the right old password, sets the new one and ends the other sessions; otherwise changes nothing |
| Sessions.UserService.ResetPassword | src/postara/users.py:211-216 | sets the password and ends all sessions of the user |
| Sessions.UserService.UpdateUserStatus | src/postara/users.py:199-209 | disables or enables the user, or refuses an unknown status |
| Sessions.ExactlyOneOwner | src/postara/users.py:114-129 | in every run, once there is a user exactly one is the owner, and no two share an e-mail |
| Sessions.SessionLife | src/postara/users.py:131-228 | over every run in which its prefix is not drawn again, a token authenticates, as the user who logged in, if and only if thirty days have not passed, no revocation or password operation has ended it, and the user is enabled |
| Sessions.RevocationIsPermanent | src/postara/users.py:152-173 | a revoked token never authenticates again in any run that does not draw that very token anew |
| Sessions.PasswordSetIsExact | src/postara/users.py:175-228 | after a new password a token authenticates if and only if it did before and is another user's or the current one, and as the same user |
| Sessions.EnablingUndoesDisabling | src/postara/users.py:199-209 | disabling and enabling restores the whole state if and only if the user was enabled before |
| SessionLaws.OnlyTheLastPasswordLogsIn | src/postara/users.py:131-216 | until an operation succeeds in setting it again, a user logs in with the stored password, while enabled, and with no other, whatever else happens |
| SessionLaws.RegisterAnswers | src/postara/users.py:114-129 | in every run: refused if and only if the e-mail is taken, changing nothing; otherwise one enabled user with what was given and one session of thirty days are added |
| SessionLaws.LoginAnswers | src/postara/users.py:131-140 | in every run: a login succeeds if and only if an enabled user has that e-mail and that password; it stamps the user and opens one session of thirty days, and a refusal changes nothing |
| SessionLaws.RegisteredPasswordLogsIn | src/postara/users.py:114-140 | in every run after a registration, until the password is set again: the user logs in, while enabled, with the password registered and with no other |
| SessionLaws.ChangedPasswordLogsIn | src/postara/users.py:175-187 | in every run after a successful change: the user logs in, while enabled, with the new password and with no other |
| SessionLaws.ResetPasswordLogsIn | src/postara/users.py:211-216 | in every run after a reset: the user logs in, while enabled, with the new password and with no other |
| SessionLaws.ChangeAnswers | src/postara/users.py:175-187 | in every run: refused if and only if the user is unknown or the old password wrong, leaving the whole directory as it was; otherwise a token works if and only if it did and is another user's or of the current prefix, and exactly the user's open sessions but the current one are stamped |
| SessionLaws.ResetAnswers | src/postara/users.py:211-228 | in every run: refused if and only if the user is unknown; otherwise no token of the user works and every other works as before, and exactly the user's open sessions are stamped |
| SessionLaws.StatusAnswers | src/postara/users.py:199-209 | the status goes by its word, an unknown user or word is refused, and nothing but the one user's status changes |
| SessionLaws.DisabledIsShutOut | src/postara/users.py:131-209 | in every run after a user is disabled, until made active: no password logs in and no token authenticates as that user |
| SessionLaws.RevokeAnswers | src/postara/users.py:169-173 | revoking ends the tokens of that one prefix and no others; malformed text is refused |
| SessionLaws.WorkingTokensWereIssued | src/postara/users.py:114-167 | in every run, a token that works was given out, whole, to that user at a login or registration less than thirty days ago |
| OAuthState.PaddingComesBack | src/postara/oauth.py:255-261 | the padding computed from the length of the stripped text is exactly the padding that was stripped |
| OAuthState.PaddedDecodes | src/postara/oauth.py:259-261 | the lenient decoder reads the padded text of any bytes back to those bytes |
| OAuthState.DecodeUndoesEncode | src/postara/oauth.py:255-261 | for every byte string, decoding its encoding gives it back |
| OAuthState.EncodingIsPlain | src/postara/oauth.py:255-256 | encoded text is ASCII without a dot |
| OAuthState.TestVectors | src/postara/oauth.py:255-256 | the test vectors of section 10 of RFC 4648 without padding, and the ranges and the two special characters of the URL-safe alphabet |
| OAuthState.FirstDot | src/postara/oauth.py:79 | the split point: there is a dot there and none before it, and none anywhere if there is no split |
| OAuthState.SignedStatesVerify | src/postara/oauth.py:64-105 | a signed state verifies to the very payload signed, however many keys were added since, unless the provider differs or it has expired, and then with that error |
| OAuthState.VerifiedStatesAreSigned | src/postara/oauth.py:77-105 | with no assumption on who wrote it: whatever verifies names a known key, carries its signature over its own payload bytes, is for the provider asked and is unexpired |
| OAuthState.TamperedIsRefused | src/postara/oauth.py:77-90 | the bytes of a state beside any signature but their own are answered bad signature, and beside their own never; text without a dot is invalid |
| OAuthState.UnreadableIsInvalid | src/postara/oauth.py:77-90 | text of two parts is answered invalid if and only if a part does not decode, is no payload or names an unknown key, and bad signature if and only if both read but the signature is not that of the bytes |
| OAuthState.VerifiesIffIssued | src/postara/oauth.py:64-105 | over every run of signings and added keys: a text that carries a payload issued in the run verifies to it, for its provider and before it expires; and a text that pairs its own bytes with a signature under one of the codec's keys only where the codec made that signature verifies to a payload if and only if it carries one so issued |
| OAuthState.SignedIsNotForged | src/postara/oauth.py:64-75 | every signed text meets that assumption, unless another of the codec's keys gives the same signature on the same bytes |

## Left out

- FastAPI routing, response bodies, error codes, CORS, web pages, settings, and the registration handler's status codes.
- SQLAlchemy, migrations and the SQL attempt store: a transaction is an atomic commit or rollback on maps.
- IMAP sockets, MIME parsing and folder names: a folder is a list of messages in UID order and a page fetch is atomic.
- The providers' HTTP exchange and Turnstile: their answers are inputs.
- Normalising e-mail addresses and IP addresses, `resolve_client_ip`, and the text forms of tokens: subjects, e-mails and prefixes come normalised, and a malformed token is a value of its own.
- The attempt limiter reads one clock per call; with two different readings a window could start slightly early.
- Failed attempts per address, and attempts that race between check and record: the early exception on the e-mail bucket and the separate awaits leave no exact count.
- Attempt buckets are values that a call replaces, as the SQL store has it; the in-memory store shares the object it hands out, with the same effect as the calls are serial.
- AuthAttempts.FailedAttemptsAreBounded: a negative failure limit counts as zero, since the first failure always gets in.
- Pagination: FROM, which a server matches without regard to case, is matched as written; following the cursor is modelled for page limits of at least 1, although the route does not check the limit it is given, and a folder reads `UID 0` as the empty set, which is what the code intends by it; filters the adapter refuses and the parsing of cursor text by `int` are not modelled beyond good, bad and absent.
- Executor: results and exceptions of the submitted function, the time a caller waits, and a race of two callers inside `_lock_for`, which is taken as atomic.
- Outbox: `purge_before`, and dispatchers that run at the same time; the row an audit entry came from is remembered for the proofs only.
- Redaction: lower-casing outside ASCII, dictionaries with keys that are not text, and an `extra` that is neither an object nor absent in DeliveredRow.
- Accounts: API keys of single accounts and what the in-memory service does by them, and the provider's scopes, subject and reported address beyond the canonical e-mail.
- Mailboxes: rotating an API key and recording a seen message are only transaction bodies on values: they touch no modelled column and enqueue a record.
- Mailboxes: a database that refuses a row for its unique constraints is the same as the check that precedes it.
- Sessions: `update_profile`, listing, last-used times, the dummy hash that evens out timing, and the repository-backed user service; one clock reading serves one call.
- AuditTrail: events that other parts of the program enqueue; they say nothing about which mailboxes exist.
- OAuthState: payload text that JSON or the field conversions refuse is one failure, and the nonce is an input.
