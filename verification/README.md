# Verification of concurrent protocols, codecs and indexes of atproto

A Dafny model of the parts of the atproto monorepo whose correctness rests on an argument across
several steps or several processes. `dafny verify dfyconfig.toml` checks everything.

Protocols are transition systems. One event is what a participant does between two `await`s (or one
atomic step of the database or file system), and an event that is not possible in a state leaves it as
it is. So every sequence of events is a run, stalls, crashes, retries and every interleaving included,
and the theorems are about all of them. Objects that live in memory are classes with the source's
fields; each method is proved to do the corresponding step of the specification, and the theorems are
about that specification.

| file | what it models |
|---|---|
| `KemKeyBackfill.dfy`, `KemKeyAccounts.dfy`, `KemKeyScan.dfy` | the KEM key backfill: workers that share a lease row which cannot fence publication, and a pending key file that is written once; what the lease excludes, what becomes of each account, what a completed scan means |
| `PortReservations.dfy`, `PortSweeps.dfy` | port reservations: the flag-then-list sweep lock, sweeping, claiming, exiting and crashing over one directory; what sweeps and exits remove |
| `DeletionNotices.dfy`, `NoticeQueue.dfy`, `NoticeOutcomes.dfy` | the retry table of space deletion notices: generations, backoff, interleaved passes; the same table as an object; which answers lead to which end |
| `IntervalRunner.dfy`, `PeriodicTask.dfy` | `startInterval`, and the periodic task that combines it with forced runs and a job queue |
| `CredentialSession.dfy` | refreshing, resuming and replacing a session |
| `FanOut.dfy`, `CoalesceBytes.dfy`, `AsyncBuffer.dfy` | stream plumbing |
| `CommunityAuthority.dfy` | deriving roles from an event log |
| `S32.dfy`, `Tid.dfy` | base 32 and timestamp identifiers |
| `Did.dfy`, `DidIdentifiers.dfy` | the DID acceptor and the fast identifier tests |
| `EtcdMap.dfy` | a replica fed by watch events and a snapshot |
| `LexiconIndex.dfy`, `LexiconReferences.dfy` | the lexicon index and the resolution of references |
| `SavedFeeds.dfy`, `PreferencesLock.dfy` | saved-feed updates, and preference updates under the agent's lock |
| `Prelude.dfy` | options and a few facts on sequences |

## Where the code and its promises part

Each of these is a theorem. The model follows the code.

- `run()` of the KEM backfill "resolves once the backfill has completed, here or in another process"
  (packages/pds/src/kem-key-backfill.ts:43). It also resolves when the aborted signal ends its loop
  (`AbortResolvesRun`), and after a `complete()` that matched no row (`RunMayResolveBeforeCompletion`).
  `WhenRunResolves` says for every run and each way out exactly when the row is complete.
- "Sweep generations are never reclaimed" (packages/dev-env/src/get-port.ts:65-66) is not enforced by
  `link`, which succeeds on any free path. Exclusion holds in every run in which no generation is linked
  while a running process is about to unlink that very path (`SweepingIsSafe`), in particular when none
  is linked twice. When a process whose flag is the only one is about to unlink a free path, linking it leads to
  two holders (`HazardBreaksExclusion`), and such a state is reachable (`TwoHoldersAfterRelink`).
- `PeriodicBackgroundTask.start` "throws" on a destroyed task (packages/ozone/src/background.ts:165-166).
  `startInterval` is an `async` function, so the call throws nothing and stores a rejected promise, on which every
  later `destroy` fails (`DestroyFailsAfterLateStart`). A `destroy` is rejected exactly if the promise it awaits was
  stored by such a call (`DestroyRejectsIff`), and never if no `start` follows the destruction of the periodic task
  or its queue (`DestroySucceedsWithoutLateStart`).
- `AsyncBuffer` treats a falsy item at the head as an empty buffer: a consumer that meets one goes to
  sleep with work pending, and only then (`FalsyHeadLosesTheWakeUp`); such a run is `FalsySleepIsReached`.
- `TID.fromTime` gives its arguments back exactly for timestamps of eleven base-32 digits and clock ids
  below 1024 (`FromTimeRecovers`).
- The counter of `TID.next` is never reset, though it should tell apart the calls of one millisecond
  (packages/common-web/src/tid.ts:25-27). The millisecond of an identifier is that of the clock exactly while fewer
  than a thousand calls in all have found the clock not advanced (`TimeOfIdentifiers`).
- `matchesIdentifier` is the plain comparison unless the DID itself starts with `#`
  (`FastMatchIsComparison`); `findItemById` is it exactly if the id starts with `#` and the document's own
  id does not (`FastItemTestIsComparison`).
- The BNF in packages/did/src/did.ts:11-18 takes hexadecimal digits of both cases after `%`, by the convention
  of RFC 5234, the code only upper-case ones. The code accepts what derives from the BNF, is no longer than 2048
  and has no lower-case digit in a percent code (`AssertDid`); `did:a:%aa` derives and is refused (`LowerCaseIsRefused`).
- A base address that contains a hash or does not start with `lex:` makes `toLexUri` give an address
  that a second resolution rejects or changes (`ResolvedAddressIsStable`); `UnfitBases` has one of each.
- A saved-feed update replaces all V1 preferences by the last valid one. It loses no entry, whatever it edits,
  exactly if none is valid or the last valid one has the entries of all (`NoEntryLostIff`); `EarlierV1IsLost` is an
  entry that is lost. With one V1 preference nothing ever is (`LegacyEntriesAreNeverLost`).
- A V1 preference need not cover the V2 feeds and lists: one that is stored and not valid stays as it is, and a feed
  that is added does not get there (`InvalidV1BreaksCoverage`), unless the server refuses the list for it.
  `UpdateCoversIff` has the exact condition of a step. With a valid V1 preference, and AT URIs for all feeds and lists,
  it covers them after every run (`LegacyCoversSavedFeeds`).
- Replicas of `EtcdMap` that were delivered the same entries agree exactly if the newest entries of each key agree
  (`ConvergesExactlyIfNewestUnique`): two values of one revision make them diverge until a newer one arrives. etcd
  gives a revision one value, and then they converge (`ReplicasConverge`).

## Model

| member | source | states |
|---|---|---|
| KemKeyBackfill.KeyAgreement | packages/pds/src/kem-key-backfill.ts:104-162 | in every run, any two keys the backfill made pending, published or installed for an account are equal, and equal to its pending file |
| KemKeyBackfill.PendingThenPublishThenInstall | packages/pds/src/kem-key-backfill.ts:112-162 | a key is pending before anyone publishes it; a worker installs a key only after it published that key or was refused, and the key file then holds it for good |
| KemKeyBackfill.CompletionCoversEveryAccount | packages/pds/src/kem-key-backfill.ts:57-102 | once the lease row is complete, the scan that completed it visited each row that was there throughout exactly once, and every such account whose store existed when its row was visited has a key |
| KemKeyBackfill.NoLeaseAfterCompletion | packages/pds/src/kem-key-backfill.ts:164-191 | after completion, in any continuation, no worker acquires the lease and every lease assertion fails, and the completing scan stays the same |
| KemKeyBackfill.CompletedIff | packages/pds/src/kem-key-backfill.ts:57-73 | in every run the lease row becomes complete exactly by a worker that reaches `complete` while the row is its own |
| KemKeyBackfill.WhenRunResolves | packages/pds/src/kem-key-backfill.ts:43-73 | in every run, whenever a worker's `run` resolves: it found the row complete; or it went through `complete`, and the row is complete exactly if it was its own or complete then, or completed by another since; or it was aborted, and the row is complete exactly if some worker completed it |
| KemKeyBackfill.CompleteWhenRunResolves | packages/pds/src/kem-key-backfill.ts:60-73 | when a worker that went through `complete` finishes, the row is complete exactly if it was its own or complete at that step, or another worker completed it meanwhile |
| KemKeyBackfill.AbortResolvesRun | packages/pds/src/kem-key-backfill.ts:44-54 | from every initial state, an abort and the end of the loop: `run` has resolved and the row is incomplete |
| KemKeyBackfill.RunMayResolveBeforeCompletion | packages/pds/src/kem-key-backfill.ts:43-54 | from any initial state with two workers and no accounts there is a run in which `run` resolves and nothing is complete |
| KemKeyBackfill.QueryOk | packages/pds/src/kem-key-backfill.ts:80-100 | with rows coming and going during the scan, each page continues it in order and without gaps, and an empty page ends a complete one |
| KemKeyBackfill.LeaseRow.RenewLease | packages/pds/src/kem-key-backfill.ts:178-191 | in the fields of the row: it succeeds exactly if the row is incomplete and the caller's or expired; the row is then the caller's until the lease ends, and otherwise unchanged |
| KemKeyAccounts.ClaimRespectsLease | packages/pds/src/kem-key-backfill.ts:178-191 | a worker that finds the row complete, or another's and not expired, leaves everything as it is and waits; any other has the row until its lease ends and scans |
| KemKeyAccounts.AssertionRespectsLease | packages/pds/src/kem-key-backfill.ts:164-191 | the same before a key is linked, published or installed, where a lost lease ends the attempt |
| KemKeyAccounts.HolderKeepsLease | packages/pds/src/kem-key-backfill.ts:178-211 | in every run a worker keeps the row until a given time before its expiry, whatever others do, unless it gives the row up itself or somebody's clock has passed that time |
| KemKeyAccounts.CompletionMeansKeys | packages/pds/src/kem-key-backfill.ts:57-102 | in every run that leaves the row complete, some worker claimed it, scanned, and completed the row while it was its own; and every account with a store at that claim, whose row was not removed until that completion, has a key |
| KemKeyAccounts.FreshAccountGetsItsKey | packages/pds/src/kem-key-backfill.ts:112-159 | an account with a store and no key, served without interruption, ends with the candidate pending, published or refused, and installed, in that order, and counts as served |
| KemKeyAccounts.PendingIsInstalled | packages/pds/src/kem-key-backfill.ts:135-159 | a pending key that is not installed is published, or refused, and installed, and the pending file stays |
| KemKeyAccounts.KeyedAccountIsLeftAlone | packages/pds/src/kem-key-backfill.ts:114-118 | an account with a store, a key and no pending file is left alone |
| KemKeyAccounts.PendingKeyIsTakenUp | packages/pds/src/kem-key-backfill.ts:116-134 | a pending key that is found, whoever made it, is used instead of the candidate |
| KemKeyAccounts.LinkDoesNotOverwrite | packages/pds/src/kem-key-backfill.ts:124-128 | linking the candidate to a pending file that has appeared changes nothing |
| KemKeyAccounts.ConflictsAreFailures | packages/pds/src/kem-key-backfill.ts:135-141 | an installed key ends the account, as a failure exactly if it is another than the pending one |
| KemKeyAccounts.InstallDoesNotOverwrite | packages/pds/src/kem-key-backfill.ts:152-159 | installing over a key that has appeared changes nothing and leads to the comparison |
| KemKeyAccounts.LostResponseIsAFailure | packages/pds/src/kem-key-backfill.ts:142-150 | a publication whose response is lost counts as a failure of the account although the key may be out |
| KemKeyAccounts.PagesAreTurned | packages/pds/src/kem-key-backfill.ts:80-100 | a page with rows moves the cursor to its last row; an empty one leads to `complete` without failures and to another attempt with some |
| KemKeyAccounts.RowsAreVisited | packages/pds/src/kem-key-backfill.ts:89-92 | the next row of the page is served, and whether it has a store is remembered |
| KemKeyAccounts.ScanIsGivenUp | packages/pds/src/kem-key-backfill.ts:80-97 | an abort or an error outside an account ends the attempt and changes nothing shared |
| KemKeyAccounts.RowIsGivenUp | packages/pds/src/kem-key-backfill.ts:203-211 | at the end of an attempt the row is given up if it is still the worker's, unless that fails without effect |
| KemKeyAccounts.CompletingMarksTheRow | packages/pds/src/kem-key-backfill.ts:193-201 | `complete` sets the mark and nothing else, only for the owner, and after an error the row is still given up |
| KemKeyBackfill.LeaseRow.Complete | packages/pds/src/kem-key-backfill.ts:193-201 | marks the row complete for its owner and changes nothing for others |
| KemKeyBackfill.LeaseRow.Release | packages/pds/src/kem-key-backfill.ts:203-211 | gives the row up for its owner and changes nothing for others |
| KemKeyScans.SelectPage | packages/pds/src/kem-key-backfill.ts:81-87 | the page is sorted, after the cursor, at most a hundred rows, and leaves out no row below its own last one |
| KemKeyScans.Backfill | packages/pds/src/kem-key-backfill.ts:76-102 | on a fixed table the paging loop visits every row exactly once in order, and returns the number of accounts that fail |
| PortReservations.SweepingIsSafe | packages/dev-env/src/get-port.ts:38-162 | in every run without a link under a pending unlink: at most one process holds the sweep lock, every port of a running process is reserved for it, no port has two owners |
| PortReservations.SafeWhenGenerationsAreFresh | packages/dev-env/src/get-port.ts:65-67 | the same whenever each generation is linked at most once, as the comment assumes |
| PortReservations.SweepRemovesOnlyStaleEntries | packages/dev-env/src/get-port.ts:53-71 | an entry that disappears in a sweep step belongs to a process that is gone at that moment |
| PortSweeps.SweepRemovesStale | packages/dev-env/src/get-port.ts:90-114 | whatever the others do during a sweep: when it is over, every port or owner file that stood in the directory when it was listed, of a process that was gone then, is absent or another process's |
| PortSweeps.SweepAlone | packages/dev-env/src/get-port.ts:90-129 | an uninterrupted sweep removes exactly the port and owner files of processes that are gone, and its own flag |
| PortSweeps.AcquireAlone | packages/dev-env/src/get-port.ts:43-71 | when all other flags belong to processes that are gone, they are removed and the lock is held |
| PortSweeps.YieldsToARunningSweeper | packages/dev-env/src/get-port.ts:59-64 | seeing the flag of a running process, a process removes its own and is ready without a sweep |
| PortSweeps.LinkingFlags | packages/dev-env/src/get-port.ts:45-50 | without an owner file initialization fails, a generation that is taken skips the sweep, a free one is flagged |
| PortSweeps.ClaimTakesAFreePort | packages/dev-env/src/get-port.ts:150-161 | a ready process gets any port that nobody has, and none that somebody has |
| PortSweeps.ExitLeavesNothing | packages/dev-env/src/get-port.ts:131-144 | in every run, a process that has ended without a crash has no port and no owner file in the directory |
| PortSweeps.ExitAlone | packages/dev-env/src/get-port.ts:131-144 | the exit hook removes exactly the claimed ports and the owner file |
| PortReservations.HazardBreaksExclusion | packages/dev-env/src/get-port.ts:58-71 | from every state in which a process, its flag the only one, is about to unlink a free path that another may link, two processes can come to hold the lock |
| PortReservations.TwoHoldersAfterRelink | packages/dev-env/src/get-port.ts:38-79 | such a state is reachable from an allowed initial directory, and two processes then hold the lock at once |
| DeletionNotices.StaleRowsAreFencedOff | packages/pds/src/space-deletion-notifications.ts:122-175 | only an enqueue of the key, or a pass that read the very generation in the table, changes or removes a row; every other step leaves it as it is |
| DeletionNotices.NoticesAreConserved | packages/pds/src/space-deletion-notifications.ts:43-73 | every notice ever enqueued is in the table, or was cleared, or was replaced by a later enqueue; never both cleared and in the table |
| DeletionNotices.ClearedWasJudged | packages/pds/src/space-deletion-notifications.ts:122-156 | a notice is cleared only after that same generation was delivered, refused for good, found expired, or its space found active or missing |
| DeletionNotices.RetriesEndWithTheRegistration | packages/pds/src/space-deletion-notifications.ts:158-175 | in every reachable state and interleaving no row waits beyond its expiry, and the attempts a row counts fit into the lifetime of its registration |
| DeletionNotices.ReschedulesFitIntoTheRegistration | packages/pds/src/space-deletion-notifications.ts:93-175 | under one lease holder the reschedules that happened to a stored row fit into the lifetime of its registration |
| DeletionNotices.EveryGenerationsReschedulesFit | packages/pds/src/space-deletion-notifications.ts:93-175 | the same for every notice ever enqueued, delivered, refused and replaced ones included |
| DeletionNotices.NoRowOutlivesItsExpiry | packages/pds/src/space-deletion-notifications.ts:158-170 | for arbitrary clock readings, backward ones included, no stored or held row ever waits beyond its expiry |
| DeletionNotices.RetryTimeBounds | packages/pds/src/space-deletion-notifications.ts:158-170 | for every jitter the retry time lies between half the delay and the delay, capped by the expiry, and is later than now |
| DeletionNotices.MinSpentClosedForm | packages/pds/src/space-deletion-notifications.ts:158-170 | the least time that n reschedules take, in closed form, so that a lifetime bounds n |
| NoticeQueues.NoticeQueue.Enqueue | packages/pds/src/space-deletion-notifications.ts:43-73 | fails before storing anything exactly if an expiry does not parse, otherwise upserts the unexpired recipients in order |
| NoticeQueues.EnqueueKeepsLatest | packages/pds/src/space-deletion-notifications.ts:64-72 | each service ends up with a fresh row, zero attempts and due now, of its last unexpired registration |
| NoticeQueues.EnqueueKeepsOthers | packages/pds/src/space-deletion-notifications.ts:64-72 | rows of other spaces and services keep their content |
| NoticeQueues.NoticeQueue.FetchDue | packages/pds/src/space-deletion-notifications.ts:107-114 | at most five due rows ordered by retry time, none of the others earlier; empty only when nothing is due |
| NoticeQueues.NoticeQueue.RetryOne | packages/pds/src/space-deletion-notifications.ts:122-146 | a row is removed if it is expired, the space is active or missing, or the delivery was accepted or refused for good; in the other cases it keeps generation and expiry, counts one more attempt and is due later, at its expiry at the latest; left alone if it was replaced since it was read; no other row changes |
| NoticeQueues.NoticeQueue.Clear | packages/pds/src/space-deletion-notifications.ts:148-156 | deletes the row only if it still has the generation that was read |
| NoticeQueues.NoticeQueue.Reschedule | packages/pds/src/space-deletion-notifications.ts:158-175 | postpones the row only if it still has the generation that was read |
| NoticeQueues.NoticeQueue.Retry | packages/pds/src/space-deletion-notifications.ts:93-120 | does nothing without the lease; with it and a standing clock the loop ends, every due row was removed or postponed once as for `RetryOne`, none is due, and the others are untouched |
| NoticeQueues.AfterRetrySettles | packages/pds/src/space-deletion-notifications.ts:93-175 | of the table after a call: each due row is gone or postponed as expiry, space and delivery say, each other row is as before, and none is new |
| NoticeOutcomes.JudgementsAreJustified | packages/pds/src/space-deletion-notifications.ts:122-143 | in every run, a notice is judged delivered only by an accepted delivery of that row, refused by a final refusal, gone by an active or missing space, expired after its expiry |
| NoticeOutcomes.HandlingSettles | packages/pds/src/space-deletion-notifications.ts:122-175 | a pass that is not interrupted settles its first row as the answers say, changes no other row, and goes on with the rest |
| NoticeOutcomes.FailedClearing | packages/pds/src/space-deletion-notifications.ts:127-146 | a delivered notice that could not be cleared is postponed; after any other failure to clear the pass ends |
| NoticeOutcomes.EnqueueStoresAFreshRow | packages/pds/src/space-deletion-notifications.ts:43-73 | an unexpired notice with a fresh generation is stored with no attempts, due at once; others store nothing |
| IntervalRunners.TurnsAreExclusive | packages/ozone/src/util.ts:126-228 | until the abort exactly one of timer and execution is under way; the promise is settled exactly when aborted and idle; an armed timer is due a full period after the last execution |
| IntervalRunners.StartsAreSpacedAndAlone | packages/ozone/src/util.ts:126-228 | a start finds nothing running, nothing aborted, and a full period since the last execution ended |
| IntervalRunners.NothingAfterAbort | packages/ozone/src/util.ts:203-223 | no execution starts after the abort, and a settled promise never changes its outcome |
| IntervalRunners.RejectedIffUnexplained | packages/ozone/src/util.ts:167-192 | in every run the promise is rejected exactly if some execution threw while running and the error was not the reason of an abort before it |
| IntervalRunners.FailureStopsTheInterval | packages/ozone/src/util.ts:174-192 | from such an error on nothing is armed or running, nothing starts again, and the promise stays rejected |
| IntervalRunners.AbortedIff | packages/ozone/src/util.ts:167-223 | the interval is aborted exactly if its input was, or by such an error |
| IntervalRunners.NextTurn | packages/ozone/src/util.ts:186-201 | after a return the function starts again exactly when a full period has passed |
| IntervalRunners.FirstStart | packages/ozone/src/util.ts:225-226 | the function starts at once if asked to, otherwise after a period |
| IntervalRunners.AbortedWhileRunning | packages/ozone/src/util.ts:203-223 | an abort during an execution lets it finish and resolves then |
| IntervalRunners.AbortedWhileArmed | packages/ozone/src/util.ts:203-223 | an abort between two executions clears the timer and resolves at once |
| IntervalRunners.IntervalRunner.OnTimer | packages/ozone/src/util.ts:195-201 | the timer call-back starts an execution when the timer is armed and due, and nothing otherwise |
| IntervalRunners.IntervalRunner.OnThrow | packages/ozone/src/util.ts:169-192 | an error caused by the signal ends the run, any other aborts the interval and rejects the promise first |
| IntervalRunners.IntervalRunner.OnInputAbort | packages/ozone/src/util.ts:203-220 | aborting resolves at once when only the timer is armed and leaves a running execution to settle |
| PeriodicTasks.OneExecutionAtATime | packages/ozone/src/background.ts:109-162 | any mix of `start` and forced runs, in any queue order, has at most one execution at a time |
| PeriodicTasks.NoExecutionAfterDestroy | packages/ozone/src/background.ts:60-106 | after the periodic task or its queue is destroyed no execution begins, jobs already waiting included |
| PeriodicTasks.IntervalPromiseResolves | packages/ozone/src/background.ts:164-172 | an interval that was begun never fails: its promise, once settled, is resolved, with the signal aborted and nothing running |
| PeriodicTasks.DestroyRejectsIff | packages/ozone/src/background.ts:164-182 | a call of `destroy` that has ended was rejected exactly if the promise it awaited was stored by a `start` that found the signal aborted |
| PeriodicTasks.DestroySucceedsWithoutLateStart | packages/ozone/src/background.ts:164-182 | in a run in which no `start` follows a destruction, no `destroy` is rejected |
| PeriodicTasks.DestroyFailsAfterLateStart | packages/ozone/src/background.ts:164-182 | the queue destroyed, then `start`: a rejected promise is stored, and two calls of `destroy` both fail and leave it there |
| PeriodicTasks.PeriodicBackgroundTask.RunNow | packages/ozone/src/background.ts:143-162 | shares the promise of a run under way, throws on an aborted signal, and otherwise adds exactly one job |
| PeriodicTasks.PeriodicBackgroundTask.StartInterval | packages/ozone/src/background.ts:164-172 | without a stored promise, begins the interval, or on an aborted signal stores a rejected promise without throwing |
| PeriodicTasks.PeriodicBackgroundTask.Destroy | packages/ozone/src/background.ts:174-180 | aborts the periodic task, the signals of all its unfinished jobs and the interval, and awaits the stored promise |
| PeriodicTasks.PeriodicBackgroundTask.OnDestroyResumes | packages/ozone/src/background.ts:180-182 | clears the stored promise when the awaited one is resolved, and fails without clearing it when it is rejected |
| PeriodicTasks.TimedRunExecutes | packages/ozone/src/background.ts:143-172 | a due timer leads to one execution through the queue, after which the timer waits a full period again |
| PeriodicTasks.ForcedRunExecutes | packages/ozone/src/background.ts:143-162 | a forced run executes the task once and leaves the interval alone |
| PeriodicTasks.TimerJoinsARun | packages/ozone/src/background.ts:144-149 | a due timer that finds a run under way waits for it and adds no job |
| PeriodicTasks.AbortedJobIsSkipped | packages/ozone/src/background.ts:67-72 | a job whose signal is aborted before the queue takes it never executes |
| PeriodicTasks.DestroyAborts | packages/ozone/src/background.ts:99-180 | a destruction, of the task or the queue, aborts the interval and every unfinished job, and no job is added after it |
| PeriodicTasks.DestroyCallEnds | packages/ozone/src/background.ts:174-182 | a call of `destroy` ends as the promise it awaits, not before, and only a resolved one is forgotten |
| PeriodicTasks.DestroyWaitsForTheRun | packages/ozone/src/background.ts:174-182 | `destroy` stays open while the interval has an execution under way, and is fulfilled when that has ended |
| CredentialSessions.RefreshStoresTheToken | packages/api/src/atp-agent.ts:464-480 | a complete response for the account stores exactly its token, in a new session object, if the session refreshed is still current, and otherwise leaves the session as it is |
| CredentialSessions.ProfileStoresTheToken | packages/api/src/atp-agent.ts:444-480 | the same when the profile is fetched first, whatever happens meanwhile: the token stored is that of the response |
| CredentialSessions.FailedRefresh | packages/api/src/atp-agent.ts:435-506 | a bad token or another account's response clears the session exactly if it is still the one refreshed; a transient failure leaves it |
| CredentialSessions.RefreshCycle | packages/api/src/atp-agent.ts:400-480 | a call begins a refresh of the current session, its response is stored, and the next call begins one of what was stored |
| CredentialSessions.JoinsAndCleansUp | packages/api/src/atp-agent.ts:400-417 | a call with a refresh under way begins none, and a refresh that ends drops only its own promise |
| CredentialSessions.SigningIn | packages/api/src/atp-agent.ts:270-358 | signing in drops session and promise first and stores what it is given; a login that meets another session leaves none |
| CredentialSessions.SingleFlight | packages/api/src/atp-agent.ts:395-417 | between two replacements of the session at most one refresh request is in flight |
| CredentialSessions.RefreshNeverClobbers | packages/api/src/atp-agent.ts:419-507 | a refresh step that changes the session finds the very object it began with, and leaves nothing or a new object of the same account |
| CredentialSessions.RefreshesKeepTheAccount | packages/api/src/atp-agent.ts:435-442 | however refreshes interleave with each other, the account of the session stays the same |
| CredentialSessions.CredentialSession.RefreshSession | packages/api/src/atp-agent.ts:400-417 | throws without a session, joins the refresh in progress, otherwise begins one |
| CredentialSessions.CredentialSession.ResumeSession | packages/api/src/atp-agent.ts:369-384 | a session with another refresh token replaces the current one and drops the pending refresh; then a refresh is joined or begun |
| CredentialSessions.CredentialSession.OnResponse | packages/api/src/atp-agent.ts:433-470 | a foreign account is an error, missing fields need a profile, and otherwise the session is replaced only if it is still the one refreshed |
| CredentialSessions.CredentialSession.OnError | packages/api/src/atp-agent.ts:486-506 | a bad token clears the session only if it is still the one refreshed |
| CredentialSessions.CredentialSession.OnFinally | packages/api/src/atp-agent.ts:408-412 | the shared promise is dropped only by its own refresh |
| FanOuts.SinksReceivePrefixes | packages/common/src/streams.ts:143-223 | every sink has received a prefix of the input in order, every living sink all of it, and every sink that was ended cleanly the whole |
| FanOuts.EveryWriteIsCalledBackOnce | packages/common/src/streams.ts:170-204 | each chunk is called back exactly once, the last one is open exactly while a sink that pushed back has neither drained nor died, and only the last call-back can be an error |
| FanOuts.CallbackReportsSurvivors | packages/common/src/streams.ts:174-179 | a call-back finds nobody waited for and reports an error exactly if no sink is alive at that moment |
| FanOuts.OnlyDrainOrDeathReleases | packages/common/src/streams.ts:186-200 | a sink that pushed back is waited for until it drains or dies itself |
| FanOuts.NoneDestroyedAfterCleanEnd | packages/common/src/streams.ts:205-221 | in a run whose teardowns come after the end and without an error, no sink is ever destroyed |
| FanOuts.FanOut.WriteChunk | packages/common/src/streams.ts:170-204 | the loop over the living sinks with its counter does what the specification says of a write |
| FanOuts.FanOut.OnDeath | packages/common/src/streams.ts:157-200 | a death drops the sink and releases the write that waits for it |
| FanOuts.WhoGetsTheChunk | packages/common/src/streams.ts:181-201 | a live writable sink stays alive and gets the chunk, and is waited for when it pushes back; any other gets nothing and is not alive |
| FanOuts.AliveUntilDropped | packages/common/src/streams.ts:157-184 | in every run a sink is alive exactly if it has not died and every write found it writable |
| FanOuts.DeadSinksGetNothing | packages/common/src/streams.ts:153-162 | a sink that is not alive stays so and is given nothing in any continuation |
| FanOuts.DrainOrDeathReleases | packages/common/src/streams.ts:186-200 | a drain or death releases that sink alone, and fires the call-back if it was the last waited for |
| FanOuts.EndAndTeardown | packages/common/src/streams.ts:205-221 | the end ends exactly the live writable sinks; a teardown destroys exactly those, and only with an error or before the end |
| CoalesceBytes.SizesYielded | packages/common/src/streams.ts:295-329 | nothing is yielded while fewer than the minimum has been collected; otherwise a chunk goes on whole or exactly the minimum is yielded, and the rest too if it does not fit into the buffer |
| CoalesceBytes.CoalescingPreservesBytes | packages/common/src/streams.ts:262-337 | outputs joined are the inputs joined, none is empty, and all but the last have at least the minimum size |
| CoalesceBytes.Absorb | packages/common/src/streams.ts:295-329 | one chunk, on real arrays: what is yielded and what is left in the buffer are the specified bytes, no yielded view lies on the buffer that is used next, and a large chunk that meets an empty buffer is yielded itself, with nothing copied |
| CoalesceBytes.Coalesce | packages/common/src/streams.ts:268-337 | a bad size is refused; otherwise each output shows the specified bytes when yielded and still shows them at the end, so nothing handed out is written again |
| AsyncBuffers.NoLostWakeUp | packages/common-web/src/async.ts:104-150 | a consumer that sleeps with work pending has a falsy item at the head; with truthy items it never does |
| AsyncBuffers.FalsyHeadLosesTheWakeUp | packages/common-web/src/async.ts:130-136 | a resumed consumer that meets neither error nor limit falls asleep with work pending exactly if the head is falsy |
| AsyncBuffers.FalsySleepIsReached | packages/common-web/src/async.ts:123-136 | one falsy item pushed to a buffer of any limit, asked for and resumed, leaves the consumer asleep with the item pending |
| AsyncBuffers.EndsExactly | packages/common-web/src/async.ts:114-131 | the generator throws exactly when it is woken with an error there or over its limit, or asked with an error after the end; it returns exactly at the end without one |
| AsyncBuffers.YieldsExactly | packages/common-web/src/async.ts:123-136 | an item is yielded exactly when the generator is woken, nothing stops it, and a truthy one is at the head |
| AsyncBuffers.ProducersWake | packages/common-web/src/async.ts:99-149 | pushing, throwing and closing arrive and wake a consumer that awaits the current promise |
| AsyncBuffers.AskingDrains | packages/common-web/src/async.ts:114-138 | a consumer that keeps asking gets all items in order, if none is falsy and nothing stops it |
| AsyncBuffers.YieldsAPrefix | packages/common-web/src/async.ts:104-138 | what was yielded and what is buffered make up what was pushed, in order |
| AsyncBuffers.ReturnDeliversEverything | packages/common-web/src/async.ts:116-122 | the generator returns only when closed without an error and everything pushed was yielded |
| AsyncBuffers.AsyncBuffer.OnResume | packages/common-web/src/async.ts:123-137 | the span after the await: error first, then the limit, then an item or a new promise |
| AsyncBuffers.AsyncBuffer.PushMany | packages/common-web/src/async.ts:104-112 | appends the items and resolves the current promise |
| CommunityAuthority.LastRelevantEventDecides | packages/common/src/community-authority.ts:257-311 | the state is that of the last membership event in force, a role is held exactly while some effective grant stands unrevoked, and `member` exactly while active |
| CommunityAuthority.HeldRolesHaveEvidence | packages/common/src/community-authority.ts:262-307 | every held role is backed by the last event in force that granted it |
| CommunityAuthority.InputOrderIsIrrelevant | packages/common/src/community-authority.ts:264-267 | every permutation of events with distinct keys gives the same result, order of roles included |
| CommunityAuthority.EventsOutOfForceDoNotMatter | packages/common/src/community-authority.ts:269-271 | an event not in force, an expired suspension for one, might as well be absent |
| CommunityAuthority.InactiveMembersAreVisitors | packages/common/src/community-authority.ts:197-212 | the capabilities are a visitor's exactly if the last membership event in force is not an activation |
| CommunityAuthority.CapabilitiesHaveGrants | packages/common/src/community-authority.ts:197-212 | by name: a visitor's capabilities are everyone's, a member's come from a standing activation, a moderator's from a standing grant of that role or of ownership, an owner's from one of ownership; there are no others |
| CommunityAuthority.DatesDecide | packages/common/src/community-authority.ts:269-271 | an event counts exactly from its effective date up to its expiry; a date that does not parse excludes nothing |
| CommunityAuthority.EvidenceOutlivesMembership | packages/common/src/community-authority.ts:272-308 | there is evidence for a role exactly if some effective grant was not withdrawn: a suspension takes the role and leaves the evidence |
| CommunityAuthority.DeriveEffectiveAuthority | packages/common/src/community-authority.ts:257-311 | the loop over the sorted events computes the fold the theorems speak of |
| CommunityAuthority.SortEvents | packages/common/src/community-authority.ts:264-267 | the copy is sorted by version and then address, stably |
| S32.DecodeEncode | packages/common-web/src/util.ts:113-131 | decoding undoes encoding for every number |
| S32.EncodeDecode | packages/common-web/src/util.ts:113-131 | encoding undoes decoding for every text of the alphabet without a leading zero |
| S32.EncodeLength | packages/common-web/src/util.ts:115-123 | a number has at most k digits exactly if it is below 32 to the power of k |
| S32.OrderAgrees | packages/common-web/src/util.ts:113-131 | texts of equal length are ordered like their numbers |
| S32.S32Encode | packages/common-web/src/util.ts:115-123 | the loop that prepends digits yields the numeral |
| S32.S32Decode | packages/common-web/src/util.ts:125-131 | the loop yields the value of the numeral, -1 for each foreign character |
| Tids.FromTimeRecovers | packages/common-web/src/tid.ts:50-78 | `fromTime` gives time and clock id back exactly for eleven-digit times and ids below 1024 |
| Tids.FormattedReparses | packages/common-web/src/tid.ts:80-86 | the dashed form parses to the same identifier |
| Tids.OrderIsChronological | packages/common-web/src/tid.ts:92-109 | the order of texts is the order of time, then of clock id |
| Tids.SuccessiveTidsIncrease | packages/common-web/src/tid.ts:24-44 | identifiers increase strictly for every sequence of clock readings, backward drift included, while the stamps have eleven digits |
| Tids.TimeOfIdentifiers | packages/common-web/src/tid.ts:24-38 | for every sequence of readings: the time is the latest reading in milliseconds plus, as microseconds, the number of calls that found the clock not advanced; the clock id is the one drawn first |
| Tids.NextIsNewer | packages/common-web/src/tid.ts:39-43 | `next(prev)` is newer than a `prev` with a well-formed time, whatever its clock id, and fails exactly when a timestamp does not have eleven digits |
| Tids.TidClock.Next | packages/common-web/src/tid.ts:24-44 | the counters move to the later of clock and last time, and the identifier is made from them |
| Dids.AssertDid | packages/did/src/did.ts:210-231 | accepts exactly the strings of at most 2048 code units that derive from the grammar and have no lower-case digit in a percent code |
| Dids.LowerCaseIsRefused | packages/did/src/did.ts:174-189 | `did:a:%aa` derives from the grammar, and the loop refuses its percent code |
| Dids.AssertDidMethod | packages/did/src/did.ts:86-116 | accepts exactly the method names of the grammar at a valid position |
| Dids.AssertDidMsid | packages/did/src/did.ts:133-208 | the index-skipping loop accepts exactly the method-specific identifiers of the recursive grammar without lower-case percent digits, an incomplete percent code at the end refused |
| Dids.ExtractDidMethod | packages/did/src/did.ts:121-125 | of a DID, the method name of its derivation |
| Dids.SeparatorIsFirstColon | packages/did/src/did.ts:224-230 | in every derivation the separator is the first colon after the prefix |
| Dids.UniqueParts | packages/did/src/did.ts:11-18 | a DID derives from the grammar in one way only, with its parts before and after the first colon behind the prefix |
| Dids.ScansIsMsid | packages/did/src/did.ts:150-207 | whatever the loop lets pass derives from the grammar |
| Dids.ScansIsUpper | packages/did/src/did.ts:174-189 | whatever the loop lets pass has upper-case percent codes only |
| Dids.MsidScans | packages/did/src/did.ts:150-207 | whatever derives from the grammar, with upper-case percent codes, passes the loop |
| DidIdentifiers.FastMatchIsComparison | packages/did/src/utils.ts:4-18 | the length, prefix and suffix tests equal the comparison they replace, for all candidates, exactly if the DID does not start with a hash |
| DidIdentifiers.FastItemTestIsComparison | packages/common-web/src/did-doc.ts:126-133 | the test of an item equals the comparison, for all items, exactly if the id is a fragment and the document's id is not |
| DidIdentifiers.FindItemById | packages/common-web/src/did-doc.ts:113-140 | finds the first matching item, and under that condition the first item that the id names, no earlier one being named |
| EtcdMaps.HoldsGreatestRevision | packages/bsky/src/etcd.ts:68-73 | for each key the map holds an entry of greatest revision among those delivered, the last delivered of these, in any order and repetition |
| EtcdMaps.ReplicasConverge | packages/bsky/src/etcd.ts:21-44 | replicas that were delivered the same entries agree, if a revision of a key has one value |
| EtcdMaps.ConvergesExactlyIfNewestUnique | packages/bsky/src/etcd.ts:21-44 | all replicas that were delivered the entries of one, in any order and repetition, agree exactly if of the newest entries of each key all are the same; otherwise a mere reordering differs |
| EtcdMaps.EqualRevisionsDoNotConverge | packages/bsky/src/etcd.ts:70 | the smallest case: two entries of one revision, in both orders, give the same map exactly if their values agree |
| EtcdMaps.StaleSnapshotDoesNotRevive | packages/bsky/src/etcd.ts:28-43 | a deleted key stays deleted until something newer arrives |
| EtcdMaps.EtcdMap.LoadSnapshot | packages/bsky/src/etcd.ts:37-43 | on a map that may hold watch entries: afterwards it holds, for each key, the newest of all that was delivered by watch and snapshot |
| EtcdMaps.EtcdMap.Get | packages/bsky/src/etcd.ts:46-48 | the value of a newest delivered entry for the key; nothing if there is none or it is a deletion |
| EtcdMaps.EtcdMap.Apply | packages/bsky/src/etcd.ts:68-73 | an older entry is ignored without an update call, any other replaces, and the newest delivered is held |
| LexiconIndex.ResolutionIsIdempotent | packages/lexicon/src/lexicons.ts:233-253 | resolution leaves every visited reference absolute, and a second one under any base changes nothing |
| LexiconReferences.ResolutionNamesReferences | packages/lexicon/src/lexicons.ts:233-253 | resolution throws exactly if a reference that it reaches is missing, no text, or has two hashes; otherwise every reference becomes the address it names, fragments under the base, and nothing else in the tree changes |
| LexiconReferences.AddStoresNamedDocs | packages/lexicon/src/lexicons.ts:54-69 | adding fails exactly if the address is taken or a reference throws; otherwise the document is stored with its references named and its definitions are found under their addresses |
| LexiconIndex.ResolvedAddressIsStable | packages/lexicon/src/util.ts:3-18 | an address that was resolved is the result of a second resolution, under any base, exactly if it is absolute; one that hung on a base is absolute exactly if the base starts with `lex:` and has no hash |
| LexiconIndex.UnfitBases | packages/lexicon/src/util.ts:3-18 | a base with a hash, whose result a second resolution refuses, and one without the scheme, whose result it changes |
| LexiconIndex.DefsAreThoseOfTheDocs | packages/lexicon/src/lexicons.ts:54-84 | after any run of `add` and `remove` the definitions are the union of those of the documents |
| LexiconIndex.RemoveUndoesAdd | packages/lexicon/src/lexicons.ts:54-84 | removing what was just added restores both maps |
| LexiconIndex.CloneIsUnchanged | packages/lexicon/src/lexicons.ts:36-49 | an index built from the documents of another, in any order, is the same index |
| LexiconIndex.Lexicons.Add | packages/lexicon/src/lexicons.ts:54-69 | fails without a trace on a bad or registered address, otherwise stores the resolved document and its definitions |
| LexiconIndex.Lexicons.Remove | packages/lexicon/src/lexicons.ts:74-84 | fails without a trace on an unknown address, otherwise drops the document and its definitions |
| LexiconIndex.Lexicons.GetDef | packages/lexicon/src/lexicons.ts:97-100 | on an index that agrees with its documents, gives the definition of the document named before the hash, for an NSID its main definition, and nothing for any other address |
| SavedFeeds.OneV2Remains | packages/api/src/agent.ts:1529-1556 | an update leaves exactly one V2 preference, which holds the edited list, pinned feeds first and otherwise in order |
| SavedFeeds.SortIsPartition | packages/api/src/agent.ts:1545-1549 | the sort with the comparator is the stable partition into pinned and other feeds |
| SavedFeeds.UnrelatedUntouched | packages/api/src/agent.ts:1554-1578 | preferences of other types keep content and order |
| SavedFeeds.V1Afterwards | packages/api/src/agent.ts:1563-1579 | the last valid V1 preference, merged, is the only one left; without a valid one none is touched |
| SavedFeeds.MergedHoldsBoth | packages/api/src/agent.ts:1564-1575 | the merged preference has the old entries first, in order, then every feed and list of the V2 preference, nothing else, and nothing twice |
| SavedFeeds.V1PreferencesSurvive | packages/api/src/agent.ts:1576-1578 | no V1 preference disappears exactly if none is valid or there is one only |
| SavedFeeds.NoEntryLostIff | packages/api/src/agent.ts:1563-1579 | an update loses no V1 entry, whatever it edits, exactly if no V1 preference is valid or the last valid one has the entries of all |
| SavedFeeds.EarlierV1IsLost | packages/api/src/agent.ts:1576-1578 | an entry that an update without any edit loses |
| SavedFeeds.SavedFeedsToUriArrays | packages/api/src/util.ts:16-39 | the loop collects all values, and the pinned ones, in order |
| SavedFeeds.UniqueFeeds | packages/api/src/agent.ts:786-793 | deleting and inserting again keeps, of each id, the last feed, and these in their order |
| SavedFeeds.LastByIdMembers | packages/api/src/agent.ts:784-797 | no id is lost and none is left twice |
| SavedFeeds.LastByIdIsLast | packages/api/src/agent.ts:786-797 | what stands for an id is its last feed in the list, and only that |
| SavedFeeds.SetPinnedOnlyPins | packages/api/src/agent.ts:800-816 | an update changes no more than the pin, to what the first update with the id says, and nothing without one |
| SavedFeeds.RemovedAreGone | packages/api/src/agent.ts:832-836 | exactly the named feeds go; a feed with an empty id cannot be named |
| SavedFeeds.OverwriteKeepsTheLast | packages/api/src/agent.ts:784-797 | the list becomes, in order, the given feeds whose id does not occur again after them |
| SavedFeeds.SetPinnedKeepsPlaces | packages/api/src/agent.ts:799-816 | every feed keeps its place, and its pin is that of the first update with its id, if any |
| SavedFeeds.AddAppendsRemoveKeepsOrder | packages/api/src/agent.ts:818-837 | adding appends in order; removing keeps, in order, exactly the feeds that are not named |
| SavedFeeds.StoredItems | packages/api/src/agent.ts:1544-1557 | what is stored is the pinned feeds of the edited list in order, then the others in order |
| SavedFeeds.CurrentItemsAreTheLast | packages/api/src/agent.ts:1537-1544 | what is edited is the list of the last valid V2 preference, the empty one without any |
| SavedFeeds.RemoveUndoesAdd | packages/api/src/agent.ts:818-836 | removing feeds that were just added leaves the saved feeds as they were, pinned ones first |
| PreferencesLock.UpdatesAreSerial | packages/api/src/agent.ts:1451-1479 | however any number of calls interleave, the server holds what they give one at a time in the order of taking the lock, each call once |
| PreferencesLock.OnlyFailuresAreLeftOut | packages/api/src/agent.ts:1460-1479 | a call that does not fail has its result stored |
| PreferencesLock.CallLands | packages/api/src/agent.ts:1460-1479 | a call that finds the lock free and does not fail stores what its callback makes of what is stored, and frees the lock |
| PreferencesLock.SavedFeedsAreSerial | packages/api/src/agent.ts:1529-1585 | concurrent saved-feed operations give the feeds of the operations one at a time in lock order, in the only V2 preference, and leave unrelated preferences alone |
| PreferencesLock.LegacyEntriesAreNeverLost | packages/api/src/agent.ts:1558-1579 | an account with one V1 preference keeps it with all its entries, in every run |
| PreferencesLock.LegacyCoversSavedFeeds | packages/api/src/agent.ts:1558-1579 | with a valid V1 preference and AT URIs for feeds and lists, after every run in which a call has landed the one V1 preference has every V2 feed and list in `saved` and every pinned one in `pinned` |
| PreferencesLock.UpdateCoversIff | packages/api/src/agent.ts:1563-1579 | with one V1 preference, an update leaves it covering the V2 feeds and lists exactly if it was valid or has them already |
| PreferencesLock.InvalidV1BreaksCoverage | packages/api/src/agent.ts:1563-1579 | whatever invalid V1 preference is stored alone, adding a feed it does not have leaves it without that feed |

## Left out

- Network, database drivers, key formats, logging and configuration: shared state with atomic steps stands for them.
- KEM backfill: DIDs are ranks in the order of the database, keys are values, and the temporary file of a candidate key is part of the step that links it. Other code may add rows, stores and keys and remove rows; that it removes key files or stores is not part of this model. That an abort cuts the sleep of `run()` short is not either: time passes in any way between two attempts.
- KemKeyScans.Backfill: the table stands still and nothing aborts, because rows that come and go, aborts and lost leases are in the transition system of `KemKeyBackfill`.
- Port reservations: a directory is listed in one step, process ids are not reused, reading a pid and asking whether it runs are one step, and there are no I/O errors besides a missing or existing file. The choice of a free port is an arbitrary number.
- PortReservations.HazardBreaksExclusion: covers states with a single flag, that of the process about to unlink, because with other flags in the directory who else holds or gives up depends on their owners.
- Notice passes: the lease is not part of the interleaving in `DeletionNotices`, so more runs are allowed than the code has; it is in `NoticeQueue.Retry`. Jitter is a real number below 1.
- NoticeQueues.NoticeQueue.Retry: the clock stands still, nothing is enqueued and nothing aborts meanwhile, because under a moving clock the loop may go on for ever; interleavings and aborts are in `DeletionNotices`.
- Notice passes: the clock moves forward, except in `NoRowOutlivesItsExpiry`, where it is arbitrary.
- `boundAbortController` and `isCausedBySignal`: an aborted parent aborts its children, and whether an error is the signal's reason is part of the event.
- `BackgroundQueue`: jobs are taken in any order and any number at a time; a forced run may still be executing when `destroy` resolves.
- Session: `login`, `createAccount` and `logout` are single steps of the environment; their own races are not judged. Persisting and the API endpoint are not modelled.
- Streams: errors of the sources of `coalesceByteStream`, and the buffers inside Node streams.
- `AsyncBuffer` with several consumers.
- CommunityAuthority.InputOrderIsIrrelevant: addresses are ranks in a strict total order, because the collation of `localeCompare` is not modelled. `resolveAvailableAction` is a decision table and left out.
- Numbers beyond 2 to the power of 53: integers are unbounded here, eleven digits are 2 to the power of 55.
- Tids.OrderIsChronological: both identifiers consist of characters of the alphabet, because others have no digit value and `s32decode` counts them as -1.
- Tids.TimeOfIdentifiers: the stamp has eleven digits and the drawn clock id two, because `fromTime` throws or shifts digits otherwise.
- Tids.NextIsNewer: the time of `prev`, its first eleven characters, consists of characters of the alphabet, because `s32decode` gives -1 for others and the constructor does not check them.
- `EtcdMap.values` and the handlers: what the handlers do is not part of this model; how often they are called is.
- LexiconIndex.ResolutionIsIdempotent: documents are trees of values; that `resolveRefUris` rewrites the caller's own object is not captured, and non-JSON values are not part of this model.
- LexiconReferences.ResolutionNamesReferences: the base starts with `lex:` and has no hash, as the addresses of documents with NSIDs do; what other bases lead to is in `ResolvedAddressIsStable`.
- LexiconIndex.DefsAreThoseOfTheDocs: document ids are NSIDs (no hash, not an address themselves), as the lexicon schema demands.
- Saved feeds: `validateSavedFeed` throws before the lock is taken and is left out, and identifiers of added feeds are given.
- Preferences: other clients that write the same account do not hold this agent's lock and are not part of this model.
- DID documents, service endpoints, handles, MST, repositories and OAuth are not part of this model.
