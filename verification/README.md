# Verification of the automation agent's protocols

The agent fixes repositories and reviews pull requests. A fix run applies a fix, opens a pull request,
parks until CI reports, and is then resumed, retried, timed out or reaped; several handlers, engines and
processes race on one store while this goes on. A review fans out to lenses, gates and merges what they
find, and publishes it to GitHub, which is also where it remembers what it published. This project models
these parts in Dafny and proves what they are meant to guarantee.

`dafny verify dfyconfig.toml` checks the whole project.

## How the files fit together

- **Park store.** `ParkColumns` says what a store means: a table with a key column. `MemoryParkStore`,
  `SqliteParkStore` and `FirestoreParkStore` are the three backends, one call at a time, each proved against
  that table. `ClaimRaces` takes the durable backends' calls apart into statements and interleaves them.
  `StoreIsolation` is about engines that share a store.
- **Fix runs.** `FixRun` is the protocol: every store call, session call and notification of every handler
  is a step, each step may fail, and a handler may crash between any two. `FixDriver` is the driver as it is
  written, with arbitrary steps of others before each of its calls. It is proved to make only steps of the
  protocol, and `FixDeeds` says which ones: the account that each of its methods gives of its own calls and
  how they came out, and what that does to the table, field by field. `FixRunOwnership`, `FixRunAttempts`,
  `FixRunSessions` and `FixRunCauses` prove the guarantees over all runs.
- **Review.** `Messages` and `Findings` (fingerprints, gates and merging), `Markers` (inline comments and
  the fingerprints in them), `Hunks` (which lines can be commented), `Publish` and `PullRequest` (the writes
  to GitHub), `PublishRuns` (any sequence of deliveries), `Globs` (the file filter), `StandardsCache` and
  `StandardsCacheTrace`, `Coalesce` with `Base64`.
- **Sessions and transport.** `SessionState` and `SessionStore`, `Transport`.

## What is assumed

- Session ids are never used twice and belong to one workflow. A store write that fails has no effect.
  The clock does not go back. `MaxIter` is at least 1 where a theorem says so.
- Claims of the fix-run protocol are atomic, as the `ParkStore` interface demands. The sqlite backend reads
  and then swaps; `ClaimRaces` shows what that gives and what it does not.
- A timer may fire at any time. That no session is lost asks that no orphan sweep lists a run that a handler
  is driving; it follows if each drive ends within the dispatch deadline of its record's last write. A run
  that a check result claims after the TTL breaks this, and `FixRunSessions` shows that the session can then
  be lost.
- That a sweep of the sqlite store hands back the row it takes asks either that writes land within CI_TIMEOUT
  of their stamp, or that only sessions that are not parked are written, by one writer at a time, as the
  comment on `UpdatedAt` says. No other result about claims needs a bound on how late a write lands.
- The reviewer knows its own login and may edit its own comments. Deliveries to one pull request come one
  after the other. Others may write between them, but not into the reviewer's own comments.

## Where the code does less than its comments say

- `parkstore_sqlite.go` calls its resolve an atomic compare-and-swap. It can win a run that another resolver
  won and that was parked again between the read and the swap, and then returns the record of the earlier
  park, with the earlier call id (`ClaimRaces.ResolveMayReturnAStaleRecord`); it does so exactly when the
  session was written in between (`ClaimRaces.ResolveWinsAreExactIfUnwritten`).
- The engines that share a Firestore store do not change each other's runs, but they are not independent: a
  document of one that cannot be read makes the other's sweeps and counts fail
  (`FirestoreParkStores.FirestoreParkStore.Sweep` and its neighbours).
- `session_firestore.go` says that encoded keys cannot collide. They do exactly when a name holds the
  separator byte (`SessionStores.OwnDocumentExactly`).
- Fingerprints are meant to tell files apart. Two paths can give the same one exactly when one is the other
  with a colon, a number and perhaps more behind it (`Findings.CollidingFiles`).
- Task names are called lossless. They are for the numbers that pull requests have; for a negative one the
  sign can be read as the end of a repository name (`Coalesce.SameNameSamePush`).
- A message with ` -->` in it cuts its own marker short, so the finding is not recognized on the next
  push (`Markers.ASuffixInTheMessageCutsTheFingerprint`).
- A failed look-up of the check lets a redelivered review write a second check
  (`PublishRuns.AFailedLookUpDoublesTheCheck`).

## Model

| member | source | states |
|---|---|---|
| `ParkColumns.PutKeepsInvariants` | go/internal/agent/setup/parkstore.go:57-59 | putting a record leaves it the only holder of its workflow and key |
| `ParkColumns.SweepsPartition` | go/internal/agent/setup/parkstore.go:71-95 | for one workflow and cutoff the two sweeps are disjoint and together list every record stamped before it; a timed-out record is an orphan from then on |
| `MemoryParkStores.MemoryParkStore.OneSessionPerKey` | go/internal/agent/setup/parkstore.go:115-135 | the index is a bijection with the parked records: looking a key up in it finds exactly the sessions a scan of the key column would, at most one |
| `MemoryParkStores.DisplaceOwner` | go/internal/agent/setup/parkstore.go:145-156 | unparking the one session the index names does what clearing every other holder in the table does |
| `MemoryParkStores.MemoryParkStore.Put` | go/internal/agent/setup/parkstore.go:137-160 | equals the table's put, across a re-park under another key and the displacement of another session, and keeps the bijection |
| `MemoryParkStores.MemoryParkStore.ResolveByPRKey` | go/internal/agent/setup/parkstore.go:169-181 | wins exactly when a session of the workflow is parked under the key, returns that session's record unparked, and clears only its key |
| `MemoryParkStores.MemoryParkStore.Sweep` | go/internal/agent/setup/parkstore.go:183-198 | claims every stale run of the workflow and nothing else, and returns each once with its key |
| `MemoryParkStores.MemoryParkStore.Delete` | go/internal/agent/setup/parkstore.go:210-222 | removes the record and any index entry of it |
| `MemoryParkStores.MemoryParkStore.SweepOrphans` | go/internal/agent/setup/parkstore.go:224-234 | lists each unparked record stamped before the cutoff once and changes nothing |
| `MemoryParkStores.MemoryParkStore.ParkedCount` | go/internal/agent/setup/parkstore.go:236-246 | counting index entries is counting parked records |
| `StoreIsolation.EnginesAreIsolated` | go/internal/agent/setup/parkstore.go:48-50 | dropping every other engine's calls from an interleaved run leaves one engine's answers and rows as they were |
| `StoreIsolation.OwnStep` | go/internal/agent/setup/parkstore.go:137-246 | each operation on the shared store answers, and changes the engine's rows, as it would on a store of the engine's own |
| `SqliteParkStores.SqliteParkStore.Put` | go/internal/agent/setup/parkstore_sqlite.go:78-94 | equals the table's put; fails exactly when the clearing or the save does, having changed nothing in the first case and cleared the other holders in the second |
| `SqliteParkStores.SqliteParkStore.ResolveByPRKey` | go/internal/agent/setup/parkstore_sqlite.go:108-122 | with no call in between, wins exactly when the key is held and neither the read nor the update fails, and returns that record; an error exactly when one that was made failed |
| `SqliteParkStores.SqliteParkStore.Claim` | go/internal/agent/setup/parkstore_sqlite.go:154-177 | the conditional update wins exactly when it does not fail and the row still holds the key |
| `SqliteParkStores.SqliteParkStore.Sweep` | go/internal/agent/setup/parkstore_sqlite.go:124-146 | claims and returns every stale row whose update works, and reports an error exactly when some update failed; a scan that fails claims nothing |
| `FirestoreParkStores.FirestoreParkStore.Put` | go/internal/agent/setup/parkstore_firestore.go:71-98 | equals the table's put; fails exactly when the query, the reading of a document with the key, a clearing or the write fails, having cleared only other holders |
| `FirestoreParkStores.FirestoreParkStore.ResolveByPRKey` | go/internal/agent/setup/parkstore_firestore.go:115-146 | the transaction finds the workflow's holder among all documents with the key, and clears only it; it fails only if the transaction does or a document with the key, of any workflow, cannot be read |
| `FirestoreParkStores.FirestoreParkStore.Sweep` | go/internal/agent/setup/parkstore_firestore.go:148-191 | claims and returns every stale document whose transaction works, and reports an error exactly when one failed; when the scan fails, also over another workflow's unreadable document, it claims nothing |
| `FirestoreParkStores.FirestoreParkStore.ClaimStaleBySession` | go/internal/agent/setup/parkstore_firestore.go:198-228 | claims exactly a document that is still the workflow's, under the key, stamped and stale, if the transaction works |
| `FirestoreParkStores.FirestoreParkStore.SweepOrphans` | go/internal/agent/setup/parkstore_firestore.go:255-276 | lists exactly the stamped unparked documents of the workflow from before the cutoff, or fails, exactly if the scan does or some unparked document cannot be read |
| `FirestoreParkStores.FirestoreParkStore.ParkedCount` | go/internal/agent/setup/parkstore_firestore.go:278-299 | counts exactly the workflow's parked documents, or fails, exactly if the scan does or some parked document cannot be read |
| `ClaimRaces.NeverWonMoreThanParked` | go/internal/agent/setup/parkstore_sqlite.go:148-177 | in every interleaving of reads, writes and swaps, however late a write lands, a session is won no more often than it was parked |
| `ClaimRaces.SweepWinsAreExact` | go/internal/agent/setup/parkstore_sqlite.go:159-165 | if every write lands within CI_TIMEOUT of its stamp, a sweep hands back exactly the row it takes, which is older than its cutoff, whatever ran since the scan |
| `ClaimRaces.SweepWinsAreExactIfClaimedFirst` | go/internal/agent/setup/parkstore.go:31-39 | the same however late writes land, if nothing writes a session that is parked and one writer at a time writes it |
| `ClaimRaces.ALateWriteMakesTheSweepStale` | go/internal/agent/setup/parkstore_sqlite.go:159-165 | without either hypothesis, for any two records of a session there is a run in which the sweep takes the second and hands back the first |
| `ClaimRaces.SweepWinsAreExactIfUnwritten` | go/internal/agent/setup/parkstore_sqlite.go:124-146 | in every run a sweep takes the session's last write and hands back the write it had scanned; if no two writes of a session are alike, that is the same row exactly when the session was not written in between |
| `ClaimRaces.DocWinsAreExact` | go/internal/agent/setup/parkstore_firestore.go:193-246 | the transactions read again: they take only a row of their workflow, under the key or stale, and hand back the row they take |
| `ClaimRaces.StepsInWords` | go/internal/agent/setup/parkstore_sqlite.go:78-177 | beginning a put takes its key from the workflow's other sessions, the save puts the record there, a deletion takes the row, a swap clears one key, and no step does more |
| `ClaimRaces.ResolveWinsAreExactIfUnwritten` | go/internal/agent/setup/parkstore_sqlite.go:108-122 | in every run a resolve takes the session's last write and hands back, unparked, the write it had read; if no two writes of a session are alike, that is the same record exactly when the session was not written in between |
| `ClaimRaces.ResolveMayReturnAStaleRecord` | go/internal/agent/setup/parkstore_sqlite.go:148-157 | for any two parks of a session under one key there is a run, with nothing written while parked and every write landing at once, in which two resolvers read the first park, one wins it, the run parks again, and the other wins the second park with the first one's record |
| `FixRuns.SplitPRKeyInverts` | go/internal/agent/fixflow/driver.go:635-641 | a key splits back into its repository and number exactly when the repository has no `#` |
| `FixDrivers.Driver.Kickoff` | go/internal/agent/fixflow/driver.go:282-303 | writes the params, and unless that fails starts the drive and goes on as its outcome says; these calls and no others, up to its return |
| `FixDrivers.Driver.Resume` | go/internal/agent/fixflow/driver.go:327-381 | ignores what is not actionable; else claims once, and if it wins tells of success or exhaustion and clears, or retries, by the conclusion and the attempts of the record it won |
| `FixDrivers.Driver.OnTimeout` | go/internal/agent/fixflow/driver.go:385-400 | claims once, and if it wins tells of the timeout and clears, and does nothing else |
| `FixDrivers.Driver.SweepTimeouts` | go/internal/agent/fixflow/driver.go:406-420 | claims until nothing stale is left, also past failing claims, and then tells of and clears every run it won, in order; each is on record as timed out |
| `FixDrivers.Driver.SweepOrphans` | go/internal/agent/fixflow/driver.go:430-438 | clears every listed run, in order, and tells of none |
| `FixDrivers.Driver.AfterTheDrive` | go/internal/agent/fixflow/driver.go:472-495 | an error, a clean result, a missing park or PR number, a park and a failed park each lead to the calls that the code makes there, and to no others |
| `FixDrivers.Driver.FailTheApply` | go/internal/agent/fixflow/driver.go:501-506 | clears the run and then asks for help |
| `FixDrivers.Driver.FinishClean` | go/internal/agent/fixflow/driver.go:512-517 | clears the run and then says it was clean |
| `FixDrivers.Driver.PutRecord` | go/internal/agent/fixflow/driver.go:533-545 | what a handler writes is the record the protocol has it write, and once written the table holds it, field by field, stamped with the time of the write |
| `FixDrivers.Driver.Park` | go/internal/agent/fixflow/driver.go:549-566 | reads the record, or begins a blank one, and writes it back with workflow, key, call and attempt; ok, with that record stamped in the table and the timer armed, exactly when both worked |
| `FixDrivers.Driver.UpdateForRetry` | go/internal/agent/fixflow/driver.go:570-589 | goes on to the next attempt if the record is rewritten or gone, and fails the apply otherwise; once rewritten the table has the new params, freshly stamped, and the rest as it was read |
| `FixDrivers.Driver.Clear` | go/internal/agent/fixflow/driver.go:600-609 | deletes the session first and makes no call to delete the record if that failed |
| `FixDrivers.Driver.ReportsEachRunOnce` | go/internal/agent/fixflow/driver.go:327-438 | whatever mix of handlers ran, no two notifications are about one run |
| `FixRunCauses.EveryNoticeIsTrue` | go/internal/agent/fixflow/driver.go:327-517 | in every run whatever is told of a session has happened: a claim for a green check, a claim for a red one at the limit, a claim by timer or sweep, a clean drive, or a call or drive that failed |
| `FixRunCauses.ChecksDecide` | go/internal/agent/fixflow/driver.go:327-366 | success and exhaustion are told only of a run that was parked under the key of a pull request of which such a check run had arrived before, for the same engine |
| `FixDeeds.DeedsHappen` | go/internal/agent/fixflow/driver.go:282-609 | every call in a handler's account is a step of the run: made at its stage, with the table, the sessions and the channel after it as the protocol says |
| `FixDeeds.EffectsOfDeeds` | go/internal/agent/fixflow/driver.go:533-609 | a write that worked leaves the record in the table field by field with the time of the write, and takes its key from other sessions; a claim takes the key and no more; a deletion the row; a failed or any other call leaves the table alone |
| `FixDeeds.OtherEffectsOfDeeds` | go/internal/agent/fixflow/driver.go:501-609 | a drive that starts has a session, a deletion that worked takes it, and only the two reports say anything |
| `FixDeeds.FindingsOfDeeds` | go/internal/agent/fixflow/driver.go:327-438 | a claim wins only a run of its engine parked under its key, or stale for the sweep, and misses only when there is none; an orphan scan lists exactly its engine's old unparked runs |
| `FixDeeds.ToldIsNoted` | go/internal/agent/fixflow/driver.go:327-420 | what a handler told is among the notifications from then on |
| `FixDeeds.WinsAreReported` | go/internal/agent/fixflow/driver.go:406-420 | whatever a timeout sweep claims, it tells of |
| `FixDeeds.OrphansAreSilent` | go/internal/agent/fixflow/driver.go:430-438 | an orphan sweep tells of nothing |
| `FixRunOwnership.HandlerConserves` | go/internal/agent/fixflow/driver.go:282-609 | every step of a handler moves or destroys the right to report on a run, and creates none |
| `FixRunOwnership.AtMostOneNotice` | go/internal/agent/fixflow/driver.go:327-517 | over every interleaving of kick-offs, CI results, timers, sweeps, failures and crashes, a run sends at most one terminal notification |
| `FixRunOwnership.OneOfFour` | go/internal/agent/fixflow/driver.go:327-517 | a session is in exactly one hand, unparked and unreported; or in no hand, and then parked and unreported, or left unparked with at most one report, or without a record with at most one report |
| `FixRunOwnership.SilentForGood` | go/internal/agent/fixflow/driver.go:422-438 | a session that is unparked with no handler is never reported on again |
| `FixRunAttempts.DrivesAreBounded` | go/internal/agent/fixflow/driver.go:360-380 | no run is driven more than MaxIter times, and a parked record's attempts are the drives made |
| `FixRunAttempts.ExhaustedMeansMaxIter` | go/internal/agent/fixflow/driver.go:361-366 | a run is reported exhausted only after exactly MaxIter drives |
| `FixRunAttempts.RetriesUseUpTheBudget` | go/internal/agent/fixflow/driver.go:360-380 | MaxIter minus the drives falls by exactly the drives started and stays non-negative; a failed check ends the run at zero and retries it above |
| `FixRunSessions.NoSessionIsLost` | go/internal/agent/fixflow/driver.go:591-609 | at every point, failed deletes and crashes included, every existing session has its park record, as long as no orphan sweep lists a run that a handler is driving |
| `FixRunSessions.ListedIsOverdue` | go/internal/config/config.go:584-590 | in every run, what an orphan sweep lists is unparked and was last written longer ago than the dispatch deadline, if the TTL is above it, though its cutoff is taken before its scan |
| `FixRunSessions.PromptRunsLoseNoSession` | go/internal/agent/fixflow/driver.go:430-438 | so no session is lost if, whenever an orphan sweep lists, each drive under way is within the deadline of its record's last write |
| `FixRunSessions.SessionsAreLostExactly` | go/internal/agent/fixflow/driver.go:570-609 | a step leaves a session without its record exactly when it starts a drive of a session whose record is gone or deletes the record of a session that is there |
| `FixRunSessions.AReapedRunCanBeLost` | go/internal/agent/fixflow/driver.go:430-438 | from every reachable state in which an orphan sweep is to clear a run that another handler has yet to start driving, there is a continuation that leaves the session without a record |
| `FixRunSessions.ALateCheckRunCanLoseASession` | go/internal/agent/fixflow/driver.go:570-578 | a run that gets there, and loses its session, by a check run that claims a run parked for longer than the TTL |
| `Transport.SlotsAreBounded` | go/internal/tasks/inprocess.go:51-96 | slots in use are the slot holders, at most the capacity, and a release never blocks |
| `Transport.NoRegistrationAfterClose` | go/internal/tasks/inprocess.go:66-85 | after the close step the wait group only falls |
| `Transport.DispatchedOnce` | go/internal/tasks/inprocess.go:86-96 | an envelope is dispatched at most once, never if it was refused, and exactly once when its goroutine is gone |
| `Transport.DrainedMeansDone` | go/internal/tasks/inprocess.go:100-121 | when Close returns drained, every accepted envelope was dispatched once and nothing is dispatched later |
| `StandardsCaches.StandardsCache.Get` | go/internal/agent/reviewer/standards.go:485-494 | map and list stay in step; a hit moves its entry to the front and returns its value, a miss changes nothing |
| `StandardsCaches.StandardsCache.Put` | go/internal/agent/reviewer/standards.go:496-510 | refreshes an entry or adds one and drops the oldest beyond the bound |
| `StandardsCacheTrace.CacheKeepsTheMostRecent` | go/internal/agent/reviewer/standards.go:459-510 | after any trace the cache is the `max` most recently touched keys ever put, in that order, each with the value last put |
| `StandardsCacheTrace.HitsAreCurrent` | go/internal/agent/reviewer/standards.go:485-510 | every hit returns the value last put for the key |
| `Globs.GlobToRegexp` | go/internal/agent/reviewer/filter.go:98-122 | the loop with its skipped index writes the pattern of the glob |
| `Globs.CompiledGlobMeansTheGlob` | go/internal/agent/reviewer/filter.go:93-122 | for any glob, the pattern read back as a regular expression matches exactly the paths the glob means |
| `Globs.FileFilter.constructor` | go/internal/agent/reviewer/filter.go:27-40 | the compiled list excludes a path exactly when some glob of the list does, by path or by base name |
| `Globs.FileFilter.Excluded` | go/internal/agent/reviewer/filter.go:43-55 | a path is excluded exactly when a pattern matches it |
| `Globs.ExcludesInWords` | go/internal/agent/reviewer/filter.go:27-55 | a glob with a slash is for whole paths, one without for base names, and blank ones for nothing |
| `Globs.BaseInWords` | go/internal/agent/reviewer/filter.go:43-55 | the base name is what is between the last slashes |
| `Hunks.CommentableLines` | go/internal/agent/reviewer/hunks.go:14-42 | the loop collects the numbers of the head-side lines |
| `Hunks.HeaderParses` | go/internal/agent/reviewer/hunks.go:47-61 | a printed header gives back its new-side start, and is skipped when that is 0 |
| `Hunks.ParserFindsTheHeadLines` | go/internal/agent/reviewer/hunks.go:14-61 | for a patch printed from hunks that turn one text into another: exactly the hunks' new-side lines are found, and the head text has there what the patch line says |
| `Hunks.ParserFindsExactly` | go/internal/agent/reviewer/hunks.go:14-42 | in any patch, well formed or not, a line is found exactly if it is added or context and only body lines are between it and a header, with the header's start plus the head-side lines between as its number |
| `Hunks.HeaderStarts` | go/internal/agent/reviewer/hunks.go:44-61 | a header starts at the positive number that Atoi reads after its first plus sign, up to a space, a comma or the end, and else its body is skipped |
| `Findings.SameFingerprint` | go/internal/agent/reviewer/findings.go:111-122 | findings share a fingerprint exactly when file and line agree and the messages have the same words up to the case of ASCII letters, unless one path extends the other |
| `Findings.CollidingFiles` | go/internal/agent/reviewer/findings.go:111-122 | two paths can give one fingerprint exactly when one extends the other: by a colon and a number, and then nothing or a colon and text that with a colon after it is left alone by normalizing |
| `Messages.NormalExactly` | go/internal/agent/reviewer/findings.go:118-122 | normalizing leaves a message alone exactly when it has no capital and no space but single blanks between words |
| `Messages.SameMessageExactly` | go/internal/agent/reviewer/findings.go:118-122 | two messages are normalized alike exactly when letter by letter they are the same up to case and words begin at the same letters, however they are spaced |
| `Messages.CaseIsAllThatGoes` | go/internal/agent/reviewer/findings.go:118-122 | messages of one length that agree up to case are normalized alike, and of messages with single blanks between words only those are |
| `Findings.DropLowConfidence` | go/internal/agent/reviewer/glue.go:11-22 | keeps, in order, exactly the findings at or above the threshold, and all when the threshold is not positive |
| `Findings.GateCitations` | go/internal/agent/reviewer/standards.go:429-446 | in order, keeps as it is exactly what is about other things than patterns and architecture, cites a rule or need not; the rest is demoted to a nitpick or dropped |
| `Findings.GatesDistribute` | go/internal/agent/reviewer/review.go:52-65 | gating two lists together is gating each |
| `Findings.GatesInWords` | go/internal/agent/reviewer/review.go:52-65 | what comes out of both gates is what meets the threshold, untouched if it may be, and else as a nitpick where the uncited are demoted |
| `Findings.ConformanceNeedsARule` | go/internal/agent/reviewer/standards.go:425-428 | with the gate on and rules there, a pattern or architecture finding left above a nitpick cites one |
| `Findings.OthersPass` | go/internal/agent/reviewer/standards.go:408-446 | a finding of any other dimension comes out as it is exactly if it meets the threshold |
| `Findings.Dedupe` | go/internal/agent/reviewer/glue.go:24-52 | one finding for each fingerprint in order of first occurrence: the worst, then the most confident, then the first |
| `Findings.MergedIsDetermined` | go/internal/agent/reviewer/glue.go:24-27 | that description has exactly one answer |
| `Findings.MergedPrints` | go/internal/agent/reviewer/glue.go:24-42 | the outcome has each fingerprint once, in order of first occurrence, which is what publishing relies on |
| `Findings.MergingLosesNothing` | go/internal/agent/reviewer/glue.go:24-52 | for every finding one of the same fingerprint stays, no less severe, and no less confident if no more severe |
| `Findings.Review` | go/internal/agent/reviewer/review.go:52-67 | everything shown to the glue pass as already reported is in the outcome, no less severe, whatever the pass returns |
| `Markers.ParseIsLeftmostShortest` | go/internal/agent/reviewer/reconcile.go:19-36 | the parser finds the leftmost match, and there the shortest, and nothing exactly when there is none |
| `Markers.ParseOfMarker` | go/internal/agent/reviewer/reconcile.go:24-36 | a marker gives its fingerprint back exactly when that is one line without the suffix after its first character |
| `Markers.UnescapeInvertsEscape` | go/internal/agent/reviewer/publish.go:201-204 | the three replacements in their order lose nothing |
| `Markers.SanitizedIsInert` | go/internal/agent/reviewer/publish.go:197-210 | sanitized text has no angle bracket and no mention in it |
| `Markers.SanitizedReadsBack` | go/internal/agent/reviewer/publish.go:197-210 | a reader of sanitized text sees the text, zero-width spaces aside |
| `Markers.MaxBacktickRun` | go/internal/agent/reviewer/review.go:226-241 | the loop computes the longest run |
| `Markers.LongestRunIsLongest` | go/internal/agent/reviewer/review.go:226-228 | one run of backticks is that long and none is longer |
| `Markers.FenceHolds` | go/internal/agent/reviewer/publish.go:175-189 | the fenced prompt nowhere holds as many backticks as its fence, which has at least three |
| `Markers.BodyParses` | go/internal/agent/reviewer/publish.go:166-195 | message and suggestion never supply a marker; the fix prompt's comes first, then the finding's own |
| `Markers.CommentRoundTrip` | go/internal/agent/reviewer/publish.go:166-206 | a comment gives back its finding's fingerprint exactly when the fix prompt holds no other marker and the fingerprint is clean |
| `Markers.CommentShowsAll` | go/internal/agent/reviewer/publish.go:155-195 | a comment shows, in order, its label, dimension, sanitized message, sanitized suggestion if any, fix prompt between fences if any, and marker |
| `Markers.LabelTells` | go/internal/agent/reviewer/publish.go:212-223 | the label tells security from the rest, and of the rest the two worst severities from the others |
| `Markers.ASuffixInTheMessageCutsTheFingerprint` | go/internal/agent/reviewer/reconcile.go:19-26 | a message with the suffix in it is not recognized |
| `Publish.NewDiffIndex` | go/internal/agent/reviewer/hunks.go:67-73 | the index is built file by file, the last of a path counting |
| `Publish.IndexFindsLines` | go/internal/agent/reviewer/hunks.go:63-79 | a path is in the index exactly when it was changed, with the commentable lines of the last patch listed for it |
| `Publish.Classify` | go/internal/agent/reviewer/publish.go:140-153 | inline goes exactly what is above a nitpick and on a commentable line of its file, collapsed are exactly the nitpicks, and listed is everything else, each in order |
| `Publish.InlineLinesAreInTheDiff` | go/internal/agent/reviewer/publish.go:136-152 | what goes inline is above a nitpick and on a line that the parser finds in the last patch of its file |
| `Publish.InlineLinesAreHeadLines` | go/internal/agent/reviewer/publish.go:136-152 | if that patch is the printed difference of two texts, the line is a line of the head text within a hunk, and reads there as the patch says, which is where GitHub takes a comment |
| `Publish.SelectedStaysDistinct` | go/internal/agent/reviewer/publish.go:140-153 | deduplicated findings stay so in each of the three lists |
| `Publish.NothingIsDropped` | go/internal/agent/reviewer/publish.go:136-139 | every finding is in exactly one of the three lists |
| `Publish.Reconcile` | go/internal/agent/reviewer/reconcile.go:51-76 | posts exactly the findings whose fingerprint no comment carries and minimizes exactly the comments that carry a fingerprint no finding has, each as often as it occurs, in ascending order of their identifiers |
| `Publish.AtMostInWords` | go/internal/agent/reviewer/reconcile.go:74 | that order: a string comes before another that goes on with it or has more where they first differ |
| `PullRequests.PullRequest.UpsertMarkerComment` | go/internal/githubapi/githubapi.go:211-269 | edits the first own comment with the marker or creates one; ok exactly when marker and body are right, that comment may be edited, and no list, edit or create call on the way to it fails; else nothing changes |
| `PullRequests.FirstIsEdited` | go/internal/githubapi/githubapi.go:227-242 | the first comment with the marker that is the client's own gets the body in place, or its refusal is an error; unless the login is unknown, when a refusing one is passed |
| `PullRequests.ElseOneIsCreated` | go/internal/githubapi/githubapi.go:248-251 | without such a comment one is created at the end, and nothing else changes |
| `PullRequests.PublishReview` | go/internal/agent/reviewer/publish.go:37-134 | the writes in their order, cut short at any of them, for a review and for a denial; ok exactly when the check was found there or every write was made; each comment added has file, line and text of an inline finding that no comment carried, each such finding gets one, and minimized is exactly what no inline finding has any more |
| `PullRequests.CommentsAreOnHeadLines` | go/internal/agent/reviewer/publish.go:60-73 | a comment that is added is for a finding above a nitpick and, where the file's last patch is the printed difference of two texts, is on a line of the head text within a hunk |
| `PullRequests.SummaryMarkerExactly` | go/internal/agent/reviewer/publish.go:28-32 | two pull requests have one marker exactly when they have one number in repositories of one name |
| `PublishRuns.UpsertLeavesOne` | go/internal/githubapi/githubapi.go:206-252 | with at most one own summary before, there is exactly one after, and it says what was asked |
| `PublishRuns.NoFingerprintTwice` | go/internal/agent/reviewer/publish.go:50-73 | over any deliveries, redelivered, cut short or pushed again, no fingerprint is on two of the reviewer's comments, if the inline findings of each delivery are deduplicated and what is posted for them reads back |
| `PublishRuns.AtMostOneCheck` | go/internal/agent/reviewer/publish.go:38-45 | a commit gets at most one check if look-ups succeed |
| `PublishRuns.AFailedLookUpDoublesTheCheck` | go/internal/agent/reviewer/publish.go:128-134 | with a check there and nothing else going wrong, a second is written exactly when the look-up fails |
| `PublishRuns.ACheckMeansPublished` | go/internal/agent/reviewer/publish.go:60-100 | a check was written by a delivery for its commit when every inline finding was on a comment and the summary was that delivery's, and nothing posted then has been taken back |
| `PublishRuns.DeliveryLeaves` | go/internal/agent/reviewer/publish.go:86-100 | the check is the last write of a delivery, and a delivery that nothing stops leaves one |
| `PublishRuns.AtMostOneSummary` | go/internal/agent/reviewer/publish.go:86-89 | there is never more than one own summary |
| `PublishRuns.ExactlyOneSummary` | go/internal/agent/reviewer/publish.go:86-100 | from the first check on there is exactly one |
| `PublishRuns.RepushPostsNothing` | go/internal/agent/reviewer/reconcile.go:45-50 | a push with the same inline findings, all of which read back, posts nothing again |
| `PublishRuns.PostedAgainIfUnreadable` | go/internal/agent/reviewer/reconcile.go:56-68 | a finding posted alone is posted again on the next push exactly when its comment does not read back |
| `SessionStates.ExtractStateDeltas` | go/internal/agent/setup/session_firestore.go:92-105 | splits a change by prefix, stripping the prefix and dropping temporary keys |
| `SessionStates.MergeStates` | go/internal/agent/setup/session_firestore.go:107-119 | every key a caller sees comes from the scope its prefix names |
| `SessionStates.TrimTempState` | go/internal/agent/setup/session_firestore.go:446-459 | keeps exactly the keys that are not temporary |
| `SessionStates.MergeFollows` | go/internal/agent/setup/session_firestore.go:407-413 | applying a change's lasting part to the merged state is merging what the change makes of the scopes |
| `SessionStores.SessionsApart` | go/internal/agent/setup/session_firestore.go:83-88 | sessions whose applications and users are without the separator have documents of their own |
| `SessionStores.SeparatorsCollide` | go/internal/agent/setup/session_firestore.go:83-88 | moving the separator from one name to the next gives the same document |
| `SessionStores.OwnDocumentExactly` | go/internal/agent/setup/session_firestore.go:83-88 | a session shares its document with no other exactly when none of its three names has the separator in it |
| `SessionStores.Store.Create` | go/internal/agent/setup/session_firestore.go:175-238 | refuses missing names and existing sessions, and gives a session that mirrors its documents and has their stamp |
| `SessionStores.Store.AppendEvent` | go/internal/agent/setup/session_firestore.go:327-417 | all or nothing; a session that mirrored its documents still does, and both have the event's stamp |
| `SessionStores.Store.Get` | go/internal/agent/setup/session_firestore.go:240-261 | what is read back is the session in memory, state and events, with the events cut as the request asks; nothing exactly when a name is missing, a read fails or the session is not there |
| `SessionStores.FilterEvents` | go/internal/agent/setup/session_firestore.go:461-482 | keeps the events from the earliest one on from which there are no more than asked for and which is not before the asked time, though timestamps need not ascend |
| `SessionStores.LoadsWhatWasAppended` | go/internal/agent/setup/session_firestore.go:263-282 | events read in order of their numbers are the events appended, in that order |
| `SessionStores.AlwaysMirrors` | go/internal/agent/setup/session_firestore.go:327-459 | after any appends, whatever is done for other applications and users meanwhile, the state in memory is the merge of the three stored scopes, no temporary key is in either, and the events are numbered 0 up to the next number |
| `Base64.DecodeInvertsEncode` | go/internal/agent/setup/session_firestore.go:86-88 | the encoding of section 5 of RFC 4648 without padding loses nothing |
| `Base64.BitsAreKept` | go/internal/agent/setup/session_firestore.go:86-88 | four letters are, six bits each, the bits of three bytes |
| `Base64.DashAtTheEnd` | go/internal/agent/reviewer/enqueue.go:47-53 | one encoding is another with a dash after it exactly when its bytes are the other's and 62, and the other's length leaves two over three |
| `Coalesce.SameNameSamePush` | go/internal/agent/reviewer/enqueue.go:24-56 | two pushes get one task name exactly when their windows begin together, or a multiple of 584 years apart, and repository and number agree, or the numbers are opposite and the repository of the positive one is the other's with the byte 62 after a last group of two |
| `Coalesce.SameWindowInTime` | go/internal/agent/reviewer/enqueue.go:33-45 | windows less than 584 years apart begin together exactly when they are the same window |
| `Coalesce.OnlyPushesAreNamed` | go/internal/agent/reviewer/enqueue.go:24-36 | a task is named exactly for a push to a pull request where a window is set |
| `Coalesce.NamesAreValid` | go/internal/agent/reviewer/enqueue.go:47-50 | a name has only characters that the queue allows, and the task waits out the window |

## Left out

- Model calls, the workflow engine, ADK runners and lens selection: a drive is one of its possible outcomes, and the lenses' findings are arbitrary.
- Git, HTTP, Firestore, gorm, Cloud Tasks, tracing, webhook routing and signatures: only the state that calls change, and that a call may fail.
- Decoding of model output and of JSON (`parseFindings`, `parseRules`): findings arrive as records; an event's JSON is taken to decode to the event.
- The lookup of the default branch before a kick-off: a kick-off that fails there has done nothing.
- Texts of notifications and summaries, and the diff gathered for them. A notification counts as sent even when the channel reports an error.
- Timers' own scheduling: the protocol lets one fire at any time, so stopping one is not needed for any result; the driver's map of timers is kept but nothing is proved about it beyond arming.
- `Get`, `Delete`, `SweepOrphans` and `ParkedCount` of the sqlite store, and `Get` and `Delete` of the Firestore store: single statements.
- Uniqueness of keys when two writers put at the same time in the durable stores: their puts are several statements, and the code does not give it.
- `Transport` has no call that loops or computes: its goroutines are steps of a state machine, and the payload is an identifier.
- Case folding beyond ASCII in fingerprints.
- Confidence is a real number: NaN and rounding are not modelled.
- UpsertMarkerComment: models the pages of comments as one sequence in page order.
- The fallback of comment ownership when the login is unknown is modelled in the upsert, but the results over runs assume a known login.
- `Delete` and `List` of the session service.
- The order in which Firestore gives the documents of a query: with an unreadable one among them, whether a resolve meets it before its own is open.
- File reading, symlinks and path safety; configuration parsing other than the orphan TTL; scorecards, size gates, rate limits and user agents.
