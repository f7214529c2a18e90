# Verified model of the sports-betting platform's protocols and kernels

A Dafny model of the parts of the repository whose correctness is not visible in any one
function: locks and leases shared by processes that interleave and die, append-only stores that
plan before they publish, and exact arithmetic behind forecasts and odds.  `dafny verify
dfyconfig.toml` checks all of it.

| modules | what they model |
|---|---|
| `FileLock`, `FileLockRuns`, `LockDirectory` | the private-file lock with takeover of stale records, as single file operations of any number of processes, and as one process sees it |
| `DecisionLog` | the review decisions log that several processes append to under that lock |
| `RefreshLease` | the database-backed refresh lease and its callers, with two clocks |
| `Checkpoints`, `Collector`, `PriorityPlan` | the odds checkpoint table, its collector runs, and the priority planner |
| `CanonicalJson`, `ImportHistory`, `ImportPlan`, `CorpusStore` | the canonical printer, the append-only import planner and its publisher |
| `Crps`, `Calibration`, `QbEvaluation` | forecast scores, empirical probabilities and bins, and the evaluation ledger |
| `OddsSnapshot`, `Consensus`, `HistoricalQuery` | normalization of an odds response, the consensus at a line, and queries of stored observations |
| `JaroWinkler`, `PlayerMatch` | name similarity and identity matching |
| `Ustar` | the evidence archive writer, with a reader of the format |
| `Sorting`, `Reals`, `Wrappers` | stable sorting and its uniqueness, small facts about reals, options and results |

Protocols are state machines over atomic steps; a property of a protocol is a lemma about every
finite sequence of actions from the initial state.  What updates fields or buffers in place is a
class or a method over arrays, proved against a specification function, and the lemmas are about
that function.

## Where code and comments part

* The comment on taking over a stale lock (`privateOutput.ts:252-258`) says that what is removed is
  what was judged.  Reading the record and probing its owner are two steps, and the second
  judgement does not compare tokens.  `FileLockRuns.ProbeAfterReleaseBreaks` and
  `FileLockRuns.TwoOrphansBreak` are runs in which two processes work at once, and
  `DecisionLog.DecisionCanBeLost` is one that loses a decision.  When a claimant finds gone the
  owner of the record it read last, its rename is *safe* if the record in place is that of a dead
  process, and either the claim is named for that record or the claim that is has a dead claimant
  and no other call is about to rename; otherwise the judgement is *harmful*.
  `FileLock.JudgementBreaksExactly` shows that this is exactly when the judgement, with no other
  harmful one after it, lets two processes meet.  `FileLock.CarefulIsHarmless` gives conditions
  that suffice and that a reader can check: no owner exits between a read and a probe of its
  record, and either tokens agree or at most one process died with its record in place.
* The refresh client only checks that its timeout is shorter than the lease.  The reply of the
  acquiring statement takes time too: `RefreshLease.SingleFlight` needs delay plus timeout below
  the lease, and `RefreshLease.OverlapAtTheBound` shows that nothing less will do.
* The collector's credit cap limits each claimed row, not their sum.
  `Checkpoints.QuotaKeptExactly` says for which limits a claim can never overspend: the claim
  limit times the dearest row it may take must be within what remains.
* The text of a kept provider timestamp depends on the order of the response, though its instant
  does not: `OddsSnapshot.UpdateTextDependsOnOrder`, and exactly when in
  `OddsSnapshot.SnapshotForgetsOrderExactly`.

## Model

| member | source | states |
|---|---|---|
| `FileLock.Reachable` | services/pipeline/scripts/creator-corpus/privateOutput.ts:199-321 | Every state of every interleaving of single file operations, starts and deaths keeps the invariant over lock record, claim records, tokens and program counters, as long as no harmful judgement was made |
| `FileLock.MutualExclusion` | services/pipeline/scripts/creator-corpus/privateOutput.ts:298-321 | In such a run at most one live call is inside the work, and the lock record in place is its own |
| `FileLock.LiveLockUntouched` | services/pipeline/scripts/creator-corpus/privateOutput.ts:218-223 | No process but the owner removes, renames or replaces the lock record of a live process |
| `FileLock.LiveClaimUntouched` | services/pipeline/scripts/creator-corpus/privateOutput.ts:252-258 | No process but the claimant removes or replaces the claim record of a live process |
| `FileLock.ClaimExclusive` | services/pipeline/scripts/creator-corpus/privateOutput.ts:194-216 | Two live calls never hold the claim for one record |
| `FileLock.MatchedIsSafe` | services/pipeline/scripts/creator-corpus/privateOutput.ts:255-257 | If the record judged under the claim names the claim and was left behind by a death, the rename removes exactly that record |
| `FileLock.OrphansReachable` | services/pipeline/scripts/creator-corpus/privateOutput.ts:252-291 | What deaths with a record in place leave behind is never put back, in every run |
| `FileLock.CarefulIsHarmless` | services/pipeline/scripts/creator-corpus/privateOutput.ts:252-291 | A run is harmless if every process found gone had left its record behind and either the judged record names the claim or at most one process died with its record in place |
| `FileLock.JudgementBreaksExactly` | services/pipeline/scripts/creator-corpus/privateOutput.ts:266-291 | Whenever a call judges in a run without harm so far, its judgement by itself, with no other harmful one after it, lets two live processes meet inside the work exactly if its rename is not safe |
| `FileLock.HarmfulJudgementBreaks` | services/pipeline/scripts/creator-corpus/privateOutput.ts:266-291 | The continuation that shows it, from the state right after the judgement, with no other harmful judgement in it |
| `FileLock.HarmlessRunIsSafe` | services/pipeline/scripts/creator-corpus/privateOutput.ts:298-321 | From no state of a run without harm can two processes meet without harm |
| `FileLock.FirstHarm` | services/pipeline/scripts/creator-corpus/privateOutput.ts:266-291 | A harmful run has a first judgement that is harmful |
| `FileLock.BreaksExactlyWhenHarmful` | services/pipeline/scripts/creator-corpus/privateOutput.ts:199-321 | A run judged harmfully exactly if from some point of it on two processes can meet inside the work without any further harmful judgement |
| `FileLock.StaleLockIsReaped` | services/pipeline/scripts/creator-corpus/privateOutput.ts:266-291 | A lock left behind by a dead process, whose claim is free, can always be taken over without harm by a new process, which frees it; TakerEnters and PollTakesOver take it on into the work |
| `FileLock.TakeoverFinishes` | services/pipeline/scripts/creator-corpus/privateOutput.ts:277-290 | A takeover in progress can be run to its end without harm, which frees the lock and disturbs nobody else |
| `FileLock.TakerEnters` | services/pipeline/scripts/creator-corpus/privateOutput.ts:266-314 | A call that is taking over a free claim's record runs to the work by its own steps alone, without harm, and gives its claim up on the way |
| `FileLock.PollTakesOver` | services/pipeline/scripts/creator-corpus/privateOutput.ts:303-314 | So does a polling call that finds a stale lock with a free claim |
| `FileLock.WaiterEnters` | services/pipeline/scripts/creator-corpus/privateOutput.ts:298-321 | From every state of a run without harm a polling call can be brought into the work without harm, whoever holds the lock, unless a dead claimant has left the claim for a dead holder's record behind |
| `FileLock.FailsClosed` | services/pipeline/scripts/creator-corpus/privateOutput.ts:282-290 | With such a claim left behind no call ever enters the work again, and the lock stays as it is |
| `FileLock.WaiterFails` | services/pipeline/scripts/creator-corpus/privateOutput.ts:282-290 | There a polling call runs to its error in eight steps of its own |
| `FileLockRuns.ProbeAfterReleaseBreaks` | services/pipeline/scripts/creator-corpus/privateOutput.ts:239-250 | A run without any death in place and without any mismatch that still puts two processes inside the work: the owner releases and exits between the read and the liveness probe |
| `FileLockRuns.TwoOrphansBreak` | services/pipeline/scripts/creator-corpus/privateOutput.ts:266-291 | A run with two deaths in place and no late probe in all of it that puts two processes inside the work: the lock is judged again without comparing tokens |
| `LockDirectory.Directory.ReapStaleLock` | services/pipeline/scripts/creator-corpus/privateOutput.ts:266-291 | Which of its three results an undisturbed takeover has and what it does to the lock; claims are as before |
| `LockDirectory.Directory.WithPrivateFileLock` | services/pipeline/scripts/creator-corpus/privateOutput.ts:298-321 | The exact outcome of the polling loop for a free, a live and a stale lock, when it gives up, and that the files are restored |
| `DecisionLog.LatestIsLatest` | services/pipeline/src/creator/creatorDecisions.ts:88-101 | The event kept for a video is the one with the latest instant, the last of equals |
| `DecisionLog.ActiveExactly` | services/pipeline/src/creator/creatorDecisions.ts:88-101 | A video has an active decision exactly if its latest event is not a clear |
| `DecisionLog.NewDecisionDecides` | services/pipeline/src/creator/creatorDecisions.ts:88-101 | A new event that is not earlier decides it for its own video, and for no other |
| `DecisionLog.RefusedClears` | services/pipeline/scripts/creator-corpus/decisionStore.ts:81-86 | Only a clear is ever refused: one whose video's latest event is a clear, or that has no event |
| `DecisionLog.ReplaceIsCurrent` | services/pipeline/scripts/creator-corpus/decisionStore.ts:79-91 | A replace extends the file as it is now, though computed from an earlier read, and a clear among them has something to clear |
| `DecisionLog.Reachable` | services/pipeline/scripts/creator-corpus/decisionStore.ts:52-104 | In every harmless run the file is what the successful replaces make of it one after the other, and no clear was logged without an active decision |
| `DecisionLog.FileIsTheLog` | services/pipeline/scripts/creator-corpus/decisionStore.ts:79-91 | Each creator's list is exactly its acknowledged decisions, each once, in order |
| `DecisionLog.HistoriesOnlyGrow` | services/pipeline/scripts/creator-corpus/decisionStore.ts:87-87 | Every creator's list only grows at its end |
| `DecisionLog.AcknowledgedIsKept` | services/pipeline/scripts/creator-corpus/decisionStore.ts:87-88 | A decision whose replace succeeded is in every later file |
| `DecisionLog.WorkCanFinish` | services/pipeline/scripts/creator-corpus/decisionStore.ts:76-91 | A call inside the work that has done nothing yet can read and replace: a clear with nothing to clear is refused and changes nothing, any other request is acknowledged and its creator's list grows by it |
| `DecisionLog.CarefulReachable` | services/pipeline/scripts/creator-corpus/decisionStore.ts:52-104 | A run in which every takeover is careful, as the lock requires, has all of that |
| `DecisionLog.TwoWorkersLoseADecision` | services/pipeline/scripts/creator-corpus/decisionStore.ts:76-78 | Two workers that both read before either replaces lose an acknowledged decision |
| `DecisionLog.LockRunLifted` | services/pipeline/scripts/creator-corpus/decisionStore.ts:76-91 | Every run of the lock is the lock's part of a run of the log, whatever its calls want appended |
| `DecisionLog.MeetingLosesADecision` | services/pipeline/scripts/creator-corpus/decisionStore.ts:76-91 | Every run of the lock that puts two processes inside the work is the lock's part of a run from the empty file in which an acknowledged decision is lost |
| `DecisionLog.DecisionCanBeLost` | services/pipeline/scripts/creator-corpus/decisionStore.ts:76-91 | Such a run exists with no death in place and no mismatch |
| `DecisionLog.LosesExactlyWhenHarmful` | services/pipeline/scripts/creator-corpus/decisionStore.ts:52-104 | A run of the lock judged harmfully exactly if from some point of it on, without further harm, an acknowledged decision can be lost |
| `DecisionLog.DecisionsFile.Apply` | services/pipeline/scripts/creator-corpus/decisionStore.ts:81-89 | Refuses a clear with nothing to clear; otherwise one creator's list grows by the event and the others stay |
| `RefreshLease.CacheRow.TryAcquireRefresh` | packages/db/src/livePropCache.ts:74-103 | Acquires exactly when the entry is not fresh and nobody holds an unexpired lease; the whole row afterwards |
| `RefreshLease.Reachable` | packages/db/src/livePropRefresh.ts:38-130 | The invariant of row and callers holds in every run, with two clocks, late replies, failed renewals and failed writes |
| `RefreshLease.LeaseRunsExactly` | packages/db/src/livePropCache.ts:80-103 | After a grant or a renewal another caller in need acquires exactly when the lease time has passed |
| `RefreshLease.LeaseKeepsOthersOut` | packages/db/src/livePropCache.ts:80-103 | Over every run shorter than its lease in which it does not write, release or lose the row, the caller keeps the row and nobody else acquires |
| `RefreshLease.LeaseEndsAtOnce` | packages/db/src/livePropCache.ts:119-145 | Right after the owner's release, or after its write once that is stale for the other, any caller in need acquires |
| `RefreshLease.FirstIsServed` | packages/db/src/livePropCache.ts:74-103 | A row that nobody ever acquired goes to the first caller in need |
| `RefreshLease.WriteIsRead` | packages/db/src/livePropRefresh.ts:58-73 | After a write the next read of another caller returns its payload, or goes on to acquire if it is too old for that caller |
| `RefreshLease.FetchIsReturned` | packages/db/src/livePropRefresh.ts:96-118 | A caller whose fetch succeeded returns what it fetched, whether or not its write still counts, and an owner's write ends its lease |
| `RefreshLease.LostLeaseAborts` | packages/db/src/livePropRefresh.ts:81-130 | A renewal that finds the lease lost aborts the fetch; an aborted call fails, no longer owns the row and leaves the stored entry alone |
| `RefreshLease.OnlyTheOwner` | packages/db/src/livePropCache.ts:105-145 | A renewal, write or release by anyone but the owner changes nothing |
| `RefreshLease.WritesAreSpaced` | packages/db/src/livePropCache.ts:80-135 | If no caller's clock runs ahead, two successive writes are at least the second caller's time to live apart |
| `RefreshLease.ReturnsAreFresh` | packages/db/src/livePropRefresh.ts:58-73 | Every returned payload was fetched by the call or written after its start less its time to live |
| `RefreshLease.EveryCallStarted` | packages/db/src/livePropRefresh.ts:38-56 | Every caller was started by an action of the run that passed the checks on its settings, and has the clock and bounds which that action gave it |
| `RefreshLease.DisplacedStays` | packages/db/src/livePropCache.ts:105-145 | A displaced owner never gets the row back |
| `RefreshLease.DisplacedIsHarmless` | packages/db/src/livePropCache.ts:105-145 | Its renewals, its write and its release change nothing |
| `RefreshLease.SingleFlight` | packages/db/src/livePropRefresh.ts:76-112 | If replies and timers are on time and reply delay plus timeout is below the lease, no two un-aborted fetches overlap, whatever becomes of renewals |
| `RefreshLease.OverlapAtTheBound` | packages/db/src/livePropRefresh.ts:48-56 | The bound is exact: once reply delay plus timeout reaches the lease two fetches can overlap, for every timeout and renewal interval below the lease, if no renewal arrives in time |
| `RefreshLease.AwaitRefresh` | packages/db/src/livePropRefresh.ts:64-74 | The wait loop ends within a bound fixed beforehand, in the first round that decides it, and says what decided it |
| `Checkpoints.CheckpointTable.ClaimDue` | apps/web/src/lib/oddsCollectionRepo.ts:131-193 | Exactly the lapsed rows are skipped and counted; of the eligible rows that no other transaction has locked, exactly the first `limit` in rank, time and id order are claimed; all others stay; claimed and skipped are disjoint and no lapsed row survives.  What a claim and a skip mean for later runs is ClaimHolds, ClaimSkips and LeaseKeepsRunsOut |
| `Checkpoints.LapsedOrEligible` | apps/web/src/lib/oddsCollectionRepo.ts:143-163 | No row is both skipped and claimable |
| `Checkpoints.ClaimHolds` | apps/web/src/lib/oddsCollectionRepo.ts:150-177 | A claimed row may be claimed again exactly from the end of its lease on, while it is due and attempts are left |
| `Checkpoints.ClaimsFirst` | apps/web/src/lib/oddsCollectionRepo.ts:155-167 | What is claimed has a lower rank, or was due no later, or has the smaller id, than every eligible row left over; a row is left over only when the limit is reached |
| `Checkpoints.ClaimSkips` | apps/web/src/lib/oddsCollectionRepo.ts:131-149 | A claim skips exactly the rows past their window or their attempts whose turn has come and whose lease, if any, is over |
| `Checkpoints.LeaseKeepsRunsOut` | apps/web/src/lib/oddsCollectionRepo.ts:150-177 | In every run of collectors, between one claim of a row and the next either the first run reports on the row or its whole lease passes |
| `Checkpoints.LeasesInOrder` | apps/web/src/lib/oddsCollectionRepo.ts:150-177 | With clocks that do not run back the same holds between any two claims of the row |
| `Checkpoints.ReportDecides` | apps/web/src/lib/oddsCollectionRepo.ts:565-684 | What each report of the owner leaves: completed, skipped, or failed and claimable again from its retry time on |
| `Checkpoints.PlansRespectClaims` | apps/web/src/lib/oddsCollectionRepo.ts:118-127 | Plans and supersedes leave claimed, completed and skipped rows alone |
| `Checkpoints.PlanDecides` | apps/web/src/lib/oddsCollectionRepo.ts:118-127 | A planned row may be claimed exactly when the plan makes it due, attempts are left and a failed row's retry time has come |
| `Checkpoints.FetchOrSkip` | apps/web/src/lib/oddsCollector.ts:337-352 | A run fetches its next row exactly if that is still before window end and kickoff, and reports it too late otherwise |
| `Checkpoints.RankAllowed` | apps/web/src/lib/oddsCollectionPolicy.ts:81-109 | Which ranks a remaining quota lets through: none without credits, above 20 only beyond the reserve, above 30 only beyond reserve and one full set, never above 40 |
| `Checkpoints.ScarceQuotaIsKept` | apps/web/src/lib/oddsCollectionPolicy.ts:81-109 | When quota is known and scarce the markets claimed cost at most what remains, and nothing is claimed when nothing remains |
| `Checkpoints.QuotaKeptExactly` | apps/web/src/lib/oddsCollector.ts:311-330 | For every known quota, reserve and claim limit: over all reachable tables whose rows ask for at most `most` markets a claim never costs more than remains exactly if the limit applied times the smaller of `most` and the remainder is at most the remainder |
| `Checkpoints.PlentifulQuota` | apps/web/src/lib/oddsCollector.ts:318-330 | Above the threshold claims of at most a full set of markets a row stay within the quota exactly if the claim limit times a full set does; without a bound on rows, exactly if the limit is at most one |
| `Checkpoints.DearestClaim` | apps/web/src/lib/oddsCollector.ts:323-330 | The reachable table that attains that cost: as many equally dear rows as one claim may take |
| `Checkpoints.ClaimCost` | apps/web/src/lib/oddsCollector.ts:323-330 | No claim costs more than its limit times the dearest row it may take |
| `Checkpoints.Reachable` | apps/web/src/lib/oddsCollectionRepo.ts:131-193 | The invariant of table, runs and fetches holds in every run of collectors that may crash at any point |
| `Checkpoints.FetchesAreBounded` | apps/web/src/lib/oddsCollectionRepo.ts:155-177 | Fetches for a row never exceed its attempts, nor these its largest attempt limit, over any crashes and expired leases |
| `Checkpoints.FixedLimit` | apps/web/src/lib/oddsCollectionRepo.ts:118-127 | With a fixed limit, that limit is the bound |
| `Checkpoints.FetchesAreTimely` | apps/web/src/lib/oddsCollector.ts:337-369 | Every fetch ever made was made by a run that had claimed the row, and started before the end of the window and the kickoff that the row had when claimed |
| `Checkpoints.OwnedRowKeepsItsWindow` | apps/web/src/lib/oddsCollectionRepo.ts:118-127 | While a run owns a row, no new plan changes the window and kickoff the run goes by |
| `Checkpoints.TerminalIsFinal` | apps/web/src/lib/oddsCollectionRepo.ts:118-149 | Completed and skipped rows never change again |
| `Collector.RunClaims` | apps/web/src/lib/oddsCollector.ts:334-452 | The run returns exactly if no update outside the guarded part throws; then claimed = completed + failed + skipped + leaseLost, each counter counts exactly the rows whose replies and clocks call for it, and exactly one cost is recorded for each fetch |
| `Collector.CountsAre` | apps/web/src/lib/oddsCollector.ts:334-452 | The counters are how many rows were fetched, completed, failed, skipped and lost |
| `Collector.TurnsAreTimely` | apps/web/src/lib/oddsCollector.ts:337-352 | A row is fetched exactly if it could be claimed right then and fetched before kickoff, and retried exactly if it could at its retry time |
| `PriorityPlan.DueTimes` | apps/web/src/lib/oddsCollectionPolicy.ts:226-243 | The loop ends; its times start at activation, increase by the interval in force, include kickoff minus six hours, and number what the step function says |
| `PriorityPlan.PlanPriorityCheckpoints` | apps/web/src/lib/oddsCollectionPolicy.ts:200-251 | Succeeds for valid inputs exactly when the closed-form count is at most 2000; the windows then tile [activation, kickoff) |
| `PriorityPlan.StopsInClosedForm` | apps/web/src/lib/oddsCollectionPolicy.ts:226-239 | The number of steps is ceil(max(0, A-a)/far) + ceil((k - max(a, A))/active) |
| `PriorityPlan.ExactlyOneWindow` | apps/web/src/lib/oddsCollectionPolicy.ts:244-250 | Every instant from activation to kickoff lies in exactly one window |
| `CanonicalJson.CanonicalPrintsNorm` | services/pipeline/scripts/creator-corpus/importPlanner.ts:27-36 | The printer prints the key-sorted normal form |
| `CanonicalJson.PrintInjective` | services/pipeline/scripts/creator-corpus/importPlanner.ts:27-36 | Printing loses nothing: equal texts, whatever follows them, come from equal values |
| `CanonicalJson.StringReadsBack` | services/pipeline/scripts/creator-corpus/importPlanner.ts:31-33 | A reader of JSON strings, by section 7 of RFC 8259, gets back what was escaped and what follows |
| `CanonicalJson.StandsForItself` | services/pipeline/scripts/creator-corpus/importPlanner.ts:31-33 | A unit is written as it is exactly if it is no control, quote, backslash or lone surrogate |
| `CanonicalJson.EscapeInjective` | services/pipeline/scripts/creator-corpus/importPlanner.ts:31-33 | String escapes read back |
| `CanonicalJson.SameDecidesEquality` | services/pipeline/scripts/creator-corpus/importPlanner.ts:296 | `same` holds exactly for values that are equal up to the order of object keys |
| `CanonicalJson.SameTextsAreEqual` | services/pipeline/scripts/creator-corpus/importPlanner.ts:296 | Equal texts come from equal values even for objects that repeat a key |
| `ImportHistory.CaptureProjections` | services/pipeline/scripts/creator-corpus/importPlanner.ts:171-193 | Every creator's events are numbered 1, 2, ... in log order, with their fingerprints |
| `ImportHistory.DecisionsAreNumbered` | services/pipeline/scripts/creator-corpus/importPlanner.ts:195-207 | The same for the decisions file, whatever order it lists creators in |
| `ImportHistory.DecisionsOf` | services/pipeline/scripts/creator-corpus/importPlanner.ts:195-207 | A creator's rows are exactly its decisions in file order |
| `ImportHistory.DecisionsInOrder` | services/pipeline/scripts/creator-corpus/importPlanner.ts:195-207 | Decisions are listed by creator, and each creator's by position |
| `ImportHistory.FirstChange` | services/pipeline/scripts/creator-corpus/importPlanner.ts:286 | The first position at which fingerprints differ, or none |
| `ImportHistory.HistoryTail` | services/pipeline/scripts/creator-corpus/importPlanner.ts:265-294 | The loop over creators appends and refuses what the per-creator verdicts say, in creator order |
| `ImportHistory.NothingRefused` | services/pipeline/scripts/creator-corpus/importPlanner.ts:265-294 | Nothing is refused exactly when each creator's stored history is contiguous and a fingerprint-equal prefix of the incoming one |
| `ImportHistory.StoredPlusAppended` | services/pipeline/scripts/creator-corpus/importPlanner.ts:291 | Then stored history plus appended tail is the incoming history |
| `ImportHistory.HistoryAfterAppend` | services/pipeline/scripts/creator-corpus/importPlanner.ts:276-277 | Stored in any row order, the result is the incoming history |
| `ImportHistory.RefusalsSay` | services/pipeline/scripts/creator-corpus/importPlanner.ts:270-290 | A refusal for creator and position stands in the answer exactly if that creator's stored history is not contiguous, is longer, or first differs there |
| `ImportPlan.CreatorProjections` | services/pipeline/scripts/creator-corpus/importPlanner.ts:229-261 | One creator's rows exist exactly when manifest and videos match, every video is valid and none was seen before; otherwise the error is that of the first check to fail |
| `ImportPlan.ApiProjections` | services/pipeline/scripts/creator-corpus/importPlanner.ts:226-263 | All rows, sorted, exactly when every creator projects and no video stands under two creators; otherwise the error of the first creator that does not |
| `ImportPlan.ValidExactly` | services/pipeline/scripts/creator-corpus/importPlanner.ts:237-246 | A video is valid exactly if it was fetched some time after it was published and lasts a whole number of seconds, if known |
| `ImportPlan.RowsTellVideos` | services/pipeline/scripts/creator-corpus/importPlanner.ts:247-261 | A projected row determines the video it was made of |
| `ImportPlan.VideosInOrder` | services/pipeline/scripts/creator-corpus/importPlanner.ts:263-263 | Projected videos go by creator and id |
| `ImportPlan.Load` | services/pipeline/scripts/creator-corpus/importPlanner.ts:343-346 | Projected inputs are numbered, sorted and free of repetitions |
| `ImportPlan.PlanImport` | services/pipeline/scripts/creator-corpus/importPlanner.ts:321-434 | The plan the specification gives: refusals in order, no-op, or append; what it means for the tables is AppendExactly, RefusedExactly, ImportCountsTables and OutcomeCounts |
| `CorpusStore.Tables.PublishAppend` | services/pipeline/scripts/creator-corpus/importPublisher.ts:92-132 | The tables afterwards, row by row, under the new import id |
| `CorpusStore.Tables.ReplaceSnapshots` | services/pipeline/scripts/creator-corpus/importPublisher.ts:126-130 | Each replaced creator's videos are deleted and inserted, the others stay |
| `CorpusStore.Tables.PublishCorpusImport` | services/pipeline/scripts/creator-corpus/importPublisher.ts:140-188 | Only an append changes the tables; the outcome reports the plan |
| `CorpusStore.ReplacedOf` | services/pipeline/scripts/creator-corpus/importPublisher.ts:126-130 | After all snapshots each creator shows its snapshot's rows or its own |
| `CorpusStore.NoOpExactlyInPlace` | services/pipeline/scripts/creator-corpus/importPlanner.ts:402-424 | The plan is a no-op naming an import exactly when every projection is in place and that import is on record once, with its counts |
| `CorpusStore.ReplanIsNoOp` | services/pipeline/scripts/creator-corpus/importPlanner.ts:321-434 | Planning the same inputs against the published store, in any row order, is a no-op naming the new import |
| `CorpusStore.AppendExactly` | services/pipeline/scripts/creator-corpus/importPlanner.ts:378-434 | On a store with unique keys the plan is an append exactly if the key is new, both histories fit, the gate of that digest has the same terms, and no stored video belongs to an unlisted creator |
| `CorpusStore.RefusedExactly` | services/pipeline/scripts/creator-corpus/importPlanner.ts:378-424 | When each refusal that is not about a history is given |
| `CorpusStore.ImportCountsTables` | services/pipeline/scripts/creator-corpus/importPlanner.ts:363-376 | After an append the tables hold the source's captures and decisions and show its videos, and the new import row's counts are the sizes of those tables |
| `CorpusStore.OutcomeCounts` | services/pipeline/scripts/creator-corpus/importPublisher.ts:140-188 | The reported numbers are the rows by which the tables grew and the creators whose videos changed |
| `CorpusStore.CountsAgree` | services/pipeline/scripts/creator-corpus/importPlanner.ts:296-296 | Stored counts agree with the source's exactly if all three are equal |
| `CorpusStore.GatesAgree` | services/pipeline/scripts/creator-corpus/importPlanner.ts:296-296 | Gates agree exactly if digest and terms do |
| `CorpusStore.ImportKeeps` | packages/db/migrations/0004_creator_corpus_projection.sql:12-136 | An import keeps every table's keys unique and every history in one piece, and histories, gates and imports only grow |
| `CorpusStore.HistoryKey` | packages/db/migrations/0004_creator_corpus_projection.sql:59 | Contiguous histories use no (creator, position) key twice |
| `CorpusStore.RunKeeps` | services/pipeline/scripts/creator-corpus/importPublisher.ts:140-188 | All of that holds after every sequence of imports |
| `CorpusStore.HistoriesOnlyGrow` | services/pipeline/scripts/creator-corpus/importPublisher.ts:115-125 | Over every sequence of imports each creator's published history only grows |
| `CorpusStore.StoredHistoryIsValid` | services/pipeline/scripts/creator-corpus/importPlanner.ts:278-281 | No sequence of imports leads to a refusal for an invalid stored history or a doubled import |
| `Crps.RpsIsTheScore` | packages/domain/src/projection/qb-evaluation.ts:42-48 | The pairwise formula equals the sum over the integers of the squared gap between empirical distribution and observation step |
| `Crps.NoGapOutside` | packages/domain/src/projection/qb-evaluation.ts:42-48 | Outside a covering range every gap is nought, so the sum is over all integers |
| `Crps.RpsIsProper` | packages/domain/src/projection/qb-evaluation.ts:42-48 | The score is non-negative, and nought exactly when every value is the observation |
| `Crps.ScoredExactly` | packages/domain/src/projection/qb-evaluation.ts:44-44 | There is a score exactly for a non-empty sample that, like the observation, stays below 2^53 in size |
| `Crps.GapInDistances` | packages/domain/src/projection/qb-evaluation.ts:45-46 | Integer by integer: squared count gap in terms of the two distances |
| `Calibration.EmpiricalCalibrationBins` | packages/domain/src/projection/evaluation.ts:8-13 | One pass counts each side; the bins follow from the counts |
| `Calibration.SideCounts` | packages/domain/src/projection/evaluation.ts:8-13 | What is counted on a side is how many values lie above, below or at the line |
| `Calibration.BinHolds` | packages/domain/src/projection/evaluation.ts:11 | A share lies within its bin's bounds and meets the upper one only as the whole |
| `Calibration.EqualMassSupport` | packages/domain/src/projection/empirical.ts:8-13 | Each value once, ascending, with its share of the sample |
| `Calibration.ProbabilityAt` | packages/domain/src/projection/empirical.ts:21-35 | The triple the masses give, or why there is none |
| `Calibration.MassesAreShares` | packages/domain/src/projection/empirical.ts:25-29 | The mass on a side is the share of the sample there |
| `Calibration.AnswersAreShares` | packages/domain/src/projection/empirical.ts:21-35 | There is an answer exactly if no side's share of the mass is negative, and it is these shares |
| `Calibration.ProbabilitiesAreShares` | packages/domain/src/projection/empirical.ts:8-35 | Support and probability together give exact count shares, which are valid probabilities |
| `QbEvaluation.BuildLedger` | packages/domain/src/projection/qb-evaluation.ts:92-101 | The ledger exists exactly for valid rows without a duplicate fold, and holds each row under its fold; otherwise the error is that of the first check to fail |
| `QbEvaluation.QualifyExample` | packages/domain/src/projection/qb-evaluation.ts:68-87 | Accepted exactly when identity, season, label, sample, distinct earlier games, yards and evidence mode are in order, with the history sorted; otherwise the error is that of the first check to fail |
| `QbEvaluation.MatchExamples` | packages/domain/src/projection/qb-evaluation.ts:102-115 | Folds exist exactly when ledger and examples match one to one; they are the examples in order; otherwise the error is that of the first check to fail |
| `QbEvaluation.OneToOne` | packages/domain/src/projection/qb-evaluation.ts:102-115 | Accepted examples and eligible rows go together by player and game with the same season and sample, and none stands twice |
| `QbEvaluation.GroupBalances` | packages/domain/src/projection/qb-evaluation.ts:50-64 | In every group candidates equal scored folds plus the exclusions by reason |
| `QbEvaluation.ReportCounts` | packages/domain/src/projection/qb-evaluation.ts:50-57 | A group's candidates, exclusions by reason and folds are how many rows and folds satisfy its season and stratum bounds and the reason's conditions |
| `QbEvaluation.HistoryInOrder` | packages/domain/src/projection/qb-evaluation.ts:76-82 | A fold's history runs from its latest game to its earliest |
| `QbEvaluation.FoldsInOrder` | packages/domain/src/projection/qb-evaluation.ts:111-111 | Folds go by cutoff, game and player |
| `QbEvaluation.StrataAddUp` | packages/domain/src/projection/qb-evaluation.ts:143-146 | The strata add up to the group without strata |
| `QbEvaluation.SeasonsAddUp` | packages/domain/src/projection/qb-evaluation.ts:143-146 | The seasons add up to the overall group |
| `QbEvaluation.EveryFoldIsScored` | packages/domain/src/projection/qb-evaluation.ts:117-126 | Every fold's score is defined |
| `QbEvaluation.EachCaseInOneBin` | packages/domain/src/projection/qb-evaluation.ts:158-163 | Each scored case of a group falls in exactly one bin of a side |
| `QbEvaluation.BinCounts` | packages/domain/src/projection/qb-evaluation.ts:158-163 | A bin reports as many cases as the group has in it |
| `QbEvaluation.MeansJoin` | packages/domain/src/projection/qb-evaluation.ts:161-162 | The mean of two groups put together is their weighted mean |
| `QbEvaluation.MeanWithinBin` | packages/domain/src/projection/qb-evaluation.ts:161-162 | The mean probability of a non-empty bin lies within its bounds |
| `OddsSnapshot.AddMarket` | apps/web/src/lib/oddsSnapshot.ts:86-108 | What one market adds to the maps of outcomes and updates |
| `OddsSnapshot.PairUp` | apps/web/src/lib/oddsSnapshot.ts:138-156 | Offers sorted into lines with both sides' prices |
| `OddsSnapshot.BookQuotes` | apps/web/src/lib/oddsSnapshot.ts:158-180 | A bookmaker's quotes: the lines with exactly one price on either side |
| `OddsSnapshot.NormalizeMarketSnapshot` | apps/web/src/lib/oddsSnapshot.ts:74-201 | Status, strictly sorted quotes, hashed content and observations are those of the entries |
| `OddsSnapshot.SnapshotIsCanonical` | apps/web/src/lib/oddsSnapshot.ts:31-36 | Status, quotes and content depend only on what is offered |
| `OddsSnapshot.RewritingChangesNothing` | apps/web/src/lib/oddsSnapshot.ts:74-201 | A response said differently has the same snapshot, up to how update instants are spelled |
| `OddsSnapshot.RewritingABook` | apps/web/src/lib/oddsSnapshot.ts:83-86 | Saying one bookmaker differently says the same |
| `OddsSnapshot.PermutingBookmakers` | apps/web/src/lib/oddsSnapshot.ts:83 | Permuting bookmakers says the same |
| `OddsSnapshot.PermutingMarkets` | apps/web/src/lib/oddsSnapshot.ts:86 | Permuting markets says the same |
| `OddsSnapshot.RewritingOutcomes` | apps/web/src/lib/oddsSnapshot.ts:92-95 | Permuting or repeating outcomes says the same |
| `OddsSnapshot.QuotesArePaired` | apps/web/src/lib/oddsSnapshot.ts:158-180 | Quotes come in exactly one over and one under for each bookmaker, player and point |
| `OddsSnapshot.QuotesExactly` | apps/web/src/lib/oddsSnapshot.ts:110-180 | A quote is kept exactly if its bookmaker offers that line on that side at this price only and at one price only on the other side |
| `OddsSnapshot.StatusExactly` | apps/web/src/lib/oddsSnapshot.ts:182-201 | Which status a response gets, and that there is content exactly if there are quotes |
| `OddsSnapshot.QuotesInOrder` | apps/web/src/lib/oddsSnapshot.ts:158-180 | Quotes go by bookmaker, player, point and side |
| `OddsSnapshot.ObservedExactly` | apps/web/src/lib/oddsSnapshot.ts:86-108 | One observation for each bookmaker that lists the market, in order, with its latest update |
| `OddsSnapshot.LatestIsLatest` | apps/web/src/lib/oddsSnapshot.ts:98-107 | The kept update is the latest reported instant |
| `OddsSnapshot.UpdateTextExactly` | apps/web/src/lib/oddsSnapshot.ts:98-107 | For every list of entries: the kept update text is the same in every order exactly if all the bookmaker's reports of its latest instant spell it alike |
| `OddsSnapshot.SnapshotForgetsOrderExactly` | apps/web/src/lib/oddsSnapshot.ts:74-201 | The snapshot of a response is to the letter that of every rearrangement of it exactly if every bookmaker spells its latest update alike |
| `OddsSnapshot.UpdateTextDependsOnOrder` | apps/web/src/lib/oddsSnapshot.ts:98-107 | Two orders of one response whose snapshots differ in how they spell one instant, `Z` and `+00:00` |
| `Consensus.DevigIsAProbability` | packages/domain/src/devig.ts:8-16 | Removing the margin leaves two positive probabilities that make a whole; swapping prices swaps them |
| `Consensus.MarginRemoved` | packages/domain/src/devig.ts:9-14 | Each probability times its own price is the same on both sides, so both bets are equally fair |
| `Consensus.FairIsUnique` | packages/domain/src/devig.ts:9-14 | No other pair of probabilities that make a whole has that |
| `Consensus.CheaperIsLikelier` | packages/domain/src/devig.ts:9-14 | The side with the lower price is the likelier one |
| `Consensus.ProbabilitiesAreFair` | packages/domain/src/consensusDevig.ts:43-50 | What enters the median is the fair probability of each book at the line with prices above one, in order, and of no other |
| `Consensus.ConsensusIsTheMedian` | packages/domain/src/consensusDevig.ts:22-61 | There is a consensus exactly if some book contributes; it is the middle of the probabilities, or halfway between the two in the middle |
| `Consensus.FavouriteIsFavoured` | packages/domain/src/consensusDevig.ts:22-61 | If every contributing book favours over, so does the consensus |
| `Consensus.ConsensusIsAProbability` | packages/domain/src/consensusDevig.ts:51-61 | The consensus is strictly between 0 and 1 |
| `Consensus.ConsensusForgetsOrder` | packages/domain/src/consensusDevig.ts:40-53 | The order of the books does not matter |
| `Consensus.SwappingComplements` | packages/domain/src/consensusDevig.ts:22-61 | Swapping every over and under price maps p to 1 - p |
| `Consensus.ConsensusIsRobust` | packages/domain/src/consensusDevig.ts:22-61 | Changing at most floor((n-1)/2) contributing books to other valid prices leaves the consensus within the range of the unchanged ones |
| `Consensus.BoundIsTight` | packages/domain/src/consensusDevig.ts:22-29 | One book more can carry it off |
| `HistoricalQuery.GroupByBook` | apps/web/src/lib/historicalOddsQuery.ts:134-152 | The map loop: each book once, in order, with the last price of each side |
| `HistoricalQuery.ConsensusFromHistoricalObservation` | apps/web/src/lib/historicalOddsQuery.ts:90-162 | Throws exactly for invalid inputs and times; otherwise the specified answer |
| `HistoricalQuery.AvailableExactlyWhenQuoted` | apps/web/src/lib/historicalOddsQuery.ts:110-161 | On a normalized market: available exactly when some book quotes both sides; the direct consensus over those books, as many as there are; never for want of two-way quotes |
| `HistoricalQuery.ReasonsExactly` | apps/web/src/lib/historicalOddsQuery.ts:53-162 | When each reason for no answer is given, and age, lead and stage of every answer |
| `HistoricalQuery.UsableExactly` | apps/web/src/lib/historicalOddsQuery.ts:63-76 | An observation may be used exactly if it has an age at the cutoff and a positive lead before the event |
| `HistoricalQuery.TrustedIdIsTheName` | apps/web/src/lib/historicalOddsQuery.ts:110-132 | Asking by a trusted id is asking by the name that all its rows carry |
| `HistoricalQuery.DirectLinesAgree` | apps/web/src/lib/historicalOddsQuery.ts:147-152 | The list of such books is unique up to order |
| `JaroWinkler.MarkMatches` | apps/web/src/lib/playerIdentityMatcher.ts:43-58 | The in-place loops mark what the greedy specification marks |
| `JaroWinkler.SameCharactersMarked` | apps/web/src/lib/playerIdentityMatcher.ts:61-62 | Both sides mark the same characters, equally many |
| `JaroWinkler.MarkedIsGreedy` | apps/web/src/lib/playerIdentityMatcher.ts:43-58 | Each character takes the first free equal one within the window, or none if there is none |
| `JaroWinkler.SimilarityInside` | apps/web/src/lib/playerIdentityMatcher.ts:39-79 | The similarity lies in [0,1] and is 1 exactly for equal strings |
| `JaroWinkler.SimilarityIs` | apps/web/src/lib/playerIdentityMatcher.ts:60-79 | Unless the strings are equal: the mean of the three shares of matches, with the gap to one shrunk by a tenth for each character of common prefix |
| `JaroWinkler.PrefixIsCommon` | apps/web/src/lib/playerIdentityMatcher.ts:72-77 | The prefix counted is the longest common one, up to four |
| `JaroWinkler.JaroWinklerScore` | apps/web/src/lib/playerIdentityMatcher.ts:39-79 | The method computes that similarity |
| `PlayerMatch.WithoutSuffixes` | apps/web/src/lib/playerIdentityMatcher.ts:31-34 | Only suffixes are dropped, the first token stays, and no suffix is left at the end |
| `PlayerMatch.NameTokens` | apps/web/src/lib/playerIdentityMatcher.ts:31-34 | The popping loop drops exactly those |
| `PlayerMatch.InitialsExactly` | apps/web/src/lib/playerIdentityMatcher.ts:81-90 | An initial and a last name stand for an alias exactly if it begins with that initial and ends with that name |
| `PlayerMatch.AliasScoreInside` | apps/web/src/lib/playerIdentityMatcher.ts:92-110 | An alias scores within [0,1], and 1 exactly when it is the odds name up to suffixes and spacing |
| `PlayerMatch.AliasScoreIs` | apps/web/src/lib/playerIdentityMatcher.ts:92-110 | 0.96 for an initial and last name that are not the whole alias, else the similarity of the joined names |
| `PlayerMatch.ConfidenceIsBest` | apps/web/src/lib/playerIdentityMatcher.ts:131-139 | A candidate's confidence is the best score of its aliases |
| `PlayerMatch.MatchPlayerIdentity` | apps/web/src/lib/playerIdentityMatcher.ts:112-151 | Fails closed without roster positions; otherwise the clear best of the compatible candidates |
| `PlayerMatch.MatchIsClear` | apps/web/src/lib/playerIdentityMatcher.ts:144-150 | A match is exactly a candidate of at least 0.94 that beats every other compatible one by at least 0.04 |
| `PlayerMatch.MatchExactly` | apps/web/src/lib/playerIdentityMatcher.ts:112-151 | The answer is a candidate's exactly if it is compatible, scores at least 0.94 and at least 0.04 more than every other compatible one |
| `PlayerMatch.MatchForgetsOrder` | apps/web/src/lib/playerIdentityMatcher.ts:112-151 | The answer is the same for every ordering of the candidates |
| `Ustar.WriteAt` | services/pipeline/scripts/feature-store/evidence-bundle.ts:14-23 | A write into the header buffer changes exactly its field |
| `Ustar.BuildHeader` | services/pipeline/scripts/feature-store/evidence-bundle.ts:13-23 | The header buffer after all writes, its checksum last |
| `Ustar.HeaderIs` | services/pipeline/scripts/feature-store/evidence-bundle.ts:13-23 | Byte for byte: name, mode 0000644, zero owner, group and time, size and checksum in octal, type flag, magic and version, and nothing else |
| `Ustar.SizeFitsExactly` | services/pipeline/scripts/feature-store/evidence-bundle.ts:15-16 | Sizes below eight gibibytes fit and no others |
| `Ustar.SafeExactly` | services/pipeline/scripts/feature-store/evidence-bundle.ts:11-12 | Which joined parts are a safe member: the alphabet, the first character, the length, and no part empty or only dots |
| `Ustar.PartsJoin` | services/pipeline/scripts/feature-store/evidence-bundle.ts:12-12 | The parts hold no slash and joined by slashes are the member |
| `Ustar.DeterministicBundle` | services/pipeline/scripts/feature-store/evidence-bundle.ts:7-26 | Succeeds exactly for records with distinct safe members and sizes that fit, with the archive of the sorted records; otherwise the error is that of the first check to fail |
| `Ustar.HeaderReadsBack` | services/pipeline/scripts/feature-store/evidence-bundle.ts:13-23 | A reader accepts every header written, its checksum included, and reads name and size back |
| `Ustar.ArchiveReadsBack` | services/pipeline/scripts/feature-store/evidence-bundle.ts:7-26 | A reader of the format returns exactly the records, strictly ascending by member name |
| `Ustar.EntryLayout` | services/pipeline/scripts/feature-store/evidence-bundle.ts:22-26 | Header, bytes and zeros up to the next block; an archive closes with 1024 zeros |
| `Ustar.ArchiveFillsBlocks` | services/pipeline/scripts/feature-store/evidence-bundle.ts:24-26 | The length is divisible by 512 |
| `Ustar.BundleForgetsOrder` | services/pipeline/scripts/feature-store/evidence-bundle.ts:10 | Permuting the records leaves the bytes unchanged |

The methods of `LockDirectory.Directory`, `RefreshLease.CacheRow` and `Checkpoints.CheckpointTable`
that perform a single file operation or statement are proved against the row functions that the
state machines use, and have no row of their own.

## Left out

- HTTP, server-sent events, database drivers, SQL parsing and isolation: each statement is one atomic guarded step, and stored values read back unchanged.
- Waiting for a lapsed row that another transaction has locked: the statement sees it as it was before.
- Hashes, UUIDs and gzip: a hash is its preimage, tokens and owner ids are fresh numbers, the archive is the bytes before compression.
- Reuse of process ids: a process that died stays dead.  Damaged ownership files, which are judged by age, and errors of the file system other than an existing or absent path.
- The in-process queue of the decision store and the checks before the lock is taken: dropping the queue only adds interleavings, so what is proved covers it.
- LockDirectory.Directory.WithPrivateFileLock: the polling loop as one undisturbed process sees it; interleavings are the subject of FileLock.
- Parsing of dates, time zones and calendars: instants are integers, and a text that does not parse is absent.
- Regular expressions, Unicode normalization and locale collation: names come as tokens, keys compare by code units, and a trimmed description is given as such.
- Floating point: probabilities, prices and scores are reals; numbers in JSON are integers; lines and cut-offs are finite or absent.
- JSON values that `JSON.stringify` drops or refuses: the printer's error for them is not part of the model.
- The checks of an import that compare inputs with each other and never read the store, and the rebuilding of the discovery manifest: they decide alike in both plans, so planning starts from what they let through.
- Columns of event, gate and video rows that no decision looks at: one JSON value stands for them.
- Log loss, Brier scores, walk-forward reuse counters and the remaining summary fields of the evaluation: sums over the same groups with no further law.
- Baseline and free-pilot planning, environment parsing, account deletion, readiness gates, expected-value formulas, React components and stores: one-branch members or presentation.
