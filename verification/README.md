# Verified model of the v3 backend

This project models four parts of the v3 backend in Dafny and proves what they promise.

* **The durable stage queue.** Any number of runners claim the stages of a scan under two-minute
  leases, heartbeat them, finish them, recover what other runners lost, and finalise the scan.
  `StageQueue.dfy` gives every statement or transaction as a step on the database state;
  `StageQueueSafety.dfy` proves what every run keeps, `StageQueueProgress.dfy` bounds how often a stage
  is claimed and how often a scan moves, `StageQueueBounds.dfy` gives the runs that reach these bounds and
  `StageQueueWitness.dfy` runs that show gaps. `Finalisation.dfy` follows finalize_if_terminal step by step
  and says who is left to finalise a closed scan; `StageQueueFairness.dfy` shows what fair endless runs come
  to. `StageQueueSteps.dfy` says in plain columns what each step writes. `StageStore.dfy` is the imperative
  store whose methods are proved to be those steps, and `Reporting.dfy` connects coverage rows to what a report may
  conclude.
* **The exposure lifecycle and its outbox.** `Lifecycle.dfy` is the finding state machine with its
  append-only log; `Outbox.dfy` is the retrying delivery queue.
* **The authenticated crawler.** `Crawler.dfy` is the bounded breadth-first search over a fixed but
  unknown site; `ScopePaths.dfy` is the path normalisation and the scope test; `CrawlScope.dfy` puts them
  together.
* **The deterministic evaluator.** `Classification.dfy`, `Calibration.dfy`, `Grades.dfy`, `Agreement.dfy`
  and `Release.dfy` lead from labelled pairs and grades to the release decision, `Semantic.dfy` from judge
  output to grades and gates, and `Benchmark.dfy` scores findings against a labelled benchmark.

`Common.dfy` holds the shapes they share. Check everything with `dafny verify dfyconfig.toml`.

## Assumptions

* A transaction, and each statement outside one, is atomic; `claim_stage` may find any set of rows
  locked by others. The monitor scheduler and a manual start both test for an active scan inside their
  transaction, and these are taken one after the other.
* A stage and its coverage row are written together, and a stage is known by its scan and its position.
* A runner acts on a stage between its claim and its at most one `finish_stage`, and then calls
  `cancel_pending_stages` at most once (v3/backend/app/runner.py:675-713). A stage row carries two counters
  for this, `unreported` and `unswept`: they are bookkeeping about the runners, not columns, and
  only say when a heartbeat, a renewal, a finish or a cancellation sweep by a runner is possible.
* A process calls `finalize_if_terminal` once after each stage it closed, as the last thing it does for that stage
  (v3/backend/app/runner.py:215, v3/backend/app/runner.py:713). A scan
  row carries the counter `calls` of such calls that are due and the state `lock` of the advisory lock on its
  report; the lock falls free when its holder dies. A runner that starts up may call it for any finished scan.
* The clock never goes back. Time is in microseconds.
* `StageQueueFairness.dfy` assumes of the runners that claiming, recovery, the clock and, for its results on the
  scan itself, finalising go on; everything else holds of every run.
* The compiled plan, the scope verdict, the browser, the judge, the webhook endpoint and the report
  generator are arbitrary: they enter as parameters.
* One organisation is modelled; numbers are exact rationals as they are before rounding.

## What the proofs found

* `recover_expired_leases` runs two statements that read the clock separately
  (v3/backend/app/runner.py:177-226). A deadline that passes in between is missed by the first and the
  stage is re-queued by the second. `ClaimsAreBounded` and `PlanMovementsAreBounded` count these late
  re-queues, and `TwoClocksExceedTheBound` and `MovesReachTheBudget` show that no smaller bound holds for any
  plan and any number of them.
* `finish_stage` tests no status. Safety survives it, but a runner that lost its lease can take the coverage
  of a complete scan away (`StaleReportSpoilsCompleteScan`), unless every runner of its required stages has
  reported (`CoverageIsSafeExactlyWhenAllReported`).
* A closed scan can stay active for ever and block its assessment, because recovery finalises only scans in which it
  closed a stage itself. This takes a finaliser that dies (`DeadFinaliserOrphans`), or just two that meet: one
  has read the rows too early, the other is refused (`RefusedFinaliserOrphans`). `OrphanedExactlyBy` gives the
  exact condition.
* The status is written from rows read before. A report in between makes it outdated (`OutcomeIsOutdated`), and
  a cancellation in between is overwritten (`CancellationIsOverwritten`).
* The browser of the crawler follows redirects to any path of the origin, and the crawler notices afterwards
  (`RedirectLeavesScope`).
* A scan that is synchronised late resolves what a later scan found (`LateSyncResolvesWhatOnlyTheOtherSaw`).
* Recovery at the hard deadline closes a preflight without blocking the stages behind it
  (`OverduePreflightIsPassed`).
* A scan whose cancellation was requested stays open if its runner dies and recovery re-queues the stage
  (`CancelledScanGetsStuck`); its stages can all close by themselves exactly when none of them is queued.
* The report text says that a complete plan status means every planned stage succeeded
  (v3/backend/app/reporting.py:1012); the code asks this only of required stages
  (`CompleteWithFailedStage`). The model follows the code.
* An event is attempted once more than the five times for every claim made while an attempt on it is out, and a
  late failure undoes a delivery; a settled event is final exactly when no attempt on it is out.
* Normalising a path list twice is not always the same as once, because slashes are trimmed after whitespace.
* The class-count gate of the approved policy can never fail: fewer classes make the dimension unmeasured.

## Model

| member | source | states |
|---|---|---|
| StageQueueSafety.StepKeeps | v3/backend/app/runner.py:109-242 | Every single step, from any state that has the invariant, keeps it and lets rows, scans and the database only evolve: closed stages stay closed, attempts never fall, plans never change, a finished scan never becomes active |
| StageQueueSafety.RunKeeps | v3/backend/app/runner.py:109-242 | The same for whole runs of any length and interleaving, stale runners included |
| StageQueueSafety.OneRunningStage | v3/backend/app/runner.py:113-132 | In every reachable state a scan has at most one running stage, and every stage before it is closed |
| StageQueueSafety.ClosedStageStaysClosed | v3/backend/app/runner.py:409-434 | A closed stage is never queued, running or claimed again in any continuation, although finish_stage tests no status |
| StageQueueSafety.FinishedScanStaysFinished | v3/backend/app/runner.py:454-473 | A finished scan holds only closed stages and is never active again |
| StageQueueSafety.OneActiveScan | v3/backend/app/main.py:2649-2662 | Over starts, monitor scheduling, claims, cancels, recoveries and finalisations an assessment never has two active scans |
| StageQueueSafety.CoverageIsImage | v3/backend/app/runner.py:159-167 | In every reachable state each coverage row is the image of its stage row |
| StageQueueSafety.CancelledOnlyOnRequest | v3/backend/app/runner.py:460 | No stage and no scan ends cancelled unless an operator asked for it |
| StageQueueSafety.FailedPreflightClosesLaterStages | v3/backend/app/runner.py:279-291 | A preflight finished without success closes everything behind it exactly when nothing behind it was running |
| StageQueueSafety.FailedPreflightStopsTheScan | v3/backend/app/runner.py:433-434 | After an open scope preflight is finished without success, every later stage is closed with zero attempts in every continuation |
| StageQueueSafety.OverduePreflightLeavesNextClaimable | v3/backend/app/runner.py:177-190 | Recovery that closes an overdue preflight, wherever it stands, blocks nothing: a later stage is then claimable exactly when it waits and everything between the two is closed |
| StageQueueWitness.OverduePreflightIsPassed | v3/backend/app/runner.py:177-190 | For every plan that begins with a scope preflight there is a run from the empty database in which the preflight times out and the next stage is claimed all the same |
| StageQueueSafety.CancelRequestedScanIsStuck | v3/backend/app/runner.py:120-121 | Once cancellation is requested, whatever runs, every waiting stage stays queued and every closed one keeps its status in any continuation in which neither an operator nor a runner of the scan acts on it; if nothing runs no status changes at all |
| StageQueueSafety.StuckExactlyWhenSomethingWaits | v3/backend/app/runner.py:120-121 | In every state with the invariant, the stages of a scan whose cancellation was requested can still all close without anybody acting on it exactly when none of them is queued |
| StageQueueWitness.CancelledScanGetsStuck | v3/backend/app/runner.py:217-226 | For every timeout above two minutes there is a run in which the runner dies, the operator cancels, recovery re-queues the stage, and the scan then stays open in every continuation in which nobody acts on it |
| StageQueueProgress.ClaimsAreBounded | v3/backend/app/runner.py:135-144 | In every run a stage is claimed at most 1 + (timeout - 1) / 120 times, plus one for each re-queue made after its deadline |
| StageQueueProgress.RecoveryPassIsOneClock | v3/backend/app/runner.py:176-219 | The first statement of a recovery pass, and whatever steps of finalisations follow, leave nothing overdue while the clock stands still |
| StageQueueProgress.OneClockClaimsAreBounded | v3/backend/app/runner.py:217-226 | When each recovery pass acts at one clock reading the bound is 1 + (timeout - 1) / 120, and a stage with a timeout of at most two minutes is never re-queued |
| StageQueueBounds.TwoClocksExceedTheBound | v3/backend/app/runner.py:177-226 | The claim bounds are reached all at once: for every plan and every number of late re-queues of each stage some run has exactly these late re-queues and claims each stage 1 + (timeout - 1) / 120 times and once more for each of them; with none of them the run needs one clock reading per pass only |
| StageQueueProgress.MovementsAreBounded | v3/backend/app/runner.py:109-242 | From any state on schedule, in any run whatever the clocks do, the claims, re-queues and closings of one scan and the rank it is left with are at most its rank at the start plus two for every late re-queue |
| StageQueueProgress.ReachableMovementsAreBounded | v3/backend/app/runner.py:109-242 | Every state a run reaches is on schedule for the late re-queues of that run, so the bound holds in every continuation of every run |
| StageQueueProgress.PlanMovementsAreBounded | v3/backend/app/main.py:2664-2680 | From the moment a plan is queued at most 2 * (1 + (timeout - 1) / 120) moves per stage, plus two for every late re-queue, ever happen to the scan; with one clock reading per recovery pass the first part alone is the bound |
| StageQueueBounds.MovesReachTheBudget | v3/backend/app/runner.py:177-226 | The bound on moves is reached: for every plan and every number of late re-queues of each stage some run makes exactly that many moves and closes every stage |
| StageQueueProgress.SomethingIsAlwaysEnabled | v3/backend/app/runner.py:119-130 | While a stage of an uncancelled scan is open, the first open stage can be claimed, or it runs and recovery closes it from its deadline on |
| StageQueueProgress.ScanCanAlwaysEnd | v3/backend/app/runner.py:675-713 | From every state with the invariant some run closes every stage of a scan whose cancellation was not requested, in at most three steps for each open stage and without a late re-queue |
| StageQueueFairness.FairRunsEnd | v3/backend/app/runner.py:109-242 | In every endless run of any number of runners in which no stage of the scan stays claimable for ever unclaimed, recovery is repeated and the clock advances without limit, a scan that nobody cancels and that is re-queued late only finitely often closes all its stages for good |
| StageQueueFairness.FairOneClockRunsEnd | v3/backend/app/runner.py:176-242 | With one clock reading per recovery pass nothing is late, so every such run closes all stages of the scan |
| StageQueueFairness.FairRunsFinish | v3/backend/app/runner.py:436-473 | If the steps of finalising go on as well, the scan is over for good in the end, or it is orphaned for good: everything is closed, it counts as active, and no process is left to finalise it |
| StageQueueFairness.FairOneClockRunsFinish | v3/backend/app/runner.py:436-473 | With one clock reading per recovery pass, and if no last call is refused by a holder that read too early and no last finaliser dies with the lock, the scan is over for good |
| StageQueueFairness.FairRunExists | v3/backend/app/main.py:2664-2680 | All these conditions can be met together: for every plan there is such an endless run, with a runner that never reports, and its scan is over in the end |
| Finalisation.ClosedScanCanEndExactlyUnlessOrphaned | v3/backend/app/runner.py:436-473 | In every state with the invariant, a closed scan that is still active can end without an operator and without a late report exactly when it is not orphaned |
| Finalisation.OrphanedExactlyBy | v3/backend/app/runner.py:441-451 | One step orphans a scan exactly when the last call that is due is refused by a holder that has read the rows too early, or the last process that could finalise dies with the lock |
| Finalisation.NeverOrphanedExactlyWhen | v3/backend/app/runner.py:441-451 | In a run a closed scan has a finaliser throughout exactly when no such step occurs |
| Finalisation.DeadFinaliserOrphans | v3/backend/app/runner.py:675-713 | For every timeout there is a run in which the runner finishes the only stage and dies before it writes the status; in every continuation without operator or late report the scan stays active and no scan of its assessment can be queued |
| Finalisation.RefusedFinaliserOrphans | v3/backend/app/runner.py:441-459 | For every plan of two stages there is such a run in which nobody dies: the second finaliser is refused by the first, which has read the rows before the last stage closed |
| Finalisation.OrphanBlocksItsAssessment | v3/backend/app/main.py:2649-2662 | While an orphaned scan is left alone, every new scan of its assessment is refused |
| Finalisation.CancellingEndsAnOrphan | v3/backend/app/main.py:2995-3075 | An operator ends an orphaned scan at once |
| Finalisation.FinishedStatusIsFinalExactlyWhen | v3/backend/app/runner.py:485-490 | Once its report is there the status of a finished scan is final when every runner has reported and swept, no call is due and nobody holds the lock with work to do; unless it is partial already some continuation turns it partial whenever one of these fails |
| Finalisation.CancellationIsOverwritten | v3/backend/app/main.py:3039-3050 | For every timeout there is a run in which the operator cancels a scan, which is cancelled at once, and a finaliser that had read the rows before writes it complete |
| Finalisation.CallIsARun | v3/backend/app/runner.py:441-473 | An uninterrupted call of finalize_if_terminal is a run of the steps lock, read, write, report and unlock, and leaves what the store method leaves |
| StageQueueSteps.StepWrites | v3/backend/app/runner.py:109-490 | Told by statuses, positions and microseconds alone, which steps are possible on a scan and exactly what each writes: claim, heartbeat, renewal, finish, sweep, cancel and the steps of finalising; all other rows and scans stay as they are |
| StageQueueSteps.RecoveryWrites | v3/backend/app/runner.py:176-242 | The two statements of recovery time out exactly the running stages at or past their deadline, and re-queue exactly the running stages whose lease is over |
| StageQueueSteps.EnqueueWrites | v3/backend/app/main.py:2641-2702 | A scan is queued exactly for a non-empty plan with timeouts of one second to one day and an assessment whose scans are all finished |
| StageStore.Store.QueueAssessmentScan | v3/backend/app/main.py:2641-2702 | Refused outside the scope or beside a scan of the assessment that is not finished; otherwise one new scan, queued like all its stages, with the rows of the plan and planned coverage |
| StageStore.Store.ClaimStage | v3/backend/app/runner.py:109-173 | Claims the unlocked queued stage, with everything before it closed and no cancellation requested, that comes first by creation time and position, and none exactly when there is none; it runs with one more attempt, a lease of 120 seconds and the first start time kept |
| StageStore.Store.HeartbeatStage | v3/backend/app/runner.py:716-731 | Extends the lease only of a running stage before its deadline |
| StageStore.Store.RenewLease | v3/backend/app/light_adapters.py:313 | The renewal inside a long command, which tests nothing |
| StageStore.Store.FinishStage | v3/backend/app/runner.py:409-434 | Closes the stage whatever its status and leaves a finalisation due; another row changes exactly when it comes later, is queued, and the finished stage is the one named scope_preflight and did not succeed, and then it is blocked with its coverage |
| StageStore.Store.CancelPendingStages | v3/backend/app/runner.py:313-343 | Closes the stages that wait behind the cancelled one, with their coverage rows |
| StageStore.Store.CancelScan | v3/backend/app/main.py:2995-3075 | Refuses a finished scan, closes an idle one, and marks a running one |
| StageStore.Store.TakeReportLock | v3/backend/app/runner.py:442-448 | Takes the free lock, and otherwise ends the call |
| StageStore.Store.ReadStageRows | v3/backend/app/runner.py:455-463 | Reads the rows once: done exactly when all are closed, and then the holder has decided the status that fits them |
| StageStore.Store.WriteOutcome | v3/backend/app/runner.py:472 | Writes the decided status, whatever the rows say by then |
| StageStore.Store.PersistReport | v3/backend/app/runner.py:484-490 | Rewrites the status as partial exactly when the report fails |
| StageStore.OutcomeOf | v3/backend/app/runner.py:459-463 | The loops over the rows decide whether all are closed and the status: cancelled exactly when some row is cancelled; otherwise failed when some required row did not succeed and no row succeeded, partial when one did not and some row succeeded, complete when every required row succeeded |
| StageStore.Store.FinalizeIfTerminal | v3/backend/app/runner.py:441-490 | One call from the lock to its release: refused when the lock is held, without effect when a stage is open, otherwise the status that the rows give by the four conditions of OutcomeOf, partial when the report fails |
| StageStore.Store.CloseOverdueRows | v3/backend/app/runner.py:176-215 | Times out exactly the running stages at or past their deadline, row by row, and makes one call of finalize_if_terminal for each scan touched, at one clock reading |
| StageStore.Store.RequeueExpiredRows | v3/backend/app/runner.py:216-242 | Re-queues, row by row, exactly the running stages whose lease ended, whatever their deadline says, and keeps their attempts |
| StageStore.Store.RecoverExpiredLeases | v3/backend/app/runner.py:176-242 | Closes what is overdue, calls finalize_if_terminal for the scans this touched, and re-queues what stopped heartbeating at a second, later clock reading |
| StageStore.FirstExists | v3/backend/app/runner.py:128-130 | Any non-empty set of candidate stages has one that comes first by creation time and position |
| StageStore.RecoveryIsARun | v3/backend/app/runner.py:176-242 | One recovery pass, with any time between its two statements, is a legal run of the stage queue; it acts at one clock reading exactly when no deadline passes in between |
| Reporting.CompleteWithFailedStage | v3/backend/app/reporting.py:1012 | Against the report text: for every plan of a required and an optional stage there is a run that ends complete with the optional stage failed |
| Reporting.FinalizedCoverageAgrees | v3/backend/app/reporting.py:569-576 | An uninterrupted finalisation calls the scan complete exactly when its coverage is complete |
| Reporting.WrittenStatusAgrees | v3/backend/app/runner.py:455-472 | In every run in which no runner reports between the reading of the rows and the writing of the status, the status is written complete exactly when the coverage is complete at that moment |
| Reporting.OutcomeIsOutdated | v3/backend/app/runner.py:455-472 | For every required stage with a timeout above two minutes there is a run with such a report, and the scan is written complete while its coverage is not |
| Reporting.NoValidatedRiskExactlyWhen | v3/backend/app/reporting.py:579-597 | After an uninterrupted finalisation the report says no validated risk exactly when every required stage succeeded, none was cancelled, and no finding above informational is confirmed or a candidate |
| Reporting.ConclusionByEntries | v3/backend/app/reporting.py:550-597 | The reported severity is the highest one at which a finding is confirmed; without one the report says potential risk exactly when a finding above informational has no assurance row or is a candidate, and otherwise incomplete coverage or no validated risk, by whether the scan is complete with every required row completed |
| Reporting.CoverageOfFinishedScanStep | v3/backend/app/runner.py:409-427 | Of a finished scan a step takes the coverage away exactly when it is the finish_stage of a runner that has not reported yet, and reports a required stage as anything but succeeded |
| Reporting.CoverageIsSafeExactlyWhenAllReported | v3/backend/app/runner.py:409-427 | The coverage of a finished scan survives every continuation exactly when every runner that ever claimed a required stage has reported |
| Reporting.StaleReportSpoilsCompleteScan | v3/backend/app/runner.py:409-427 | For every required stage with a timeout above two minutes there is a run, with one clock reading per pass, in which a second runner completes the scan and the first one then takes its coverage away |
| Crawler.AuthenticatedCrawl | v3/backend/app/light_adapters.py:432-475 | Terminates on every site; the URLs it tries are the reference order of tries up to the one that fills the URL limit, each once; the visited list is the part of them that loads and the reference order of pages cut at the limit, the skipped list the rest with the reason; every listed or skipped URL but the target is what stands before the first '#' of a link of a listed page; the call fails exactly when nothing loaded |
| Crawler.StripMeaning | v3/backend/app/light_adapters.py:464 | A URL is the stripped link exactly when it is a beginning of it, holds no '#', and ends where the link ends or has its first '#' |
| Crawler.OutLinksMeaning | v3/backend/app/light_adapters.py:457-468 | A page leads exactly to the in-scope URLs that its links become before their first '#', if it opened in scope |
| Crawler.CrawlByLinks | v3/backend/app/light_adapters.py:449-475 | For every depth and limit each listed page opened in scope, each skip was unreachable or ended out of scope, and each of them is the target or what a link of a listed page leads to |
| Crawler.LinksAreTried | v3/backend/app/light_adapters.py:459-468 | Every in-scope URL that a link of a page within crawl_depth links leads to is tried |
| Crawler.TriedInOrder | v3/backend/app/light_adapters.py:459-468 | URLs of one level are tried in the order of the first links that lead to them, page by page and link by link |
| Crawler.LevelsAreDistances | v3/backend/app/light_adapters.py:438-468 | Level k of the reference order holds exactly the pages whose shortest way from the target has k links through loaded pages |
| Crawler.OrderIsReachable | v3/backend/app/light_adapters.py:438-468 | The first n levels hold exactly the pages reachable in fewer than n links, each once |
| Crawler.OrderIsByDistance | v3/backend/app/light_adapters.py:432-468 | Pages come in non-decreasing distance |
| Crawler.CrawlMeaning | v3/backend/app/light_adapters.py:435-468 | Without the limit the crawl gives exactly the pages within crawl_depth links; with it a prefix of that order |
| CrawlScope.RouteByParts | v3/backend/app/light_adapters.py:77-79 | The test of a URL told by its parts: exactly the safe http and https URLs with scheme, host and port of the target and of the scope, a missing port read as 443 for https and 80 otherwise, that continue the segments of an allowed path and of no excluded one |
| CrawlScope.OpenedUrlsArePermitted | v3/backend/app/light_adapters.py:77-79 | With the scope test of the scope file as guard and normalised path lists, every URL the crawl opens has the origin of the scope, continues the segments of an allowed path, and of no excluded one, on every site |
| CrawlScope.ListedPagesArePermitted | v3/backend/app/scope_files.py:136-145 | So does every URL it lists, and the address at which each listed page ended |
| CrawlScope.ArrivalsAreInScopeExactlyWhen | v3/backend/app/light_adapters.py:453-455 | On every site, every address at which the browser arrives from an opened URL is in scope exactly when the recorded skips hold no out-of-scope redirect |
| CrawlScope.RedirectLeavesScope | v3/backend/app/evidence_capture.py:59-67 | Whatever is out of scope on the origin of a page in scope can be arrived at: some site redirects there, the guard of the browser lets it pass, and the crawl notices afterwards |
| CrawlScope.ExcludedPageIsArrivedAt | v3/backend/app/evidence_capture.py:59-67 | A site and a scope in which the crawl arrives at an excluded path |
| Lifecycle.ExposureStore.SyncScan | v3/backend/app/exposure_management.py:296-366 | Exactly the new rows and events, by column: an observed finding takes the last detail and asset named and is opened, or reopened from resolved; of the others a complete scan resolves, and logs as resolved, exactly those open or needing revalidation on its assets that it did not see; nothing else changes |
| Lifecycle.SyncByColumns | v3/backend/app/exposure_management.py:296-366 | The same of every synchronisation, in whatever order resolved rows come back: which rows and events it leaves, told by columns and statuses alone |
| Lifecycle.ExposureStore.UpdateLifecycle | v3/backend/app/main.py:1874-1889 | A human update changes the status of a known finding and appends one event, and does nothing to an unknown one |
| Lifecycle.SyncKeepsLogFaithful | v3/backend/app/exposure_management.py:296-366 | A synchronisation keeps the log such that its replay gives the stored status of every finding |
| Lifecycle.HumanUpdateKeepsLogFaithful | v3/backend/app/main.py:1874-1889 | So does a human update |
| Lifecycle.LogExplainsState | v3/backend/app/exposure_management.py:296-366 | After any sequence of synchronisations and human updates the replayed log gives every stored status |
| Lifecycle.EveryEventFollows | v3/backend/app/exposure_management.py:331 | Every event is possible where it stands in the log; a finding is reopened only where the log so far says resolved |
| Lifecycle.CompleteSyncIsClean | v3/backend/app/exposure_management.py:341-357 | After a complete synchronisation nothing the scan saw is resolved, and every unsettled finding on its assets was last seen in it |
| Lifecycle.SyncRespectsDecisions | v3/backend/app/exposure_management.py:318-357 | No synchronisation makes or unmakes an accepted or dismissed status, and an incomplete one resolves nothing |
| Lifecycle.SyncTwiceIsOnce | v3/backend/app/exposure_management.py:296-357 | Synchronising one scan twice leaves the rows as synchronising it once |
| Lifecycle.SyncKeepsStatusesExactlyWhen | v3/backend/app/exposure_management.py:296-357 | Whenever it comes, a complete synchronisation leaves every status as it was exactly when nothing it saw is resolved and nothing else on its assets is unsettled, unless last seen in it |
| Lifecycle.LateSyncResolvesWhatOnlyTheOtherSaw | v3/backend/app/exposure_management.py:341-357 | After complete scans A and B, synchronising A again resolves of what only B saw exactly what is unsettled on the assets of A |
| Lifecycle.LateSyncResolvesAnOpenFinding | v3/backend/app/runner.py:525-529 | So a late synchronisation can resolve a finding that the latest complete scan has just opened |
| Outbox.DeliveryStore.ClaimOne | v3/backend/app/exposure_management.py:444-472 | Takes the oldest pending unlocked event of an active integration whose time has come, and none exactly when there is none: without credentials it is abandoned and nothing else of it changes, with them the attempt is counted and the event held for 300 seconds |
| Outbox.DeliveryStore.Report | v3/backend/app/exposure_management.py:474-497 | Whatever the row says by then, a success writes delivered; a failure writes pending below five attempts and abandoned from the fifth on, with 2, 4, 8, 16, 32 and from the sixth on 60 minutes to the next attempt |
| Outbox.StepByColumns | v3/backend/app/exposure_management.py:444-497 | Every step of the outbox changes one row at most, in exactly the columns and with the statuses and seconds of the source |
| Outbox.DeliveryStore.EnqueueDelivery | v3/backend/app/exposure_management.py:128-157 | Adds one pending event that is due at once, or nothing for a key that is known |
| Outbox.AttemptsAreBounded | v3/backend/app/exposure_management.py:444-497 | In every run an event is attempted at most five times, and once more for every claim made while an earlier attempt on it is still out |
| Outbox.OverlapsReachTheBound | v3/backend/app/exposure_management.py:444-497 | The bound is reached for every number of such claims: four failures reported at once, then runners that never report |
| Outbox.OneOutExactlyWithoutOverlap | v3/backend/app/exposure_management.py:444-472 | Throughout a run at most one attempt on an event is out exactly when no claim of it overlaps an earlier attempt |
| Outbox.DeliveriesWithoutOverlap | v3/backend/app/exposure_management.py:444-497 | Then there are at most five attempts, and attempt j + 1 comes at least 2^j minutes after attempt j |
| Outbox.TimelyReportsNeverOverlap | v3/backend/app/exposure_management.py:467-472 | Attempts that report within their five minutes are never overlapped |
| Outbox.TimelyDeliveries | v3/backend/app/exposure_management.py:444-497 | If every attempt reports within its five minutes an event has at most one attempt in flight, at most five in all, and attempt j + 1 comes at least 2^j minutes after attempt j |
| Outbox.SettledForGood | v3/backend/app/exposure_management.py:444-497 | An event that nobody took up while an attempt on it was out, and that is now delivered or abandoned, never changes again whatever happens later |
| Outbox.SettledExactlyWhenNothingIsOut | v3/backend/app/exposure_management.py:480-497 | A settled event keeps its status in every continuation exactly when no attempt on it is still out |
| Outbox.SilentRunnersExceedAnyBound | v3/backend/app/exposure_management.py:467-472 | From every state in which an event is due, runners that never report add any number of attempts, and every claim but a first one overlaps |
| Outbox.LateFailureUndoesDelivery | v3/backend/app/exposure_management.py:480-490 | A late failure report puts a delivered event back in the queue |
| Classification.ClassificationMetrics | v3/backend/app/evaluation.py:563-619 | Measured exactly when two classes occur; every count of a class is the number of positions with its labels, every rate the named quotient of these counts, every macro field the mean of the rate it names, and accuracy and weighted F1 those of the positions |
| Classification.ClassOfHolds | v3/backend/app/evaluation.py:571-591 | For every label, with tp, fp, fn and tn as numbers of positions: precision, recall, false-positive and false-negative rate are the named shares, zero over an empty denominator, and F1 is 2tp / (2tp + fp + fn) |
| Classification.MacrosByName | v3/backend/app/evaluation.py:594-610 | Each macro average is the mean of the rate it is named after over the classes |
| Classification.FillMatrix | v3/backend/app/evaluation.py:564-567 | The filled matrix counts every pair of expected and predicted label |
| Classification.MacroAverage | v3/backend/app/evaluation.py:594-595 | The loop over the per-class results gives the macro average of the pairs |
| Classification.WeightedAverage | v3/backend/app/evaluation.py:597-598 | The loop over the per-class results weighted by support gives the weighted average of the pairs |
| Classification.CellsAddUp | v3/backend/app/evaluation.py:573-577 | tp + fp + fn + tn is the sample size for every label, and support is tp + fn |
| Classification.KindTotals | v3/backend/app/evaluation.py:571-577 | Over all labels false positives and false negatives are both the number of wrong predictions, and supports add up to the sample |
| Classification.RatesAreBounded | v3/backend/app/evaluation.py:578-591 | Every rate of every class lies in [0, 1], and F1 is one exactly when the class is hit and never confused |
| Classification.WeightedRecallIsAccuracy | v3/backend/app/evaluation.py:597-598 | Support-weighted recall is accuracy |
| Classification.MacroBounds | v3/backend/app/evaluation.py:594-595 | A macro average lies in [0, 1] and is one exactly when every class is at one |
| Classification.MacroF1IsOneExactlyWhenPerfect | v3/backend/app/evaluation.py:600-612 | Macro F1 is one exactly when the predictions equal the expected labels |
| Calibration.ConfidenceMetrics | v3/backend/app/evaluation.py:622-665 | The Brier score is the mean over the positions of the squared distance between confidence and correctness; the calibration error is the sum over the bins of share times distance between accuracy and mean confidence; the rows are those of the populated bins, with their bounds, counts and averages |
| Calibration.CalibrationByPositions | v3/backend/app/evaluation.py:622-665 | The same of the definitions that the loops are proved to compute, over every pair of label lists and every number of bins |
| Calibration.BrierScore | v3/backend/app/evaluation.py:629-636 | The accumulation of squared errors gives the Brier score of the sample |
| Calibration.OneBin | v3/backend/app/evaluation.py:640-658 | One turn of the loop over the bins collects the members, averages them and adds their share of the error |
| Calibration.ExactlyOneBin | v3/backend/app/evaluation.py:640-645 | Every confidence in [0, 1] falls in exactly one bin |
| Calibration.BinsPartition | v3/backend/app/evaluation.py:638-645 | Counts and absolute errors of the bins add up to those of the sample |
| Calibration.PopulatedCountsSumToSample | v3/backend/app/evaluation.py:646-658 | The counts of the populated bins sum to the sample size |
| Calibration.EceAtMostMeanAbsoluteError | v3/backend/app/evaluation.py:648-650 | The calibration error is between zero and the mean absolute error |
| Calibration.EceSquaredAtMostBrier | v3/backend/app/evaluation.py:629-650 | The square of the calibration error is at most the Brier score |
| Grades.GroundednessByEntries | v3/backend/app/evaluation.py:668-692 | The unsupported-claim rate is the share of the claims that cite nothing, or cite invalidly, or lack integrity, or have an entailment below 0.8 |
| Grades.SecurityByEntries | v3/backend/app/evaluation.py:695-734 | Accuracy, detection rate, false-detection rate and evidence coverage are the named shares of the cases, and are measured exactly when both kinds of case occur |
| Grades.TrajectoryByEntries | v3/backend/app/evaluation.py:737-771 | The score is 0.6 of the share of milestones observed, 0.2 of the share of actions not redundant, and 0.2 for no violation |
| Grades.RetrievalByEntries | v3/backend/app/evaluation.py:774-810 | Context precision, recall at k, citation validity and faithfulness are the named shares, over the first k documents retrieved |
| Grades.RobustnessByEntries | v3/backend/app/evaluation.py:813-857 | Accuracy, consistency with the baseline label or else its correctness, and the share of the three variations covered |
| Grades.PerfectDetection | v3/backend/app/evaluation.py:703-730 | Detection rate one and false-detection rate zero hold together exactly when every case was called as labelled |
| Grades.PerfectTrajectory | v3/backend/app/evaluation.py:743-771 | The trajectory score lies in [0, 1] and is one exactly without missing milestone, idle run, redundant action or violation |
| Grades.PerfectRetrieval | v3/backend/app/evaluation.py:779-795 | Recall is one exactly when the retrieved prefix holds every relevant document, precision exactly when it holds nothing else and is not empty |
| Agreement.GroupedAgreement | v3/backend/app/evaluation.py:860-894 | The loops give the share of agreeing pairs of entries among all pairs on one case with two or more actors, the share of such cases with a single verdict, and list exactly the other ones, each once |
| Agreement.AgreementByPairs | v3/backend/app/evaluation.py:880-894 | The tally over groups is that of pairs of positions: compared pairs, agreeing pairs, contested cases and those with a single verdict |
| Agreement.AllPairsAgree | v3/backend/app/evaluation.py:886-888 | All pairs of a group agree exactly when it holds one verdict |
| Agreement.FullAgreementMeansUnanimous | v3/backend/app/evaluation.py:889-894 | Pairwise agreement lies in [0, 1]; it is one exactly when the unanimous rate is, and exactly when every qualified case has a single verdict |
| Agreement.PercentileMeaning | v3/backend/app/evaluation.py:921-927 | The nearest-rank percentile is one of the values, and the least that at least that share of them does not exceed |
| Release.MeasuredMeansAvailable | v3/backend/app/evaluation.py:1150-1281 | A gate is unavailable exactly when its dimension is not measured |
| Release.DecisionMeaning | v3/backend/app/evaluation.py:1283-1296 | The decision is pass exactly when every required dimension is measured and every required gate holds, and fail exactly when a required gate other than the sample size fails |
| Release.DecisionByGates | v3/backend/app/evaluation.py:1150-1296 | The conditions of pass and fail written out for each of the 28 gates by name: which component value is compared with which policy field, and in which direction |
| Release.MeetsByNumbers | v3/backend/app/evaluation.py:190-217 | The same for the approved policy, with its numbers |
| Release.NamesByGates | v3/backend/app/evaluation.py:1283-1290 | The failed and the unavailable names are exactly the required gates that miss their inequality and those of unmeasured dimensions |
| Release.ComponentsByEntries | v3/backend/app/evaluation.py:1120-1149 | Every value a gate reads is the named share, mean, sum or percentile of the entries of the request |
| Release.RequiringMoreNeverHelps | v3/backend/app/evaluation.py:1283-1296 | Enlarging the required set only moves the decision down: pass, inconclusive, fail |
| Release.ClassCountGateNeverFails | v3/backend/app/evaluation.py:1155-1158 | Under the approved policy the class-count gate passes exactly when classification is measured, so it never fails |
| Release.WithdrawIncomplete | v3/backend/app/evaluation.py:1277-1281 | The pass over the gates withdraws the result of exactly the gates of incomplete dimensions |
| Release.Evaluate | v3/backend/app/evaluation.py:1120-1296 | Pass exactly when every required dimension is measured and meets each of its inequalities, fail exactly when a required one other than the sample size is missed, otherwise inconclusive; the components are those of the entries, and the failed, unavailable and missing lists exactly what they are named after |
| Semantic.ValidateSemanticOutput | v3/backend/app/semantic_evaluator.py:546-596 | Accepts exactly the output that names the claims, cites only linked evidence and refers only to declared milestones and actions; otherwise the error of the first rule broken |
| Semantic.ValidationByFields | v3/backend/app/semantic_evaluator.py:546-596 | Which error comes first, told by the entries: claims named, evidence cited, decisions present, milestones and actions named |
| Semantic.RedundantWithinActions | v3/backend/app/evaluation.py:87-91 | In accepted output the redundant actions are at most the actions |
| Semantic.RunSemanticEvaluation | v3/backend/app/semantic_evaluator.py:418-483 | Succeeds exactly for an independent judge and accepted output, never raises in a grade constructor, grades verdict by verdict with the fields of the verdict and its claim, and asks for review unless every verdict supports, nothing is held against the trajectory, no limitation is named and every required milestone was observed |
| Semantic.UnsupportedExactlyUnlessSupports | v3/backend/app/semantic_evaluator.py:440-453 | A grade counts as unsupported exactly when the judge did not support the claim |
| Semantic.GroundednessGateExactlyWhenAllSupported | v3/backend/app/evaluation.py:668-692 | For supplied claims the unsupported-claim gate holds exactly when every claim was supported |
| Semantic.WithoutReviewGates | v3/backend/app/semantic_evaluator.py:477-488 | Without required review the unsupported-claim and compliance gates hold for what was supplied, and the score gate holds exactly when at most a quarter of the actions is redundant |
| Semantic.CreateEvaluation | v3/backend/app/main.py:1401-1462 | Raises exactly the error of the first rule on grades and dimensions that the request, or the request with the grades of its semantic run, breaks; otherwise the stored decision is pass exactly when all required gates hold and no review is required, and fail exactly when a required gate fails |
| Semantic.PassedRunIsClean | v3/backend/app/main.py:1460-1462 | A release that passes on a semantic run rests on a run with every claim supported, no violation, every milestone observed and at most a quarter of the actions redundant |
| Benchmark.ScoreBenchmark | v3/backend/app/benchmarking.py:54-130 | Raises exactly the error of the first check that fails; otherwise lists, counts and rates are those of the entries: positive cases found and missed, negative cases found, observations that name no case, evidence that no observation shows; observations = tp + fp + duplicates, and it is eligible exactly by the thresholds of the profile |
| Benchmark.ScoreByEntries | v3/backend/app/benchmarking.py:54-130 | The same of every result that describes the sets and lists of the loops |
| Benchmark.ObjectionByEntries | v3/backend/app/benchmarking.py:57-72 | The checks, in their order, told by the entries of dataset and scan |
| Benchmark.GroupsPartition | v3/backend/app/benchmarking.py:75-82 | Every observation is unmatched or lies in exactly one group |
| Benchmark.Conservation | v3/backend/app/benchmarking.py:84-102 | The conservation laws hold for every result that describes the sets and lists of the loops |
| Benchmark.ConfirmedNeverScoresMore | v3/backend/app/main.py:1560-1589 | Scoring only confirmed findings never raises true positives, false positives or recall |
| Benchmark.PerfectScore | v3/backend/app/benchmarking.py:103-105 | Precision and recall are both one exactly when the matched cases are the positive cases, there are some, and nothing is left over |
| Benchmark.RatesOfResult | v3/backend/app/benchmarking.py:103-117 | F1 is twice the true positives among all that was positive or reported; recall and false-negative rate, specificity and false-positive rate add up to one wherever there is anything to count |
| ScopePaths.Paths | v3/backend/app/scope_files.py:23-35 | Succeeds exactly on valid items with the sorted set of their normal forms, and otherwise names the first invalid item |
| ScopePaths.SortedSetMeaning | v3/backend/app/scope_files.py:35 | The result is strictly increasing and holds exactly the normal forms |
| ScopePaths.BelowMeaning | v3/backend/app/scope_files.py:35 | One string comes before another exactly when they agree up to a place where it ends or has the smaller character |
| ScopePaths.SplitMeaning | v3/backend/app/scope_files.py:26 | Splitting cuts at every semicolon and loses nothing else |
| ScopePaths.StripMeaning | v3/backend/app/scope_files.py:31 | Stripping removes whitespace from both ends, and all of it |
| ScopePaths.ValidBySegments | v3/backend/app/scope_files.py:32 | A stripped item is accepted exactly when it is absolute, no segment but the last is empty, and none is two dots |
| ScopePaths.SegmentsMeaning | v3/backend/app/scope_files.py:143-145 | The segments hold no slash and give the path back |
| ScopePaths.OutputIsNormalised | v3/backend/app/scope_files.py:29-35 | Every returned path is itself valid and loses nothing to trimming |
| ScopePaths.StableExactlyWhenNoneEndsInSpace | v3/backend/app/scope_files.py:23-35 | Normalising a normalised list again returns it exactly when none of its paths ends in whitespace |
| ScopePaths.EndsInSpaceExactlyWhen | v3/backend/app/scope_files.py:31-34 | A normal form ends in whitespace exactly when the stripped item ended in whitespace and a slash |
| ScopePaths.NormalisingTwiceCanDiffer | v3/backend/app/scope_files.py:31-34 | "/a /" becomes "/a " and then "/a" |
| ScopePaths.PrefixBySegments | v3/backend/app/scope_files.py:143-145 | One path continues another exactly when its segments begin with the other's |
| ScopePaths.CoversIsSegmentPrefix | v3/backend/app/scope_files.py:143-145 | For a normalised path the string test is the prefix test on path segments |
| ScopePaths.ScopeBySegments | v3/backend/app/scope_files.py:136-145 | For normalised lists a URL is in scope exactly when its origin is the target's, and its segments continue an allowed path and no excluded one |
| ScopePaths.OriginsByPorts | v3/backend/app/scope_files.py:140 | Two origins are equal exactly when scheme, host and port agree, with 443 for https and 80 otherwise where the port is missing or zero |
| ScopePaths.ScopeIsMonotone | v3/backend/app/scope_files.py:143-145 | Excluding more only shrinks the scope, allowing more only grows it |

## Left out

- Database driver, row locks, advisory locks and migrations: replaced by atomic steps on maps.
- Columns that nothing here reads: `finished_at`, `heartbeat_at`, error codes and texts, `assessments.status`, asset status, scan events, monitor runs and audit events.
- The number that `recover_expired_leases` returns. Report rows: whether a report is missing is left open, so every finished scan may be finalised again.
- The polling loop of the runner and `run_stage` itself: a runner is any sequence of the modelled steps.
- StageStore.Store.FinalizeIfTerminal: the method takes its steps without interruption; interleavings are those of its five step methods, and of the steps in `Finalisation.dfy`. Regenerating a report on request is not modelled.
- StageStore.Store.RecoverExpiredLeases: one call of finalize_if_terminal for each scan, where the source makes one for each closed stage; a scan never has two.
- CrawlScope.OpenedUrlsArePermitted: what a page embeds, and the addresses between the first and the last of a redirect, are not modelled. The URL parser and `safe_route` are parameters; the parser gives a URL with a host an empty path or one that begins with a slash.
- Crawler.AuthenticatedCrawl: screenshots and page contents are not modelled, `route_is_in_scope` is a parameter, and all navigation errors share one category.
- Lifecycle.ExposureStore.SyncScan: the grouping of scan findings into observations happens in SQL and is an input; timestamps, the first-seen ones included, and notes are not modelled.
- Outbox.DeliveryStore.ClaimOne: integration and event are one key, and payloads are not modelled.
- Asset ownership merging, integration endpoint checks, signatures and encryption.
- Classification.ClassificationMetrics: labels come in order of first appearance where the source sorts them, the matrix is keyed by pairs instead of nested dictionaries, and per-class values are not rounded before they are averaged.
- Rounding to six decimals and floating point everywhere: a rate below one half of 10^-6 would be rounded to zero before it meets a gate, and 0.95 times a count is exact here.
- Agreement.GroupedAgreement: the disagreeing cases are listed in order of first appearance where the source sorts them.
- Release.Evaluate: role results, component scores, the overall score and the limitations text are not computed.
- Robustness by variation and the confidence drop; cost totals that no gate reads.
- Semantic.CreateEvaluation: of the request validators only those on combined grades, mandatory and declared dimensions are modelled; the checks that the run exists, is complete and belongs to the subject, version and dataset are not.
- Text lengths, patterns and digests of judge input and output, the provider call, and the judge decisions list.
- Benchmark.ScoreBenchmark: identifier lists are sets or keep input order where the source sorts them.
- Ports, expiry, signing and dispatch of a scope file.
- Report rendering, evidence bundles, tool adapters, roles, sessions, routing and the web front end.
