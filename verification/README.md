# SeedMedic, modelled and proved

SeedMedic repairs hit-and-run torrents: it finds a torrent's files in a media library, stages them
where a download client can seed them, and watches the tracker until the warning is cleared. What
makes that hard is everything that may go wrong on the way. Several workers, operators and a startup
reconciler act on the same job rows from stale copies; a crash can come between any two system calls;
a staged hardlink *is* the library file; and the torrent metadata is written by strangers.

This project models five parts of it and proves what each is for.

* **The repair protocol** (`Lifecycle`, `Table`, `Store`, `StoreLaws`, `Protocol`, `Steps`, `StepReasons`, `Faultless`,
  `DriveBound`, `DriveEnds`, `Worker`, `OperatorReview`, `OperatorLaws`, `Reality`, `Reconcile`, `Startup`, `Callers`,
  `CallerRuns`). `Table` says what each SQL statement of the
  store does as a function on values; `Store.RepairStore` is the store as a class whose methods are
  proved to do exactly that; runs are sequences of these writes by any number of callers holding jobs
  of any age. `Steps.Step` is one lifecycle step as a function of what every port answered. `StepReasons`, `DriveEnds`, `StoreLaws` and
  `OperatorLaws` say on the rows themselves what steps, drives, statements and operators come to.
* **Staging and the resume gate** (`Disk`, `StagingPass`, `Client`, `LibrarySafety`, `Aliasing`,
  `PolicyConflicts`, `LocalStagingFs`, `StageStep`). A filesystem of names, inodes and contents; a staging pass as the
  sequence of system calls it is, so it can crash or be interleaved anywhere; the download client's
  reference behaviour; and runs mixing all of them with the library owner's own edits.
* **The bencode reader** (`Bencode`, `BencodeParser`, `Splitting`, `SafePath`, `Inspect`, `Utf8`): the parser class,
  the printer it inverts, and the inspector on top, against a description of what a document *says*.
* **Matching and piece verification** (`Sorting`, `Pieces`, `TorrentOrder`, `Matching`,
  `Verification`, `CandidateSources`).
* **Three smaller loops** (`Polling`, `Paging`, `ConfigTree` with `ConfigKeys`).

Code that changes things in place is a class or a method proved against a specification function;
decisions are functions; what the code promises is proved about them as lemmas, most of them by
induction over runs. Ports, clocks and the operating system's answers are parameters: `World`,
`Moment`, `Evidence`, `Luck`, `Disk` (the reads of `Verification`) and the `sha1` argument.

`dafny verify dfyconfig.toml` checks everything.

## What turned out not to hold

Each of these is proved, with the exact condition under which the code does meet the property or a
concrete run that breaks it.

* The swap compares only `state`. An operator's retry planned before a restart therefore goes through
  afterwards and skips a step: `CallerRuns.StaleRetrySkips` is such a run, made of discoveries, worker
  steps and operator actions alone. Exactly the writes that still resume no earlier than the parked job
  does are harmless (`Protocol.WriteHonestIffPinned`); everything a worker writes always is
  (`Protocol.WorkerWritesArePinned`), and so is every run in which nobody acts on a resume point that
  has moved (`CallerRuns.FreshRunsSkipNothing`).
* `record_progress` writes scalar columns only, so a candidate chosen while another file is undecided
  is lost: with two undecided files no sequence of choices ever resolves the job
  (`OperatorReview.ChoicesNeverResolveTwo`, `OperatorReview.ChoiceResolvesIff`). Matching parks leave
  every file undecided, so this is every torrent of two files or more that matching parks
  (`CallerRuns.ParkedByMatchingStaysParked`).
* Planned files are read back `ORDER BY torrent_path`, while file ranges are defined for the torrent's
  own order. They agree exactly when the torrent listed its non-empty files by path
  (`TorrentOrder.RangesAgreeIffInPathOrder`); otherwise a genuine file can be checked against another
  file's hash and lost in every run (`Verification.MisorderedTorrentLosesGenuine`).
* A failed piece check drops the library file, not the pairing, so a file tried for two torrent files
  can be lost to the one it belongs to. A run over it alone drops it exactly when another file of its
  length is checked by a piece whose bytes are not the ones it has in that place
  (`Verification.GenuineIsLostIff`); otherwise no run over any candidates does
  (`Verification.UnmistakableIsNeverLost`), and never with lengths all different
  (`Verification.DistinctLengthsLoseNothing`). The same file found by two sources is two candidates and
  never matched (`Matching.SameFileTwiceIsAmbiguous`).
* Passes overlapping on one destination under *different* policies can truncate a library file. Over a
  set of policies that can happen exactly when one of them permits copying while another comes to
  hardlinks (`PolicyConflicts.OverlapIsSafeIff`); one pass at a time, it cannot under any
  (`LibrarySafety.LibraryIsNeverWritten`).
* A recorded strategy that outlives a policy change can hide that a staged file is a library file, even
  one pass at a time: exactly when some policy in use gets files of their own staged, by copy or by
  clone, while another comes to hardlinks (`PolicyConflicts.AliasesAreReportedIff`).
* Scans serve no row twice exactly when they are descending or go by creation time
  (`Paging.NeverRepeatsIff`); ascending by update time a touched row comes again.
* A check whose start was never recorded is never overdue and can be polled without end
  (`Polling.UnrecordedStartIsNeverOverdue`, `Polling.UnrecordedStartWaitsForever`).
* The table alone admits moving a completed job back (`Lifecycle.TableAllowsRewindFromCompleted`), and
  only the schema's check on `review_from_state` (migrations/0001_initial.sql:19-22) keeps a retry from
  reaching `completed`; that is the precondition `SchemaAdmits` of `Callers`.
* The worker's comment speaks of one rewind per drive; its bound of 18 tolerates two, is reached
  undisturbed only after three (`Worker.RepairWorker.Drive`), and three do reach it
  (`DriveBound.ThreeRewindsReachTheBound`).

## Model

| member | source | states |
|---|---|---|
| Lifecycle.RankIsPosition | src/repair/domain.rs:93-101 | a state's rank is its index in the progression, both ways |
| Lifecycle.TableNeverSkips | src/repair/domain.rs:358-450 | no accepted transition raises the effective rank by more than one; progress and a chosen candidate raise it by exactly one, a retry leaves it |
| Lifecycle.TableAccepts | src/repair/domain.rs:358-450 | for each reason, exactly the moves it may make, spelled on ranks and resume points |
| Lifecycle.TableAllowsRewindFromCompleted | src/repair/domain.rs:441-449 | taken alone the table lets reconciliation, and nothing else, leave `completed` |
| Store.RepairStore.RecordDiscovery | src/repair/adapters/sqlite.rs:150-217 | a new row, its opening audit row and index entry, or nothing for a warning already known |
| Store.RepairStore.Apply | src/repair/adapters/sqlite.rs:458-538 | the compare-and-swap: the whole new tables and the result in every case, replay and conflict included |
| Store.RepairStore.ApplyPatch | src/repair/adapters/sqlite.rs:735-835 | scalars coalesced, then the plan replaced, then its progress |
| Store.RepairStore.SetReviewResumePoint | src/repair/adapters/sqlite.rs:540-602 | a parked job's resume point and its audit row, or the refusal |
| Store.RepairStore.SelectDue | src/repair/adapters/sqlite.rs:604-640 | as many due jobs as the limit allows, none left out that waited longer than one taken |
| Store.RepairStore.Claim | src/repair/adapters/sqlite.rs:604-640 | leases exactly those jobs and changes nothing else |
| Store.RepairStore.Release | src/repair/adapters/sqlite.rs:641-663 | clears the lease, whoever holds it, and counts the attempt |
| Store.RepairStore.RenewLease | src/repair/adapters/sqlite.rs:664-686 | renews only a lease still held by this owner |
| Store.RepairStore.RecordProgress | src/repair/adapters/sqlite.rs:687-691 | scalar columns only |
| Store.RepairStore.ClearStaleLeases | src/repair/adapters/sqlite.rs:692-706 | clears exactly the stale or own leases and counts them |
| Store.RepairStore.List | src/repair/adapters/sqlite.rs:387-415 | every job in the wanted states once, by id |
| StoreLaws.SwappedRow | src/repair/adapters/sqlite.rs:467-518 | what an applied swap leaves in every column: attempts and waiting start over, a park remembers where to resume and takes any approval with it, the lease stays |
| StoreLaws.PatchReads | src/repair/adapters/sqlite.rs:735-835 | every column of a patch reads as the patch says, or as before where it says nothing, the unknown streak included |
| StoreLaws.ProgressRead | src/repair/adapters/sqlite.rs:735-835 | noted progress goes to the planned file of that path and no other |
| StoreLaws.DiscoveredRow | src/repair/adapters/sqlite.rs:150-217 | what a new row holds and what it leaves empty |
| StoreLaws.DueIs | src/repair/adapters/sqlite.rs:604-640 | a job is due if and only if it is on the way, its time has come and no lease on it still runs |
| StoreLaws.ClaimTakesTheFirst | src/repair/adapters/sqlite.rs:604-640 | what a claim leaves out though due comes no earlier in line than anything it takes, and then the limit is reached |
| StoreLaws.NeverClaimedTwice | src/repair/adapters/sqlite.rs:604-640 | two claims, the second before the first one's leases run out, share no job |
| StoreLaws.ReleasedIsDue | src/repair/adapters/sqlite.rs:641-663 | a released job is due again exactly from its time on |
| StoreLaws.StaleLeasesCleared | src/repair/adapters/sqlite.rs:692-706 | which leases go and which stay, and that nothing else of a row changes |
| Protocol.AuditTrailReplays | src/repair/adapters/sqlite.rs:458-602 | after any run of writes, replaying a job's audit trail alone gives its state and resume point |
| Protocol.OnlyAppliedSwapsWrite | src/repair/adapters/sqlite.rs:467-518 | an applied swap adds one audit row to its own job; a refused or replayed one changes nothing at all |
| Protocol.WriteIsOneRecord | src/repair/adapters/sqlite.rs:458-602 | any write moves a job exactly as the audit row it adds says, and not at all without one |
| Protocol.CorrectionOrRewind | src/repair/adapters/sqlite.rs:540-602 | the rows before it tell a resume-point correction from a rewind, and a rewind goes strictly back |
| Protocol.HonestIffPinned | src/repair/domain.rs:358-450 | an audit row that can follow raises the job honestly (by the one step it records) if and only if it still resumes no earlier than the parked job does |
| Protocol.WriteHonestIffPinned | src/repair/adapters/sqlite.rs:479-497 | the same for writes against the tables as they are |
| Protocol.RunSkipsNothing | src/repair/domain.rs:358-450 | over any run of such writes, a job at rank r has on record since its last restart every move k to k+1 below r |
| Protocol.WorkerWritesArePinned | src/repair/worker.rs:312-415 | progress, parking, rewinds, restarts and bookkeeping never need the guard, however stale |
| Protocol.FreshOperatorWritesArePinned | src/web/review.rs:32-61 | nor does an operator's move on a job whose resume point has not changed |
| Protocol.BackwardCorrectionsArePinned | src/repair/adapters/sqlite.rs:540-602 | nor does a correction of the resume point to one no further along |
| Steps.ResumeFollowsComplete | src/repair/application/verify.rs:73-112 | every resume is the second of two calls, after a status read of the same torrent reporting complete data, whatever the policy or approval |
| Steps.CompletesExactlyWhenCleared | src/repair/application/confirm.rs:24-58 | the last step advances if and only if the configured tracker answered Cleared |
| Steps.RewindsToStaged | src/repair/application/mod.rs:138-156 | steps rewind only to `staged` and only from beyond it; off the worker's states they only wait |
| Steps.StepsNeverApprove | src/repair/application/mod.rs:138-156 | no step's patch approves a resume |
| Steps.VerifiesExactlyComplete | src/repair/application/verify.rs:25-66 | a recheck is passed if and only if it is over, without error, with every byte there |
| Steps.AliasedDataIsHeldAsAliased | src/repair/policy.rs:147-160 | data held as merely incomplete is recorded as reflinked or copied |
| Steps.RetryMeansNoAnswer | src/repair/application/mod.rs:138-156 | a step is only retried when some port did not answer |
| Steps.DirectoriesDiffer | src/repair/domain.rs:523-527 | the staging directory names the job in decimal, so no two jobs share one |
| StepReasons.ParkedForUnsafePaths | src/repair/application/acquire.rs:39-57 | a step parks for unsafe paths if and only if inspection or staging found them unsafe |
| StepReasons.ParkedForTheHash | src/repair/application/acquire.rs:61-71 | for a mismatched hash if and only if the tracker had named another |
| StepReasons.ParkedForTheTorrent | src/repair/application/acquire.rs:20-97 | for an unreadable torrent if and only if it is one, or what should be known of it by then is missing |
| StepReasons.ParkedForNothingFound | src/repair/policy.rs:202-217 | the same for no candidates |
| StepReasons.ParkedForMatching | src/repair/application/match_media.rs:37-110 | the same for an undecided file, or a planned one without a source |
| StepReasons.ParkedForConfidence | src/repair/policy.rs:202-217 | the same for a match weaker than the policy asks for |
| StepReasons.ParkedForStaging | src/repair/application/stage.rs:21-123 | the same for space and changed sources |
| StepReasons.ParkedForStrategies | src/repair/application/stage.rs:21-123 | the same for strategies not permitted or not available |
| StepReasons.ParkedForTheData | src/repair/application/verify.rs:25-112 | the same for incomplete data staged by clone or copy |
| StepReasons.ParkedForAliasedData | src/repair/application/verify.rs:25-112 | the same for incomplete data that may be the library's own |
| StepReasons.ParkedForApproval | src/repair/application/verify.rs:73-112 | the same for complete data nobody lets seed |
| StepReasons.ParkedForTheClient | src/repair/application/confirm.rs:108-148 | the same for a download while seeding |
| StepReasons.ParkedForAnError | src/repair/application/verify.rs:118-148 | the same for a failed check |
| StepReasons.ParkedForTime | src/repair/application/verify.rs:118-148 | the same for a check that has run out of time |
| StepReasons.ParkedForTheTracker | src/repair/application/confirm.rs:24-106 | the same for a tracker that cannot tell and a deadline gone by; the retry budget is nothing a step parks for |
| StepReasons.ParkedForAStub | src/repair/application/mod.rs:138-156 | the same for ports that are not built |
| StepReasons.RewindsExactlyWhenGone | src/repair/application/confirm.rs:108-148 | a step goes back if and only if the torrent is gone, or errored while seeding |
| StepReasons.SeedingWaits | src/repair/application/confirm.rs:60-106 | when a seeding job waits, how long, and what it notes |
| StepReasons.CallsAre | src/repair/application/mod.rs:138-156 | the client calls of every step, state by state |
| StepReasons.FetchWrites | src/repair/application/acquire.rs:20-97 | a fetch records the hash, the bytes, and every file unsourced and in order |
| StepReasons.StageWrites | src/repair/application/stage.rs:96-123 | staging records for each file the last report of its path, and for the job the riskiest strategy used |
| StepReasons.ParkWrites | src/repair/application/verify.rs:58-112 | a park writes nothing but the progress of the torrent just looked at |
| StepReasons.OffersAreMatchings | src/repair/application/match_media.rs:81-110 | only matching makes offers |
| StepReasons.ChecksAreAwaited | src/repair/application/verify.rs:118-148 | when a check is waited for, and how long: a queued one the longest interval, a running one the schedule's |
| Faultless.ReadyJobAdvances | src/repair/application/mod.rs:138-156 | with the ports its step asks willing and the stored plan read back as it is, a job at any state of the progression advances, making exactly that state's client calls |
| Faultless.QuietRunCompletes | src/repair/worker.rs:296-383 | the calls of an undisturbed drive complete the job from any state of the progression on, one progress row and that state's client calls each |
| Faultless.NothingInTheWay | src/repair/worker.rs:284-492 | driving a discovered job with nobody else acting, at moments that may all differ and at each of which the ports the step asks are willing for the job as it then is, leaves it `completed` with one progress row for each of the eight steps and exactly one add, recheck and resume in that order |
| Faultless.HopefulDrive | src/repair/adapters/sqlite.rs:429-442 | there are such drives: hopeful answers that stay the same, with the plan read back by path from the row each step has left |
| DriveBound.ThreeRewindsReachTheBound | src/repair/worker.rs:284-300 | with a client that loses the torrent each time it seeds, an undisturbed drive makes all the steps the bound allows, three of them rewinds |
| Policy.AcceptsExactly | src/repair/policy.rs:202-217 | a plan is accepted if and only if every file is matched at or above the confidence floor |
| Policy.PreferenceIs | src/repair/policy.rs:59-73 | which strategies are tried and that a hardlink comes last |
| Policy.TrackerDelayIs | src/repair/policy.rs:265-279 | the poll delay is the plain interval without a deadline, and otherwise a tenth of what is left within its bounds |
| Policy.TrackerDelayShrinks | src/repair/policy.rs:265-279 | it never grows as the deadline comes closer |
| Policy.ResumesOnlyComplete | src/repair/policy.rs:147-190 | resuming needs complete data, and approval where the policy never resumes on its own |
| Policy.JitterSpreads | src/repair/policy.rs:281-300 | every delay from one nanosecond to the backoff, and no other, can come up |
| Worker.RepairWorker.Swap | src/repair/worker.rs:312-371 | a swap of the worker is the store's, under whatever others did first |
| Worker.RepairWorker.OnAdvance | src/repair/worker.rs:312-383 | the advance is recorded, and only after others' writes and this one is the lease renewed; undisturbed, the store ends where the write and the renewal put it, the log grows by exactly those calls and the job goes on one rank up, stops or is lost as the renewal and the new state say |
| Worker.RepairWorker.OnRewind | src/repair/worker.rs:385-415 | the rewind is recorded; undisturbed, the store ends where it puts it and the job goes on at `staged` |
| Worker.RepairWorker.RenewLease | src/repair/worker.rs:494-513 | an error is not a loss; a lost lease is one renewed by nobody |
| Worker.RepairWorker.DriveOnce | src/repair/worker.rs:300-455 | one iteration under interference records the step's write; undisturbed, store, log and what happens next are determined by the outcome; the summary counts exactly it |
| Worker.RepairWorker.Drive | src/repair/worker.rs:284-492 | the tables end where the logged calls put them, the worker's own being steps and renewals of this job, the first its first step, and one release unless the lease was lost; undisturbed, the calls are exactly those of the step-by-step run (what they leave in the row is `DriveEnds`), and the bound is reached only after at least three rewinds |
| DriveEnds.DriveToEnd | src/repair/worker.rs:417-492 | what an undisturbed drive of one step that moves nothing leaves in the job's row and trail: a retry counted and due after now and within the backoff, or parked where the budget ends; a wait with its time and notes; a park with its reason and offers |
| DriveEnds.FailsUntilParked | src/repair/worker.rs:447-469 | drives failing one after another are each counted in the row, one more each time, and exactly the one that exhausts the budget parks the job for that |
| DriveEnds.UnknownUntilParked | src/repair/application/confirm.rs:60-106 | a tracker that keeps not knowing has each answer counted, and exactly the one that makes up the streak parks the job |
| DriveEnds.BackoffDoubles | src/repair/policy.rs:281-293 | the delay doubles with each failure up to the seventeenth, within the cap |
| Callers.WriteIsIssued | src/repair/worker.rs:312-415 | no caller plans a swap out of `completed`, only a cleared tracker answer leads into it, only approving approves |
| Callers.CompletedIsFinal | src/repair/adapters/sqlite.rs:387-401 | in every run of workers, operators and reconcilers a completed job keeps its state and its trail |
| Callers.OnlyClearedCompletes | src/repair/application/confirm.rs:34-58 | a job that completes in a run does so at a step whose tracker answered Cleared |
| Callers.ParkingEndsApproval | src/repair/adapters/sqlite.rs:467-518 | in every run no parked job carries an approval |
| CallerRuns.FreshRunsSkipNothing | src/repair/domain.rs:358-450 | in every run in which operators and corrections go by the resume point a job has then, nothing below a job's rank is missing from its record |
| CallerRuns.FreshCallIsPinned | src/repair/reconcile.rs:133-159 | every caller's write meets the guard then, a startup correction of a parked job included |
| CallerRuns.StaleRetrySkips | src/web/review.rs:32-61 | a run of discovery, steps and operator actions in which a stale retry skips fetching the torrent |
| CallerRuns.ApprovalIsRecent | src/web/review.rs:63-113 | in every run a job approved at the end was approved by an operator since it was last parked |
| CallerRuns.ParkedByMatchingStaysParked | src/repair/application/match_media.rs:81-110 | a torrent of two files or more that matching parks after its fetch is resolved by no sequence of choices |
| OperatorReview.PartialChoiceIsLost | src/web/review.rs:153-231 | a choice leaving another file undecided changes neither plan nor position |
| OperatorReview.ChoicesNeverResolveTwo | src/web/review.rs:153-231 | with two files undecided no sequence of choices ever does |
| OperatorReview.ChoiceResolvesIff | src/web/review.rs:153-231 | a choice completes matching if and only if it is on offer and every other file has a source |
| OperatorLaws.RetryAsks | src/web/review.rs:32-61 | a retry is for parked jobs alone and asks for the move to where they were parked, and nothing else |
| OperatorLaws.ApprovalAsks | src/web/review.rs:63-113 | an approval is for jobs parked for want of one, and says so in the row |
| OperatorLaws.AbandonAsks | src/web/review.rs:234-305 | abandoning is for parked jobs, and with discarding only once the data is gone |
| OperatorLaws.RestartAsks | src/web/review.rs:312-358 | parked and failed jobs start over, their staged data gone first |
| OperatorLaws.ChoicePicksTheOffer | src/web/review.rs:153-231 | a choice gives that file the source the last park on record offered first for it at that place, and leaves the rest of the plan |
| OperatorLaws.PickIsMatched | src/web/review.rs:153-231 | a torrent of one file, parked by matching with several candidates, is matched to the one picked |
| Reality.TargetIsFurthest | src/repair/reconcile.rs:161-198 | with every port answering, the target is the greatest state at or below the old one that reality supports |
| Reality.TargetIsStable | src/repair/reconcile.rs:161-198 | asking again from the target gives the target, even when ports fail |
| Reality.MissingDataGoesBack | src/repair/reconcile.rs:184-216 | a job at `staged` or beyond with a directory and planned files, whose data inspection finds anything but wholly present, goes back to `matched` |
| Reality.MissingTorrentGoesBack | src/repair/reconcile.rs:168-182 | a job at `injected` or beyond whose torrent the client does not have goes back to `staged` or `matched` |
| Reality.OtherwiseStays | src/repair/reconcile.rs:161-216 | nothing else moves a job |
| Reconcile.ReconciledIsAtReality | src/repair/reconcile.rs:100-156 | so every unfinished state and every parked resume point lands there |
| Reconcile.SettledTwice | src/repair/reconcile.rs:35-98 | a second run over the same reality changes no position and adds no audit row |
| Reconcile.Reconciler.ReconcileActionableJob | src/repair/reconcile.rs:100-131 | one unfinished job is settled, to be tried again at once if it moved, its lease left alone, and no other is touched |
| Reconcile.Reconciler.ReconcileParkedJob | src/repair/reconcile.rs:133-159 | one parked job's resume point is settled, and nothing else of its row |
| Reconcile.Reconciler.ReconcileOnStartup | src/repair/reconcile.rs:35-98 | every job is settled once, with exact counts of leases cleared and of jobs looked at and moved |
| Startup.StartUp | src/repair/reconcile.rs:35-216 | inspecting every job's files and reconciling leaves every job that stands, or resumes, at `staged` or beyond with each planned file in its place at its size |
| Client.FakeTorrentClient.AddPaused | src/seeding/adapters/fake.rs:225-255 | a paused torrent with nothing known of its data; adding again is a no-op |
| Client.FakeTorrentClient.Status | src/seeding/adapters/fake.rs:257-309 | a poll runs a check down, a finished one leaves it paused; completeness is live, per-file progress as scripted, and only a check is ever queued |
| Client.FakeTorrentClient.Recheck | src/seeding/adapters/fake.rs:311-330 | starts a check unless one runs |
| Client.FakeTorrentClient.Resume | src/seeding/adapters/fake.rs:332-353 | seeds complete data, downloads incomplete data |
| Client.FakeTorrentClient.Remove | src/seeding/adapters/fake.rs:355-361 | forgets the torrent |
| Client.RecheckTakesPolls | src/seeding/adapters/fake.rs:257-330 | a recheck of n polls is reported running by exactly n of them, and then over with the data as it is |
| LibrarySafety.LibraryIsNeverWritten | src/staging/adapters/local.rs:160-381 | in every run of passes, crashes, steps, rechecks, resumes, discards whole or failing midway, and owner edits, under any policies, one pass per destination at a time: library files hold what their owner last put there, nothing ever downloads, and a strategy is only attempted at a name that does not exist |
| LibrarySafety.ActsKeepNothingDownloads | src/repair/application/confirm.rs:108-148 | the client calls of any lifecycle step told the truth about its torrent start no download |
| LibrarySafety.EventKeepsSafe | src/staging/adapters/local.rs:232-309 | each event keeps the library intact unless a copy opens a name bound to a library file |
| LibrarySafety.PassAloneIsARun | src/staging/adapters/local.rs:232-309 | an uninterrupted pass is the run of its own calls |
| Aliasing.CopyingOrLinkingIsSafe | src/staging/adapters/local.rs:244-309 | passes overlapping at will under a set of policies none of which copies, or none of which comes to hardlinks, write no library file |
| Aliasing.ReplicatingOrLinkingIsReported | src/staging/adapters/local.rs:244-309 | under policies none of which replicates, or none of which comes to hardlinks, a staged file that is a library file is a hardlink to every finished pass, to its row, and to the materialization recorded for any directory it is in |
| Aliasing.AliasedJobsAreHeld | src/repair/policy.rs:147-160 | in such runs incomplete data of a job with a library file in its directory is held as aliased |
| Aliasing.OneAliasMarksTheJob | src/repair/application/stage.rs:96-123 | one hardlinked file makes the job's materialization a hardlink and its incomplete data held as aliased |
| Aliasing.HiddenAliasLooksIncomplete | src/repair/policy.rs:147-160 | an alias reported as anything else leaves incomplete data held as merely incomplete |
| PolicyConflicts.OverlapIsSafeIff | src/staging/adapters/local.rs:331-383 | over a set of policies, every overlapping run on whatever devices keeps the library intact if and only if no policy copies while another comes to hardlinks |
| PolicyConflicts.AliasesAreReportedIff | src/staging/adapters/local.rs:251-264 | every alias is reported as a hardlink if and only if no policy replicates while another comes to hardlinks, and no less is needed one pass at a time |
| PolicyConflicts.OverlappingPoliciesTruncate | src/staging/adapters/local.rs:371-381 | for any two such policies, a run from an initial system that truncates a library file |
| PolicyConflicts.ChangedPolicyHidesAlias | src/staging/adapters/local.rs:251-264 | for any two such policies, a run from an initial system, one pass at a time, in which a library file is reported as the copy or clone once staged there |
| StagingPass.CopiesArePredictedIff | src/staging/adapters/local.rs:432-456 | the predicted cost covers every copy a pass can make if and only if no copy can be reached past a workable link |
| StagingPass.PolicyOrdersPredict | src/repair/policy.rs:59-73 | no order the policy gives allows that |
| LocalStagingFs.LocalStaging.ProbeDevices | src/staging/adapters/local.rs:504-533 | what a probe would find, one attempt per device pair ever |
| LocalStagingFs.LocalStaging.Predict | src/staging/adapters/local.rs:432-456 | the cost of the first viable strategy |
| LocalStagingFs.LocalStaging.RequiredNewBytes | src/staging/adapters/local.rs:387-421 | the sum of what the items would newly write, which `NeededIsWritten` spells out |
| LocalStagingFs.LocalStaging.NeededIsWritten | src/staging/adapters/local.rs:387-456 | that sum is the lengths of the items not there yet for which no link or clone their device allows comes before copying |
| StagingPass.CostWritten | src/staging/adapters/local.rs:432-456 | a file is counted in full exactly when no workable link or clone is tried before copying |
| LocalStagingFs.LocalStaging.CopyFile | src/staging/adapters/local.rs:371-381 | a new inode with the source's bytes, or a fault; never more than its length spent at any moment; with no call failing it succeeds if and only if there is room |
| LocalStagingFs.LocalStaging.Attempt | src/staging/adapters/local.rs:331-383 | a clone, a link or a copy of the source; only an unavailable strategy lets the next be tried; with no call failing the result is fixed by the devices and the room |
| LocalStagingFs.LocalStaging.MaterializeOne | src/staging/adapters/local.rs:232-309 | is a run of the pass machine; a right-sized file is left alone; nothing that existed is written to; success means the source's bytes are there, shared only by a hardlink; with no call failing the result is fixed by what is there, the source, the first viable strategy and the room |
| LocalStagingFs.LocalStaging.Materialize | src/staging/adapters/local.rs:79-135 | refused if and only if what has to be written out (for copies alone, the lengths of all items; for items already there, nothing) is more than zero and does not leave the space to keep; otherwise, even failing midway, that space was kept at every moment, files staged before stay, and only destinations are rebound; on success each item is the file it was, reported as recorded, or has its source's bytes, as that very file exactly when reported as a hardlink; with no call failing it succeeds if and only if it fits and every item can be staged, each by its first viable strategy |
| LocalStagingFs.LocalStaging.PoliciesArePredictable | src/repair/policy.rs:59-73 | the space guarantee covers every policy |
| LocalStagingFs.LocalStaging.Inspect | src/staging/adapters/local.rs:137-158 | wholly present if and only if there are items and all are there at their size |
| LocalStagingFs.LocalStaging.Discard | src/staging/adapters/local.rs:160-184 | nothing but names below the directory goes; on success they all did, and with no call failing it succeeds |
| StageStep.StageMatched | src/repair/application/stage.rs:21-123 | the step's outcome for what staging answered; advancing means every planned file is on disk, as it was or with its library file's bytes, with how it got there on record for each and the riskiest way for the job, library names untouched; with no call failing it advances if and only if there is a strategy, a source for each file, room, and a way to stage each; with copying alone, it parks for space exactly when the lengths and the space to keep exceed what is free, and else advances |
| Bencode.IntegersAreCanonical | src/torrent/adapters/bencode.rs:278-292 | a text is read as n if and only if it is the one spelling of n and n fits 64 bits |
| Bencode.LengthsAreCanonical | src/torrent/adapters/bencode.rs:294-303 | the same for lengths |
| Inspect.DigitsAreAscii | src/torrent/adapters/bencode.rs:278-303 | numbers are spelled in decimal |
| Inspect.ValuesAsText | src/torrent/adapters/bencode.rs:258-342 | one value of each kind, written out |
| Bencode.PrefixCode | src/torrent/adapters/bencode.rs:258-357 | no document's print is a proper prefix of another's |
| BencodeParser.Parser.TakeUntil | src/torrent/adapters/bencode.rs:346-357 | the number text up to the delimiter, or there is none |
| BencodeParser.Parser.ParseInt | src/torrent/adapters/bencode.rs:278-292 | succeeds exactly where a 64-bit integer's print starts |
| BencodeParser.Parser.ParseBytes | src/torrent/adapters/bencode.rs:294-314 | succeeds exactly where a byte string's print starts |
| BencodeParser.Parser.ParseList | src/torrent/adapters/bencode.rs:316-326 | the same for lists, every element spanning its print |
| BencodeParser.Parser.ParseDict | src/torrent/adapters/bencode.rs:328-342 | the same for dictionaries, keys in any order |
| BencodeParser.Parser.ParseNode | src/torrent/adapters/bencode.rs:258-276 | the same for any document within the nesting limit |
| BencodeParser.Parse | src/torrent/adapters/bencode.rs:235-237 | succeeds if and only if some fitting document's print starts the input, returns that document whatever follows, and prints every node of it to the bytes of its span |
| SafePath.FromComponents | src/torrent/path.rs:49-66 | the first rejection in order, else the joined path |
| SafePath.ParsePath | src/torrent/path.rs:69-74 | absolute paths refused, else as from components |
| SafePath.PlainIs | src/torrent/path.rs:128-178 | a component is plain if and only if it has 1 to 255 bytes, is neither dot nor dots, and holds no separator and no control character |
| SafePath.RejectionIs | src/torrent/path.rs:128-178 | which report each other component gets |
| SafePath.RefusedForTheFirst | src/torrent/path.rs:49-66 | a list is refused for its first component that is not plain |
| SafePath.AcceptedSplits | src/torrent/path.rs:49-66 | accepted if and only if there are components and all are plain, and the path splits back into them |
| SafePath.DistinctListsDistinctPaths | src/torrent/path.rs:49-66 | different component lists never give the same path |
| SafePath.ParseKeepsText | src/torrent/path.rs:118-126 | a path that parses is stored as it came |
| SafePath.NestingStaysSafe | src/torrent/path.rs:83-85 | nesting is total, stays accepted and concatenates the components |
| SafePath.SafePathsStayBelow | src/torrent/path.rs:91-95 | walked from any root, an accepted path ends strictly below it, and different paths at different places |
| Inspect.InspectTorrent | src/torrent/adapters/bencode.rs:58-109 | succeeds if and only if the input is within the size limit and starts with a document describing a well-formed torrent, and then gives its name, piece length and pieces, file by file in listed order its length and its components under the name, and the hash of the print of the first `info`; a torrent whose paths alone are unsafe is refused for the first unsafe component |
| Inspect.MetadataTells | src/torrent/adapters/bencode.rs:90-109 | every field of the metadata, index by index, is what the document says |
| Inspect.FlattenIs | src/torrent/adapters/bencode.rs:112-130 | piece i is the twenty bytes from byte 20 i on |
| Utf8.Utf8IsEncoded | src/torrent/adapters/bencode.rs:172-177 | bytes are accepted as text if and only if they encode some Unicode scalar values |
| Utf8.ControlsAreCharacters | src/torrent/path.rs:153-157 | the control bytes refused are the control characters, wherever they stand |
| Inspect.WrittenIsRead | src/torrent/adapters/bencode.rs:58-191 | a written metainfo dictionary is that torrent, whatever other keys surround it or stand among the ones read, and whatever bytes follow it |
| Inspect.FileRead | src/torrent/adapters/bencode.rs:150-170 | a described file decodes to its length and its path under the torrent's name |
| Inspect.FileRecovered | src/torrent/adapters/bencode.rs:150-170 | a file that decodes was described so |
| Inspect.ComponentsRead | src/torrent/adapters/bencode.rs:161-177 | path components decode if and only if they are UTF-8 byte strings, to those |
| Inspect.ChunksFlatten | src/torrent/adapters/bencode.rs:112-130 | the flat piece string comes apart into the 20-byte hashes it was made of |
| Inspect.FlattenChunks | src/torrent/adapters/bencode.rs:112-130 | and the chunks put together are the string |
| Pieces.FilesTile | src/library/verification.rs:41-44 | every byte of the torrent lies in exactly one file |
| Pieces.PiecesTile | src/library/verification.rs:50-54 | and in exactly one piece |
| Pieces.PieceBounds | src/library/verification.rs:50-54 | pieces are non-empty, adjoin, and the last ends at the end |
| Pieces.PiecesWithinExact | src/library/verification.rs:63-75 | ascending, and exactly the pieces lying inside the file |
| Pieces.PieceBelongsToOneFile | src/library/verification.rs:56-75 | no piece is checkable against two files, and none exactly when a file boundary cuts it |
| Pieces.LongFileHasPiece | src/library/verification.rs:63-75 | a file of at least twice the piece length less one has a piece of its own |
| Pieces.ShorterFileMayHaveNone | src/library/verification.rs:63-75 | one byte less is not enough, for any piece length |
| Pieces.SelectionIsSpread | src/library/verification.rs:82-97 | more pieces than the count: exactly that many, ascending, first and last included, none deduplicated |
| Pieces.SpreadGap | src/library/verification.rs:90-95 | consecutive choices lie floor or ceiling of the even step apart |
| Pieces.SelectionIsAvailable | src/library/verification.rs:82-97 | only available pieces, all of them when there are no more than the count, and some whenever there are any and the count is positive |
| Pieces.SingleCheckIsFirst | src/library/verification.rs:82-97 | a count of one looks at the first piece only |
| Pieces.SelectionSize | src/library/verification.rs:82-97 | as many pieces as there are or as were asked for, whichever is less |
| Pieces.FilesAdjoin | src/library/verification.rs:41-44 | files follow each other from byte zero without gaps, each as long as it says |
| TorrentOrder.RangesAgreeIffInPathOrder | src/repair/adapters/sqlite.rs:429-442 | ranges over the files as read back agree with the torrent's if and only if it lists its non-empty files by path |
| TorrentOrder.MisorderedTorrentMisjudges | src/repair/application/match_media.rs:49-55 | two files for which they do not: which pieces each is given, and that the genuine bytes of one hash as the other's piece does not |
| Matching.PlanMatches | src/library/matching.rs:18-89 | the plan is that of the files' verdicts in order |
| Matching.VerdictIff | src/library/matching.rs:41-86 | matched if and only if one right-sized candidate alone has the name, or there is only one; the choice is right-sized, `Probable` exactly with the name, never more |
| Matching.NamesAgreeIffSameWords | src/library/matching.rs:97-117 | names agree if and only if their stems spell the same words |
| Matching.FoldsAlike | src/library/matching.rs:97-117 | two names fold alike if and only if they look alike character by character: the same, but for case and what separates words |
| Matching.RenamedAgree | src/library/matching.rs:97-117 | names that look alike but for their extensions agree |
| Matching.WantedIs | src/library/matching.rs:21-29 | the name wanted is the last component of the torrent's path |
| Matching.RejectedAre | src/library/matching.rs:41-89 | an undecided file offers exactly its right-sized candidates, by path |
| Matching.PlanForgetsOrder | src/library/matching.rs:18-89 | what is matched never depends on the candidates' order, nor does the whole plan when their paths differ |
| Matching.PlanPlacesEveryFile | src/library/matching.rs:18-89 | every file is placed once, matched or not, in order |
| Matching.SameFileTwiceIsAmbiguous | src/repair/application/match_media.rs:66-79 | one library file found twice is never matched, found once it is |
| Verification.CheckMatch | src/library/verification.rs:201-247 | every chosen piece is read and hashed in order up to the first that fails or cannot be read, each recorded as it hashed, and a stop short of the end has that reason |
| Verification.VerifyRound | src/library/verification.rs:189-254 | every match is checked until some piece fails; done means nothing failed and exactly the fully checked matches are listed; retry names exactly the sources that failed |
| Verification.VerifyMatches | src/library/verification.rs:131-177 | unless verification is skipped the run is a history of rounds, at most candidates plus one, each the round of the plan on the survivors so far, all but the last rejecting and the last not; its plan has exactly the fully checked matches raised, the rest stopped at a piece that could not be read |
| Verification.ExactIffFullyChecked | src/library/verification.rs:162-172 | `Exact` if and only if some piece was chosen and every chosen one passed |
| Verification.ExactMeansPassed | src/library/verification.rs:131-177 | in every run an `Exact` match has pieces inside its file, and of at most the count of them every one read from its source, hashed as the torrent says and on record as passed; of more, the first and the last |
| Verification.DropRejected | src/library/verification.rs:162-165 | a rejected round leaves strictly fewer candidates, those no check spoke against |
| Verification.ReadableMatchIsExact | src/library/verification.rs:162-247 | in every run whose reads all answer, every match with a piece of its own ends `Exact` |
| Verification.GenuineMatchIsExact | src/library/verification.rs:162-247 | so does a genuine file matched to its own place |
| Verification.GenuineIsLostIff | src/library/verification.rs:162-165 | a run over a library file alone, holding the bytes of one of the torrent's files, drops it if and only if another file of its length is checked by a piece whose bytes differ from its own in that place, no two stretches of the torrent's bytes colliding |
| Verification.UnmistakableIsNeverLost | src/library/verification.rs:162-165 | otherwise no run over any candidates drops it, whatever reads fail and whatever collides |
| Verification.BytesAreLostIff | src/library/verification.rs:131-177 | any readable file is dropped by a run over it alone if and only if some chosen piece of a file of its size does not hash as the torrent says |
| Verification.MatchingIsNeverLost | src/library/verification.rs:131-177 | a candidate whose every read hashes right, for whatever file of its size, is dropped by no run |
| Verification.DistinctLengthsLoseNothing | src/library/verification.rs:162-165 | with pairwise different lengths no run over any candidates and reads drops a candidate genuine for a file |
| Verification.EqualFilesMayBeLost | src/library/verification.rs:162-165 | two files of one piece each with different hashes: every run over a file with the bytes of one drops it |
| Verification.MisorderedTorrentLosesGenuine | src/repair/application/match_media.rs:49-55 | a torrent listing its files out of path order, in which nothing can be mistaken, read back by path: every run over a file with the bytes of one drops it |
| Verification.RejectionIsGlobal | src/library/verification.rs:162-165 | one candidate of the right size for two files is matched to both by the planner, and once a check speaks against it to neither |
| CandidateSources.MatchOverSources | src/repair/application/match_media.rs:62-110 | a plan is made unless nothing was found and some source did not answer; it is a verification run over everything found, with no returned source failed |
| CandidateSources.UnionHas | src/repair/application/match_media.rs:62-80 | the union holds exactly what some source that answered found |
| Polling.DelayFor | src/repair/policy.rs:231-243 | the loop computes the capped doubling |
| Polling.DelayIsFirstLonger | src/repair/policy.rs:226-243 | the delay is the first doubling of the base longer than what has passed, within the cap |
| Polling.DelayBounds | src/repair/policy.rs:226-243 | the delay stays between base and cap and never shortens |
| Polling.PollsBackOff | src/repair/policy.rs:226-243 | the k-th poll comes no earlier than (2^k - 1) times the base |
| Polling.RampIsLeast | src/repair/policy.rs:226-243 | the ramp is the least number of doublings that reaches the cap |
| Polling.EndlessCheckIsGivenUp | src/repair/application/verify.rs:118-148 | a sequence of steps that find one check, with a recorded start, still running, at `rechecking` or at `verified`, is at most ramp plus ceil(timeout / cap) plus one long, however late each comes |
| Polling.StepsMakePollRun | src/repair/application/verify.rs:129-148 | each such step waits and comes back no earlier than the schedule asks, counted from the recorded start |
| Polling.UnrecordedStartIsNeverOverdue | src/repair/policy.rs:245-255 | a running check with no recorded start waits, unless no time is allowed at all, and records none |
| Polling.UnrecordedStartWaitsForever | src/repair/policy.rs:245-255 | so it can be polled any number of times and wait each time |
| Polling.RunningCheckWaitsOrParks | src/repair/application/verify.rs:129-148 | a running check is parked exactly when overdue, else polled again after at least the schedule's delay |
| Paging.OrderedRows | src/repair/adapters/sqlite.rs:80-122 | the rows behind a page are exactly those matching after the cursor, strictly in scan order |
| Paging.PrecedesIs | src/repair/adapters/sqlite.rs:80-122 | scan order on the columns: the sort column in the scan's direction, ties by id in the same |
| Paging.PageIs | src/repair/adapters/sqlite.rs:248-270 | a page that resumes after a row holds matching rows behind it, in order, at most the limit, and fewer only when none is left out |
| Paging.ResumesWhereItLeft | src/repair/adapters/sqlite.rs:88-111 | resuming after a row gives exactly what follows it |
| Paging.FetchAll | src/web/api/jobs.rs:166-196 | on a fixed table the pages of any limit put together are the one-shot query |
| Paging.NoRowTwice | src/repair/adapters/sqlite.rs:80-111 | whatever is written between pages, no row is served twice by a scan, ended or not, as long as no write moves one ahead of it |
| Paging.UntouchedRowOnce | src/repair/adapters/sqlite.rs:80-111 | a matching row nothing touches is on exactly one page of a scan that ends |
| Paging.DescendingNeedsNoLowering | src/repair/ports.rs:76-79 | descending, never lowering the sort column is enough |
| Paging.AscendingServesTwice | src/repair/adapters/sqlite.rs:116-118 | ascending by update time, a touched row is served again |
| Paging.NeverRepeatsIff | src/repair/ports.rs:76-79 | with writes that keep creation times and never lower update times, no row is served twice if and only if the scan is descending or goes by creation time |
| Paging.StoreWritesAreHonest | src/repair/adapters/sqlite.rs:150-706 | whatever the store writes between the pages keeps creation times and never lowers update times, as long as the clock does not go back |
| ConfigTree.ConfigDocument.NavigateExisting | src/config/write.rs:110-130 | the walk finds the table a path leads to and creates nothing |
| ConfigTree.ConfigDocument.GetItem | src/config/write.rs:292-300 | the item under a dotted key |
| ConfigKeys.SegmentsOfWritten | src/config/write.rs:100-108 | a key written with dots between its segments comes apart into them |
| ConfigKeys.SegmentsSpell | src/config/write.rs:100-108 | any key is its segments' texts with dots between, none of which holds a dot |
| ConfigKeys.IndexIs | src/config/write.rs:100-108 | a part is a row number if and only if it is all digits, a plus allowed, worth that number and within 64 bits |
| ConfigTree.ConfigDocument.SetValue | src/config/write.rs:304-312 | the walk that creates tables and pads rows and the insertion at its end give the document with the value set, or the clash that panics |
| ConfigTree.ConfigDocument.NavigateCreate | src/config/write.rs:161-198 | the walk down, creating and padding, reaches the table a set goes into, with the tables left on the way |
| ConfigTree.ConfigDocument.NavigateExistingMut | src/config/write.rs:132-155 | the walk that creates nothing reaches the table a removal goes into, or none and the removal does nothing |
| ConfigTree.ConfigDocument.RemoveKey | src/config/write.rs:322-330 | the document with the key removed |
| ConfigTree.ConfigDocument.AddRow | src/config/write.rs:335-346 | one blank row more, and its index |
| ConfigTree.ConfigDocument.DropRow | src/config/write.rs:357-365 | one row less, or the missing row that panics |
| ConfigTree.GetAfterSet | src/config/write.rs:292-312 | what was set is what is read |
| ConfigTree.GetElsewhereAfterSet | src/config/write.rs:161-198 | keys neither prefix nor extension of it read as before, whatever tables were created and rows padded |
| ConfigKeys.SetGrowsRows | src/config/write.rs:161-198 | setting a key in a row makes the section exactly long enough for the row, and touches no other |
| ConfigTree.SettingAgain | src/config/write.rs:304-312 | the last value wins, and setting what is there changes nothing |
| ConfigTree.RemoveLaws | src/config/write.rs:322-330 | a removed key is absent, diverging keys read as before, removing an absent key does nothing |
| ConfigTree.PushedRow | src/config/write.rs:335-346 | the pushed row is last and blank, every other reads as before |
| ConfigTree.RemovedRow | src/config/write.rs:357-365 | later rows move down by one, earlier ones stay |
| ConfigTree.PushThenRemove | src/config/write.rs:335-365 | a row pushed and removed again leaves a document that had the section as it was |

## Left out

- HTTP adapters for trackers, qBittorrent and the *arr applications, notifications, web pages, metrics, health and events: their answers are parameters, or nothing modelled depends on them.
- SHA-1, SQL text, TOML syntax, comments and key order in the configuration file, file saving and secrets; inline tables are tables like any other.
- Audit rows carry their detail JSON only as far as the candidates offered for a choice.
- LibrarySafety.LibraryIsNeverWritten: assumes that data does not change between a step's status read and its resume call, that staging holds no symlinks and is disjoint from the library, and that nobody else links staged files into the library; real client progress, messages and queueing are arbitrary.
- PolicyConflicts.AliasesAreReportedIff: takes "devices" as what the probe finds (a link works on one device, a clone there or nowhere), not `statvfs` or device numbers.
- LocalStagingFs.LocalStaging.Materialize: the library owner, other passes and other disk users do not act during the call, and sums of sizes stay below 2^64; interleavings of single passes are covered by `LibrarySafety` and `Aliasing`.
- LocalStagingFs.LocalStaging.Discard: directories themselves and symlinks below the staging root are not modelled.
- LocalStagingFs.LocalStaging.ProbeDevices: the probe's own scratch files are not modelled.
- StagingPass.CopiesArePredictedIff: speaks of strategies reached, with a source that keeps its size.
- Steps name the torrent a client call is about; the save path and the torrent file handed over with an injection are not part of it.
- LocalStagingFs.LocalStaging.RequiredNewBytes: a clone that is removed is taken to give back all its bytes, though the filesystem may share them; the guarantees on free space do not count on what comes back.
- Client.FakeTorrentClient.Status: leaves out the save path and the error message, which no decision looks at.
- Policy.TrackerPollDelay: where the configured floor exceeds the plain interval and a deadline lies ahead the original panics; the model answers the floor.
- Worker.RepairWorker.Drive: takes the order of claimed jobs, ticks and shutdown signals from `Moment`; cross-owner mutual exclusion by leases is not claimed, since a step may outlive its lease.
- Protocol.RunSkipsNothing: asks that operator retries, choices and resume-point corrections are pinned when they are written, which the code does not check; `CallerRuns.StaleRetrySkips` shows why.
- OperatorReview.ChoicesNeverResolveTwo: bulk actions are not modelled, being one action per job.
- Inspect.InspectTorrent: paths are byte strings checked to be UTF-8 here and plain text everywhere else; the one is not decoded into the other. Stack depth and allocation are not modelled.
- Verification.GenuineIsLostIff: files keep their bytes during a run; SHA-1 is any function without collisions between stretches of the one torrent.
- Verification.VerifyMatches: expects distinct torrent paths, on which the plan table is keyed, and sums of lengths below 2^64.
- Matching.PlanMatches: path comparison is by components, text comparison by code points.
- Paging.FetchAll: timestamps are instants rather than their fixed-width text, and the filter is any predicate on rows rather than its SQL.
- Polling.EndlessCheckIsGivenUp: durations are unbounded; saturation beyond the cap cannot show.
- ConfigTree.ConfigDocument.SetValue: walks down over values and rebuilds the tables on the way back up, so aliasing of the reference the original walks with is not captured; a panic is a refused edit.
- ConfigTree.ConfigDocument.RemoveKey: likewise.
- `discover`, tracker discovery, `usage`, job counts, dashboards and the search syntax: easy members.
