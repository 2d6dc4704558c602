/**
 * What a drive of one step leaves in the job's row, and what becomes of a job whose port keeps
 * failing or whose tracker cannot tell (src/repair/worker.rs).
 */
module DriveEnds {
  import opened Prelude
  import opened Lifecycle
  import opened JobModel
  import opened MatchModel
  import opened Policy
  import opened Table
  import opened Protocol
  import opened Callers
  import opened Worker
  import opened Faultless
  import Steps

  /** The longest a job waits after this many failures. */
  function Backoff(failures: nat, policy: SafetyPolicy): nat { Max(1, RetryDelay(failures, policy)) }

  /** The delay doubles with each failure up to the seventeenth, within the cap, and then stays. */
  lemma BackoffDoubles(failures: nat, policy: SafetyPolicy)
    ensures RetryDelay(0, policy) == RetryDelay(1, policy) == Min(policy.retryBaseDelay, policy.retryMaxDelay)
    ensures 1 <= failures <= 16 ==>
              RetryDelay(failures + 1, policy) == Min(2 * RetryDelay(failures, policy), policy.retryMaxDelay)
    ensures failures >= 17 ==> RetryDelay(failures, policy) == RetryDelay(17, policy)
  {
    assert Doubled(policy.retryBaseDelay, 0) == policy.retryBaseDelay;
  }

  /** Parked by the step: for this reason, to resume where it was, with the offers on record. */
  predicate ParkedAs(before: Row, after: Row, reason: ReviewReason) {
    && after.state == AwaitingReview && after.reviewFrom == Some(before.state) && after.reviewReason == Some(reason)
    && after.attempts == 0 && after.nextAttemptAt == None && !after.data.resumeApproved
  }

  /** The same job, whoever holds it, however often it was tried and whenever it is due. */
  predicate SameJob(before: Row, after: Row) {
    after == before.(attempts := after.attempts, nextAttemptAt := after.nextAttemptAt, leaseOwner := after.leaseOwner,
                     leaseExpiresAt := after.leaseExpiresAt, updatedAt := after.updatedAt)
  }

  /** One more failure, and not before a while. */
  predicate Failed(before: Row, after: Row, w: Steps.World) {
    && SameJob(before, after) && after.attempts == before.attempts + 1
    && after.nextAttemptAt.Some?
    && w.now < after.nextAttemptAt.value <= w.now + Backoff(before.attempts + 1, w.policy)
  }

  /** What an undisturbed drive ending after its first step makes of the row it began with. */
  ghost predicate EndsAs(t: Tables, u: Tables, job: Job, w: Steps.World)
    requires job.id in t.trail
  {
    && job.id in u.rows && job.id in u.trail && u.rows[job.id].leaseOwner == None
    && var row := u.rows[job.id];
       match Steps.Step(job, w).outcome
       case Retry =>
         if job.row.attempts + 1 < w.policy.maxAttempts then
           Failed(job.row, row, w) && u.trail[job.id] == t.trail[job.id]
         else
           && ParkedAs(job.row, row, RetryBudgetExhausted)
           && u.trail[job.id]
              == t.trail[job.id] + [Record(job.row.state, AwaitingReview, ReviewAudit, [], w.now)]
       case Wait(after, patch) =>
         && SameJob(job.row.(data := PatchScalars(job.row.data, patch)), row)
         && row.attempts == job.row.attempts && row.nextAttemptAt == Some(w.now + after)
         && u.trail[job.id] == t.trail[job.id]
       case Park(reason, offers, patch) =>
         && ParkedAs(job.row, row, reason)
         && u.trail[job.id]
            == t.trail[job.id] + [Record(job.row.state, AwaitingReview, ReviewAudit, offers, w.now)]
       // An advance the database refuses counts as a failure, whatever the budget.
       case Advance(_) => Failed(job.row, row, w) && u.trail[job.id] == t.trail[job.id]
       case Rewind(_) => true
  }

  /** A step that does not move the job. */
  predicate Stays(t: Tables, job: Job, w: Steps.World) {
    match Steps.Step(job, w).outcome
    case Rewind(_) => false
    case Advance(_) => !Advances(t, job, w)
    case _ => true
  }

  lemma {:induction false} RefusedEnds(
    t: Tables, owner: string, lease: Time, job: Job, w: Steps.World, later: Time, patch: JobPatch)
    requires job.id in t.rows && t.rows[job.id] == job.row && job.id in t.trail
    requires Steps.Step(job, w).outcome == Steps.Advance(patch) && !Advances(t, job, w)
    ensures var u := After(t, QuietCalls(t, owner, lease, job, w));
            var next := QuietNext(t, u, owner, job, w);
            next.Halt? && EndsAs(t, Do(u, LetGo(job.id, next.stop, later).bookkeeping), job, w)
  {
    AdvanceIsPlanned(job, w);
    QuietAdvanceRefused(t, owner, lease, job, w, patch);
    JitterSpreads(job.row.attempts + 1, w.policy,
                  RetryDelayWithJitter(job.row.attempts + 1, w.policy, w.jitter));
    hide Steps.Step, After, QuietCalls, QuietNext, RetryDelay, Advances;
  }

  lemma {:induction false} RetryEnds(t: Tables, owner: string, lease: Time, job: Job, w: Steps.World, later: Time)
    requires job.id in t.rows && t.rows[job.id] == job.row && job.id in t.trail && job.row.state.IsActionable()
    requires Steps.Step(job, w).outcome == Steps.Retry
    ensures var u := After(t, QuietCalls(t, owner, lease, job, w));
            var next := QuietNext(t, u, owner, job, w);
            next.Halt? && EndsAs(t, Do(u, LetGo(job.id, next.stop, later).bookkeeping), job, w)
  {
    QuietRetry(t, owner, lease, job, w);
    AfterOne(t, Works(job, w));
    JitterSpreads(job.row.attempts + 1, w.policy,
                  RetryDelayWithJitter(job.row.attempts + 1, w.policy, w.jitter));
    hide Steps.Step, After, QuietCalls, QuietNext, RetryDelay;
  }

  lemma {:induction false} WaitEnds(
    t: Tables, owner: string, lease: Time, job: Job, w: Steps.World, later: Time, after: int, patch: JobPatch)
    requires job.id in t.rows && t.rows[job.id] == job.row && job.id in t.trail
    requires Steps.Step(job, w).outcome == Steps.Wait(after, patch)
    ensures var u := After(t, QuietCalls(t, owner, lease, job, w));
            var next := QuietNext(t, u, owner, job, w);
            next.Halt? && EndsAs(t, Do(u, LetGo(job.id, next.stop, later).bookkeeping), job, w)
  {
    QuietWait(t, owner, lease, job, w, after, patch);
    hide Steps.Step, After, QuietCalls, QuietNext;
  }

  lemma {:induction false} ParkEnds(t: Tables, owner: string, lease: Time, job: Job, w: Steps.World, later: Time)
    requires job.id in t.rows && t.rows[job.id] == job.row && job.id in t.trail
    requires Steps.Step(job, w).outcome.Park?
    ensures var u := After(t, QuietCalls(t, owner, lease, job, w));
            var next := QuietNext(t, u, owner, job, w);
            next.Halt? && EndsAs(t, Do(u, LetGo(job.id, next.stop, later).bookkeeping), job, w)
  {
    AfterOne(t, Works(job, w));
    ParksPlainly(job, w);
    hide Steps.Step, After;
  }

  /** Only actionable jobs are parked, without a new plan and without an approval. */
  lemma ParksPlainly(job: Job, w: Steps.World)
    requires Steps.Step(job, w).outcome.Park?
    ensures job.row.state.IsActionable()
    ensures Steps.Step(job, w).outcome.patch.files.None? && Steps.Step(job, w).outcome.patch.resumeApproved.None?
  {
  }

  /** An undisturbed drive whose first step does not move the job leaves exactly that in the row. */
  lemma {:induction false} DriveEndsAs(t: Tables, owner: string, lease: Time, job: Job, at: nat -> Moment)
    requires job.id in t.rows && t.rows[job.id] == job.row && job.id in t.trail && job.row.state.IsActionable()
    requires AllQuiet(at)
    requires Stays(t, job, at(0).world)
    ensures EndsAs(t, After(t, QuietRun(t, owner, lease, job, at, 0)), job, at(0).world)
  {
    var w, later := at(0).world, at(1).world.now;
    var calls := QuietCalls(t, owner, lease, job, w);
    var u := After(t, calls);
    var next := QuietNext(t, u, owner, job, w);
    match Steps.Step(job, w).outcome {
      case Retry => RetryEnds(t, owner, lease, job, w, later);
      case Wait(after, patch) => WaitEnds(t, owner, lease, job, w, later, after, patch);
      case Park(_, _, _) => ParkEnds(t, owner, lease, job, w, later);
      case Advance(patch) => RefusedEnds(t, owner, lease, job, w, later, patch);
      case Rewind(_) =>
    }
    RunUnfolds(t, owner, lease, job, at, 0, calls, u, next);
    hide Steps.Step, QuietCalls, QuietNext, QuietRun, EndsAs;
    AfterSnoc(t, calls, LetGo(job.id, next.stop, later));
    hide After;
  }

  // ---- A port that keeps failing --------------------------------------------------------------------

  lemma RetriesWhateverTheSchedule(job: Job, other: Job, w: Steps.World)
    requires other.id == job.id && SameJob(job.row, other.row)
    ensures Steps.Step(job, w).outcome == Steps.Retry <==> Steps.Step(other, w).outcome == Steps.Retry
  {
  }

  /** How often the job may still fail before it is parked, the last time included. */
  function Budget(row: Row, most: nat): nat { Max(1, most - row.attempts) }

  /** An undisturbed drive of one step, put in terms of the row. */
  method DriveToEnd(worker: RepairWorker, job: Job, at: nat -> Moment)
    requires Consistent(worker.store.Contents()) && worker.Fresh(job) && AllQuiet(at)
    requires Stays(worker.store.Contents(), job, at(0).world)
    modifies worker, worker.store
    ensures Consistent(worker.store.Contents())
    ensures job.id in old(worker.store.Contents()).trail
    ensures EndsAs(old(worker.store.Contents()), worker.store.Contents(), job, at(0).world)
  {
    ghost var t := worker.store.Contents();
    assert TrailFor(t, job.id);
    DriveEndsAs(t, worker.owner, worker.lease, job, at);
    QuietMoments(at);
    assert SchemaAdmits(job);
    hide EndsAs, QuietRun, Consistent, Stays, TrailFor;
    var summary, ending := worker.Drive(job, at, TickSummary(0, 0, 0, 0, 0));
  }

  /** Nobody disturbs the drive, and some port the job's step asks does not answer; it may fail `most` times. */
  ghost predicate KeepsFailing(start: Job, at: nat -> Moment, most: nat) {
    && AllQuiet(at) && at(0).world.policy.maxAttempts == most
    && Steps.Step(start, at(0).world).outcome == Steps.Retry
  }

  /** The row as it began, but for `n` failures more. */
  predicate FailedRow(start: Row, row: Row, n: nat) { SameJob(start, row) && row.attempts == start.attempts + n }

  /** The job as it began, but for `n` failures more. */
  ghost predicate FailedTimes(start: Job, t: Tables, n: nat) {
    && Consistent(t) && start.id in t.rows
    && FailedRow(start.row, t.rows[start.id], n)
  }

  /** One drive of the job after `n` failures: one more, or the end of the budget. */
  method FailsAgain(worker: RepairWorker, start: Job, at: nat -> Moment, ghost n: nat, ghost most: nat)
    returns (parked: bool)
    requires FailedTimes(start, worker.store.Contents(), n) && start.row.state.IsActionable()
    requires KeepsFailing(start, at, most)
    modifies worker, worker.store
    ensures Consistent(worker.store.Contents()) && start.id in worker.store.rows
    ensures parked <==> start.row.attempts + n + 1 >= most
    ensures if parked then ParkedAs(start.row, worker.store.rows[start.id], RetryBudgetExhausted)
            else FailedTimes(start, worker.store.Contents(), n + 1)
  {
    var job := Job(start.id, worker.store.rows[start.id]);
    RetriesWhateverTheSchedule(start, job, at(0).world);
    ghost var t := worker.store.Contents();
    hide Steps.Step, Consistent, AllQuiet;
    DriveToEnd(worker, job, at);
    parked := worker.store.rows[start.id].state == AwaitingReview;
  }

  method ClaimAgain(worker: RepairWorker, start: Job, expires: Time, ghost n: nat)
    requires FailedTimes(start, worker.store.Contents(), n)
    modifies worker.store
    ensures FailedTimes(start, worker.store.Contents(), n)
  {
    var claim := Claiming({start.id}, worker.owner, expires);
    StepKeepsConsistent(worker.store.Contents(), claim);
    OneWrite(worker.store.Contents(), claim);
    hide Consistent, Run;
    worker.store.Meanwhile([claim]);
  }

  /**
   * A job some port keeps failing is tried again and again, each failure counted, and parked for
   * good with its budget exhausted on exactly the last the budget allows; between the drives it is
   * only claimed.
   */
  method FailsUntilParked(
    worker: RepairWorker, start: Job, drives: nat -> nat -> Moment, expires: nat -> Time, ghost most: nat)
    returns (n: nat, ghost counted: seq<Row>)
    requires Consistent(worker.store.Contents()) && worker.Fresh(start)
    requires forall k :: KeepsFailing(start, drives(k), most)
    modifies worker, worker.store
    ensures n == Budget(start.row, most) == |counted| + 1 && EachCounted(start.row, counted)
    ensures start.id in worker.store.rows
    ensures ParkedAs(start.row, worker.store.rows[start.id], RetryBudgetExhausted)
  {
    n, counted := 0, [];
    var parked := false;
    assert FailedTimes(start, worker.store.Contents(), 0);
    hide Steps.Step, Consistent, KeepsFailing, FailedRow, ParkedAs, FailedTimes, EachCounted;
    assert EachCounted(start.row, []) by { NoneCounted(start.row); }
    while !parked
      invariant EachCounted(start.row, counted)
      invariant !parked ==>
                  && FailedTimes(start, worker.store.Contents(), n) && n == |counted| < Budget(start.row, most)
      invariant parked ==>
                  && n == Budget(start.row, most) == |counted| + 1 && start.id in worker.store.rows
                  && ParkedAs(start.row, worker.store.rows[start.id], RetryBudgetExhausted)
      decreases !parked, Budget(start.row, most) - n
    {
      parked := FailsAgain(worker, start, drives(n), n, most);
      n := n + 1;
      if !parked {
        CountedAgain(start, worker.store.Contents(), counted);
        counted := counted + [worker.store.rows[start.id]];
        ClaimAgain(worker, start, expires(n), n);
      }
    }
  }

  /** Row after row, one failure more. */
  ghost predicate EachCounted(start: Row, counted: seq<Row>) {
    forall k :: 0 <= k < |counted| ==> FailedRow(start, counted[k], k + 1)
  }

  lemma NoneCounted(start: Row)
    ensures EachCounted(start, [])
  {
  }

  lemma CountedAgain(start: Job, t: Tables, counted: seq<Row>)
    requires EachCounted(start.row, counted) && FailedTimes(start, t, |counted| + 1)
    ensures start.id in t.rows && EachCounted(start.row, counted + [t.rows[start.id]])
  {
    hide FailedRow;
  }

  lemma OneWrite(t: Tables, w: Write)
    ensures Run(t, [w]) == Do(t, w)
  {
    assert [w][1..] == [];
  }

  // ---- A tracker that cannot tell ----------------------------------------------------------------------

  /** A seeding job after `n` more answers the tracker could not give. */
  ghost predicate VagueTimes(start: Job, t: Tables, n: nat) {
    && Consistent(t) && start.id in t.rows
    && var row := t.rows[start.id];
       row.state == Seeding && row.data.infoHash.Some? && row.deadline == start.row.deadline
       && row.data.unknownStreak == start.row.data.unknownStreak + n
  }

  /** The tracker answers that it does not know, while the torrent is healthy and in time. */
  predicate Vague(row: Row, w: Steps.World) {
    && w.trackerConfigured && w.hitAndRun == Steps.Answered(Steps.Unknown)
    && w.status.Answered? && w.status.value.Some? && w.status.value.value.state == SeedingNow
    && (row.deadline.Some? ==> w.now < row.deadline.value)
  }

  lemma VagueStep(job: Job, w: Steps.World)
    requires job.row.state == Seeding && job.row.data.infoHash.Some? && Vague(job.row, w)
    ensures var outcome := Steps.Step(job, w).outcome;
            if job.row.data.unknownStreak + 1 >= w.policy.maxConsecutiveUnknown
            then outcome.Park? && outcome.reason == TrackerStatusUnclear
            else outcome.Wait? && outcome.patch.unknownStreak == Some(job.row.data.unknownStreak + 1)
                 && outcome.patch.infoHash.None? && outcome.patch.files.None?
  {
  }

  method AsksAgain(worker: RepairWorker, start: Job, at: nat -> Moment, ghost n: nat) returns (parked: bool)
    requires VagueTimes(start, worker.store.Contents(), n) && AllQuiet(at) && Vague(start.row, at(0).world)
    modifies worker, worker.store
    ensures Consistent(worker.store.Contents()) && start.id in worker.store.rows
    ensures parked <==> start.row.data.unknownStreak + n + 1 >= at(0).world.policy.maxConsecutiveUnknown
    ensures if parked then worker.store.rows[start.id].reviewReason == Some(TrackerStatusUnclear)
                           && worker.store.rows[start.id].state == AwaitingReview
            else VagueTimes(start, worker.store.Contents(), n + 1)
  {
    var job := Job(start.id, worker.store.rows[start.id]);
    VagueStep(job, at(0).world);
    hide Steps.Step, Consistent, AllQuiet, Vague;
    DriveToEnd(worker, job, at);
    parked := worker.store.rows[start.id].state == AwaitingReview;
  }

  method ClaimSeeding(worker: RepairWorker, start: Job, expires: Time, ghost n: nat)
    requires VagueTimes(start, worker.store.Contents(), n)
    modifies worker.store
    ensures VagueTimes(start, worker.store.Contents(), n)
  {
    var claim := Claiming({start.id}, worker.owner, expires);
    StepKeepsConsistent(worker.store.Contents(), claim);
    OneWrite(worker.store.Contents(), claim);
    hide Consistent, Run;
    worker.store.Meanwhile([claim]);
  }

  /**
   * A seeding job whose tracker keeps answering that it does not know is parked on exactly the
   * answer that makes up the streak, each one before it being counted in the row.
   */
  method UnknownUntilParked(
    worker: RepairWorker, start: Job, drives: nat -> nat -> Moment, expires: nat -> Time, ghost most: nat)
    returns (n: nat)
    requires VagueTimes(start, worker.store.Contents(), 0)
    requires forall k :: AllQuiet(drives(k)) && drives(k)(0).world.policy.maxConsecutiveUnknown == most
                         && Vague(start.row, drives(k)(0).world)
    modifies worker, worker.store
    ensures n == Max(1, most - start.row.data.unknownStreak)
    ensures start.id in worker.store.rows && worker.store.rows[start.id].state == AwaitingReview
    ensures worker.store.rows[start.id].reviewReason == Some(TrackerStatusUnclear)
  {
    n := 0;
    var parked := false;
    hide Steps.Step, Consistent, AllQuiet, Vague;
    while !parked
      invariant start.id in worker.store.rows
      invariant !parked ==>
                  && VagueTimes(start, worker.store.Contents(), n) && n < Max(1, most - start.row.data.unknownStreak)
      invariant parked ==>
                  && n == Max(1, most - start.row.data.unknownStreak)
                  && worker.store.rows[start.id].state == AwaitingReview
                  && worker.store.rows[start.id].reviewReason == Some(TrackerStatusUnclear)
      decreases !parked, most - start.row.data.unknownStreak - n
    {
      parked := AsksAgain(worker, start, drives(n), n);
      n := n + 1;
      if !parked { ClaimSeeding(worker, start, expires(n), n); }
    }
  }
}
