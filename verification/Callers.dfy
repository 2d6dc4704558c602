/**
 * Who may write to the store, and what that adds to what the store alone guarantees: a completed
 * job stays completed, and only the tracker completes one.
 */
module Callers {
  import opened Prelude
  import opened Lifecycle
  import opened JobModel
  import opened Table
  import opened Protocol
  import opened OperatorReview
  import opened Reality
  import Steps

  datatype OperatorAction =
    | RetryIt | ApproveResume | Abandon | AbandonAndDiscard(discarded: bool) | Restart(discarded: bool)
    | Choose(path: string, index: nat)

  /**
   * One caller acting on a job it read earlier. Nothing is assumed about how old the job is or
   * whether it was ever true, only that its columns hold what the schema admits.
   */
  datatype Call =
    | Discovers(warning: HitAndRun, at: Time)
    | Works(job: Job, world: Steps.World)
    | ReconcilesUnfinished(job: Job, evidence: Reality.Evidence, at: Time)
    | ReconcilesParked(job: Job, evidence: Reality.Evidence, at: Time)
    | Operates(action: OperatorAction, job: Job, trail: seq<Record>, at: Time)
    | Keeps(bookkeeping: Write)

  ghost predicate SchemaAdmits(job: Job) {
    job.row.reviewFrom.Some? ==> job.row.reviewFrom.value.IsActionable()
  }

  ghost predicate Readable(c: Call) {
    match c
    case Works(job, _) => SchemaAdmits(job)
    case ReconcilesUnfinished(job, _, _) => SchemaAdmits(job)
    case ReconcilesParked(job, _, _) => SchemaAdmits(job)
    case Operates(_, job, _, _) => SchemaAdmits(job)
    case _ => true
  }

  /** What the worker writes for one step's outcome (`drive_inner`, `park`). */
  function WorkerWrite(job: Job, w: Steps.World): Option<Write> {
    match Steps.Step(job, w).outcome
    case Advance(patch) =>
      Planned(job, job.row.state.Next().GetOr(job.row.state), Progress,
              PLAIN_UPDATE.(patch := patch), w.now)
    case Rewind(to) => Planned(job, to, Reconciliation, PLAIN_UPDATE, w.now)
    case Park(reason, offers, patch) =>
      Planned(job, AwaitingReview, Review(reason), TransitionUpdate(offers, None, patch), w.now)
    case Wait(after, patch) =>
      if patch != NO_PATCH then Some(Telemetry(job.id, patch, w.now)) else None
    case Retry =>
      if job.row.attempts + 1 >= w.policy.maxAttempts
      then Planned(job, AwaitingReview, Review(RetryBudgetExhausted), PLAIN_UPDATE, w.now)
      else None
  }

  function WriteOf(c: Call): Option<Write> {
    match c
    case Discovers(warning, at) => Some(Discovering(warning, at))
    case Works(job, world) => WorkerWrite(job, world)
    // `unfinished()` and `parked()` select by state.
    case ReconcilesUnfinished(job, evidence, at) =>
      if job.row.state.IsActionable() then RewindToReality(job, evidence, at) else None
    case ReconcilesParked(job, evidence, at) =>
      if job.row.state == AwaitingReview then CorrectToReality(job, evidence, at) else None
    case Operates(action, job, trail, at) =>
      (match action
       case RetryIt => RetryAction(job, at)
       case ApproveResume => ApproveResumeAction(job, at)
       case Abandon => AbandonAction(job, at)
       case AbandonAndDiscard(discarded) => AbandonAndDiscardAction(job, discarded, at)
       case Restart(discarded) => RestartAction(job, discarded, at)
       case Choose(path, index) => ChooseCandidateAction(job, trail, path, index, at))
    case Keeps(bookkeeping) =>
      if bookkeeping.Claiming? || bookkeeping.Releasing? || bookkeeping.Renewing? || bookkeeping.Clearing?
      then Some(bookkeeping) else None
  }

  function Writes(cs: seq<Call>): seq<Write> {
    if cs == [] then []
    else
      var w := WriteOf(cs[0]);
      (if w.Some? then [w.value] else []) + Writes(cs[1..])
  }

  /** The tables after a run of calls. */
  function After(t: Tables, cs: seq<Call>): Tables { Run(t, Writes(cs)) }

  lemma PlannedIsLegal(job: Job, to: RepairState, reason: TransitionReason, u: TransitionUpdate, at: Time)
    ensures Planned(job, to, reason, u, at).Some? ==>
      && Planned(job, to, reason, u, at).value == Swap(job.id, Transition(job.row.state, to, reason), u, at)
      && IsValidated(Transition(job.row.state, to, reason))
  {
    if Planned(job, to, reason, u, at).Some? {
      assert ValidateTransition(job.row.state, to, reason, job.row.reviewFrom).Ok?;
    }
  }

  ghost predicate IsTrackerConfirmed(c: Call) {
    && c.Works?
    && c.job.row.state == Seeding
    && c.world.trackerConfigured
    && c.world.hitAndRun == Steps.Answered(Steps.Cleared)
  }

  /** No caller swaps out of `completed`, and only a tracker-confirmed step swaps into it. */
  ghost predicate Issued(c: Call, w: Write) {
    && Legal(w)
    && (w.Swap? ==>
          && w.transition.from != Completed
          && (w.transition.to == Completed ==> IsTrackerConfirmed(c)))
    && (w.Swap? && w.update.patch.resumeApproved == Some(true) ==>
          c.Operates? && c.action == ApproveResume && c.job.row.reviewReason == Some(AutoResumeDisabled))
    && (w.Swap? && w.transition.to == AwaitingReview ==> w.update.patch.resumeApproved.None?)
    && (w.Telemetry? ==> w.patch.resumeApproved.None?)
  }

  lemma WorkerWriteIsIssued(job: Job, world: Steps.World)
    requires WorkerWrite(job, world).Some?
    ensures Issued(Works(job, world), WorkerWrite(job, world).value)
  {
    Steps.RewindsToStaged(job, world);
    Steps.StepsNeverApprove(job, world);
    match Steps.Step(job, world).outcome
    case Advance(patch) =>
      var to := job.row.state.Next().GetOr(job.row.state);
      PlannedIsLegal(job, to, Progress, PLAIN_UPDATE.(patch := patch), world.now);
      if to == Completed {
        assert job.row.state == Seeding;
        Steps.CompletesExactlyWhenCleared(job, world);
      }
    case Rewind(to) => PlannedIsLegal(job, to, Reconciliation, PLAIN_UPDATE, world.now);
    case Park(reason, offers, patch) =>
      PlannedIsLegal(job, AwaitingReview, Review(reason), TransitionUpdate(offers, None, patch), world.now);
    case Wait(after, patch) =>
    case Retry => PlannedIsLegal(job, AwaitingReview, Review(RetryBudgetExhausted), PLAIN_UPDATE, world.now);
  }

  lemma ChoiceIsIssued(path: string, index: nat, job: Job, trail: seq<Record>, at: Time)
    requires ChooseCandidateAction(job, trail, path, index, at).Some?
    ensures Issued(Operates(Choose(path, index), job, trail, at),
                   ChooseCandidateAction(job, trail, path, index, at).value)
  {
    var w := ChooseCandidateAction(job, trail, path, index, at).value;
    if w.Swap? { PlannedIsLegal(job, Matched, OperatorChooseCandidate, w.update, at); }
  }

  lemma OperatorWriteIsIssued(action: OperatorAction, job: Job, trail: seq<Record>, at: Time)
    requires WriteOf(Operates(action, job, trail, at)).Some? && SchemaAdmits(job)
    ensures Issued(Operates(action, job, trail, at), WriteOf(Operates(action, job, trail, at)).value)
  {
    hide ChooseCandidateAction;
    var w := WriteOf(Operates(action, job, trail, at)).value;
    if action.Choose? { ChoiceIsIssued(action.path, action.index, job, trail, at); }
    else { PlannedIsLegal(job, w.transition.to, w.transition.reason, w.update, at); }
  }

  lemma WriteIsIssued(c: Call)
    requires WriteOf(c).Some? && Readable(c)
    ensures Issued(c, WriteOf(c).value)
  {
    match c
    case Works(job, world) => WorkerWriteIsIssued(job, world);
    case Operates(action, job, trail, at) => OperatorWriteIsIssued(action, job, trail, at);
    case ReconcilesUnfinished(job, evidence, at) =>
      TargetIsStable(job.row, evidence, job.row.state);
      PlannedIsLegal(job, RealityBackedTarget(job.row, evidence, job.row.state), Reconciliation, PLAIN_UPDATE, at);
    case _ =>
  }

  lemma {:induction false} WritesAreLegal(cs: seq<Call>)
    requires forall c :: c in cs ==> Readable(c)
    ensures forall w :: w in Writes(cs) ==> Legal(w)
  {
    if cs != [] {
      WritesAreLegal(cs[1..]);
      if WriteOf(cs[0]).Some? { WriteIsIssued(cs[0]); }
    }
  }

  ghost predicate IsCompleted(t: Tables, id: JobId) { id in t.rows && t.rows[id].state == Completed }

  /** One write by any caller: a completed job keeps its state and its whole audit trail. */
  lemma IssuedKeepsCompleted(t: Tables, c: Call, w: Write, id: JobId)
    requires Consistent(t) && Issued(c, w)
    ensures id in t.rows ==> id in Do(t, w).rows
    ensures IsCompleted(t, id) ==> IsCompleted(Do(t, w), id) && id in t.trail && Do(t, w).trail[id] == t.trail[id]
    ensures !IsCompleted(t, id) && IsCompleted(Do(t, w), id) ==> IsTrackerConfirmed(c)
  {
    if id in t.rows {
      WriteIsOneRecord(t, w, id);
      assert TrailFor(t, id);
    } else if id in Do(t, w).rows {
      match w
      case Discovering(warning, at) =>
      case Swap(target, tr, u, at) =>
      case ResumePoint(target, resume, at) =>
      case _ => BookkeepingKeepsPositions(t, w);
    }
  }

  /**
   * Once completed, always completed, with nothing ever added to the trail: no worker, operator or
   * reconciler moves such a job, however stale what they act on, although the table would let a
   * reconciliation do it.
   */
  lemma {:induction false} CompletedIsFinal(t: Tables, cs: seq<Call>, id: JobId)
    requires Consistent(t) && IsCompleted(t, id)
    requires forall c :: c in cs ==> Readable(c)
    ensures IsCompleted(After(t, cs), id)
    ensures id in t.trail && id in After(t, cs).trail && After(t, cs).trail[id] == t.trail[id]
    decreases |cs|
  {
    assert TrailFor(t, id);
    if cs != [] {
      var w := WriteOf(cs[0]);
      if w.Some? {
        WriteIsIssued(cs[0]);
        IssuedKeepsCompleted(t, cs[0], w.value, id);
        StepKeepsConsistent(t, w.value);
        CompletedIsFinal(Do(t, w.value), cs[1..], id);
        RunAppend(t, [w.value], Writes(cs[1..]));
        assert [w.value][1..] == [];
      } else {
        CompletedIsFinal(t, cs[1..], id);
        assert Writes(cs) == Writes(cs[1..]);
      }
    }
  }

  /** Call `i` of the run is the tracker-confirmed step that completes the job. */
  ghost predicate CompletesAt(t: Tables, cs: seq<Call>, id: JobId, i: nat) {
    && i < |cs|
    && IsTrackerConfirmed(cs[i])
    && !IsCompleted(After(t, cs[..i]), id)
    && IsCompleted(After(t, cs[..i + 1]), id)
  }

  lemma CompletesAtLast(t: Tables, front: seq<Call>, last: Call, id: JobId)
    requires Consistent(After(t, front)) && Readable(last)
    requires !IsCompleted(After(t, front), id) && IsCompleted(After(t, front + [last]), id)
    ensures CompletesAt(t, front + [last], id, |front|)
  {
    var cs, w := front + [last], WriteOf(last);
    assert cs[..|front|] == front && cs[..|front| + 1] == cs;
    WritesAppend(front, last);
    assert w.None? ==> Writes(cs) == Writes(front);
    RunSnoc(t, Writes(front), w.value);
    WriteIsIssued(last);
    IssuedKeepsCompleted(After(t, front), last, w.value, id);
  }

  /** A job that completes during a run does so at a step whose tracker answered `Cleared`. */
  lemma {:induction false} OnlyClearedCompletes(t: Tables, cs: seq<Call>, id: JobId)
    requires Consistent(t) && !IsCompleted(t, id) && IsCompleted(After(t, cs), id)
    requires forall c :: c in cs ==> Readable(c)
    ensures exists i: nat :: CompletesAt(t, cs, id, i)
    decreases |cs|
  {
    if cs != [] {
      var front, last := cs[..|cs| - 1], cs[|cs| - 1];
      assert cs == front + [last];
      if IsCompleted(After(t, front), id) {
        OnlyClearedCompletes(t, front, id);
        var i: nat :| CompletesAt(t, front, id, i);
        assert front[..i] == cs[..i] && front[..i + 1] == cs[..i + 1];
        assert CompletesAt(t, cs, id, i);
      } else {
        WritesAreLegal(front);
        RunKeepsConsistent(t, Writes(front));
        CompletesAtLast(t, front, last, id);
      }
    }
  }

  lemma {:induction false} WritesAppend(cs: seq<Call>, c: Call)
    ensures Writes(cs + [c]) == Writes(cs) + if WriteOf(c).Some? then [WriteOf(c).value] else []
  {
    if cs == [] {
      assert [c][1..] == [];
    } else {
      assert (cs + [c])[1..] == cs[1..] + [c];
      WritesAppend(cs[1..], c);
    }
  }

  lemma AfterSnoc(t: Tables, cs: seq<Call>, c: Call)
    ensures After(t, cs + [c]) ==
      if WriteOf(c).Some? then Do(After(t, cs), WriteOf(c).value) else After(t, cs)
  {
    WritesAppend(cs, c);
    if WriteOf(c).Some? { RunSnoc(t, Writes(cs), WriteOf(c).value); }
    else { assert Writes(cs + [c]) == Writes(cs); }
  }

  // ---- Approvals last one episode -----------------------------------------------------------

  /** While a job is parked nothing is approved: an approval never survives onto other data. */
  ghost predicate NothingApprovedWhileParked(t: Tables) {
    forall id :: id in t.rows && t.rows[id].state == AwaitingReview ==> !t.rows[id].data.resumeApproved
  }

  lemma IssuedEndsApproval(t: Tables, c: Call, w: Write)
    requires Issued(c, w) && NothingApprovedWhileParked(t)
    ensures NothingApprovedWhileParked(Do(t, w))
  {
  }

  /** In every run, parking ends whatever approval there was. */
  lemma {:induction false} ParkingEndsApproval(t: Tables, cs: seq<Call>)
    requires NothingApprovedWhileParked(t) && forall c :: c in cs ==> Readable(c)
    ensures NothingApprovedWhileParked(After(t, cs))
    decreases |cs|
  {
    if cs != [] {
      var w := WriteOf(cs[0]);
      if w.Some? {
        WriteIsIssued(cs[0]);
        IssuedEndsApproval(t, cs[0], w.value);
        RunAppend(t, [w.value], Writes(cs[1..]));
        assert [w.value][1..] == [];
        ParkingEndsApproval(Do(t, w.value), cs[1..]);
      } else {
        assert Writes(cs) == Writes(cs[1..]);
        ParkingEndsApproval(t, cs[1..]);
      }
    }
  }
}
