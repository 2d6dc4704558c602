/** The repair lifecycle and its transition table (src/repair/domain.rs). */
module Lifecycle {
  import opened Prelude

  datatype RepairState =
    | Discovered | TorrentFetched | Matched | Staged | Injected
    | Rechecking | Verified | Seeding | Completed
    | AwaitingReview | Failed
  {
    /** Position on the happy path; nothing for the two states that sit off it. */
    function Rank(): Option<nat> {
      match this
      case Discovered => Some(0)
      case TorrentFetched => Some(1)
      case Matched => Some(2)
      case Staged => Some(3)
      case Injected => Some(4)
      case Rechecking => Some(5)
      case Verified => Some(6)
      case Seeding => Some(7)
      case Completed => Some(8)
      case AwaitingReview => None
      case Failed => None
    }

    /** The one state a successful step may advance to. */
    function Next(): Option<RepairState> {
      match Rank()
      case None => None
      case Some(rank) => if rank + 1 < |PROGRESSION| then Some(PROGRESSION[rank + 1]) else None
    }

    predicate IsTerminal() { Completed? || Failed? }

    predicate IsActionable() { !IsTerminal() && !AwaitingReview? }
  }

  const PROGRESSION: seq<RepairState> :=
    [Discovered, TorrentFetched, Matched, Staged, Injected, Rechecking, Verified, Seeding, Completed]

  datatype ReviewReason =
    | AmbiguousMatch | NoCandidates | ConfidenceBelowPolicy | MaterializationUnavailable
    | InsufficientStagingSpace | IncompleteData | AliasedIncompleteData | RecheckTimedOut
    | RecheckErrored | AutoResumeDisabled | RetryBudgetExhausted | AdapterNotImplemented
    | TrackerStatusUnclear | DownloadingDuringSeeding | HitAndRunDeadlinePassed
    | UnsafeTorrentPaths | TorrentUnreadable | InfoHashMismatch | LibraryChanged

  datatype TransitionReason =
    | Progress
    | Review(why: ReviewReason)
    | Failure
    | OperatorRetry
    | OperatorChooseCandidate
    | OperatorAbandon
    | OperatorRestart
    | Reconciliation

  datatype Transition = Transition(from: RepairState, to: RepairState, reason: TransitionReason)

  /** Why the table refuses a move. */
  datatype Refusal =
    | OnlyOneStep | ReviewMustPark | NotActionable | FailureMustFail | AlreadyTerminal
    | NotParked | WrongResumeStep | NotMatchingStep | ChooseMustMatch | AbandonMustFail
    | NotParkedOrFailed | RestartMustDiscover | OnlyBackwards | OffTheLifecycle

  /** The whole transition table. `reviewFrom` is where a parked job must return to. */
  function ValidateTransition(
    from: RepairState, to: RepairState, reason: TransitionReason, reviewFrom: Option<RepairState>
  ): (r: Result<Transition, Refusal>)
    ensures r.Ok? ==> r.value == Transition(from, to, reason)
  {
    var accepted := Ok(Transition(from, to, reason));
    match reason
    case Progress =>
      if from.Next() == Some(to) then accepted else Err(OnlyOneStep)
    case Review(_) =>
      if to != AwaitingReview then Err(ReviewMustPark)
      else if !from.IsActionable() then Err(NotActionable)
      else accepted
    case Failure =>
      if to != Failed then Err(FailureMustFail)
      else if from.IsTerminal() then Err(AlreadyTerminal)
      else accepted
    case OperatorRetry =>
      if from != AwaitingReview then Err(NotParked)
      else if reviewFrom != Some(to) then Err(WrongResumeStep)
      else accepted
    case OperatorChooseCandidate =>
      if from != AwaitingReview then Err(NotParked)
      else if reviewFrom != Some(TorrentFetched) then Err(NotMatchingStep)
      else if to != Matched then Err(ChooseMustMatch)
      else accepted
    case OperatorAbandon =>
      if from != AwaitingReview then Err(NotParked)
      else if to != Failed then Err(AbandonMustFail)
      else accepted
    case OperatorRestart =>
      if from != AwaitingReview && from != Failed then Err(NotParkedOrFailed)
      else if to != Discovered then Err(RestartMustDiscover)
      else accepted
    case Reconciliation =>
      match (from.Rank(), to.Rank())
      case (Some(f), Some(t)) => if t < f then accepted else Err(OnlyBackwards)
      case _ => Err(OffTheLifecycle)
  }

  /** A `Transition` value is proof that the table accepted it for *some* resume point. */
  ghost predicate IsValidated(t: Transition) {
    exists reviewFrom :: ValidateTransition(t.from, t.to, t.reason, reviewFrom).Ok?
  }

  /** How far along a job counts as being: a parked job counts as the step it would resume. */
  function EffectiveRank(state: RepairState, reviewFrom: Option<RepairState>): nat {
    if state == AwaitingReview then
      match reviewFrom
      case Some(resume) => resume.Rank().GetOr(0)
      case None => 0
    else state.Rank().GetOr(0)
  }

  /** `Rank` and `PROGRESSION` are inverse to each other. */
  lemma RankIsPosition(s: RepairState, k: nat)
    ensures s.Rank() == Some(k) <==> k < |PROGRESSION| && PROGRESSION[k] == s
  {
    if k < |PROGRESSION| {
      assert k == 0 || k == 1 || k == 2 || k == 3 || k == 4 || k == 5 || k == 6 || k == 7 || k == 8;
    }
  }

  /**
   * The table never raises the effective rank of a job by more than one, and never lowers it by
   * progress. A retry leaves it where it was and a chosen candidate replaces exactly one step.
   */
  lemma TableNeverSkips(
    from: RepairState, to: RepairState, reason: TransitionReason, reviewFrom: Option<RepairState>)
    requires ValidateTransition(from, to, reason, reviewFrom).Ok?
    ensures EffectiveRank(to, if to == AwaitingReview then Some(from) else None)
         <= EffectiveRank(from, reviewFrom) + 1
    ensures reason == OperatorRetry && !to.AwaitingReview? ==>
      EffectiveRank(to, None) == EffectiveRank(from, reviewFrom)
    ensures reason == Progress || reason == OperatorChooseCandidate ==>
      EffectiveRank(to, None) == EffectiveRank(from, reviewFrom) + 1
  {
    if reason == Progress {
      var k := from.Rank().value;
      RankIsPosition(to, k + 1);
    }
  }

  /** Taken alone, the table lets reconciliation move a completed job back to any earlier state. */
  lemma TableAllowsRewindFromCompleted(to: RepairState)
    ensures ValidateTransition(Completed, to, Reconciliation, None).Ok?
       <==> to.Rank().Some? && to != Completed
    ensures forall reason, reviewFrom | reason != Reconciliation ::
      ValidateTransition(Completed, to, reason, reviewFrom).Err?
  {
  }

  /** Which moves each reason allows, by where they lead. */
  lemma TableAccepts(from: RepairState, to: RepairState, reason: TransitionReason, reviewFrom: Option<RepairState>)
    ensures ValidateTransition(from, to, reason, reviewFrom).Ok? <==>
              match reason
              case Progress => from.Rank().Some? && to.Rank() == Some(from.Rank().value + 1)
              case Review(_) => to == AwaitingReview && from.Rank().Some? && from.Rank().value < 8
              case Failure => to == Failed && from != Completed && from != Failed
              case OperatorRetry => from == AwaitingReview && reviewFrom == Some(to)
              case OperatorChooseCandidate =>
                from == AwaitingReview && reviewFrom == Some(TorrentFetched) && to == Matched
              case OperatorAbandon => from == AwaitingReview && to == Failed
              case OperatorRestart => (from == AwaitingReview || from == Failed) && to == Discovered
              case Reconciliation => from.Rank().Some? && to.Rank().Some? && to.Rank().value < from.Rank().value
  {
    NextIsOneUp(from, to);
  }

  lemma NextIsOneUp(from: RepairState, to: RepairState)
    ensures from.Next() == Some(to) <==> from.Rank().Some? && to.Rank() == Some(from.Rank().value + 1)
  {
    RankIsPosition(from, from.Rank().GetOr(0));
    RankIsPosition(to, to.Rank().GetOr(0));
  }
}
