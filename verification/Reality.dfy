/** How far back reality sends a job at startup (src/repair/reconcile.rs). */
module Reality {
  import opened Prelude
  import opened Lifecycle
  import opened JobModel
  import opened Table
  import opened Steps
  import opened OperatorReview

  /** What the download client and the staging area say about one job. */
  datatype Evidence = Evidence(torrentKnown: Answer<bool>, presence: Answer<StagingPresence>)

  predicate NoErrors(e: Evidence) { e.torrentKnown.Answered? && e.presence.Answered? }

  /** Off the lifecycle counts as beyond it. */
  function RankOrMax(s: RepairState): nat { s.Rank().GetOr(0xFFFF_FFFF_FFFF_FFFF) }

  function Earliest(left: RepairState, right: RepairState): RepairState {
    if RankOrMax(left) <= RankOrMax(right) then left else right
  }

  /** There is something to inspect only for a job with a staging directory and files. */
  predicate HasStagingPlan(row: Row) { row.data.stagingDir.Some? && row.data.files != [] }

  function RealityBackedTarget(row: Row, e: Evidence, starting: RepairState): RepairState {
    var afterClient :=
      if RankOrMax(starting) >= RankOrMax(Injected) && row.data.infoHash.Some?
         && e.torrentKnown.Answered? && !e.torrentKnown.value
      then Earliest(starting, Staged) else starting;
    if RankOrMax(starting) >= RankOrMax(Staged) && HasStagingPlan(row)
       && e.presence.Answered? && !e.presence.value.WhollyPresent?
    then Earliest(afterClient, Matched) else afterClient
  }

  /** Whether a job may truthfully stand at `s`: what `s` claims to be done is still there. */
  predicate Supports(row: Row, e: Evidence, s: RepairState) {
    && s.Rank().Some?
    && (s.Rank().value >= 4 && row.data.infoHash.Some? ==> e.torrentKnown.Answered? && e.torrentKnown.value)
    && (s.Rank().value >= 3 && HasStagingPlan(row) ==> e.presence.Answered? && e.presence.value.WhollyPresent?)
  }

  /** `target` is the furthest supported state at or below `starting`. */
  ghost predicate IsFurthestSupported(row: Row, e: Evidence, starting: RepairState, target: RepairState) {
    && Supports(row, e, target)
    && RankOrMax(target) <= RankOrMax(starting)
    && forall s: RepairState :: Supports(row, e, s) && RankOrMax(s) <= RankOrMax(starting) ==>
         RankOrMax(s) <= RankOrMax(target)
  }

  /** With every port answering, reconciliation aims at exactly the furthest supported state. */
  lemma TargetIsFurthest(row: Row, e: Evidence, starting: RepairState)
    requires NoErrors(e) && starting.Rank().Some?
    ensures IsFurthestSupported(row, e, starting, RealityBackedTarget(row, e, starting))
  {
  }

  /** Where it aims is where it would aim again, even when ports fail: it never asks twice. */
  lemma TargetIsStable(row: Row, e: Evidence, starting: RepairState)
    requires starting.Rank().Some?
    ensures RealityBackedTarget(row, e, RealityBackedTarget(row, e, starting))
         == RealityBackedTarget(row, e, starting)
    ensures RankOrMax(RealityBackedTarget(row, e, starting)) <= RankOrMax(starting)
    ensures starting.IsActionable() ==> RealityBackedTarget(row, e, starting).IsActionable()
  {
  }

  /** A job at `staged` or beyond whose staged files are not all there goes back to before staging. */
  lemma MissingDataGoesBack(row: Row, e: Evidence, starting: RepairState)
    requires starting.Rank().Some? && starting.Rank().value >= 3
    requires row.data.stagingDir.Some? && |row.data.files| > 0
    requires e.presence.Answered? && e.presence.value != WhollyPresent
    ensures RealityBackedTarget(row, e, starting) == Matched
  {
  }

  /** A job at `injected` or beyond whose torrent the client does not have goes back to before injection. */
  lemma MissingTorrentGoesBack(row: Row, e: Evidence, starting: RepairState)
    requires starting.Rank().Some? && starting.Rank().value >= 4 && row.data.infoHash.Some?
    requires e.torrentKnown == Answered(false)
    ensures RealityBackedTarget(row, e, starting) in {Matched, Staged}
  {
  }

  /** Nothing else moves a job. */
  lemma OtherwiseStays(row: Row, e: Evidence, starting: RepairState)
    requires starting.Rank().Some?
    requires starting.Rank().value >= 4 && row.data.infoHash.Some? ==> e.torrentKnown != Answered(false)
    requires starting.Rank().value >= 3 && row.data.stagingDir.Some? && |row.data.files| > 0 ==>
               e.presence.Answered? ==> e.presence.value == WhollyPresent
    ensures RealityBackedTarget(row, e, starting) == starting
  {
  }

  /** The write that rewinds an unfinished job, if it has to move. */
  function RewindToReality(job: Job, e: Evidence, at: Time): Option<Write> {
    var target := RealityBackedTarget(job.row, e, job.row.state);
    if target == job.row.state then None
    else Planned(job, target, Reconciliation, PLAIN_UPDATE, at)
  }

  /** The write that corrects a parked job's resume point, if it has to move. */
  function CorrectToReality(job: Job, e: Evidence, at: Time): Option<Write> {
    if job.row.reviewFrom.None? then None
    else
      var target := RealityBackedTarget(job.row, e, job.row.reviewFrom.value);
      if target == job.row.reviewFrom.value then None else Some(ResumePoint(job.id, target, at))
  }
}
