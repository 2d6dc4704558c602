/**
 * Why a step parks, waits, rewinds or retries, read backwards: from each outcome to exactly the jobs
 * and answers that lead to it (src/repair/application/).
 */
module StepReasons {
  import opened Prelude
  import opened Lifecycle
  import opened JobModel
  import opened MatchModel
  import opened Policy
  import opened Steps

  predicate ParksFor(job: Job, w: World, reason: ReviewReason) {
    Step(job, w).outcome.Park? && Step(job, w).outcome.reason == reason
  }

  /** The torrent file was fetched from a configured tracker. */
  predicate Fetched(job: Job, w: World) {
    job.row.state == Discovered && w.trackerConfigured && w.torrentBytes.Answered?
  }

  /** Matching has a plan to go by. */
  predicate HasPlan(job: Job, w: World) {
    job.row.state == TorrentFetched && w.planned.Answered? && w.planned.value != []
  }

  /** Staging was tried. */
  predicate Tried(job: Job, w: World) {
    && job.row.state == Matched && w.planned.Answered?
    && (forall i :: 0 <= i < |w.planned.value| ==> w.planned.value[i].source.Some?)
    && CanMaterialize(w.policy.materialization)
  }

  predicate CanMaterialize(p: MaterializationPolicy) { p.preferReflink || p.allowCopy || p.allowHardlink }

  /** A torrent's status was asked for and came back. */
  predicate Reported(job: Job, w: World) {
    job.row.data.infoHash.Some? && w.status.Answered? && w.status.value.Some?
  }

  /** The tracker answered, and not that it is over or that it has been vague for too long. */
  predicate StillPending(job: Job, w: World) {
    && job.row.state == Seeding && w.trackerConfigured && w.hitAndRun.Answered?
    && (w.hitAndRun.value == Active
        || (w.hitAndRun.value == Unknown && job.row.data.unknownStreak + 1 < w.policy.maxConsecutiveUnknown))
  }

  /** The client's data is being looked at, its check over. */
  predicate DataJudged(job: Job, w: World) {
    && Reported(job, w)
    && var s := w.status.value.value.state;
       || ((job.row.state == Rechecking || job.row.state == Verified) && s != Checking && s != Errored)
       || (StillPending(job, w) && s == Paused)
  }

  /** The job's data is being checked, or is about to be resumed. */
  predicate Checked(job: Job) { job.row.state == Rechecking || job.row.state == Verified }

  /** A check is running, or failed, while the job waits for it. */
  predicate InCheck(job: Job, w: World, s: ClientTorrentState) {
    Reported(job, w) && (job.row.state == Rechecking || job.row.state == Verified) && w.status.value.value.state == s
  }

  /** Whether the torrent is seeding healthily for a tracker still waiting, as far as can be told. */
  predicate Healthy(job: Job, w: World) {
    && StillPending(job, w) && Reported(job, w)
    && var s := w.status.value.value;
       || s.state == SeedingNow || s.state == Checking
       || (s.state == Paused && s.completeness.Complete? && Approved(job, w) && w.resume.Answered?)
  }

  predicate Approved(job: Job, w: World) {
    job.row.data.resumeApproved || w.policy.autoResume == WhenVerifiedComplete
  }

  /** The torrent's own paths are unsafe, as inspected or as staged. */
  lemma ParkedForUnsafePaths(job: Job, w: World)
    ensures ParksFor(job, w, UnsafeTorrentPaths) <==>
              || (Fetched(job, w) && w.inspection == Inspection.UnsafePaths)
              || (Tried(job, w) && w.staged == Err(UnsafePath))
  {
  }

  /** The tracker served another torrent than it said. */
  lemma ParkedForTheHash(job: Job, w: World)
    ensures ParksFor(job, w, InfoHashMismatch) <==>
              && Fetched(job, w) && w.inspection.Decoded? && job.row.data.infoHash.Some?
              && job.row.data.infoHash.value != w.inspection.infoHash
  {
  }

  /** The torrent, or what should be known of it by now, is not there. */
  lemma ParkedForTheTorrent(job: Job, w: World)
    ensures ParksFor(job, w, TorrentUnreadable) <==>
              || (Fetched(job, w) && w.inspection == Inspection.Unreadable)
              || (job.row.state == TorrentFetched && w.planned == Answered([]))
              || (job.row.state == Staged
                  && (job.row.data.infoHash.None? || job.row.data.stagingDir.None?
                      || w.storedTorrent == Answered(None)))
              || ((job.row.state == Injected || Checked(job)) && job.row.data.infoHash.None?)
              || (StillPending(job, w) && job.row.data.infoHash.None?)
  {
  }

  /** Matching found nothing for the first file it could not place, or no file to place. */
  lemma ParkedForNothingFound(job: Job, w: World)
    ensures ParksFor(job, w, NoCandidates) <==>
              && HasPlan(job, w) && w.candidates.Answered?
              && var plan := w.candidates.value;
                 if plan.unmatched != [] then plan.unmatched[0].reason.NoCandidate? else plan.matched == []
  {
  }

  /** Matching could not decide the first file it did not place, or no source is known for a planned one. */
  lemma ParkedForMatching(job: Job, w: World)
    ensures ParksFor(job, w, AmbiguousMatch) <==>
              || (HasPlan(job, w) && w.candidates.Answered? && w.candidates.value.unmatched != []
                  && !w.candidates.value.unmatched[0].reason.NoCandidate?)
              || (job.row.state == Matched && w.planned.Answered?
                  && exists i :: 0 <= i < |w.planned.value| && w.planned.value[i].source.None?)
  {
  }

  /** Every file was placed, and some match is weaker than the policy asks for. */
  lemma ParkedForConfidence(job: Job, w: World)
    ensures ParksFor(job, w, ConfidenceBelowPolicy) <==>
              && HasPlan(job, w) && w.candidates.Answered? && w.candidates.value.unmatched == []
              && w.candidates.value.matched != []
              && exists m :: m in w.candidates.value.matched && WeakerThan(m.confidence, w.policy.minMatchConfidence)
  {
    if w.candidates.Answered? {
      AcceptsExactly(w.candidates.value, w.policy);
      forall m | m in w.candidates.value.matched
        ensures WeakerThan(m.confidence, w.policy.minMatchConfidence)
                <==> Strength(m.confidence) < Strength(w.policy.minMatchConfidence)
      {
      }
    }
  }

  /** `Ambiguous` is weakest, then `Probable`, then `Operator`, and `Exact` is strongest. */
  predicate WeakerThan(a: Confidence, b: Confidence) {
    match a
    case Ambiguous => !b.Ambiguous?
    case Probable => b.Operator? || b.Exact?
    case Operator => b.Exact?
    case Exact => false
  }

  /** The library or the staging filesystem is in the way. */
  lemma ParkedForStaging(job: Job, w: World)
    ensures ParksFor(job, w, InsufficientStagingSpace) <==> Tried(job, w) && w.staged == Err(InsufficientSpace)
    ensures ParksFor(job, w, LibraryChanged) <==>
              Tried(job, w) && (w.staged == Err(SourceMissing) || w.staged == Err(SourceChanged))
  {
  }

  /** No strategy is permitted, or none works. */
  lemma ParkedForStrategies(job: Job, w: World)
    ensures ParksFor(job, w, MaterializationUnavailable) <==>
              || (Tried(job, w) && (w.staged == Err(StrategyUnavailable) || w.staged == Err(NoStrategyPermitted)))
              || (job.row.state == Matched && w.planned.Answered? && !CanMaterialize(w.policy.materialization)
                  && forall i :: 0 <= i < |w.planned.value| ==> w.planned.value[i].source.Some?)
  {
    assert w.policy.materialization.Preference() == [] <==> !CanMaterialize(w.policy.materialization);
  }

  /** The data is not all there. */
  lemma ParkedForTheData(job: Job, w: World)
    ensures ParksFor(job, w, IncompleteData) <==>
              && DataJudged(job, w) && w.status.value.value.completeness.Partial?
              && (job.row.data.materialization == Some(Reflink) || job.row.data.materialization == Some(Copy))
  {
  }

  /** Nor is it, and it may be the library's own. */
  lemma ParkedForAliasedData(job: Job, w: World)
    ensures ParksFor(job, w, AliasedIncompleteData) <==>
              && DataJudged(job, w) && w.status.value.value.completeness.Partial?
              && (job.row.data.materialization == None || job.row.data.materialization == Some(Hardlink))
  {
  }

  /** The data is all there, but nobody has let it seed. */
  lemma ParkedForApproval(job: Job, w: World)
    ensures ParksFor(job, w, AutoResumeDisabled) <==>
              && DataJudged(job, w) && job.row.state != Rechecking && w.status.value.value.completeness.Complete?
              && !Approved(job, w)
  {
  }

  /** The client downloads what should only be seeded. */
  lemma ParkedForTheClient(job: Job, w: World)
    ensures ParksFor(job, w, DownloadingDuringSeeding) <==>
              StillPending(job, w) && Reported(job, w) && w.status.value.value.state == Downloading
  {
  }

  /** A check failed. */
  lemma ParkedForAnError(job: Job, w: World)
    ensures ParksFor(job, w, RecheckErrored) <==> InCheck(job, w, Errored)
  {
  }

  /** A check has run for as long as it may. */
  lemma ParkedForTime(job: Job, w: World)
    ensures ParksFor(job, w, RecheckTimedOut) <==>
              && InCheck(job, w, Checking)
              && match job.row.data.recheckingStartedAt
                 case Some(started) =>
                   w.now - started >= w.policy.recheckTimeout || w.policy.recheckTimeout == 0
                 case None => w.policy.recheckTimeout == 0
  {
  }

  /** The tracker cannot be asked, cannot tell, or has run out of patience. */
  lemma ParkedForTheTracker(job: Job, w: World)
    ensures ParksFor(job, w, TrackerStatusUnclear) <==>
              || ((job.row.state == Discovered || job.row.state == Seeding) && !w.trackerConfigured)
              || (job.row.state == Seeding && w.trackerConfigured && w.hitAndRun == Answered(Unknown)
                  && job.row.data.unknownStreak + 1 >= w.policy.maxConsecutiveUnknown)
    ensures ParksFor(job, w, HitAndRunDeadlinePassed) <==>
              Healthy(job, w) && job.row.deadline.Some? && w.now >= job.row.deadline.value
    ensures !ParksFor(job, w, RetryBudgetExhausted)
  {
  }

  lemma ParkedForAStub(job: Job, w: World)
    ensures ParksFor(job, w, AdapterNotImplemented) <==>
              || (job.row.state == Discovered && w.trackerConfigured
                  && (w.torrentBytes.NotImplemented?
                      || (w.torrentBytes.Answered? && w.inspection == Inspection.InspectorMissing)))
              || (HasPlan(job, w) && w.candidates.NotImplemented?)
              || (Tried(job, w) && w.staged == Err(StagingNotImplemented))
              || (job.row.state == Staged && job.row.data.infoHash.Some? && job.row.data.stagingDir.Some?
                  && w.storedTorrent.Answered? && w.storedTorrent.value.Some? && w.addPaused.NotImplemented?)
              || (job.row.state == Injected && job.row.data.infoHash.Some?
                  && (w.status.NotImplemented? || (Reported(job, w) && w.recheck.NotImplemented?)))
              || (Checked(job) && job.row.data.infoHash.Some? && w.status.NotImplemented?)
              || (job.row.state == Verified && DataJudged(job, w) && w.status.value.value.completeness.Complete?
                  && Approved(job, w) && w.resume.NotImplemented?)
              || (job.row.state == Seeding && w.trackerConfigured && w.hitAndRun.NotImplemented?)
              || (StillPending(job, w) && job.row.data.infoHash.Some?
                  && (w.status.NotImplemented?
                      || (DataJudged(job, w) && w.status.value.value.completeness.Complete? && Approved(job, w)
                          && w.resume.NotImplemented?)))
  {
  }

  // ---- Going back, waiting, and what is asked of the client ------------------------------------------

  /** Only a torrent that is gone, or errored while seeding, sends a job back. */
  lemma RewindsExactlyWhenGone(job: Job, w: World)
    ensures Step(job, w).outcome.Rewind? <==>
              || (job.row.data.infoHash.Some? && w.status == Answered(None)
                  && (job.row.state == Injected || Checked(job) || StillPending(job, w)))
              || (StillPending(job, w) && Reported(job, w) && w.status.value.value.state == Errored)
  {
  }

  /** How long a seeding job waits, and what it notes of the torrent. */
  lemma SeedingWaits(job: Job, w: World)
    requires job.row.state == Seeding
    ensures Step(job, w).outcome.Wait? <==>
              Healthy(job, w) && (job.row.deadline.Some? ==> w.now < job.row.deadline.value)
    ensures Step(job, w).outcome.Wait? ==>
              var outcome, s := Step(job, w).outcome, w.status.value.value;
              && outcome.after == TrackerPollDelay(w.now, job.row.deadline, w.policy)
              && outcome.patch.uploadedBytes == Some(s.uploadedBytes)
              && outcome.patch.seedingSeconds == s.seedingSeconds
              && outcome.patch.unknownStreak
                 == Some(if w.hitAndRun.value == Active then 0 else job.row.data.unknownStreak + 1)
              && outcome.patch == NO_PATCH.(uploadedBytes := outcome.patch.uploadedBytes,
                                            seedingSeconds := outcome.patch.seedingSeconds,
                                            unknownStreak := outcome.patch.unknownStreak)
  {
  }

  /** A check in progress is waited for without noting anything; a queued one at the longest interval. */
  lemma ChecksAreAwaited(job: Job, w: World)
    requires job.row.state == Rechecking || job.row.state == Verified
    ensures Step(job, w).outcome.Wait? <==> InCheck(job, w, Checking) && !ParksFor(job, w, RecheckTimedOut)
    ensures Step(job, w).outcome.Wait? ==>
              && Step(job, w).outcome.patch == NO_PATCH
              && (w.status.value.value.queued ==> Step(job, w).outcome.after == w.policy.recheckPollMaxInterval)
              && (!w.status.value.value.queued ==>
                    && Step(job, w).outcome.after
                       == RecheckPollDelay(RecheckElapsed(job.row.data.recheckingStartedAt, w.now), w.policy))
  {
  }

  /** The client is asked about the job's own torrent, and told to change something only like this. */
  lemma CallsAre(job: Job, w: World)
    ensures var calls, h := Step(job, w).calls, job.row.data.infoHash.GetOr([]);
            match job.row.state
            case Staged =>
              calls == if job.row.data.infoHash.Some? && job.row.data.stagingDir.Some?
                          && w.storedTorrent.Answered? && w.storedTorrent.value.Some?
                       then [AddPaused(h)] else []
            case Injected =>
              calls == if job.row.data.infoHash.None? then []
                       else if Reported(job, w) then [AskStatus(h), Recheck(h)] else [AskStatus(h)]
            case Rechecking => calls == if job.row.data.infoHash.Some? then [AskStatus(h)] else []
            case Verified =>
              calls == if job.row.data.infoHash.None? then []
                       else if DataJudged(job, w) && w.status.value.value.completeness.Complete? && Approved(job, w)
                       then [AskStatus(h), Resume(h)] else [AskStatus(h)]
            case Seeding =>
              calls == if !StillPending(job, w) || job.row.data.infoHash.None? then []
                       else if DataJudged(job, w) && w.status.value.value.completeness.Complete? && Approved(job, w)
                       then [AskStatus(h), Resume(h)] else [AskStatus(h)]
            case _ => calls == []
  {
  }

  // ---- What an advance writes ---------------------------------------------------------------------------

  /** A fetch writes what the torrent says: its hash, its bytes, and every file of it still unsourced. */
  lemma FetchWrites(job: Job, w: World)
    requires job.row.state == Discovered && Step(job, w).outcome.Advance?
    ensures w.inspection.Decoded? && w.torrentBytes.Answered?
    ensures var patch, files := Step(job, w).outcome.patch, w.inspection.files;
            && patch.infoHash == Some(w.inspection.infoHash) && patch.torrentFile == Some(w.torrentBytes.value)
            && patch.totalBytes == Some(Pieces.TotalLength(files))
            && patch.files.Some? && |patch.files.value| == |files|
            && (forall i :: 0 <= i < |files| ==>
                  patch.files.value[i] == PlannedFile(files[i].path, files[i].length, None, None, None, None))
            && patch == NO_PATCH.(infoHash := patch.infoHash, torrentFile := patch.torrentFile,
                                  totalBytes := patch.totalBytes, files := patch.files)
  {
  }

  /** Matching writes where each file is to come from, under a directory named after the job. */
  lemma MatchWrites(job: Job, w: World)
    requires job.row.state == TorrentFetched && Step(job, w).outcome.Advance?
    ensures w.candidates.Answered?
    ensures var patch, matched := Step(job, w).outcome.patch, w.candidates.value.matched;
            && patch.stagingDir == Some(DefaultStagingDir(job))
            && patch.files.Some? && |patch.files.value| == |matched|
            && (forall i :: 0 <= i < |matched| ==>
                  patch.files.value[i]
                  == PlannedFile(matched[i].torrentPath, matched[i].length, Some(matched[i].source),
                                 Some(matched[i].confidence), None, None))
            && patch == NO_PATCH.(stagingDir := patch.stagingDir, files := patch.files)
  {
  }

  /** What a park by matching offers is what was undecided, file by file and candidate by candidate. */
  lemma MatchOffers(job: Job, w: World)
    requires HasPlan(job, w) && w.candidates.Answered? && Step(job, w).outcome.Park?
    ensures var offers, unmatched := Step(job, w).outcome.offers, w.candidates.value.unmatched;
            && |offers| == |unmatched|
            && forall i :: 0 <= i < |unmatched| ==>
                 && offers[i].torrentPath == unmatched[i].torrentPath
                 && match unmatched[i].reason
                    case NoCandidate => offers[i].candidates == []
                    case AmbiguousCandidates(cs) =>
                      |offers[i].candidates| == |cs| && forall k :: 0 <= k < |cs| ==> offers[i].candidates[k] == cs[k].0
  {
  }

  /** Staging writes how each file got there, and of the job the riskiest way used. */
  lemma StageWrites(job: Job, w: World)
    requires job.row.state == Matched && Step(job, w).outcome.Advance?
    ensures w.staged.Ok? && w.planned.Answered?
    ensures var patch, layout, files := Step(job, w).outcome.patch, w.staged.value, w.planned.value;
            && patch.stagingDir == Some(StagingDir(job))
            && (job.row.data.stagingDir.Some? ==> patch.stagingDir == job.row.data.stagingDir)
            && (patch.materialization == Some(Hardlink) <==>
                  exists i :: 0 <= i < |layout| && layout[i].strategy == Hardlink)
            && (patch.materialization == Some(Copy) <==>
                  (exists i :: 0 <= i < |layout| && layout[i].strategy == Copy)
                  && forall i :: 0 <= i < |layout| ==> layout[i].strategy != Hardlink)
            && (patch.materialization == None <==> layout == [])
            && patch.files.Some? && |patch.files.value| == |files|
            && forall i :: 0 <= i < |files| ==>
                 && patch.files.value[i] == files[i].(materializedAs := patch.files.value[i].materializedAs)
                 && LastReport(layout, StagingDir(job) + "/" + files[i].torrentPath,
                               patch.files.value[i].materializedAs)
  {
    var layout, files := w.staged.value, w.planned.value;
    forall i | 0 <= i < |files|
      ensures LastReport(layout, StagingDir(job) + "/" + files[i].torrentPath,
                         Step(job, w).outcome.patch.files.value[i].materializedAs)
    {
      LastReported(layout, StagingDir(job) + "/" + files[i].torrentPath);
    }
  }

  /** The strategy of the last report of a path; nothing when there is none. */
  ghost predicate LastReport(layout: seq<StagedFile>, path: string, strategy: Option<Strategy>) {
    match strategy
    case None => forall i :: 0 <= i < |layout| ==> layout[i].path != path
    case Some(s) =>
      exists i :: 0 <= i < |layout| && layout[i].path == path && layout[i].strategy == s
                  && forall j :: i < j < |layout| ==> layout[j].path != path
  }

  lemma {:induction false} LastReported(layout: seq<StagedFile>, path: string)
    ensures LastReport(layout, path, StrategyFor(layout, path))
  {
    if layout != [] && layout[|layout| - 1].path != path {
      LastReported(layout[..|layout| - 1], path);
    }
  }

  /** The rest note only what they have seen. */
  lemma LaterWrites(job: Job, w: World)
    requires job.row.state.Rank().GetOr(0) >= 3 && Step(job, w).outcome.Advance?
    ensures var patch := Step(job, w).outcome.patch;
            && patch == NO_PATCH.(recheckingStartedAt := patch.recheckingStartedAt, fileProgress := patch.fileProgress)
            && patch.recheckingStartedAt == (if job.row.state == Injected then Some(w.now) else None)
            && (patch.fileProgress.Some? <==>
                  (job.row.state == Rechecking || job.row.state == Verified) && w.status.value.value.files.Some?)
            && (patch.fileProgress.Some? ==> NotesProgress(w.status.value.value.files.value, patch.fileProgress.value))
  {
  }

  /** Each file's name with how much of it is there, from nothing to all of it. */
  predicate NotesProgress(files: seq<(string, DataCompleteness)>, noted: seq<(string, real)>) {
    && |noted| == |files|
    && forall i :: 0 <= i < |files| ==>
         && noted[i].0 == files[i].0
         && match files[i].1
            case Complete => noted[i].1 == 1.0
            case Partial(ratio) => noted[i].1 == ratio
  }

  /** A park writes at most the progress of the torrent it has just looked at. */
  lemma ParkWrites(job: Job, w: World)
    requires Step(job, w).outcome.Park?
    ensures var patch := Step(job, w).outcome.patch;
            && patch == NO_PATCH.(fileProgress := patch.fileProgress)
            && (patch.fileProgress.Some? ==>
                  && Reported(job, w) && w.status.value.value.files.Some?
                  && NotesProgress(w.status.value.value.files.value, patch.fileProgress.value))
            && (DataJudged(job, w)
                && Step(job, w).outcome.reason !in {AdapterNotImplemented, HitAndRunDeadlinePassed} ==>
                  (patch.fileProgress.Some? <==> w.status.value.value.files.Some?))
  {
  }

  /** Only matching makes offers. */
  lemma OffersAreMatchings(job: Job, w: World)
    requires Step(job, w).outcome.Park? && Step(job, w).outcome.offers != []
    ensures HasPlan(job, w)
  {
  }

  /** Nothing is done for a job that is over or parked. */
  lemma IdleWaits(job: Job, w: World)
    ensures job.row.state.Rank().None? || job.row.state == Completed
            <==> Step(job, w).outcome == Wait(3_600_000_000_000, NO_PATCH)
                 && (job.row.state == Completed || job.row.state == AwaitingReview || job.row.state == Failed)
    ensures job.row.state == Completed || job.row.state == AwaitingReview || job.row.state == Failed ==>
              Step(job, w).calls == []
  {
  }
}
