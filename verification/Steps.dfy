/**
 * One step of the lifecycle, as a function from a job and the answers of the ports to an outcome
 * and the calls made on the download client (src/repair/application/).
 */
module Steps {
  import opened Prelude
  import opened Lifecycle
  import opened JobModel
  import opened MatchModel
  import opened Policy
  import opened Splitting
  import Pieces

  /** What a port call came back with. */
  datatype Answer<+T> = Answered(value: T) | NotImplemented | CallFailed

  datatype StepOutcome =
    | Advance(patch: JobPatch)
    | Park(reason: ReviewReason, offers: seq<Offer>, patch: JobPatch)
    | Rewind(to: RepairState)
    | Wait(after: int, patch: JobPatch)
    | Retry

  datatype ClientCall =
    | AddPaused(infoHash: InfoHash)
    | AskStatus(infoHash: InfoHash)
    | Recheck(infoHash: InfoHash)
    | Resume(infoHash: InfoHash)

  /** A step's conclusion, and the client calls that led to it, in order. */
  datatype StepRun = StepRun(outcome: StepOutcome, calls: seq<ClientCall>)

  datatype HitAndRunStatus = Active | Cleared | Unknown

  datatype Inspection =
    | Decoded(infoHash: InfoHash, files: seq<TorrentFile>)
    | InspectorMissing | UnsafePaths | Unreadable

  /** What is left of a job's staged files. */
  datatype StagingPresence = Absent | Incomplete(present: nat, expected: nat) | WhollyPresent

  datatype StagedFile = StagedFile(path: string, strategy: Strategy, bytes: nat)

  datatype StagingError =
    | StagingNotImplemented | StrategyUnavailable | NoStrategyPermitted | InsufficientSpace
    | SourceMissing | SourceChanged | UnsafePath | StagingIo

  /** Everything the ports answer during one step. The clock is read once. */
  datatype World = World(
    now: Time, jitter: nat, policy: SafetyPolicy,
    trackerConfigured: bool, torrentBytes: Answer<seq<Byte>>, inspection: Inspection,
    hitAndRun: Answer<HitAndRunStatus>,
    planned: Answer<seq<PlannedFile>>, storedTorrent: Answer<Option<seq<Byte>>>,
    candidates: Answer<MatchPlan>,
    staged: Result<seq<StagedFile>, StagingError>,
    addPaused: Answer<()>, status: Answer<Option<TorrentStatus>>, recheck: Answer<()>,
    resume: Answer<()>)

  function ParkPlain(reason: ReviewReason): StepOutcome { Park(reason, [], NO_PATCH) }

  function Silent(outcome: StepOutcome): StepRun { StepRun(outcome, []) }

  // ---- Discovered -> TorrentFetched ------------------------------------------------------

  function Unplanned(f: TorrentFile): PlannedFile {
    PlannedFile(f.path, f.length, None, None, None, None)
  }

  function FetchTorrent(job: Job, w: World): StepOutcome {
    if !w.trackerConfigured then ParkPlain(TrackerStatusUnclear)
    else
      match w.torrentBytes
      case NotImplemented => ParkPlain(AdapterNotImplemented)
      case CallFailed => Retry
      case Answered(bytes) =>
        match w.inspection
        case InspectorMissing => ParkPlain(AdapterNotImplemented)
        case UnsafePaths => ParkPlain(UnsafeTorrentPaths)
        case Unreadable => ParkPlain(TorrentUnreadable)
        case Decoded(infoHash, files) =>
          if job.row.data.infoHash.Some? && job.row.data.infoHash.value != infoHash
          then ParkPlain(InfoHashMismatch)
          else
            Advance(NO_PATCH.(
              infoHash := Some(infoHash), torrentFile := Some(bytes),
              totalBytes := Some(Pieces.TotalLength(files)),
              files := Some(seq(|files|, i requires 0 <= i < |files| => Unplanned(files[i])))))
  }

  // ---- TorrentFetched -> Matched ---------------------------------------------------------

  function DefaultStagingDir(job: Job): string { "job-" + Decimal(job.id) }

  function Decimal(n: int): string {
    if n < 0 then "-" + Digits(-n) else Digits(n)
  }

  /** Signed decimal text reads back to the number it spells. */
  lemma {:induction false} DecimalReads(n: int)
    ensures Decimal(n) != []
    ensures if n < 0 then Decimal(n)[0] == '-' && Numeral(Decimal(n)[1..]) == Some(-n)
            else Decimal(n)[0] != '-' && Numeral(Decimal(n)) == Some(n)
  {
    hide Numeral, Digits;
    DigitsAreRead(if n < 0 then -n else n);
    if n < 0 {
      assert Decimal(n)[1..] == Digits(-n);
    } else {
      assert IsDigit(Digits(n)[0]);
    }
  }

  /** A directory names its job in decimal, so no two jobs share one. */
  lemma {:induction false} DirectoriesDiffer(a: Job, b: Job)
    ensures |DefaultStagingDir(a)| >= 4 && DefaultStagingDir(a)[..4] == "job-"
    ensures a.id >= 0 ==> Numeral(DefaultStagingDir(a)[4..]) == Some(a.id)
    ensures DefaultStagingDir(a) == DefaultStagingDir(b) ==> a.id == b.id
  {
    DecimalReads(a.id);
    DecimalReads(b.id);
    hide Numeral, Decimal;
    assert DefaultStagingDir(a)[4..] == Decimal(a.id) && DefaultStagingDir(b)[4..] == Decimal(b.id);
  }

  function Offers(unmatched: seq<UnmatchedFile>): seq<Offer> {
    seq(|unmatched|, i requires 0 <= i < |unmatched| =>
      Offer(unmatched[i].torrentPath,
            match unmatched[i].reason
            case NoCandidate => []
            case AmbiguousCandidates(cs) => seq(|cs|, k requires 0 <= k < |cs| => cs[k].0)))
  }

  function PlannedMatch(m: FileMatch): PlannedFile {
    PlannedFile(m.torrentPath, m.length, Some(m.source), Some(m.confidence), None, None)
  }

  /**
   * `w.candidates` is what the candidate sources and piece verification led to: the plan, or
   * nothing answered (with or without a stub among the sources).
   */
  function MatchMedia(job: Job, w: World): StepOutcome {
    match w.planned
    case NotImplemented => Retry
    case CallFailed => Retry
    case Answered(files) =>
      if files == [] then ParkPlain(TorrentUnreadable)
      else
        match w.candidates
        case NotImplemented => ParkPlain(AdapterNotImplemented)
        case CallFailed => Retry
        case Answered(plan) =>
          match DecideMatch(plan, w.policy)
          case Hold(reason) => Park(reason, Offers(plan.unmatched), NO_PATCH)
          case Go =>
            Advance(NO_PATCH.(
              stagingDir := Some(DefaultStagingDir(job)),
              files := Some(seq(|plan.matched|, i requires 0 <= i < |plan.matched| =>
                PlannedMatch(plan.matched[i])))))
  }

  // ---- Matched -> Staged -----------------------------------------------------------------

  /** `torrent_path` nested under the job's directory. */
  function Under(path: string, dir: string): string { dir + "/" + path }

  predicate AnyAliases(files: seq<StagedFile>) {
    exists i | 0 <= i < |files| :: files[i].strategy.AliasesLibraryFile()
  }

  /** The riskiest strategy used: one hardlink makes the whole job hardlinked. */
  function SummaryStrategy(files: seq<StagedFile>): Option<Strategy> {
    if AnyAliases(files) then Some(Hardlink)
    else if exists i | 0 <= i < |files| :: files[i].strategy == Copy then Some(Copy)
    else if files == [] then None
    else Some(files[0].strategy)
  }

  /** The strategy reported for `path`; the last entry wins, as it does in a hash map. */
  function StrategyFor(files: seq<StagedFile>, path: string): Option<Strategy> {
    if files == [] then None
    else
      var last := files[|files| - 1];
      if last.path == path then Some(last.strategy) else StrategyFor(files[..|files| - 1], path)
  }

  function Materialized(f: PlannedFile, dir: string, files: seq<StagedFile>): PlannedFile {
    f.(materializedAs := StrategyFor(files, Under(f.torrentPath, dir)))
  }

  function StagingRefusal(e: StagingError): StepOutcome {
    match e
    case StagingNotImplemented => ParkPlain(AdapterNotImplemented)
    case StrategyUnavailable => ParkPlain(MaterializationUnavailable)
    case NoStrategyPermitted => ParkPlain(MaterializationUnavailable)
    case SourceMissing => ParkPlain(LibraryChanged)
    case SourceChanged => ParkPlain(LibraryChanged)
    case UnsafePath => ParkPlain(UnsafeTorrentPaths)
    case InsufficientSpace => ParkPlain(InsufficientStagingSpace)
    case StagingIo => Retry
  }

  function StagingDir(job: Job): string {
    job.row.data.stagingDir.GetOr(DefaultStagingDir(job))
  }

  function StageFiles(job: Job, w: World): StepOutcome {
    match w.planned
    case NotImplemented => Retry
    case CallFailed => Retry
    case Answered(files) =>
      if exists i | 0 <= i < |files| :: files[i].source.None? then ParkPlain(AmbiguousMatch)
      else if w.policy.materialization.Preference() == [] then ParkPlain(MaterializationUnavailable)
      else
        match w.staged
        case Err(e) => StagingRefusal(e)
        case Ok(layout) =>
          var dir := StagingDir(job);
          Advance(NO_PATCH.(
            stagingDir := Some(dir), materialization := SummaryStrategy(layout),
            files := Some(seq(|files|, i requires 0 <= i < |files| =>
              Materialized(files[i], dir, layout)))))
  }

  // ---- Staged -> Injected -> Rechecking --------------------------------------------------

  /** What a failed or unbuilt client call turns into. */
  function ClientRefusal<T>(a: Answer<T>): StepOutcome
    requires !a.Answered?
  {
    if a.NotImplemented? then ParkPlain(AdapterNotImplemented) else Retry
  }

  function Inject(job: Job, w: World): StepRun {
    var data := job.row.data;
    if data.infoHash.None? || data.stagingDir.None? then Silent(ParkPlain(TorrentUnreadable))
    else
      match w.storedTorrent
      case NotImplemented => Silent(Retry)
      case CallFailed => Silent(Retry)
      case Answered(None) => Silent(ParkPlain(TorrentUnreadable))
      case Answered(Some(bytes)) =>
        StepRun(if w.addPaused.Answered? then Advance(NO_PATCH) else ClientRefusal(w.addPaused),
                [AddPaused(data.infoHash.value)])
  }

  function StartRecheck(job: Job, w: World): StepRun {
    var data := job.row.data;
    if data.infoHash.None? then Silent(ParkPlain(TorrentUnreadable))
    else
      var h := data.infoHash.value;
      if !w.status.Answered? then StepRun(ClientRefusal(w.status), [AskStatus(h)])
      else if w.status.value.None? then StepRun(Rewind(Staged), [AskStatus(h)])
      else
        StepRun(
          if w.recheck.Answered? then Advance(NO_PATCH.(recheckingStartedAt := Some(w.now)))
          else ClientRefusal(w.recheck),
          [AskStatus(h), Recheck(h)])
  }

  // ---- Rechecking -> Verified -> Seeding -------------------------------------------------

  function FileProgressPatch(s: TorrentStatus): JobPatch {
    NO_PATCH.(fileProgress :=
      match s.files
      case None => None
      case Some(fs) => Some(seq(|fs|, i requires 0 <= i < |fs| => (fs[i].0, fs[i].1.Ratio()))))
  }

  /** The client's view, or the outcome that ends the step before anything acts on it. */
  function CurrentStatus(job: Job, w: World): Result<TorrentStatus, StepRun> {
    var data := job.row.data;
    if data.infoHash.None? then Err(Silent(ParkPlain(TorrentUnreadable)))
    else
      var asked := [AskStatus(data.infoHash.value)];
      if !w.status.Answered? then Err(StepRun(ClientRefusal(w.status), asked))
      else if w.status.value.None? then Err(StepRun(Rewind(Staged), asked))
      else
        var s := w.status.value.value;
        if s.state == Checking then
          var elapsed := RecheckElapsed(data.recheckingStartedAt, w.now);
          if elapsed >= w.policy.recheckTimeout then Err(StepRun(ParkPlain(RecheckTimedOut), asked))
          else
            var delay := if s.queued then QueuedRecheckPollDelay(w.policy)
                         else RecheckPollDelay(elapsed, w.policy);
            Err(StepRun(Wait(delay, NO_PATCH), asked))
        else if s.state == Errored then Err(StepRun(ParkPlain(RecheckErrored), asked))
        else Ok(s)
  }

  function Verify(job: Job, w: World): StepRun {
    match CurrentStatus(job, w)
    case Err(run) => run
    case Ok(s) =>
      var asked := [AskStatus(job.row.data.infoHash.GetOr([]))];
      match AssessData(s.completeness, job.row.data.materialization)
      case Go => StepRun(Advance(FileProgressPatch(s)), asked)
      case Hold(reason) => StepRun(Park(reason, [], FileProgressPatch(s)), asked)
  }

  function ResumeVerified(job: Job, w: World): StepRun {
    match CurrentStatus(job, w)
    case Err(run) => run
    case Ok(s) =>
      var data := job.row.data;
      var h := data.infoHash.GetOr([]);
      match DecideResume(s.completeness, data.materialization, w.policy, data.resumeApproved)
      case Hold(reason) => StepRun(Park(reason, [], FileProgressPatch(s)), [AskStatus(h)])
      case Go =>
        StepRun(
          if w.resume.Answered? then Advance(FileProgressPatch(s)) else ClientRefusal(w.resume),
          [AskStatus(h), Resume(h)])
  }

  // ---- Seeding -> Completed --------------------------------------------------------------

  /** The torrent is healthy, or the step ends here. */
  function CheckClient(job: Job, h: InfoHash, w: World): (Result<TorrentStatus, StepOutcome>, seq<ClientCall>) {
    var asked := [AskStatus(h)];
    if !w.status.Answered? then (Err(ClientRefusal(w.status)), asked)
    else if w.status.value.None? then (Err(Rewind(Staged)), asked)
    else
      var s := w.status.value.value;
      match s.state
      case SeedingNow => (Ok(s), asked)
      case Checking => (Ok(s), asked)
      case Paused =>
        var data := job.row.data;
        (match DecideResume(s.completeness, data.materialization, w.policy, data.resumeApproved)
         case Hold(reason) => (Err(Park(reason, [], FileProgressPatch(s))), asked)
         case Go => (if w.resume.Answered? then Ok(s) else Err(ClientRefusal(w.resume)),
                     asked + [Resume(h)]))
      case Downloading => (Err(Park(DownloadingDuringSeeding, [], FileProgressPatch(s))), asked)
      case Errored => (Err(Rewind(Staged)), asked)
  }

  function AfterTracker(job: Job, w: World, streak: nat): StepRun {
    match job.row.data.infoHash
    case None => Silent(ParkPlain(TorrentUnreadable))
    case Some(h) =>
      var (checked, calls) := CheckClient(job, h, w);
      match checked
      case Err(outcome) => StepRun(outcome, calls)
      case Ok(s) =>
        if job.row.deadline.Some? && w.now >= job.row.deadline.value
        then StepRun(ParkPlain(HitAndRunDeadlinePassed), calls)
        else
          StepRun(
            Wait(TrackerPollDelay(w.now, job.row.deadline, w.policy),
                 NO_PATCH.(unknownStreak := Some(streak), uploadedBytes := Some(s.uploadedBytes),
                           seedingSeconds := s.seedingSeconds)),
            calls)
  }

  function ConfirmWithTracker(job: Job, w: World): StepRun {
    if !w.trackerConfigured then Silent(ParkPlain(TrackerStatusUnclear))
    else
      match w.hitAndRun
      case NotImplemented => Silent(ParkPlain(AdapterNotImplemented))
      case CallFailed => Silent(Retry)
      case Answered(Cleared) => Silent(Advance(NO_PATCH))
      case Answered(Active) => AfterTracker(job, w, 0)
      case Answered(Unknown) =>
        var streak := job.row.data.unknownStreak + 1;
        if streak >= w.policy.maxConsecutiveUnknown then Silent(ParkPlain(TrackerStatusUnclear))
        else AfterTracker(job, w, streak)
  }

  // ---- Dispatch ----------------------------------------------------------------------------

  function Step(job: Job, w: World): StepRun {
    match job.row.state
    case Discovered => Silent(FetchTorrent(job, w))
    case TorrentFetched => Silent(MatchMedia(job, w))
    case Matched => Silent(StageFiles(job, w))
    case Staged => Inject(job, w)
    case Injected => StartRecheck(job, w)
    case Rechecking => Verify(job, w)
    case Verified => ResumeVerified(job, w)
    case Seeding => ConfirmWithTracker(job, w)
    case Completed => Silent(Wait(HOUR, NO_PATCH))
    case AwaitingReview => Silent(Wait(HOUR, NO_PATCH))
    case Failed => Silent(Wait(HOUR, NO_PATCH))
  }

  const HOUR: int := 3600 * 1_000_000_000

  /**
   * Every resume comes second, right after a status read of the same torrent that reported it
   * complete and neither checking nor errored, whatever the policy and whatever was approved.
   */
  lemma ResumeFollowsComplete(job: Job, w: World, i: nat)
    requires i < |Step(job, w).calls| && Step(job, w).calls[i].Resume?
    ensures i == 1 && |Step(job, w).calls| == 2
    ensures Step(job, w).calls == [AskStatus(Step(job, w).calls[i].infoHash), Resume(Step(job, w).calls[i].infoHash)]
    ensures w.status.Answered? && w.status.value.Some?
    ensures w.status.value.value.completeness == DataCompleteness.Complete
    ensures w.status.value.value.state != Checking && w.status.value.value.state != Errored
    ensures job.row.data.resumeApproved || w.policy.autoResume == WhenVerifiedComplete
    ensures job.row.state == Verified || job.row.state == Seeding
  {
    ResumesOnlyComplete(w.status.value.value.completeness, job.row.data.materialization, w.policy,
                        job.row.data.resumeApproved);
  }

  /** The last step succeeds exactly when the configured tracker says the hit-and-run is cleared. */
  lemma CompletesExactlyWhenCleared(job: Job, w: World)
    requires job.row.state == Seeding
    ensures Step(job, w).outcome.Advance? <==> w.trackerConfigured && w.hitAndRun == Answered(Cleared)
  {
  }

  /** A recheck is passed exactly when it is over, without error, and every byte is there. */
  lemma VerifiesExactlyComplete(job: Job, w: World)
    requires job.row.state == Rechecking
    ensures Step(job, w).outcome.Advance? <==>
      && job.row.data.infoHash.Some? && w.status.Answered? && w.status.value.Some?
      && w.status.value.value.state != Checking && w.status.value.value.state != Errored
      && w.status.value.value.completeness == DataCompleteness.Complete
  {
  }

  /** Incomplete data that may share inodes with the library is never merely called incomplete. */
  lemma AliasedDataIsHeldAsAliased(job: Job, w: World)
    requires job.row.state == Rechecking || job.row.state == Verified
    requires Step(job, w).outcome.Park? && Step(job, w).outcome.reason == IncompleteData
    ensures job.row.data.materialization in {Some(Reflink), Some(Copy)}
  {
  }

  /** Only a port that did not answer makes a step worth retrying. */
  lemma RetryMeansNoAnswer(job: Job, w: World)
    requires Step(job, w).outcome == Retry
    ensures || w.torrentBytes.CallFailed? || w.hitAndRun.CallFailed? || !w.planned.Answered?
            || w.candidates.CallFailed? || w.staged == Err(StagingIo) || !w.storedTorrent.Answered?
            || w.addPaused.CallFailed? || w.status.CallFailed? || w.recheck.CallFailed? || w.resume.CallFailed?
  {
  }

  /** A step only ever rewinds to `staged`, from a state past it; off the worker's states it waits. */
  lemma RewindsToStaged(job: Job, w: World)
    ensures Step(job, w).outcome.Rewind? ==>
      Step(job, w).outcome.to == Staged && job.row.state.Rank().GetOr(0) >= 4
      && job.row.state.IsActionable()
    ensures !job.row.state.IsActionable() ==>
      Step(job, w) == Silent(Wait(HOUR, NO_PATCH))
    ensures Step(job, w).outcome.Advance? ==> job.row.state.IsActionable()
  {
  }

  /** No step ever approves a resume; only an operator's action does. */
  lemma StepsNeverApprove(job: Job, w: World)
    ensures match Step(job, w).outcome
      case Advance(patch) => patch.resumeApproved.None?
      case Park(_, _, patch) => patch.resumeApproved.None?
      case Wait(_, patch) => patch.resumeApproved.None?
      case _ => true
  {
  }
}
