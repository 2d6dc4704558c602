/** What a repair job row, its file plan and its audit trail hold (migrations/, src/repair/ports.rs). */
module JobModel {
  import opened Prelude
  import opened Lifecycle

  type JobId = int
  /** Instants and durations, in nanoseconds. */
  type Time = int
  type InfoHash = seq<Byte>
  /** A library file, as its path components. */
  type LibraryPath = seq<string>

  /** How a staged file is backed by the library file it came from. */
  datatype Strategy = Reflink | Hardlink | Copy {
    /** Whether writing to the staged file writes to the library file. */
    predicate AliasesLibraryFile() { Hardlink? }
  }

  datatype Confidence = Ambiguous | Probable | Operator | Exact

  /** One file of the repair plan, as persisted. */
  datatype PlannedFile = PlannedFile(
    torrentPath: string, length: nat, source: Option<LibraryPath>, confidence: Option<Confidence>,
    materializedAs: Option<Strategy>, recheckProgress: Option<real>)

  /** The columns a step or an operator may patch. */
  datatype JobData = JobData(
    infoHash: Option<InfoHash>, torrentFile: Option<seq<Byte>>, totalBytes: Option<nat>,
    stagingDir: Option<string>, materialization: Option<Strategy>,
    recheckingStartedAt: Option<Time>, unknownStreak: nat, uploadedBytes: Option<nat>,
    seedingSeconds: Option<nat>, resumeApproved: bool, files: seq<PlannedFile>)

  /** Anything left `None` is untouched. */
  datatype JobPatch = JobPatch(
    infoHash: Option<InfoHash>, torrentFile: Option<seq<Byte>>, totalBytes: Option<nat>,
    stagingDir: Option<string>, materialization: Option<Strategy>,
    recheckingStartedAt: Option<Time>, unknownStreak: Option<nat>, uploadedBytes: Option<nat>,
    seedingSeconds: Option<nat>, resumeApproved: Option<bool>,
    files: Option<seq<PlannedFile>>, fileProgress: Option<seq<(string, real)>>)

  const NO_PATCH: JobPatch :=
    JobPatch(None, None, None, None, None, None, None, None, None, None, None, None)

  datatype Row = Row(
    tracker: string, torrentId: string, torrentName: string, deadline: Option<Time>,
    state: RepairState, reviewFrom: Option<RepairState>, reviewReason: Option<ReviewReason>,
    failureReason: Option<string>, data: JobData,
    attempts: nat, nextAttemptAt: Option<Time>,
    leaseOwner: Option<string>, leaseExpiresAt: Option<Time>,
    createdAt: Time, updatedAt: Time)

  /** A job as somebody read it, possibly some time ago. */
  datatype Job = Job(id: JobId, row: Row)

  /** The `reason` column of the audit trail: the inner review reason is not part of it. */
  datatype AuditReason =
    | DiscoveredAudit | ProgressAudit | ReviewAudit | FailureAudit | RetryAudit | ChooseAudit
    | AbandonAudit | RestartAudit | ReconciliationAudit

  function AsAudit(reason: TransitionReason): AuditReason {
    match reason
    case Progress => ProgressAudit
    case Review(_) => ReviewAudit
    case Failure => FailureAudit
    case OperatorRetry => RetryAudit
    case OperatorChooseCandidate => ChooseAudit
    case OperatorAbandon => AbandonAudit
    case OperatorRestart => RestartAudit
    case Reconciliation => ReconciliationAudit
  }

  /** The library files matching offered an operator for one undecided torrent file. */
  datatype Offer = Offer(torrentPath: string, candidates: seq<LibraryPath>)

  datatype Record = Record(
    from: RepairState, to: RepairState, reason: AuditReason, offers: seq<Offer>, occurredAt: Time)

  datatype TransitionUpdate = TransitionUpdate(
    offers: seq<Offer>, failureReason: Option<string>, patch: JobPatch)

  const PLAIN_UPDATE: TransitionUpdate := TransitionUpdate([], None, NO_PATCH)

  datatype HitAndRun = HitAndRun(
    tracker: string, torrentId: string, torrentName: string, infoHash: Option<InfoHash>,
    sizeBytes: Option<nat>, deadline: Option<Time>)

  /** `COALESCE(?, column)`. */
  function Coalesce<T>(patch: Option<T>, column: T): T {
    if patch.Some? then patch.value else column
  }

  function CoalesceOption<T>(patch: Option<T>, column: Option<T>): Option<T> {
    if patch.Some? then patch else column
  }

  /** The scalar columns of a patch. Neither `files` nor `fileProgress` is one of them. */
  function PatchScalars(d: JobData, p: JobPatch): JobData {
    JobData(
      CoalesceOption(p.infoHash, d.infoHash), CoalesceOption(p.torrentFile, d.torrentFile),
      CoalesceOption(p.totalBytes, d.totalBytes), CoalesceOption(p.stagingDir, d.stagingDir),
      CoalesceOption(p.materialization, d.materialization),
      CoalesceOption(p.recheckingStartedAt, d.recheckingStartedAt),
      Coalesce(p.unknownStreak, d.unknownStreak), CoalesceOption(p.uploadedBytes, d.uploadedBytes),
      CoalesceOption(p.seedingSeconds, d.seedingSeconds),
      Coalesce(p.resumeApproved, d.resumeApproved), d.files)
  }

  /** Freshly inserted file rows carry no recheck progress. */
  function Inserted(files: seq<PlannedFile>): seq<PlannedFile> {
    seq(|files|, i requires 0 <= i < |files| => files[i].(recheckProgress := None))
  }

  function WithProgress(files: seq<PlannedFile>, progress: seq<(string, real)>): seq<PlannedFile>
    decreases |progress|
  {
    if progress == [] then files
    else
      var (path, ratio) := progress[0];
      var updated := seq(|files|, i requires 0 <= i < |files| =>
        if files[i].torrentPath == path then files[i].(recheckProgress := Some(ratio)) else files[i]);
      WithProgress(updated, progress[1..])
  }

  /** The whole patch, as a transition writes it: scalars, then the plan, then its progress. */
  function PatchAll(d: JobData, p: JobPatch): JobData {
    var d := PatchScalars(d, p);
    var d := if p.files.Some? then d.(files := Inserted(p.files.value)) else d;
    if p.fileProgress.Some? then d.(files := WithProgress(d.files, p.fileProgress.value)) else d
  }

  /** `repair_job_files` is keyed on the torrent path. */
  predicate DistinctPaths(files: seq<PlannedFile>) {
    forall i, j :: 0 <= i < j < |files| ==> files[i].torrentPath != files[j].torrentPath
  }
}
