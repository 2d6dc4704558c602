/** Operator actions: each is one validated transition planned from a loaded job (src/web/review.rs). */
module OperatorReview {
  import opened Prelude
  import opened Lifecycle
  import opened JobModel
  import opened Table
  import opened Sorting
  import Steps

  /** Plan a transition for a job as it was loaded. */
  function PlanTransition(job: Job, to: RepairState, reason: TransitionReason): Result<Transition, Refusal> {
    ValidateTransition(job.row.state, to, reason, job.row.reviewFrom)
  }

  /** The swap an accepted plan turns into; nothing when the table refuses it. */
  function Planned(job: Job, to: RepairState, reason: TransitionReason, u: TransitionUpdate, at: Time): Option<Write> {
    match PlanTransition(job, to, reason)
    case Ok(tr) => Some(Swap(job.id, tr, u, at))
    case Err(_) => None
  }

  function RetryAction(job: Job, at: Time): Option<Write> {
    if job.row.reviewFrom.None? then None
    else Planned(job, job.row.reviewFrom.value, OperatorRetry, PLAIN_UPDATE, at)
  }

  /** Only a job parked for nothing but `auto_resume = never` can be approved. */
  function ApproveResumeAction(job: Job, at: Time): Option<Write> {
    if job.row.reviewFrom.None? || job.row.reviewReason != Some(AutoResumeDisabled) then None
    else
      Planned(job, job.row.reviewFrom.value, OperatorRetry,
              PLAIN_UPDATE.(patch := NO_PATCH.(resumeApproved := Some(true))), at)
  }

  function AbandonAction(job: Job, at: Time): Option<Write> {
    Planned(job, Failed, OperatorAbandon,
            PLAIN_UPDATE.(failureReason := Some("abandoned by operator")), at)
  }

  /** Removing the torrent may fail; a staging directory that cannot be cleared stops the action. */
  function AbandonAndDiscardAction(job: Job, discarded: bool, at: Time): Option<Write> {
    if job.row.data.stagingDir.Some? && !discarded then None
    else
      Planned(job, Failed, OperatorAbandon,
              PLAIN_UPDATE.(failureReason := Some("abandoned by operator, staging discarded")), at)
  }

  function RestartAction(job: Job, discarded: bool, at: Time): Option<Write> {
    if job.row.data.stagingDir.Some? && !discarded then None
    else Planned(job, Discovered, OperatorRestart, PLAIN_UPDATE, at)
  }

  // ---- Choosing a candidate ----------------------------------------------------------------

  function LastReview(trail: seq<Record>): Option<Record> {
    if trail == [] then None
    else if trail[|trail| - 1].reason == ReviewAudit then Some(trail[|trail| - 1])
    else LastReview(trail[..|trail| - 1])
  }

  function FindOffer(offers: seq<Offer>, path: string): seq<LibraryPath> {
    if offers == [] then []
    else if offers[0].torrentPath == path then offers[0].candidates
    else FindOffer(offers[1..], path)
  }

  /** What the most recent park offered for `path`. */
  function AmbiguousCandidates(trail: seq<Record>, path: string): seq<LibraryPath> {
    match LastReview(trail)
    case None => []
    case Some(record) => FindOffer(record.offers, path)
  }

  /** `ORDER BY torrent_path`. */
  function PlannedFiles(row: Row): seq<PlannedFile> {
    Sort(row.data.files, (a: PlannedFile, b: PlannedFile) => TextLeq(a.torrentPath, b.torrentPath))
  }

  function FindFile(files: seq<PlannedFile>, path: string): (i: nat)
    ensures i <= |files|
    ensures i < |files| ==> files[i].torrentPath == path
    ensures forall k :: 0 <= k < i ==> files[k].torrentPath != path
  {
    if files == [] || files[0].torrentPath == path then 0 else 1 + FindFile(files[1..], path)
  }

  predicate AllSourced(files: seq<PlannedFile>) {
    forall i | 0 <= i < |files| :: files[i].source.Some?
  }

  /** The plan with one file decided by the operator; nothing if the choice is not on offer. */
  function Chosen(job: Job, trail: seq<Record>, path: string, index: nat): Option<seq<PlannedFile>> {
    var candidates := AmbiguousCandidates(trail, path);
    var files := PlannedFiles(job.row);
    var i := FindFile(files, path);
    if index >= |candidates| || i == |files| then None
    else Some(files[i := files[i].(source := Some(candidates[index]), confidence := Some(Operator))])
  }

  /** Completes matching once every file has a source; until then it only records the files. */
  function ChooseCandidateAction(job: Job, trail: seq<Record>, path: string, index: nat, at: Time): Option<Write> {
    match Chosen(job, trail, path, index)
    case None => None
    case Some(files) =>
      if !AllSourced(files) then Some(Telemetry(job.id, NO_PATCH.(files := Some(files)), at))
      else
        Planned(job, Matched, OperatorChooseCandidate,
          PLAIN_UPDATE.(patch := NO_PATCH.(
            stagingDir := Some(Steps.DefaultStagingDir(job)), files := Some(files))), at)
  }

  predicate Undecided(files: seq<PlannedFile>, i: nat) {
    i < |files| && files[i].source.None?
  }

  /** Two different files of the plan still need a source. */
  ghost predicate TwoUndecided(files: seq<PlannedFile>) {
    exists i, j :: 0 <= i < j && Undecided(files, i) && Undecided(files, j)
  }

  lemma UndecidedSurviveSorting(row: Row)
    requires TwoUndecided(row.data.files)
    ensures TwoUndecided(PlannedFiles(row))
  {
    var leq := (a: PlannedFile, b: PlannedFile) => TextLeq(a.torrentPath, b.torrentPath);
    var i, j :| 0 <= i < j && Undecided(row.data.files, i) && Undecided(row.data.files, j);
    var s, p := row.data.files, (f: PlannedFile) => f.source.None?;
    KeepAtLeastTwo(s, i, j);
    SortPermutes(s, leq);
    KeepPermutes(s, Sort(s, leq), p);
    SameSize(UndecidedOnly(s), UndecidedOnly(Sort(s, leq)));
    TwoKept(Sort(s, leq));
  }

  function UndecidedOnly(s: seq<PlannedFile>): seq<PlannedFile> {
    Keep(s, (f: PlannedFile) => f.source.None?)
  }

  lemma {:induction false} KeepAtLeastTwo(s: seq<PlannedFile>, i: nat, j: nat)
    requires i < j && Undecided(s, i) && Undecided(s, j)
    ensures |UndecidedOnly(s)| >= 2
  {
    if i > 0 { KeepAtLeastTwo(s[1..], i - 1, j - 1); }
    else { KeepOne(s[1..], j - 1); }
  }

  lemma {:induction false} KeepOne(s: seq<PlannedFile>, j: nat)
    requires Undecided(s, j)
    ensures |UndecidedOnly(s)| >= 1
  {
    if j > 0 { KeepOne(s[1..], j - 1); }
  }

  lemma {:induction false} OneKept(s: seq<PlannedFile>) returns (i: nat)
    requires |UndecidedOnly(s)| >= 1
    ensures Undecided(s, i)
  {
    if s[0].source.None? { i := 0; } else { var k := OneKept(s[1..]); i := k + 1; }
  }

  lemma {:induction false} TwoKept(s: seq<PlannedFile>)
    requires |UndecidedOnly(s)| >= 2
    ensures TwoUndecided(s)
  {
    if s[0].source.None? {
      var j := OneKept(s[1..]);
      assert Undecided(s, 0) && Undecided(s, j + 1);
    } else {
      TwoKept(s[1..]);
      var i, j :| 0 <= i < j && Undecided(s[1..], i) && Undecided(s[1..], j);
      assert Undecided(s, i + 1) && Undecided(s, j + 1);
    }
  }

  /**
   * The store's telemetry statement writes scalar columns only, so a choice that leaves another
   * file undecided changes nothing of the plan: the operator's pick is lost.
   */
  lemma PartialChoiceIsLost(t: Tables, id: JobId, trail: seq<Record>, path: string, index: nat, at: Time)
    requires id in t.rows && TwoUndecided(t.rows[id].data.files)
    ensures var w := ChooseCandidateAction(Job(id, t.rows[id]), trail, path, index, at);
      w.Some? ==>
        && Do(t, w.value).trail == t.trail
        && id in Do(t, w.value).rows
        && Do(t, w.value).rows[id].data == t.rows[id].data
        && Do(t, w.value).rows[id].state == t.rows[id].state
        && Do(t, w.value).rows[id].reviewFrom == t.rows[id].reviewFrom
  {
    var job := Job(id, t.rows[id]);
    var chosen := Chosen(job, trail, path, index);
    if chosen.Some? {
      UndecidedSurviveSorting(t.rows[id]);
      var files := PlannedFiles(t.rows[id]);
      var i, j :| 0 <= i < j && Undecided(files, i) && Undecided(files, j);
      var k := FindFile(files, path);
      assert !AllSourced(chosen.value) by {
        assert chosen.value[if i == k then j else i].source.None?;
      }
    }
  }

  /** One choice after another, each on the job freshly loaded. */
  ghost function ChooseAll(t: Tables, id: JobId, picks: seq<(string, nat)>, at: Time): Tables
    decreases |picks|
  {
    if picks == [] || id !in t.rows || id !in t.trail then t
    else
      var w := ChooseCandidateAction(Job(id, t.rows[id]), t.trail[id], picks[0].0, picks[0].1, at);
      ChooseAll(if w.Some? then Do(t, w.value) else t, id, picks[1..], at)
  }

  /**
   * With two files undecided no sequence of choices, however long, ever completes matching: the
   * job stays parked where it was with the same plan.
   */
  lemma {:induction false} ChoicesNeverResolveTwo(t: Tables, id: JobId, picks: seq<(string, nat)>, at: Time)
    requires id in t.rows && id in t.trail && TwoUndecided(t.rows[id].data.files)
    ensures id in ChooseAll(t, id, picks, at).rows
    ensures ChooseAll(t, id, picks, at).trail == t.trail
    ensures ChooseAll(t, id, picks, at).rows[id].data == t.rows[id].data
    ensures ChooseAll(t, id, picks, at).rows[id].state == t.rows[id].state
    ensures ChooseAll(t, id, picks, at).rows[id].reviewFrom == t.rows[id].reviewFrom
    decreases |picks|
  {
    if picks != [] {
      PartialChoiceIsLost(t, id, t.trail[id], picks[0].0, picks[0].1, at);
      var w := ChooseCandidateAction(Job(id, t.rows[id]), t.trail[id], picks[0].0, picks[0].1, at);
      ChoicesNeverResolveTwo(if w.Some? then Do(t, w.value) else t, id, picks[1..], at);
    }
  }

  /** A choice completes matching exactly when it is on offer and every other file has a source. */
  lemma ChoiceResolvesIff(job: Job, trail: seq<Record>, path: string, index: nat, at: Time)
    requires job.row.state == AwaitingReview && job.row.reviewFrom == Some(TorrentFetched)
    ensures var w := ChooseCandidateAction(job, trail, path, index, at);
      var files := PlannedFiles(job.row); var i := FindFile(files, path);
      (w.Some? && w.value.Swap?) <==>
        && index < |AmbiguousCandidates(trail, path)| && i < |files|
        && forall k :: 0 <= k < |files| && k != i ==> files[k].source.Some?
  {
    var chosen := Chosen(job, trail, path, index);
    if chosen.Some? {
      var files := PlannedFiles(job.row);
      var i := FindFile(files, path);
      forall k | 0 <= k < |files| ensures chosen.value[k].source.Some? <==> (k == i || files[k].source.Some?) {}
    }
  }
}
