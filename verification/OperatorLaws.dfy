/** What each operator action is refused for and what it does, and whose file a choice picks (src/web/review.rs). */
module OperatorLaws {
  import opened Prelude
  import opened Lifecycle
  import opened JobModel
  import opened MatchModel
  import opened Table
  import opened OperatorReview
  import opened Callers
  import opened Sorting
  import Steps
  import StepReasons

  /** The one transition of this job an action asks for. */
  predicate AsksFor(w: Option<Write>, job: Job, to: RepairState, reason: TransitionReason, at: Time) {
    && w.Some? && w.value.Swap? && w.value.id == job.id && w.value.at == at
    && w.value.transition == Transition(job.row.state, to, reason)
  }

  /** A retry goes back to where the job was parked; nothing else can be retried. */
  lemma RetryAsks(job: Job, at: Time)
    ensures RetryAction(job, at).Some? <==> job.row.state == AwaitingReview && job.row.reviewFrom.Some?
    ensures RetryAction(job, at).Some? ==>
              && AsksFor(RetryAction(job, at), job, job.row.reviewFrom.value, OperatorRetry, at)
              && RetryAction(job, at).value.update == PLAIN_UPDATE
  {
  }

  /** An approval is a retry that says so, for a job parked for want of one and for nothing else. */
  lemma ApprovalAsks(job: Job, at: Time)
    ensures ApproveResumeAction(job, at).Some? <==>
              && job.row.state == AwaitingReview && job.row.reviewFrom.Some?
              && job.row.reviewReason == Some(AutoResumeDisabled)
    ensures ApproveResumeAction(job, at).Some? ==>
              && AsksFor(ApproveResumeAction(job, at), job, job.row.reviewFrom.value, OperatorRetry, at)
              && ApproveResumeAction(job, at).value.update.patch == NO_PATCH.(resumeApproved := Some(true))
  {
  }

  /** Only a parked job is abandoned, and never with staged data that could not be discarded. */
  lemma AbandonAsks(job: Job, discarded: bool, at: Time)
    ensures AbandonAction(job, at).Some? <==> job.row.state == AwaitingReview
    ensures AbandonAction(job, at).Some? ==>
              && AsksFor(AbandonAction(job, at), job, Failed, OperatorAbandon, at)
              && AbandonAction(job, at).value.update.failureReason.Some?
              && AbandonAction(job, at).value.update.patch == NO_PATCH
    ensures AbandonAndDiscardAction(job, discarded, at).Some? <==>
              job.row.state == AwaitingReview && (discarded || job.row.data.stagingDir.None?)
    ensures AbandonAndDiscardAction(job, discarded, at).Some? ==>
              AsksFor(AbandonAndDiscardAction(job, discarded, at), job, Failed, OperatorAbandon, at)
  {
  }

  /** Parked and failed jobs start over, their staged data gone first. */
  lemma RestartAsks(job: Job, discarded: bool, at: Time)
    ensures RestartAction(job, discarded, at).Some? <==>
              (job.row.state == AwaitingReview || job.row.state == Failed)
              && (discarded || job.row.data.stagingDir.None?)
    ensures RestartAction(job, discarded, at).Some? ==>
              && AsksFor(RestartAction(job, discarded, at), job, Discovered, OperatorRestart, at)
              && RestartAction(job, discarded, at).value.update == PLAIN_UPDATE
  {
  }

  // ---- Choices --------------------------------------------------------------------------------------

  /** Row `r` is the last park on record. */
  predicate LastPark(trail: seq<Record>, r: nat) {
    r < |trail| && trail[r].reason == ReviewAudit && forall k :: r < k < |trail| ==> trail[k].reason != ReviewAudit
  }

  /** Offer `o` is the first for the path. */
  predicate FirstOffer(offers: seq<Offer>, path: string, o: nat) {
    o < |offers| && offers[o].torrentPath == path && forall k :: 0 <= k < o ==> offers[k].torrentPath != path
  }

  lemma {:induction false} LastReviewIs(trail: seq<Record>)
    ensures match LastReview(trail)
            case None => forall r :: 0 <= r < |trail| ==> trail[r].reason != ReviewAudit
            case Some(record) => exists r: nat :: LastPark(trail, r) && trail[r] == record
  {
    if trail != [] {
      var last := |trail| - 1;
      LastReviewIs(trail[..last]);
      if trail[last].reason == ReviewAudit {
        assert LastPark(trail, last);
      } else if LastReview(trail[..last]).Some? {
        var r: nat :| LastPark(trail[..last], r) && trail[..last][r] == LastReview(trail[..last]).value;
        assert LastPark(trail, r);
      }
    }
  }

  lemma {:induction false} FindOfferIs(offers: seq<Offer>, path: string)
    ensures if exists o :: 0 <= o < |offers| && offers[o].torrentPath == path
            then exists o: nat :: FirstOffer(offers, path, o) && FindOffer(offers, path) == offers[o].candidates
            else FindOffer(offers, path) == []
  {
    if offers != [] {
      FindOfferIs(offers[1..], path);
      if offers[0].torrentPath == path {
        assert FirstOffer(offers, path, 0);
      } else if o :| 0 <= o < |offers| && offers[o].torrentPath == path {
        assert offers[1..][o - 1] == offers[o];
        var p: nat :| FirstOffer(offers[1..], path, p) && FindOffer(offers[1..], path) == offers[1..][p].candidates;
        assert offers[1..][p] == offers[p + 1];
        assert forall k :: 0 < k < p + 1 ==> offers[k] == offers[1..][k - 1];
        assert FirstOffer(offers, path, p + 1);
      } else {
        forall o | 0 <= o < |offers[1..]| ensures offers[1..][o].torrentPath != path {
          assert offers[1..][o] == offers[o + 1];
        }
      }
    }
  }

  /** The source is what the last park offered first for this path, at this place. */
  ghost predicate Offered(trail: seq<Record>, path: string, index: nat, source: LibraryPath) {
    exists r: nat, o: nat ::
      && LastPark(trail, r) && FirstOffer(trail[r].offers, path, o)
      && index < |trail[r].offers[o].candidates| && trail[r].offers[o].candidates[index] == source
  }

  lemma CandidatesAreOffered(trail: seq<Record>, path: string, index: nat)
    requires index < |OperatorReview.AmbiguousCandidates(trail, path)|
    ensures Offered(trail, path, index, OperatorReview.AmbiguousCandidates(trail, path)[index])
  {
    LastReviewIs(trail);
    var record := LastReview(trail).value;
    var r: nat :| LastPark(trail, r) && trail[r] == record;
    FindOfferIs(record.offers, path);
    var o: nat :| FirstOffer(record.offers, path, o) && FindOffer(record.offers, path) == record.offers[o].candidates;
  }

  /** A choice gives one file of the plan the offered source, as an operator's; the rest of the plan stays. */
  lemma ChoicePicksTheOffer(job: Job, trail: seq<Record>, path: string, index: nat)
    requires Chosen(job, trail, path, index).Some?
    ensures var before, after := PlannedFiles(job.row), Chosen(job, trail, path, index).value;
            && |after| == |before|
            && exists i ::
                 && 0 <= i < |before| && before[i].torrentPath == path
                 && after[i] == before[i].(source := after[i].source, confidence := Some(Operator))
                 && after[i].source.Some? && Offered(trail, path, index, after[i].source.value)
                 && forall k :: 0 <= k < |before| && k != i ==> after[k] == before[k]
  {
    CandidatesAreOffered(trail, path, index);
    var before, after := PlannedFiles(job.row), Chosen(job, trail, path, index).value;
    var i := FindFile(before, path);
    assert after[i].source == Some(OperatorReview.AmbiguousCandidates(trail, path)[index]);
  }

  /** The plan of one file. */
  predicate OneFile(row: Row, path: string) { |row.data.files| == 1 && row.data.files[0].torrentPath == path }

  /**
   * From matching to a choice and on: a job of one file that several library files might be is parked
   * with them on offer, and the operator's pick among them is the source it is matched with.
   */
  lemma PickIsMatched(
    t: Tables, id: JobId, w: Steps.World, path: string, length: nat, cs: seq<(LibraryPath, Origin)>, k: nat, at: Time)
    requires id in t.rows && id in t.trail && t.rows[id].state == TorrentFetched && OneFile(t.rows[id], path)
    requires w.planned.Answered? && w.planned.value != []
    requires w.candidates
             == Steps.Answered(MatchPlan([], [UnmatchedFile(path, length, UnmatchedReason.AmbiguousCandidates(cs))]))
    requires k < |cs|
    ensures var u := After(t, [Works(Job(id, t.rows[id]), w)]);
            && id in u.rows && id in u.trail && u.rows[id].state == AwaitingReview
            && u.rows[id].reviewReason == Some(AmbiguousMatch)
            && var v := After(u, [Operates(Choose(path, k), Job(id, u.rows[id]), u.trail[id], at)]);
               && id in v.rows && v.rows[id].state == Matched && |v.rows[id].data.files| == 1
               && v.rows[id].data.files[0].torrentPath == path && v.rows[id].data.files[0].source == Some(cs[k].0)
               && v.rows[id].data.files[0].confidence == Some(Operator)
  {
    var u := ParkedWithOffers(t, id, w, path, length, cs);
    var parked := Job(id, u.rows[id]);
    hide WorkerWrite, Steps.Step;
    ChoosesOne(parked, u.trail[id], path, k, cs, at);
    var choice := Operates(Choose(path, k), parked, u.trail[id], at);
    AfterSnoc(u, [], choice);
    assert [] + [choice] == [choice];
    hide ChooseCandidateAction, PlannedFiles, OperatorReview.AmbiguousCandidates;
  }

  lemma ParkedWithOffers(
    t: Tables, id: JobId, w: Steps.World, path: string, length: nat, cs: seq<(LibraryPath, Origin)>) returns (u: Tables)
    requires id in t.rows && id in t.trail && t.rows[id].state == TorrentFetched && OneFile(t.rows[id], path)
    requires w.planned.Answered? && w.planned.value != []
    requires w.candidates
             == Steps.Answered(MatchPlan([], [UnmatchedFile(path, length, UnmatchedReason.AmbiguousCandidates(cs))]))
    ensures u == After(t, [Works(Job(id, t.rows[id]), w)]) && id in u.rows && id in u.trail
    ensures u.rows[id].state == AwaitingReview && u.rows[id].reviewReason == Some(AmbiguousMatch)
    ensures u.rows[id].reviewFrom == Some(TorrentFetched) && OneFile(u.rows[id], path)
    ensures OperatorReview.AmbiguousCandidates(u.trail[id], path) == seq(|cs|, k requires 0 <= k < |cs| => cs[k].0)
    ensures PlannedFiles(u.rows[id]) == u.rows[id].data.files
  {
    var job := Job(id, t.rows[id]);
    ParksWithOffers(job, w, path, length, cs);
    u := After(t, [Works(job, w)]);
    AfterSnoc(t, [], Works(job, w));
    assert [] + [Works(job, w)] == [Works(job, w)];
    hide WorkerWrite, Steps.Step, After, OperatorReview.AmbiguousCandidates;
    LastOffer(t.trail[id], u.trail[id][|u.trail[id]| - 1], path);
    SortOne(u.rows[id].data.files);
  }

  lemma ParksWithOffers(job: Job, w: Steps.World, path: string, length: nat, cs: seq<(LibraryPath, Origin)>)
    requires job.row.state == TorrentFetched && w.planned.Answered? && w.planned.value != []
    requires w.candidates
             == Steps.Answered(MatchPlan([], [UnmatchedFile(path, length, UnmatchedReason.AmbiguousCandidates(cs))]))
    ensures WorkerWrite(job, w).Some? && WorkerWrite(job, w).value.Swap?
    ensures var write := WorkerWrite(job, w).value;
            && write.id == job.id && write.at == w.now && write.update.patch == NO_PATCH
            && write.transition == Transition(TorrentFetched, AwaitingReview, TransitionReason.Review(AmbiguousMatch))
            && write.update.offers == [Offer(path, seq(|cs|, k requires 0 <= k < |cs| => cs[k].0))]
  {
    StepReasons.MatchOffers(job, w);
    StepReasons.ParkedForMatching(job, w);
    var offers := Steps.Step(job, w).outcome.offers;
    assert offers[0].candidates == seq(|cs|, k requires 0 <= k < |cs| => cs[k].0);
  }

  lemma LastOffer(trail: seq<Record>, record: Record, path: string)
    requires record.reason == ReviewAudit
    ensures LastReview(trail + [record]) == Some(record)
    ensures |record.offers| == 1 && record.offers[0].torrentPath == path ==>
              OperatorReview.AmbiguousCandidates(trail + [record], path) == record.offers[0].candidates
  {
  }

  lemma SortOne(files: seq<PlannedFile>)
    requires |files| == 1
    ensures Sort(files, (a: PlannedFile, b: PlannedFile) => TextLeq(a.torrentPath, b.torrentPath)) == files
  {
    assert files == [files[0]] && files[1..] == [];
  }

  lemma ChoosesOne(
    job: Job, trail: seq<Record>, path: string, k: nat, cs: seq<(LibraryPath, Origin)>, at: Time)
    requires job.row.state == AwaitingReview && job.row.reviewFrom == Some(TorrentFetched) && OneFile(job.row, path)
    requires k < |cs|
    requires OperatorReview.AmbiguousCandidates(trail, path) == seq(|cs|, i requires 0 <= i < |cs| => cs[i].0)
    requires PlannedFiles(job.row) == job.row.data.files
    ensures var w := ChooseCandidateAction(job, trail, path, k, at);
            && AsksFor(w, job, Matched, OperatorChooseCandidate, at)
            && w.value.update.patch.files
               == Some([job.row.data.files[0].(source := Some(cs[k].0), confidence := Some(Operator))])
            && w.value.update.patch.fileProgress.None?
  {
    var files := job.row.data.files;
    assert FindFile(files, path) == 0;
    assert files[0 := files[0].(source := Some(cs[k].0), confidence := Some(Operator))]
        == [files[0].(source := Some(cs[k].0), confidence := Some(Operator))];
  }
}
