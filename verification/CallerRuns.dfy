/**
 * Runs of callers: those that act on what they just read leave no gap, and what becomes of stale
 * retries, approvals and partial choices.
 */
module CallerRuns {
  import opened Prelude
  import opened Lifecycle
  import opened JobModel
  import opened Policy
  import opened Table
  import opened Protocol
  import opened OperatorReview
  import opened Reality
  import opened Callers
  import Steps

  // ---- Acting on what was just read --------------------------------------------------------------

  /** An operator or a resume-point correction goes by the resume point the job has now. */
  predicate ActsFresh(t: Tables, c: Call) {
    match c
    case Operates(_, job, _, _) => job.id in t.rows ==> t.rows[job.id].reviewFrom == job.row.reviewFrom
    case ReconcilesParked(job, _, _) => job.id in t.rows ==> t.rows[job.id].reviewFrom == job.row.reviewFrom
    case _ => true
  }

  lemma FreshCorrectionIsPinned(t: Tables, job: Job, e: Reality.Evidence, at: Time)
    requires Consistent(t) && SchemaAdmits(job) && ActsFresh(t, ReconcilesParked(job, e, at))
    requires WriteOf(ReconcilesParked(job, e, at)).Some?
    ensures Pinned(t, WriteOf(ReconcilesParked(job, e, at)).value)
  {
    TargetIsStable(job.row, e, job.row.reviewFrom.value);
    BackwardCorrectionsArePinned(t, job.id, RealityBackedTarget(job.row, e, job.row.reviewFrom.value), at);
    hide Consistent, RealityBackedTarget;
  }

  lemma FreshOperationIsPinned(t: Tables, c: Call)
    requires Consistent(t) && c.Operates? && Readable(c) && ActsFresh(t, c) && WriteOf(c).Some?
    ensures Pinned(t, WriteOf(c).value)
  {
    WriteIsIssued(c);
    var w := WriteOf(c).value;
    if w.Swap? {
      SwapGoesByLoaded(c);
      if w.id in t.rows {
        FreshOperatorWritesArePinned(t, w.id, w.transition, w.update, w.at);
      }
    } else {
      WorkerWritesArePinned(t, w);
    }
    hide Consistent, WriteOf;
  }

  lemma SwapGoesByLoaded(c: Call)
    requires c.Operates? && WriteOf(c).Some? && WriteOf(c).value.Swap?
    ensures var w := WriteOf(c).value;
            && w.id == c.job.id
            && ValidateTransition(w.transition.from, w.transition.to, w.transition.reason, c.job.row.reviewFrom).Ok?
  {
    hide Chosen, Steps.DefaultStagingDir;
  }

  lemma FreshCallIsPinned(t: Tables, c: Call)
    requires Consistent(t) && Readable(c) && ActsFresh(t, c) && WriteOf(c).Some?
    ensures Pinned(t, WriteOf(c).value)
  {
    match c
    case Operates(_, _, _, _) => FreshOperationIsPinned(t, c);
    case ReconcilesParked(job, e, at) => FreshCorrectionIsPinned(t, job, e, at);
    case _ =>
      WriteIsIssued(c);
      OthersNeverRetry(c);
      WorkerWritesArePinned(t, WriteOf(c).value);
  }

  lemma OthersNeverRetry(c: Call)
    requires !c.Operates? && !c.ReconcilesParked? && WriteOf(c).Some?
    ensures var w := WriteOf(c).value;
            && !w.ResumePoint?
            && (w.Swap? ==>
                  w.transition.reason != OperatorRetry && w.transition.reason != OperatorChooseCandidate)
  {
    hide Steps.Step;
  }

  /** Every call of the run is fresh when it comes. */
  ghost predicate AlwaysFresh(t: Tables, cs: seq<Call>) {
    forall i :: 0 <= i < |cs| ==> ActsFresh(After(t, cs[..i]), cs[i])
  }

  /**
   * However workers, operators and reconcilers interleave, as long as nobody acts on a resume point
   * that has moved since, every step below where a job stands is on its record.
   */
  lemma {:induction false} FreshRunsSkipNothing(t: Tables, cs: seq<Call>)
    requires Consistent(t) && NothingSkipped(t) && AlwaysFresh(t, cs)
    requires forall c :: c in cs ==> Readable(c)
    ensures Consistent(After(t, cs)) && NothingSkipped(After(t, cs))
  {
    if cs != [] {
      var front, last := cs[..|cs| - 1], cs[|cs| - 1];
      assert cs == front + [last];
      assert AlwaysFresh(t, front) by {
        forall i | 0 <= i < |front| ensures ActsFresh(After(t, front[..i]), front[i]) {
          assert front[..i] == cs[..i];
        }
      }
      FreshRunsSkipNothing(t, front);
      AfterSnoc(t, front, last);
      var u := After(t, front);
      assert ActsFresh(u, last);
      if WriteOf(last).Some? {
        FreshCallIsPinned(u, last);
        WriteIsIssued(last);
        hide Consistent, NothingSkipped, After, Pinned;
        StepKeepsConsistent(u, WriteOf(last).value);
        StepSkipsNothing(u, WriteOf(last).value);
      }
    }
  }

  // ---- A stale retry ----------------------------------------------------------------------------------

  /** Job 1 as it is read after these calls. */
  ghost predicate ReadsAs(cs: seq<Call>, row: Row, trail: seq<Record>) {
    var t := After(EMPTY, cs);
    1 in t.rows && t.rows[1] == row && 1 in t.trail && t.trail[1] == trail
  }

  lemma CallMoves(cs: seq<Call>, row: Row, trail: seq<Record>, c: Call)
    returns (after: Row, r: Record)
    requires ReadsAs(cs, row, trail) && WriteOf(c).Some? && WriteOf(c).value.Swap?
    requires var w := WriteOf(c).value;
             w.id == 1 && w.transition.from == row.state && Admissible(w.transition, w.update)
    ensures var w := WriteOf(c).value;
            && after == Swapped(row, w.transition, w.update, w.at)
            && r == Record(row.state, w.transition.to, AsAudit(w.transition.reason), w.update.offers, w.at)
    ensures ReadsAs(cs + [c], after, trail + [r])
  {
    var w := WriteOf(c).value;
    after := Swapped(row, w.transition, w.update, w.at);
    r := Record(row.state, w.transition.to, AsAudit(w.transition.reason), w.update.offers, w.at);
    AfterSnoc(EMPTY, cs, c);
    hide WriteOf, After, Swapped, Admissible;
  }

  /** The torrent can be fetched and read, and is the one discovered. */
  ghost predicate Fetchable(w: Steps.World, h: HitAndRun) {
    && w.trackerConfigured && w.torrentBytes.Answered? && w.inspection.Decoded?
    && (h.infoHash.Some? ==> h.infoHash.value == w.inspection.infoHash)
    && forall i, j :: 0 <= i < j < |w.inspection.files| ==> w.inspection.files[i].path != w.inspection.files[j].path
  }

  /** Matching answers, and what it found does not do. */
  predicate Unmatched(w: Steps.World) {
    && w.planned.Answered? && w.planned.value != [] && w.candidates.Answered?
    && DecideMatch(w.candidates.value, w.policy).Hold?
  }

  /** The call acts on job 1 exactly as it is read after the first `n` calls. */
  ghost predicate ActsOn(cs: seq<Call>, i: nat, n: nat) {
    && n <= i < |cs| && 1 in After(EMPTY, cs[..n]).rows
    && (cs[i].Works? || cs[i].Operates?) && cs[i].job == Job(1, After(EMPTY, cs[..n]).rows[1])
  }

  lemma ReadingActsOn(cs: seq<Call>, i: nat, n: nat, row: Row, trail: seq<Record>)
    requires n <= i < |cs| && ReadsAs(cs[..n], row, trail)
    requires (cs[i].Works? || cs[i].Operates?) && cs[i].job == Job(1, row)
    ensures ActsOn(cs, i, n)
  {
  }

  /**
   * A job is fetched and parked by matching; an operator loads it. A restart, and a step that parks
   * the job again because its tracker is no longer configured, come before the operator's retry.
   * The swap compares only `state`, so the retry of the job as loaded goes through, and the torrent
   * counts as fetched though nothing was fetched since the restart.
   */
  lemma StaleRetrySkips(
    h: HitAndRun, fetched: Steps.World, unmatched: Steps.World, unconfigured: Steps.World, at: Time)
    returns (cs: seq<Call>)
    requires Fetchable(fetched, h) && Unmatched(unmatched) && !unconfigured.trackerConfigured
    ensures |cs| == 6 && cs[0] == Discovers(h, at)
    ensures ActsOn(cs, 1, 1) && cs[1] == Works(cs[1].job, fetched)
    ensures ActsOn(cs, 2, 2) && cs[2] == Works(cs[2].job, unmatched)
    ensures ActsOn(cs, 3, 3) && cs[3].Operates? && cs[3].action.Restart?
    ensures ActsOn(cs, 4, 4) && cs[4] == Works(cs[4].job, unconfigured)
    ensures ActsOn(cs, 5, 3) && cs[5].Operates? && cs[5].action == RetryIt
    ensures forall c :: c in cs ==> Readable(c)
    ensures !NothingSkipped(After(EMPTY, cs))
  {
    var row0, trail0 := NewRow(h, at), [Record(Discovered, Discovered, DiscoveredAudit, [], at)];
    var c0 := Discovers(h, at);
    DiscoveryReads(h, at);
    var c1, row1, r1 := FetchIsRecorded([c0], row0, trail0, fetched, h);
    var c2, row2, r2 := MatchingParks([c0] + [c1], row1, trail0 + [r1], unmatched);
    var c3, row3, r3 := RestartGoesBack([c0] + [c1] + [c2], row2, trail0 + [r1] + [r2], at);
    var c4, row4, r4 := UnconfiguredParks([c0] + [c1] + [c2] + [c3], row3, trail0 + [r1] + [r2] + [r3], unconfigured);
    var c5 := Operates(RetryIt, Job(1, row2), [], at);
    RetryGoesThrough([c0] + [c1] + [c2] + [c3] + [c4], row4, trail0 + [r1] + [r2], r3, r4, row2, at);
    cs := [c0] + [c1] + [c2] + [c3] + [c4] + [c5];
    hide ReadsAs, WriteOf, After, NothingSkipped, Readable, ActsOn, Fetchable, Unmatched;
    assert cs[..1] == [c0] && cs[..2] == [c0] + [c1] && cs[..3] == [c0] + [c1] + [c2];
    assert cs[..4] == [c0] + [c1] + [c2] + [c3];
    ReadingActsOn(cs, 1, 1, row0, trail0);
    ReadingActsOn(cs, 2, 2, row1, trail0 + [r1]);
    ReadingActsOn(cs, 3, 3, row2, trail0 + [r1] + [r2]);
    ReadingActsOn(cs, 4, 4, row3, trail0 + [r1] + [r2] + [r3]);
    ReadingActsOn(cs, 5, 3, row2, trail0 + [r1] + [r2]);
    SixReadable(c0, c1, c2, c3, c4, c5);
  }

  lemma SixReadable(c0: Call, c1: Call, c2: Call, c3: Call, c4: Call, c5: Call)
    requires Readable(c0) && Readable(c1) && Readable(c2) && Readable(c3) && Readable(c4) && Readable(c5)
    ensures forall c :: c in [c0] + [c1] + [c2] + [c3] + [c4] + [c5] ==> Readable(c)
  {
    hide Readable;
  }

  lemma DiscoveryReads(h: HitAndRun, at: Time)
    ensures ReadsAs([Discovers(h, at)], NewRow(h, at), [Record(Discovered, Discovered, DiscoveredAudit, [], at)])
    ensures Readable(Discovers(h, at))
  {
    AfterSnoc(EMPTY, [], Discovers(h, at));
    assert [] + [Discovers(h, at)] == [Discovers(h, at)];
  }

  lemma FetchIsRecorded(cs: seq<Call>, row: Row, trail: seq<Record>, w: Steps.World, h: HitAndRun)
    returns (c: Call, after: Row, r: Record)
    requires ReadsAs(cs, row, trail) && Fetchable(w, h)
    requires row.state == Discovered && row.reviewFrom.None? && row.data.infoHash == h.infoHash
    ensures c == Works(Job(1, row), w) && Readable(c)
    ensures ReadsAs(cs + [c], after, trail + [r]) && after.state == TorrentFetched && after.reviewFrom.None?
  {
    c := Works(Job(1, row), w);
    after, r := CallMoves(cs, row, trail, c);
  }

  lemma MatchingParks(cs: seq<Call>, row: Row, trail: seq<Record>, w: Steps.World)
    returns (c: Call, after: Row, r: Record)
    requires ReadsAs(cs, row, trail) && Unmatched(w) && row.state == TorrentFetched && row.reviewFrom.None?
    ensures c == Works(Job(1, row), w) && Readable(c)
    ensures ReadsAs(cs + [c], after, trail + [r])
    ensures after.state == AwaitingReview && after.reviewFrom == Some(TorrentFetched)
    ensures after.data.stagingDir == row.data.stagingDir
  {
    c := Works(Job(1, row), w);
    after, r := CallMoves(cs, row, trail, c);
  }

  lemma RestartGoesBack(cs: seq<Call>, row: Row, trail: seq<Record>, at: Time)
    returns (c: Call, after: Row, r: Record)
    requires ReadsAs(cs, row, trail) && row.state == AwaitingReview && row.reviewFrom == Some(TorrentFetched)
    ensures c == Operates(Restart(true), Job(1, row), [], at) && Readable(c)
    ensures ReadsAs(cs + [c], after, trail + [r]) && after.state == Discovered && r.reason == RestartAudit
    ensures after.reviewFrom.None?
  {
    c := Operates(Restart(true), Job(1, row), [], at);
    after, r := CallMoves(cs, row, trail, c);
  }

  lemma UnconfiguredParks(cs: seq<Call>, row: Row, trail: seq<Record>, w: Steps.World)
    returns (c: Call, after: Row, r: Record)
    requires ReadsAs(cs, row, trail) && !w.trackerConfigured && row.state == Discovered && row.reviewFrom.None?
    ensures c == Works(Job(1, row), w) && Readable(c)
    ensures ReadsAs(cs + [c], after, trail + [r]) && after.state == AwaitingReview && r.reason == ReviewAudit
  {
    c := Works(Job(1, row), w);
    after, r := CallMoves(cs, row, trail, c);
  }

  lemma RetryGoesThrough(
    cs: seq<Call>, row: Row, trail: seq<Record>, restart: Record, park: Record, loaded: Row, at: Time)
    requires ReadsAs(cs, row, trail + [restart] + [park]) && row.state == AwaitingReview
    requires restart.reason == RestartAudit && park.reason == ReviewAudit
    requires loaded.state == AwaitingReview && loaded.reviewFrom == Some(TorrentFetched)
    ensures Readable(Operates(RetryIt, Job(1, loaded), [], at))
    ensures !NothingSkipped(After(EMPTY, cs + [Operates(RetryIt, Job(1, loaded), [], at)]))
  {
    var c := Operates(RetryIt, Job(1, loaded), [], at);
    var after, r := CallMoves(cs, row, trail + [restart] + [park], c);
    assert RankOf(after) == 1;
    NothingSinceRestart(trail, restart, park, r);
    hide Climbed, Swapped, WriteOf, After;
  }

  lemma NothingSinceRestart(trail: seq<Record>, restart: Record, r: Record, s: Record)
    requires restart.reason == RestartAudit
    requires r.reason == ReviewAudit && s.reason == RetryAudit
    ensures !Climbed(trail + [restart] + [r] + [s], 0)
  {
    SinceRestartAppend(trail, restart);
    SinceRestartAppend(trail + [restart], r);
    SinceRestartAppend(trail + [restart] + [r], s);
  }

  // ---- Approvals ---------------------------------------------------------------------------------------

  predicate IsApproved(t: Tables, id: JobId) { id in t.rows && t.rows[id].data.resumeApproved }

  predicate IsParked(t: Tables, id: JobId) { id in t.rows && t.rows[id].state == AwaitingReview }

  /** Call `i` is an operator's approval of the job, which has not been parked since. */
  ghost predicate ApprovedSince(t: Tables, cs: seq<Call>, id: JobId, i: nat) {
    && i < |cs| && cs[i].Operates? && cs[i].action == ApproveResume && cs[i].job.id == id
    && forall j :: i < j <= |cs| ==> !IsParked(After(t, cs[..j]), id)
  }

  lemma ApprovesOnlyItsJob(t: Tables, c: Call, id: JobId)
    requires Readable(c) && WriteOf(c).Some?
    requires !IsApproved(t, id) && IsApproved(Do(t, WriteOf(c).value), id)
    ensures c.Operates? && c.action == ApproveResume && c.job.id == id
  {
    WriteIsIssued(c);
    var w := WriteOf(c).value;
    OnlySwapsApprove(t, w, id);
    hide Steps.Step, Chosen;
  }

  lemma OnlySwapsApprove(t: Tables, w: Write, id: JobId)
    requires Legal(w) && (w.Telemetry? ==> w.patch.resumeApproved.None?)
    requires !IsApproved(t, id) && IsApproved(Do(t, w), id)
    ensures w.Swap? && w.id == id && w.update.patch.resumeApproved == Some(true)
  {
  }

  /** In every run, a job approved at the end was approved by an operator since it was last parked. */
  lemma {:induction false} ApprovalIsRecent(t: Tables, cs: seq<Call>, id: JobId)
    requires NothingApprovedWhileParked(t) && !IsApproved(t, id) && IsApproved(After(t, cs), id)
    requires forall c :: c in cs ==> Readable(c)
    ensures exists i: nat :: ApprovedSince(t, cs, id, i)
  {
    if cs != [] {
      var front, last := cs[..|cs| - 1], cs[|cs| - 1];
      assert cs == front + [last] && cs[..|cs|] == cs;
      ParkingEndsApproval(t, cs);
      hide WriteOf, After, Do, Readable;
      if IsApproved(After(t, front), id) {
        ApprovalIsRecent(t, front, id);
        var i: nat :| ApprovedSince(t, front, id, i);
        forall j | i < j <= |cs| ensures !IsParked(After(t, cs[..j]), id) {
          assert j < |cs| ==> cs[..j] == front[..j];
        }
        assert ApprovedSince(t, cs, id, i);
      } else {
        AfterSnoc(t, front, last);
        ApprovesOnlyItsJob(After(t, front), last, id);
        assert ApprovedSince(t, cs, id, |front|);
      }
    }
  }

  // ---- Choices after matching ----------------------------------------------------------------------------

  /** Fetching plans every file of the torrent with no source. */
  lemma FetchLeavesSourcesOpen(t: Tables, id: JobId, w: Steps.World)
    requires id in t.rows && t.rows[id].state == Discovered
    requires var u := After(t, [Works(Job(id, t.rows[id]), w)]); id in u.rows && u.rows[id].state == TorrentFetched
    ensures var files := After(t, [Works(Job(id, t.rows[id]), w)]).rows[id].data.files;
            && w.inspection.Decoded? && |files| == |w.inspection.files|
            && forall i :: 0 <= i < |files| ==> Undecided(files, i)
  {
    AfterSnoc(t, [], Works(Job(id, t.rows[id]), w));
    assert [] + [Works(Job(id, t.rows[id]), w)] == [Works(Job(id, t.rows[id]), w)];
  }

  lemma MatchingWrites(job: Job, w: Steps.World)
    requires job.row.state == TorrentFetched
    ensures WorkerWrite(job, w).Some? ==>
              var write := WorkerWrite(job, w).value;
              && write.Swap? && write.id == job.id
              && (write.transition.to == AwaitingReview ==> write.update.patch == NO_PATCH)
  {
  }

  /** A park by matching keeps the plan as it is. */
  lemma MatchingParkKeepsPlan(t: Tables, id: JobId, w: Steps.World)
    requires id in t.rows && t.rows[id].state == TorrentFetched
    requires var u := After(t, [Works(Job(id, t.rows[id]), w)]); id in u.rows && u.rows[id].state == AwaitingReview
    ensures var u := After(t, [Works(Job(id, t.rows[id]), w)]);
            u.rows[id].data.files == t.rows[id].data.files && id in u.trail
  {
    MatchingWrites(Job(id, t.rows[id]), w);
    AfterSnoc(t, [], Works(Job(id, t.rows[id]), w));
    hide WorkerWrite, Writes;
    assert [] + [Works(Job(id, t.rows[id]), w)] == [Works(Job(id, t.rows[id]), w)];
  }

  /**
   * A torrent of two files or more, parked by matching after it was fetched, is never resolved by
   * choosing candidates, whatever was offered and however often: the job stays parked and every
   * file undecided.
   */
  lemma ParkedByMatchingStaysParked(
    t: Tables, id: JobId, fetched: Steps.World, matched: Steps.World, picks: seq<(string, nat)>, at: Time)
    requires id in t.rows && t.rows[id].state == Discovered
    requires var u := After(t, [Works(Job(id, t.rows[id]), fetched)]);
             && id in u.rows && u.rows[id].state == TorrentFetched
             && var v := After(u, [Works(Job(id, u.rows[id]), matched)]);
                id in v.rows && v.rows[id].state == AwaitingReview
    requires fetched.inspection.Decoded? ==> |fetched.inspection.files| >= 2
    ensures var u := After(t, [Works(Job(id, t.rows[id]), fetched)]);
            var v := After(u, [Works(Job(id, u.rows[id]), matched)]);
            var chosen := ChooseAll(v, id, picks, at);
            && id in chosen.rows && chosen.rows[id].state == AwaitingReview
            && forall i :: 0 <= i < |chosen.rows[id].data.files| ==> Undecided(chosen.rows[id].data.files, i)
  {
    FetchLeavesSourcesOpen(t, id, fetched);
    var u := After(t, [Works(Job(id, t.rows[id]), fetched)]);
    MatchingParkKeepsPlan(u, id, matched);
    var v := After(u, [Works(Job(id, u.rows[id]), matched)]);
    hide After;
    assert Undecided(v.rows[id].data.files, 0) && Undecided(v.rows[id].data.files, 1);
    ChoicesNeverResolveTwo(v, id, picks, at);
  }
}
