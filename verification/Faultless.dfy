/** What the steps and the drive loop do between them when nothing is in the way (src/repair/worker.rs). */
module Faultless {
  import opened Prelude
  import opened Lifecycle
  import opened JobModel
  import opened MatchModel
  import opened Policy
  import opened Table
  import opened Protocol
  import opened Callers
  import opened Worker
  import opened OperatorReview
  import opened Sorting
  import Steps

  /**
   * The ports a step of this job asks give the answer one hopes for, the policy lets automation act
   * on it, and the plan read back is the one in the row.
   */
  ghost predicate Willing(row: Row, w: Steps.World) {
    match row.state
    case Discovered =>
      && w.trackerConfigured && w.torrentBytes.Answered? && DecodesDistinct(w.inspection)
      && (row.data.infoHash.Some? ==> row.data.infoHash.value == w.inspection.infoHash)
    case TorrentFetched =>
      && w.planned == Steps.Answered(PlannedFiles(row))
      && w.candidates.Answered? && DecideMatch(w.candidates.value, w.policy).Go?
      && MatchedOnce(w.candidates.value.matched)
    case Matched =>
      && w.planned == Steps.Answered(PlannedFiles(row))
      && w.policy.materialization.Preference() != [] && w.staged.Ok?
    case Staged => w.storedTorrent.Answered? && w.storedTorrent.value.Some? && w.addPaused.Answered?
    case Injected => w.status.Answered? && w.status.value.Some? && w.recheck.Answered?
    case Rechecking => ReportsComplete(w)
    case Verified => ReportsComplete(w) && w.policy.autoResume == WhenVerifiedComplete && w.resume.Answered?
    case Seeding => w.trackerConfigured && w.hitAndRun == Steps.Answered(Steps.Cleared)
    case _ => false
  }

  ghost predicate DecodesDistinct(i: Steps.Inspection) {
    && i.Decoded? && i.files != []
    && forall a, b :: 0 <= a < b < |i.files| ==> i.files[a].path != i.files[b].path
  }

  ghost predicate MatchedOnce(matched: seq<FileMatch>) {
    forall a, b :: 0 <= a < b < |matched| ==> matched[a].torrentPath != matched[b].torrentPath
  }

  /** No check is running any more, and every byte is there. */
  predicate ReportsComplete(w: Steps.World) {
    && w.status.Answered? && w.status.value.Some?
    && w.status.value.value.state != Checking && w.status.value.value.state != Errored
    && w.status.value.value.completeness == DataCompleteness.Complete
  }

  /** The job has what the steps before its state leave behind. */
  ghost predicate Ready(row: Row) {
    && (row.state.Rank().GetOr(0) >= 1 ==> row.data.infoHash.Some?)
    && (row.state.Rank().GetOr(0) >= 2 ==> row.data.stagingDir.Some?)
    && (row.state == TorrentFetched ==> row.data.files != [])
    && (row.state == Matched ==> AllSourced(row.data.files) && DistinctPaths(row.data.files))
  }

  function CallsAt(s: RepairState, h: Option<InfoHash>): seq<Steps.ClientCall> {
    match h
    case None => []
    case Some(hash) =>
      match s
      case Staged => [Steps.AddPaused(hash)]
      case Injected => [Steps.AskStatus(hash), Steps.Recheck(hash)]
      case Rechecking => [Steps.AskStatus(hash)]
      case Verified => [Steps.AskStatus(hash), Steps.Resume(hash)]
      case _ => []
  }

  /** Reading the plan back orders it and changes nothing else. */
  lemma ReadBack(row: Row)
    ensures row.data.files != [] ==> PlannedFiles(row) != []
    ensures AllSourced(row.data.files) ==> AllSourced(PlannedFiles(row))
    ensures DistinctPaths(row.data.files) ==> DistinctPaths(PlannedFiles(row))
  {
    var files, read := row.data.files, PlannedFiles(row);
    SortPermutes(files, (a: PlannedFile, b: PlannedFile) => TextLeq(a.torrentPath, b.torrentPath));
    assert multiset(files) == multiset(read);
    hide PlannedFiles;
    SameLength(files, read);
    forall x ensures x in read ==> x in files { SameElements(files, read, x); }
    if AllSourced(files) {
      forall i | 0 <= i < |read| ensures read[i].source.Some? {
        assert read[i] in files;
      }
    }
    if DistinctPaths(files) { PermutedDistinct(files, read); }
  }

  lemma SameLength<T>(s: seq<T>, t: seq<T>)
    requires multiset(s) == multiset(t)
    ensures |s| == |t|
  {
    assert |s| == |multiset(s)| && |t| == |multiset(t)|;
  }

  lemma {:induction false} CountedOnce(files: seq<PlannedFile>, x: PlannedFile)
    requires DistinctPaths(files)
    ensures multiset(files)[x] <= 1
  {
    if files != [] {
      CountedOnce(files[1..], x);
      assert files == [files[0]] + files[1..];
      if files[0] == x { assert x !in files[1..]; }
    }
  }

  lemma PermutedDistinct(files: seq<PlannedFile>, read: seq<PlannedFile>)
    requires multiset(files) == multiset(read) && DistinctPaths(files)
    ensures DistinctPaths(read)
  {
    forall i, j | 0 <= i < j < |read| ensures read[i].torrentPath != read[j].torrentPath {
      CountedTwice(read, i, j);
      CountedOnce(files, read[i]);
      SameElements(files, read, read[i]);
      SameElements(files, read, read[j]);
    }
  }

  /** A ready job advances at every state of the progression, making exactly that state's calls. */
  lemma ReadyJobAdvances(job: Job, w: Steps.World)
    requires job.row.state.IsActionable() && Willing(job.row, w) && Ready(job.row)
    ensures Steps.Step(job, w).outcome.Advance?
    ensures Steps.Step(job, w).calls == CallsAt(job.row.state, job.row.data.infoHash)
  {
    ReadBack(job.row);
    hide PlannedFiles;
  }

  /** The data an advance leaves behind: what the next state needs, with the info-hash kept once known. */
  lemma PatchLeaves(job: Job, w: Steps.World)
    requires job.row.state.IsActionable() && Willing(job.row, w) && Ready(job.row)
    ensures Steps.Step(job, w).outcome.Advance?
    ensures var data := PatchAll(job.row.data, Steps.Step(job, w).outcome.patch);
            && data.infoHash
               == (if job.row.state == Discovered then Some(w.inspection.infoHash) else job.row.data.infoHash)
            && (job.row.data.stagingDir.Some? || job.row.state == TorrentFetched ==> data.stagingDir.Some?)
            && (job.row.state == Discovered ==> data.files != [])
            && (job.row.state == TorrentFetched ==> AllSourced(data.files) && DistinctPaths(data.files))
  {
    ReadyJobAdvances(job, w);
    hide PlannedFiles;
  }

  lemma AdvanceWrites(job: Job, w: Steps.World)
    requires job.row.state.IsActionable() && Steps.Step(job, w).outcome.Advance?
    ensures WorkerWrite(job, w)
            == Some(Swap(job.id, Transition(job.row.state, job.row.state.Next().value, Progress),
                         PLAIN_UPDATE.(patch := Steps.Step(job, w).outcome.patch), w.now))
  {
    RankIsPosition(job.row.state, job.row.state.Rank().value);
    hide Steps.Step;
  }

  /** What the advance leaves behind readies the job for the next state, and keeps its info-hash. */
  lemma PatchReadiesNext(job: Job, w: Steps.World)
    requires job.row.state.IsActionable() && Willing(job.row, w) && Ready(job.row)
    ensures WorkerWrite(job, w).Some? && WorkerWrite(job, w).value.Swap?
    ensures var write := WorkerWrite(job, w).value;
            && write.transition == Transition(job.row.state, job.row.state.Next().value, Progress)
            && write.id == job.id && write.at == w.now && write.update.offers == []
            && var after := Swapped(job.row, write.transition, write.update, w.now);
               Ready(after) && after.leaseOwner == job.row.leaseOwner
               && (job.row.state != Discovered ==> after.data.infoHash == job.row.data.infoHash)
               && (job.row.state == Discovered ==> after.data.infoHash == Some(w.inspection.infoHash))
  {
    PatchLeaves(job, w);
    AdvanceWrites(job, w);
    RankIsPosition(job.row.state, job.row.state.Rank().value);
    RankIsPosition(job.row.state.Next().value, job.row.state.Rank().value + 1);
    assert Willing(job.row, w) && job.row.state == Discovered ==> w.inspection.Decoded?;
    hide Steps.Step, PatchAll, WorkerWrite, Willing, AllSourced, DistinctPaths;
  }

  /** The plan it writes has one row per torrent path. */
  lemma PatchIsAdmissible(job: Job, w: Steps.World)
    requires job.row.state.IsActionable() && Willing(job.row, w) && Ready(job.row)
    requires WorkerWrite(job, w).Some? && WorkerWrite(job, w).value.Swap?
    ensures Admissible(WorkerWrite(job, w).value.transition, WorkerWrite(job, w).value.update)
  {
    ReadBack(job.row);
    ReadyJobAdvances(job, w);
    hide PlannedFiles;
  }

  // ---- The drive loop ---------------------------------------------------------------------------------

  /** The job stands at the `k`-th state, leased, ready for what comes next, with this trail. */
  ghost predicate StandsAtStep(t: Tables, id: JobId, k: nat, owner: string, trail: seq<Record>) {
    && k < |PROGRESSION| && id in t.rows && id in t.trail
    && t.rows[id].state == PROGRESSION[k] && Ready(t.rows[id]) && t.trail[id] == trail
    && t.rows[id].leaseOwner == Some(owner)
  }

  /** One undisturbed iteration: the step's write and the renewal, and on to the next state. */
  lemma OneStepOn(
    t: Tables, id: JobId, owner: string, lease: Time, w: Steps.World, k: nat, trail: seq<Record>)
    requires StandsAtStep(t, id, k, owner, trail) && k + 1 < |PROGRESSION| && Willing(t.rows[id], w)
    ensures var job := Job(id, t.rows[id]);
            var calls := QuietCalls(t, owner, lease, job, w);
            var u := After(t, calls);
            && calls == [Works(job, w)] + [Renewal(owner, lease, id, w)]
            && StandsAtStep(u, id, k + 1, owner,
                            trail + [Record(PROGRESSION[k], PROGRESSION[k + 1], ProgressAudit, [], w.now)])
            && u.rows[id].data.infoHash == (if k == 0 then Some(w.inspection.infoHash) else t.rows[id].data.infoHash)
            && QuietNext(t, u, owner, job, w) == (if k + 1 < 8 then GoOn(Job(id, u.rows[id])) else Halt(IDLE))
            && Steps.Step(job, w).calls == CallsAt(PROGRESSION[k], t.rows[id].data.infoHash)
  {
    var job := Job(id, t.rows[id]);
    RankIsPosition(PROGRESSION[k], k);
    RankIsPosition(PROGRESSION[k + 1], k + 1);
    ReadyJobAdvances(job, w);
    PatchReadiesNext(job, w);
    PatchIsAdmissible(job, w);
    assert k == 0 ==> w.inspection.Decoded?;
    hide Willing, Ready, WorkerWrite, CallsAt, Steps.Step, Admissible, QuietCalls, QuietNext, After, PatchAll, Swapped;
    StepTaken(t, owner, lease, job, w);
    var write := WorkerWrite(job, w).value;
    SameButLease(After(t, QuietCalls(t, owner, lease, job, w)).rows[id],
                 Swapped(job.row, write.transition, write.update, w.now));
    SwappedState(job.row, write.transition, write.update, w.now);
  }

  lemma SwappedState(row: Row, tr: Transition, u: TransitionUpdate, now: Time)
    ensures Swapped(row, tr, u, now).state == tr.to
  {
  }

  /** Nothing asked of a row depends on when its lease runs out. */
  lemma SameButLease(a: Row, b: Row)
    requires a.(leaseExpiresAt := None) == b.(leaseExpiresAt := None)
    ensures Ready(a) <==> Ready(b)
    ensures a.state == b.state && a.leaseOwner == b.leaseOwner && a.data == b.data
  {
  }

  /** What the store makes of an admissible advance and the renewal after it. */
  lemma StepTaken(t: Tables, owner: string, lease: Time, job: Job, w: Steps.World)
    requires job.id in t.rows && t.rows[job.id] == job.row && job.id in t.trail && job.row.state.IsActionable()
    requires Steps.Step(job, w).outcome.Advance? && WorkerWrite(job, w).Some? && WorkerWrite(job, w).value.Swap?
    requires var write := WorkerWrite(job, w).value;
             && write.transition == Transition(job.row.state, job.row.state.Next().value, Progress)
             && write.id == job.id && write.at == w.now && write.update.offers == []
             && Admissible(write.transition, write.update)
    requires job.row.leaseOwner == Some(owner)
    ensures var calls := QuietCalls(t, owner, lease, job, w);
            var u := After(t, calls);
            && calls == [Works(job, w)] + [Renewal(owner, lease, job.id, w)]
            && job.id in u.rows && job.id in u.trail
            && u.rows[job.id].(leaseExpiresAt := None)
               == Swapped(job.row, WorkerWrite(job, w).value.transition, WorkerWrite(job, w).value.update, w.now)
                  .(leaseExpiresAt := None)
            && u.trail[job.id]
               == t.trail[job.id] + [Record(job.row.state, job.row.state.Next().value, ProgressAudit, [], w.now)]
            && QuietNext(t, u, owner, job, w)
               == (if u.rows[job.id].state.IsActionable() then GoOn(Job(job.id, u.rows[job.id])) else Halt(IDLE))
  {
    var patch := Steps.Step(job, w).outcome.patch;
    assert WorkerWrite(job, w)
        == Planned(job, job.row.state.Next().GetOr(job.row.state), Progress,
                                  PLAIN_UPDATE.(patch := patch), w.now);
    QuietAdvance(t, owner, lease, job, w, patch);
    hide Steps.Step, PatchAll;
    assert Advances(t, job, w);
    QuietAdvanceTaken(t, owner, lease, job, w, patch);
    hide WorkerWrite, QuietCalls, QuietNext, After;
  }

  /** One progress row for each state from the `k`-th on, stamped by the moments. */
  function ProgressFrom(k: nat, at: nat -> Moment): seq<Record>
    decreases 8 - k
  {
    if k >= 8 then []
    else [Record(PROGRESSION[k], PROGRESSION[k + 1], ProgressAudit, [], at(k).world.now)] + ProgressFrom(k + 1, at)
  }

  /** The client calls behind the steps of a log. */
  function ClientCalls(log: seq<Call>): seq<Steps.ClientCall> {
    if log == [] then []
    else
      (match log[0] case Works(job, w) => Steps.Step(job, w).calls case _ => []) + ClientCalls(log[1..])
  }

  function CallsFrom(k: nat, h: InfoHash): seq<Steps.ClientCall>
    decreases 8 - k
  {
    if k >= 8 then [] else CallsAt(PROGRESSION[k], if k == 0 then None else Some(h)) + CallsFrom(k + 1, h)
  }

  lemma {:induction false} ClientCallsConcat(a: seq<Call>, b: seq<Call>)
    ensures ClientCalls(a + b) == ClientCalls(a) + ClientCalls(b)
  {
    hide Steps.Step;
    if a == [] {
      assert a + b == b;
    } else {
      assert (a + b)[0] == a[0] && (a + b)[1..] == a[1..] + b;
      ClientCallsConcat(a[1..], b);
    }
  }

  lemma ReleaseKeepsPosition(u: Tables, id: JobId, stop: Stop, now: Time)
    requires id in u.rows
    ensures var v := After(u, [LetGo(id, stop, now)]);
            id in v.rows && v.rows[id].state == u.rows[id].state && v.trail == u.trail
    ensures ClientCalls([LetGo(id, stop, now)]) == []
  {
    AfterOne(u, LetGo(id, stop, now));
    assert [LetGo(id, stop, now)][1..] == [];
  }

  /** Moments nobody else acts in. */
  ghost predicate AllQuiet(at: nat -> Moment) {
    forall i :: !at(i).shuttingDown && IsQuiet(at(i))
  }

  /** At each iteration from the `i`-th on, the ports are willing for the job as it then is. */
  ghost predicate Unhindered(t: Tables, owner: string, lease: Time, job: Job, at: nat -> Moment, i: nat)
    decreases BOUND - i
  {
    i < BOUND ==>
      && Willing(job.row, at(i).world)
      && var u := After(t, QuietCalls(t, owner, lease, job, at(i).world));
         var next := QuietNext(t, u, owner, job, at(i).world);
         next.GoOn? ==> Unhindered(u, owner, lease, next.job, at, i + 1)
  }

  /** From the `k`-th state on, the undisturbed run completes the job. */
  lemma {:induction false} QuietRunCompletes(
    t: Tables, id: JobId, owner: string, lease: Time, at: nat -> Moment, k: nat, h: InfoHash, trail: seq<Record>)
    requires AllQuiet(at) && k < 8 && StandsAtStep(t, id, k, owner, trail)
    requires Unhindered(t, owner, lease, Job(id, t.rows[id]), at, k)
    requires if k == 0 then h == at(0).world.inspection.infoHash else t.rows[id].data.infoHash == Some(h)
    ensures var run := QuietRun(t, owner, lease, Job(id, t.rows[id]), at, k);
            var u := After(t, run);
            && id in u.rows && u.rows[id].state == Completed
            && id in u.trail && u.trail[id] == trail + ProgressFrom(k, at)
            && ClientCalls(run) == CallsFrom(k, h)
    decreases 8 - k
  {
    var job := Job(id, t.rows[id]);
    OneStepOn(t, id, owner, lease, at(k).world, k, trail);
    var calls := QuietCalls(t, owner, lease, job, at(k).world);
    var u := After(t, calls);
    var done := trail + [Record(PROGRESSION[k], PROGRESSION[k + 1], ProgressAudit, [], at(k).world.now)];
    var next := QuietNext(t, u, owner, job, at(k).world);
    RunUnfolds(t, owner, lease, job, at, k, calls, u, next);
    IterationCalls(job, at(k).world, owner, lease, k, h);
    hide Willing, Ready, QuietCalls, QuietNext, QuietRun, After, CallsAt, Steps.Step, Renewal, LetGo, ProgressFrom,
      CallsFrom, ClientCalls, IsQuiet;
    if k + 1 < 8 {
      assert Unhindered(u, owner, lease, Job(id, u.rows[id]), at, k + 1);
      QuietRunCompletes(u, id, owner, lease, at, k + 1, h, done);
      RestFollows(t, calls, QuietRun(u, owner, lease, Job(id, u.rows[id]), at, k + 1), k, h, at, trail);
    } else {
      ReleaseFollows(t, calls, id, at(k + 1).world.now, h, at, trail);
    }
  }

  lemma {:induction false} RestFollows(
    t: Tables, calls: seq<Call>, rest: seq<Call>, k: nat, h: InfoHash, at: nat -> Moment, trail: seq<Record>)
    requires k < 8 && ClientCalls(calls) == CallsAt(PROGRESSION[k], if k == 0 then None else Some(h))
    requires ClientCalls(rest) == CallsFrom(k + 1, h)
    ensures After(t, calls + rest) == After(After(t, calls), rest)
    ensures ClientCalls(calls + rest) == CallsFrom(k, h)
    ensures trail + [Record(PROGRESSION[k], PROGRESSION[k + 1], ProgressAudit, [], at(k).world.now)]
              + ProgressFrom(k + 1, at)
            == trail + ProgressFrom(k, at)
  {
    hide After, ClientCalls, CallsAt;
    AfterConcat(t, calls, rest);
    ClientCallsConcat(calls, rest);
  }

  lemma {:induction false} ReleaseFollows(
    t: Tables, calls: seq<Call>, id: JobId, now: Time, h: InfoHash, at: nat -> Moment, trail: seq<Record>)
    requires id in After(t, calls).rows
    requires ClientCalls(calls) == CallsAt(PROGRESSION[7], Some(h))
    ensures var u := After(t, calls);
            var v := After(t, calls + [LetGo(id, IDLE, now)]);
            id in v.rows && v.rows[id].state == u.rows[id].state && v.trail == u.trail
    ensures ClientCalls(calls + [LetGo(id, IDLE, now)]) == CallsFrom(7, h)
    ensures trail + [Record(PROGRESSION[7], PROGRESSION[8], ProgressAudit, [], at(7).world.now)]
            == trail + ProgressFrom(7, at)
  {
    var last := [LetGo(id, IDLE, now)];
    ReleaseKeepsPosition(After(t, calls), id, IDLE, now);
    hide After, ClientCalls, CallsAt, LetGo;
    AfterConcat(t, calls, last);
    ClientCallsConcat(calls, last);
    assert ProgressFrom(8, at) == [] && CallsFrom(8, h) == [];
  }

  /** The calls on the client of one iteration are its step's. */
  lemma IterationCalls(job: Job, w: Steps.World, owner: string, lease: Time, k: nat, h: InfoHash)
    requires k < 8 && Steps.Step(job, w).calls == CallsAt(PROGRESSION[k], job.row.data.infoHash)
    requires k > 0 ==> job.row.data.infoHash == Some(h)
    ensures ClientCalls([Works(job, w)] + [Renewal(owner, lease, job.id, w)])
            == CallsAt(PROGRESSION[k], if k == 0 then None else Some(h))
  {
    ClientCallsConcat([Works(job, w)], [Renewal(owner, lease, job.id, w)]);
    assert [Works(job, w)][1..] == [] && [Renewal(owner, lease, job.id, w)][1..] == [];
    hide Steps.Step;
  }

  lemma {:induction false} AllCalls(h: InfoHash)
    ensures CallsFrom(0, h)
            == [Steps.AddPaused(h), Steps.AskStatus(h), Steps.Recheck(h), Steps.AskStatus(h),
                Steps.AskStatus(h), Steps.Resume(h)]
  {
    LateCalls(h);
    hide CallsAt;
    EarlyCalls(h);
    assert CallsFrom(4, h) == CallsAt(PROGRESSION[4], Some(h)) + CallsFrom(5, h);
    assert CallsFrom(3, h) == CallsAt(PROGRESSION[3], Some(h)) + CallsFrom(4, h);
    assert CallsFrom(2, h) == CallsFrom(3, h);
    assert CallsFrom(1, h) == CallsFrom(2, h);
  }

  lemma EarlyCalls(h: InfoHash)
    ensures CallsAt(PROGRESSION[0], None) == CallsAt(PROGRESSION[1], Some(h)) == CallsAt(PROGRESSION[2], Some(h)) == []
    ensures CallsAt(PROGRESSION[3], Some(h)) == [Steps.AddPaused(h)]
    ensures CallsAt(PROGRESSION[4], Some(h)) == [Steps.AskStatus(h), Steps.Recheck(h)]
  {
  }

  lemma {:induction false} LateCalls(h: InfoHash)
    ensures CallsFrom(5, h) == [Steps.AskStatus(h), Steps.AskStatus(h), Steps.Resume(h)]
  {
    assert CallsFrom(8, h) == [];
    assert CallsFrom(7, h) == [];
    assert CallsFrom(6, h) == [Steps.AskStatus(h), Steps.Resume(h)];
  }

  /**
   * Driving a discovered job nothing gets in the way of completes it in one go, whatever the moments
   * and the worlds they differ in: one progress row for each of the eight steps, and on the client
   * one add, one recheck and one resume, the last two each after a status.
   */
  method NothingInTheWay(worker: RepairWorker, start: Job, at: nat -> Moment, before: TickSummary)
    returns (summary: TickSummary, ending: Ending)
    requires Consistent(worker.store.Contents()) && SchemaAdmits(start) && AllQuiet(at)
    requires worker.Fresh(start) && start.row.state == Discovered && start.row.leaseOwner == Some(worker.owner)
    requires Unhindered(worker.store.Contents(), worker.owner, worker.lease, start, at, 0)
    modifies worker, worker.store
    ensures start.id in worker.store.rows && worker.store.rows[start.id].state == Completed
    ensures start.id in worker.store.Contents().trail && start.id in old(worker.store.Contents()).trail
    ensures worker.store.Contents().trail[start.id]
            == old(worker.store.Contents()).trail[start.id] + ProgressFrom(0, at)
    ensures at(0).world.inspection.Decoded?
    ensures var h := at(0).world.inspection.infoHash;
            ClientCalls(worker.log)
            == [Steps.AddPaused(h), Steps.AskStatus(h), Steps.Recheck(h), Steps.AskStatus(h),
                Steps.AskStatus(h), Steps.Resume(h)]
  {
    ghost var t := worker.store.Contents();
    assert Willing(start.row, at(0).world);
    ghost var h := at(0).world.inspection.infoHash;
    assert TrailFor(t, start.id);
    assert StandsAtStep(t, start.id, 0, worker.owner, t.trail[start.id]);
    QuietRunCompletes(t, start.id, worker.owner, worker.lease, at, 0, h, t.trail[start.id]);
    AllCalls(h);
    hide Willing, Ready, QuietRun, ProgressFrom, CallsFrom, ClientCalls, Consistent, SchemaAdmits, Unhindered;
    assert forall i :: ReadableMoment(at(i)) by { QuietMoments(at); }
    summary, ending := worker.Drive(start, at, before);
  }

  lemma QuietMoments(at: nat -> Moment)
    requires AllQuiet(at)
    ensures forall i :: IsQuiet(at(i)) && ReadableMoment(at(i))
  {
    forall i ensures IsQuiet(at(i)) && ReadableMoment(at(i)) {
      assert IsQuiet(at(i));
    }
  }

  // ---- There are such drives -------------------------------------------------------------------------

  /** Answers that would do at every state, but for the plan, which the store reads back. */
  ghost predicate Hopeful(w: Steps.World, known: Option<InfoHash>) {
    && w.trackerConfigured && w.torrentBytes.Answered? && DecodesDistinct(w.inspection)
    && (known.Some? ==> known.value == w.inspection.infoHash)
    && w.candidates.Answered? && DecideMatch(w.candidates.value, w.policy).Go?
    && MatchedOnce(w.candidates.value.matched)
    && w.policy.materialization.Preference() != [] && w.staged.Ok?
    && w.storedTorrent.Answered? && w.storedTorrent.value.Some?
    && w.addPaused.Answered? && w.recheck.Answered? && w.resume.Answered?
    && ReportsComplete(w) && w.policy.autoResume == WhenVerifiedComplete
    && w.hitAndRun == Steps.Answered(Steps.Cleared)
  }

  function Calm(w: Steps.World): Moment { Moment(w, false, [], false, [], false, [], false) }

  /** The moments of a list of worlds, the last one staying. */
  function MomentsOf(worlds: seq<Steps.World>, from: nat): nat -> Moment
    requires worlds != []
  {
    (i: nat) => Calm(if from <= i < from + |worlds| then worlds[i - from] else worlds[|worlds| - 1])
  }

  /** With hopeful ports, and every plan read back as it is, a job is driven unhindered from any state on. */
  lemma {:induction false} HopefulDrive(
    t: Tables, id: JobId, owner: string, lease: Time, w: Steps.World, k: nat, trail: seq<Record>)
    returns (worlds: seq<Steps.World>)
    requires k < 8 && StandsAtStep(t, id, k, owner, trail)
    requires Hopeful(w, if k == 0 then t.rows[id].data.infoHash else None)
    ensures worlds != [] && Unhindered(t, owner, lease, Job(id, t.rows[id]), MomentsOf(worlds, k), k)
    ensures forall v :: v in worlds ==> v == w.(planned := v.planned)
    decreases 8 - k
  {
    var job := Job(id, t.rows[id]);
    var here := w.(planned := Steps.Answered(PlannedFiles(job.row)));
    HopefulIsWilling(job.row, w, k);
    OneStepOn(t, id, owner, lease, here, k, trail);
    hide Willing, Ready, QuietCalls, QuietNext, After, CallsAt, Steps.Step, Renewal, PlannedFiles, Hopeful, Unhindered,
      MomentsOf;
    var u := After(t, QuietCalls(t, owner, lease, job, here));
    var rest := [];
    if k + 1 < 8 {
      var done := trail + [Record(PROGRESSION[k], PROGRESSION[k + 1], ProgressAudit, [], here.now)];
      rest := HopefulDrive(u, id, owner, lease, w, k + 1, done);
    }
    worlds := [here] + rest;
    OneMoreWorld(t, owner, lease, job, here, u, QuietNext(t, u, owner, job, here), rest, k);
  }

  lemma MomentsAreQuiet(worlds: seq<Steps.World>, from: nat)
    requires worlds != []
    ensures AllQuiet(MomentsOf(worlds, from))
  {
    var at := MomentsOf(worlds, from);
    forall i: nat ensures !at(i).shuttingDown && IsQuiet(at(i)) {
      assert at(i) == Calm(if from <= i < from + |worlds| then worlds[i - from] else worlds[|worlds| - 1]);
    }
  }

  lemma {:induction false} OneMoreWorld(
    t: Tables, owner: string, lease: Time, job: Job, here: Steps.World, u: Tables, next: Next,
    rest: seq<Steps.World>, k: nat)
    requires Willing(job.row, here) && u == After(t, QuietCalls(t, owner, lease, job, here))
    requires next == QuietNext(t, u, owner, job, here)
    requires next.GoOn? ==> rest != [] && Unhindered(u, owner, lease, next.job, MomentsOf(rest, k + 1), k + 1)
    ensures Unhindered(t, owner, lease, job, MomentsOf([here] + rest, k), k)
  {
    hide Willing, QuietCalls, QuietNext, After;
    var at := MomentsOf([here] + rest, k);
    assert at(k) == Calm(([here] + rest)[0]);
    if next.GoOn? {
      SameFrom(u, owner, lease, next.job, MomentsOf(rest, k + 1), at, k + 1);
    }
  }

  lemma HopefulIsWilling(row: Row, w: Steps.World, k: nat)
    requires k < 8 && row.state == PROGRESSION[k] && Hopeful(w, if k == 0 then row.data.infoHash else None)
    ensures Willing(row, w.(planned := Steps.Answered(PlannedFiles(row)))) && Hopeful(w, None)
  {
  }

  /** Only the moments still to come matter. */
  lemma {:induction false} SameFrom(
    t: Tables, owner: string, lease: Time, job: Job, at: nat -> Moment, other: nat -> Moment, i: nat)
    requires Unhindered(t, owner, lease, job, at, i) && forall k :: i <= k ==> at(k) == other(k)
    ensures Unhindered(t, owner, lease, job, other, i)
    decreases BOUND - i
  {
    hide Willing, QuietCalls, QuietNext, After;
    if i < BOUND {
      var u := After(t, QuietCalls(t, owner, lease, job, at(i).world));
      var next := QuietNext(t, u, owner, job, at(i).world);
      if next.GoOn? { SameFrom(u, owner, lease, next.job, at, other, i + 1); }
    }
  }
}
