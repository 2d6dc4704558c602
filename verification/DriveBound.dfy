/**
 * Three rewinds are enough for a drive to reach its iteration bound (src/repair/worker.rs); the drive
 * loop shows that fewer are not.
 */
module DriveBound {
  import opened Prelude
  import opened Lifecycle
  import opened JobModel
  import opened Table
  import opened OperatorReview
  import opened Callers
  import opened Worker
  import opened Faultless
  import Steps

  /** `n` iterations from the `i`-th on all go on to another, so many of them rewinding. */
  ghost predicate GoesOn(
    t: Tables, owner: string, lease: Time, job: Job, at: nat -> Moment, i: nat, n: nat, rewinds: int)
    decreases n
  {
    if n == 0 then rewinds == 0
    else
      var w := at(i).world;
      var u := After(t, QuietCalls(t, owner, lease, job, w));
      var next := QuietNext(t, u, owner, job, w);
      && next.GoOn?
      && GoesOn(u, owner, lease, next.job, at, i + 1, n - 1,
                if Steps.Step(job, w).outcome.Rewind? then rewinds - 1 else rewinds)
  }

  /** The steps among the calls of a log. */
  function StepsIn(log: seq<Call>): nat {
    if log == [] then 0 else (if log[0].Works? then 1 else 0) + StepsIn(log[1..])
  }

  lemma {:induction false} StepsInConcat(a: seq<Call>, b: seq<Call>)
    ensures StepsIn(a + b) == StepsIn(a) + StepsIn(b)
  {
    if a == [] {
      assert a + b == b;
    } else {
      assert (a + b)[0] == a[0] && (a + b)[1..] == a[1..] + b;
      StepsInConcat(a[1..], b);
    }
  }

  /** An iteration that goes on made one step. */
  lemma OneStepEach(t: Tables, owner: string, lease: Time, job: Job, w: Steps.World)
    requires QuietNext(t, After(t, QuietCalls(t, owner, lease, job, w)), owner, job, w).GoOn?
    ensures StepsIn(QuietCalls(t, owner, lease, job, w)) == 1
  {
    Steps.RewindsToStaged(job, w);
    hide Steps.Step, After;
    StepsInConcat([Works(job, w)], [Renewal(owner, lease, job.id, w)]);
    assert [Works(job, w)][1..] == [] && [Renewal(owner, lease, job.id, w)][1..] == [];
  }

  /** A run that goes on to the bound makes as many steps as the bound allows. */
  lemma {:induction false} GoesOnSteps(
    t: Tables, owner: string, lease: Time, job: Job, at: nat -> Moment, i: nat, rewinds: int)
    requires i <= BOUND && AllQuiet(at) && GoesOn(t, owner, lease, job, at, i, BOUND - i, rewinds)
    ensures StepsIn(QuietRun(t, owner, lease, job, at, i)) == BOUND - i
    decreases BOUND - i
  {
    hide QuietCalls, QuietNext, After, Steps.Step, IsQuiet;
    if i == BOUND {
      assert [LetGo(job.id, IDLE, at(i).world.now)][1..] == [];
    } else {
      var calls := QuietCalls(t, owner, lease, job, at(i).world);
      var u := After(t, calls);
      var next := QuietNext(t, u, owner, job, at(i).world);
      OneStepEach(t, owner, lease, job, at(i).world);
      RunUnfolds(t, owner, lease, job, at, i, calls, u, next);
      var left := if Steps.Step(job, at(i).world).outcome.Rewind? then rewinds - 1 else rewinds;
      GoesOnSteps(u, owner, lease, next.job, at, i + 1, left);
      StepsInConcat(calls, QuietRun(u, owner, lease, next.job, at, i + 1));
    }
  }

  /** The client has forgotten the torrent, and the tracker is still waiting. */
  function Forgotten(w: Steps.World): Steps.World {
    w.(status := Steps.Answered(None), hitAndRun := Steps.Answered(Steps.Active))
  }

  /** A seeding job whose torrent is gone goes back to `staged` and on from there. */
  lemma OneRewind(t: Tables, id: JobId, owner: string, lease: Time, w: Steps.World, trail: seq<Record>)
    requires StandsAtStep(t, id, 7, owner, trail) && w.trackerConfigured
    ensures var job := Job(id, t.rows[id]);
            var u := After(t, QuietCalls(t, owner, lease, job, Forgotten(w)));
            && StandsAtStep(u, id, 3, owner, trail + [Record(Seeding, Staged, ReconciliationAudit, [], w.now)])
            && QuietNext(t, u, owner, job, Forgotten(w)) == GoOn(Job(id, u.rows[id]))
            && Steps.Step(job, Forgotten(w)).outcome.Rewind?
  {
    var job := Job(id, t.rows[id]);
    assert Steps.Step(job, Forgotten(w)).outcome == Steps.Rewind(Staged);
    hide Steps.Step, WorkerWrite, QuietCalls, QuietNext, After;
    QuietRewind(t, owner, lease, job, Forgotten(w), Staged);
  }

  /** The state the `i`-th iteration finds: up to seeding, and three times from `staged` to seeding again. */
  function RankAt(i: nat): nat { if i < 8 then i else 3 + (i - 8) % 5 }

  function RewindsFrom(i: nat): nat { if i <= 7 then 3 else if i <= 12 then 2 else if i <= 17 then 1 else 0 }

  lemma RanksFollow(i: nat)
    requires i < BOUND
    ensures RankAt(i) <= 7 && RankAt(i + 1) == (if RankAt(i) == 7 then 3 else RankAt(i) + 1)
    ensures RewindsFrom(i + 1) == RewindsFrom(i) - (if RankAt(i) == 7 then 1 else 0)
  {
    assert i < 8 || i == 8 || i == 9 || i == 10 || i == 11 || i == 12 || i == 13 || i == 14 || i == 15 || i == 16
        || i == 17;
  }

  /** The world of the next iteration: willing below seeding, forgetful there. */
  function WorldAt(row: Row, w: Steps.World, k: nat): Steps.World {
    if k == 7 then Forgotten(w) else w.(planned := Steps.Answered(PlannedFiles(row)))
  }

  lemma OneIteration(
    t: Tables, id: JobId, owner: string, lease: Time, w: Steps.World, k: nat, trail: seq<Record>)
    returns (after: seq<Record>)
    requires k <= 7 && StandsAtStep(t, id, k, owner, trail)
    requires Hopeful(w, if k == 0 then t.rows[id].data.infoHash else None)
    ensures var job, here := Job(id, t.rows[id]), WorldAt(t.rows[id], w, k);
            var u := After(t, QuietCalls(t, owner, lease, job, here));
            && StandsAtStep(u, id, if k == 7 then 3 else k + 1, owner, after)
            && QuietNext(t, u, owner, job, here) == GoOn(Job(id, u.rows[id]))
            && (Steps.Step(job, here).outcome.Rewind? <==> k == 7)
  {
    var job, here := Job(id, t.rows[id]), WorldAt(t.rows[id], w, k);
    if k == 7 {
      after := trail + [Record(Seeding, Staged, ReconciliationAudit, [], w.now)];
      OneRewind(t, id, owner, lease, w, trail);
    } else {
      after := trail + [Record(PROGRESSION[k], PROGRESSION[k + 1], ProgressAudit, [], here.now)];
      HopefulIsWilling(job.row, w, k);
      RankIsPosition(PROGRESSION[k], k);
      ReadyJobAdvances(job, here);
      hide Willing, Ready, QuietCalls, QuietNext, After, CallsAt, Steps.Step, PlannedFiles, Hopeful;
      OneStepOn(t, id, owner, lease, here, k, trail);
    }
  }

  ghost predicate Stands(t: Tables, job: Job, k: nat, owner: string, trail: seq<Record>) {
    StandsAtStep(t, job.id, k, owner, trail) && t.rows[job.id] == job.row
  }

  lemma NextIteration(
    t: Tables, job: Job, owner: string, lease: Time, w: Steps.World, i: nat, trail: seq<Record>)
    returns (here: Steps.World, u: Tables, moved: Job, after: seq<Record>)
    requires i < BOUND && Stands(t, job, RankAt(i), owner, trail)
    requires Hopeful(w, if i == 0 then job.row.data.infoHash else None)
    ensures u == After(t, QuietCalls(t, owner, lease, job, here)) && Hopeful(w, None)
    ensures Stands(u, moved, RankAt(i + 1), owner, after) && QuietNext(t, u, owner, job, here) == GoOn(moved)
    ensures RewindsFrom(i + 1)
            == if Steps.Step(job, here).outcome.Rewind? then RewindsFrom(i) - 1 else RewindsFrom(i)
  {
    RanksFollow(i);
    StillHopeful(w, if i == 0 then job.row.data.infoHash else None);
    assert RankAt(i) == 0 ==> i == 0;
    after := OneIteration(t, job.id, owner, lease, w, RankAt(i), trail);
    hide QuietCalls, QuietNext, After, Steps.Step, WorldAt, Hopeful, RankAt, RewindsFrom;
    here := WorldAt(job.row, w, RankAt(i));
    u := After(t, QuietCalls(t, owner, lease, job, here));
    moved := Job(job.id, u.rows[job.id]);
  }

  lemma {:induction false} RewindsToTheBound(
    t: Tables, job: Job, owner: string, lease: Time, w: Steps.World, i: nat, trail: seq<Record>)
    returns (worlds: seq<Steps.World>)
    requires i < BOUND && Stands(t, job, RankAt(i), owner, trail)
    requires Hopeful(w, if i == 0 then job.row.data.infoHash else None)
    ensures worlds != [] && GoesOn(t, owner, lease, job, MomentsOf(worlds, i), i, BOUND - i, RewindsFrom(i))
    decreases BOUND - i
  {
    assert RewindsFrom(BOUND) == 0;
    hide Stands, Hopeful, QuietCalls, QuietNext, After, Steps.Step, GoesOn, MomentsOf, RankAt, RewindsFrom;
    var here, u, moved, after := NextIteration(t, job, owner, lease, w, i, trail);
    var rest := [];
    if i + 1 < BOUND { rest := RewindsToTheBound(u, moved, owner, lease, w, i + 1, after); }
    worlds := [here] + rest;
    OneMoreGoesOn(t, owner, lease, job, here, u, moved, rest, i, RewindsFrom(i), RewindsFrom(i + 1));
  }

  lemma StillHopeful(w: Steps.World, known: Option<InfoHash>)
    requires Hopeful(w, known)
    ensures Hopeful(w, None)
  {
  }

  lemma {:induction false} OneMoreGoesOn(
    t: Tables, owner: string, lease: Time, job: Job, here: Steps.World, u: Tables, moved: Job,
    rest: seq<Steps.World>, i: nat, rewinds: int, left: int)
    requires i < BOUND && u == After(t, QuietCalls(t, owner, lease, job, here))
    requires QuietNext(t, u, owner, job, here) == GoOn(moved)
    requires left == if Steps.Step(job, here).outcome.Rewind? then rewinds - 1 else rewinds
    requires if i + 1 < BOUND then
               rest != [] && GoesOn(u, owner, lease, moved, MomentsOf(rest, i + 1), i + 1, BOUND - (i + 1), left)
             else left == 0
    ensures GoesOn(t, owner, lease, job, MomentsOf([here] + rest, i), i, BOUND - i, rewinds)
  {
    hide QuietCalls, QuietNext, After, Steps.Step;
    var at := MomentsOf([here] + rest, i);
    assert at(i) == Calm(([here] + rest)[0]);
    if i + 1 < BOUND {
      GoesOnFrom(u, owner, lease, moved, MomentsOf(rest, i + 1), at, i + 1, BOUND - (i + 1), left);
    }
  }

  lemma {:induction false} GoesOnFrom(
    t: Tables, owner: string, lease: Time, job: Job, at: nat -> Moment, other: nat -> Moment, i: nat, n: nat,
    rewinds: int)
    requires GoesOn(t, owner, lease, job, at, i, n, rewinds) && forall k :: i <= k ==> at(k) == other(k)
    ensures GoesOn(t, owner, lease, job, other, i, n, rewinds)
    decreases n
  {
    hide QuietCalls, QuietNext, After, Steps.Step;
    if n > 0 {
      var w := at(i).world;
      var u := After(t, QuietCalls(t, owner, lease, job, w));
      GoesOnFrom(u, owner, lease, QuietNext(t, u, owner, job, w).job, at, other, i + 1, n - 1,
                 if Steps.Step(job, w).outcome.Rewind? then rewinds - 1 else rewinds);
    }
  }

  /**
   * Three rewinds do reach the bound: with hopeful ports but a client that loses the torrent each time
   * it seeds, an undisturbed drive of a discovered job makes all the steps the bound allows, three of
   * them rewinds, and is stopped by nothing else.
   */
  lemma ThreeRewindsReachTheBound(
    t: Tables, id: JobId, owner: string, lease: Time, w: Steps.World, trail: seq<Record>)
    returns (worlds: seq<Steps.World>)
    requires StandsAtStep(t, id, 0, owner, trail) && Hopeful(w, t.rows[id].data.infoHash)
    ensures worlds != [] && AllQuiet(MomentsOf(worlds, 0))
    ensures GoesOn(t, owner, lease, Job(id, t.rows[id]), MomentsOf(worlds, 0), 0, BOUND, 3)
    ensures StepsIn(QuietRun(t, owner, lease, Job(id, t.rows[id]), MomentsOf(worlds, 0), 0)) == BOUND
  {
    worlds := RewindsToTheBound(t, Job(id, t.rows[id]), owner, lease, w, 0, trail);
    MomentsAreQuiet(worlds, 0);
    hide GoesOn, MomentsOf, AllQuiet, QuietRun;
    GoesOnSteps(t, owner, lease, Job(id, t.rows[id]), MomentsOf(worlds, 0), 0, 3);
  }
}
