/** Startup reconciliation: walk every unfinished job back to what reality supports
    (src/repair/reconcile.rs). */
module Reconcile {
  import opened Prelude
  import opened Lifecycle
  import opened JobModel
  import opened Table
  import opened Protocol
  import opened OperatorReview
  import opened Reality
  import opened Store

  datatype ReconcileSummary = ReconcileSummary(
    leasesCleared: nat, jobsExamined: nat, jobsRewound: nat, parkedExamined: nat, parkedCorrected: nat)

  /** Where one reconciliation leaves a job. */
  function Reconciled(row: Row, e: Reality.Evidence): Position {
    if row.state.IsActionable() then Position(RealityBackedTarget(row, e, row.state), None)
    else if row.state == AwaitingReview && row.reviewFrom.Some?
    then Position(AwaitingReview, Some(RealityBackedTarget(row, e, row.reviewFrom.value)))
    else PositionOf(row)
  }

  /** `after` is `before` reconciled: new position, one audit row exactly if it moved, same plan. */
  ghost predicate Settled(t: Tables, u: Tables, id: JobId, e: Reality.Evidence)
    requires id in t.rows
  {
    && id in u.rows && id in u.trail && id in t.trail
    && PositionOf(u.rows[id]) == Reconciled(t.rows[id], e)
    && u.rows[id].data == t.rows[id].data
    && (Reconciled(t.rows[id], e) == PositionOf(t.rows[id]) ==> u.trail[id] == t.trail[id])
    && (Reconciled(t.rows[id], e) != PositionOf(t.rows[id]) ==>
          |u.trail[id]| == |t.trail[id]| + 1 && u.trail[id][..|t.trail[id]|] == t.trail[id]
          && u.trail[id][|t.trail[id]|].reason == ReconciliationAudit)
  }

  /** Nothing but lease columns of a job differs. */
  ghost predicate Untouched(t: Tables, u: Tables, id: JobId)
    requires id in t.rows
  {
    && id in u.rows && id in u.trail && id in t.trail
    && PositionOf(u.rows[id]) == PositionOf(t.rows[id])
    && u.rows[id].data == t.rows[id].data
    && u.trail[id] == t.trail[id]
  }

  lemma EmptyPatchChangesNothing(d: JobData)
    ensures PatchAll(d, NO_PATCH) == d
  {
  }

  lemma {:induction false} ListingExact(t: Tables, bound: nat, wanted: RepairState -> bool)
    ensures forall job :: job in Listing(t, bound, wanted) <==>
      0 <= job.id < bound && job.id in t.rows && wanted(t.rows[job.id].state) && job.row == t.rows[job.id]
    ensures forall i, j :: 0 <= i < j < |Listing(t, bound, wanted)| ==>
      Listing(t, bound, wanted)[i].id < Listing(t, bound, wanted)[j].id
  {
    if bound > 0 { ListingExact(t, bound - 1, wanted); }
  }

  /** Furthest at or below the old position, for every job reconciliation looks at. */
  ghost predicate AtReality(before: Row, e: Reality.Evidence, after: Position) {
    && (before.state.IsActionable() ==>
          after.reviewFrom == None && IsFurthestSupported(before, e, before.state, after.state))
    && (before.state == AwaitingReview && before.reviewFrom.Some? ==>
          after.state == AwaitingReview && after.reviewFrom.Some?
          && IsFurthestSupported(before, e, before.reviewFrom.value, after.reviewFrom.value))
    && (before.state.IsTerminal() ==> after == PositionOf(before))
  }

  lemma ReconciledIsAtReality(row: Row, e: Reality.Evidence)
    requires ParkedExactly(row) && NoErrors(e)
    ensures AtReality(row, e, Reconciled(row, e))
  {
    if row.state.IsActionable() { TargetIsFurthest(row, e, row.state); }
    if row.state == AwaitingReview { TargetIsFurthest(row, e, row.reviewFrom.value); }
  }

  /** A second look at the same reality moves nothing. */
  lemma ReconcilingAgainChangesNothing(before: Row, after: Row, e: Reality.Evidence)
    requires ParkedExactly(before)
    requires PositionOf(after) == Reconciled(before, e) && after.data == before.data
    ensures Reconciled(after, e) == PositionOf(after)
  {
    if before.state.IsActionable() { TargetIsStable(before, e, before.state); }
    if before.state == AwaitingReview { TargetIsStable(before, e, before.reviewFrom.value); }
  }

  lemma SettledTwice(t: Tables, u: Tables, v: Tables, id: JobId, e: Reality.Evidence)
    requires id in t.rows && Consistent(t) && Settled(t, u, id, e) && Settled(u, v, id, e)
    ensures Untouched(u, v, id)
  {
    assert TrailFor(t, id);
    ReconcilingAgainChangesNothing(t.rows[id], u.rows[id], e);
  }

  lemma RewindSettles(t: Tables, id: JobId, e: Reality.Evidence, now: Time)
    requires Consistent(t) && id in t.rows && t.rows[id].state.IsActionable()
    ensures RewindToReality(Job(id, t.rows[id]), e, now).Some? ==>
      RewindToReality(Job(id, t.rows[id]), e, now).value.Swap?
    ensures var w := RewindToReality(Job(id, t.rows[id]), e, now);
      Settled(t, if w.Some? then Do(t, w.value) else t, id, e)
    ensures RewindToReality(Job(id, t.rows[id]), e, now).Some? <==>
      Reconciled(t.rows[id], e) != PositionOf(t.rows[id])
  {
    assert TrailFor(t, id);
    TargetIsStable(t.rows[id], e, t.rows[id].state);
    EmptyPatchChangesNothing(t.rows[id].data);
  }

  lemma CorrectionSettles(t: Tables, id: JobId, e: Reality.Evidence, now: Time)
    requires Consistent(t) && id in t.rows && t.rows[id].state == AwaitingReview
    ensures CorrectToReality(Job(id, t.rows[id]), e, now).Some? ==>
      CorrectToReality(Job(id, t.rows[id]), e, now).value.ResumePoint?
    ensures var w := CorrectToReality(Job(id, t.rows[id]), e, now);
      Settled(t, if w.Some? then Do(t, w.value) else t, id, e)
    ensures CorrectToReality(Job(id, t.rows[id]), e, now).Some? <==>
      Reconciled(t.rows[id], e) != PositionOf(t.rows[id])
  {
    assert TrailFor(t, id);
    TargetIsStable(t.rows[id], e, t.rows[id].reviewFrom.value);
  }

  /** A write to one job leaves all others alone. */
  lemma OthersUntouched(t: Tables, w: Write, id: JobId, other: JobId)
    requires Consistent(t) && (w.Swap? || w.ResumePoint?) && w.id == id
    requires other in t.rows && other != id
    ensures Untouched(t, Do(t, w), other)
  {
    assert TrailFor(t, other);
  }

  /** What one reconciling write (or none) does to the whole table. */
  ghost predicate OneSettled(t: Tables, u: Tables, id: JobId, e: Reality.Evidence)
    requires id in t.rows
  {
    && Consistent(u) && u.nextId == t.nextId && u.rows.Keys == t.rows.Keys
    && Settled(t, u, id, e)
    && forall other :: other in t.rows && other != id ==> Untouched(t, u, other)
  }

  lemma WritesKeepRows(t: Tables, w: Write)
    requires w.Swap? || w.ResumePoint?
    ensures Do(t, w).nextId == t.nextId && Do(t, w).rows.Keys == t.rows.Keys
  {
  }

  lemma WriteSettlesOne(t: Tables, w: Write, id: JobId, e: Reality.Evidence)
    requires Consistent(t) && Legal(w) && (w.Swap? || w.ResumePoint?) && w.id == id && id in t.rows
    requires Settled(t, Do(t, w), id, e)
    ensures OneSettled(t, Do(t, w), id, e)
  {
    StepKeepsConsistent(t, w);
    WritesKeepRows(t, w);
    hide Consistent, Do, Untouched, Settled;
    forall other | other in t.rows && other != id ensures Untouched(t, Do(t, w), other) {
      OthersUntouched(t, w, id, other);
    }
  }

  lemma NoWriteSettlesOne(t: Tables, id: JobId, e: Reality.Evidence)
    requires Consistent(t) && id in t.rows && Settled(t, t, id, e)
    ensures OneSettled(t, t, id, e)
  {
    forall other | other in t.rows ensures Untouched(t, t, other) { assert TrailFor(t, other); }
  }

  lemma SameRewind(a: Job, b: Job, e: Reality.Evidence)
    requires SameToReality(a.row, b.row)
    ensures RealityBackedTarget(a.row, e, a.row.state) == RealityBackedTarget(b.row, e, b.row.state)
    ensures Reconciled(a.row, e) == Reconciled(b.row, e)
    ensures var target := RealityBackedTarget(a.row, e, a.row.state);
            PlanTransition(a, target, Reconciliation) == PlanTransition(b, target, Reconciliation)
  {
  }

  lemma RewindEffect(t: Tables, job: Job, e: Reality.Evidence, now: Time)
    requires Consistent(t) && job.id in t.rows && SameToReality(t.rows[job.id], job.row)
    requires job.row.state.IsActionable()
    ensures var target := RealityBackedTarget(job.row, e, job.row.state);
      var plan := PlanTransition(job, target, Reconciliation);
      && (target == job.row.state ==> OneSettled(t, t, job.id, e))
      && (target != job.row.state ==>
            && plan.Ok?
            && OneSettled(t, Apply(t, job.id, plan.value, PLAIN_UPDATE, now).0, job.id, e)
            && Apply(t, job.id, plan.value, PLAIN_UPDATE, now).1.Ok?)
      && (target != job.row.state <==> Reconciled(job.row, e) != PositionOf(job.row))
  {
    SameRewind(Job(job.id, t.rows[job.id]), job, e);
    hide RealityBackedTarget, Settled, OneSettled, Untouched;
    RewindSettles(t, job.id, e, now);
    assert TrailFor(t, job.id);
    TargetIsStable(job.row, e, job.row.state);
    var w := RewindToReality(Job(job.id, t.rows[job.id]), e, now);
    if w.Some? {
      PlannedIsLegalHere(job, RealityBackedTarget(job.row, e, job.row.state));
      WriteSettlesOne(t, w.value, job.id, e);
    } else {
      NoWriteSettlesOne(t, job.id, e);
    }
  }

  lemma PlannedIsLegalHere(job: Job, to: RepairState)
    requires PlanTransition(job, to, Reconciliation).Ok?
    ensures IsValidated(PlanTransition(job, to, Reconciliation).value)
  {
    assert ValidateTransition(job.row.state, to, Reconciliation, job.row.reviewFrom).Ok?;
  }

  lemma CorrectionEffect(t: Tables, job: Job, e: Reality.Evidence, now: Time)
    requires Consistent(t) && job.id in t.rows && SameToReality(t.rows[job.id], job.row)
    requires job.row.state == AwaitingReview
    ensures job.row.reviewFrom.Some?
    ensures var from := job.row.reviewFrom.value; var target := RealityBackedTarget(job.row, e, from);
      && (target == from ==> OneSettled(t, t, job.id, e))
      && (target != from ==>
            && OneSettled(t, SetReviewResumePoint(t, job.id, target, now).0, job.id, e)
            && SetReviewResumePoint(t, job.id, target, now).1.Ok?)
      && (target != from <==> Reconciled(job.row, e) != PositionOf(job.row))
  {
    CorrectionSettles(t, job.id, e, now);
    assert TrailFor(t, job.id);
    TargetIsStable(job.row, e, job.row.reviewFrom.value);
    var w := CorrectToReality(Job(job.id, t.rows[job.id]), e, now);
    if w.Some? { WriteSettlesOne(t, w.value, job.id, e); } else { NoWriteSettlesOne(t, job.id, e); }
  }

  lemma UntouchedThenSettled(t: Tables, u: Tables, v: Tables, id: JobId, e: Reality.Evidence)
    requires id in t.rows && Untouched(t, u, id) && Settled(u, v, id, e)
    ensures Settled(t, v, id, e)
  {
  }

  lemma SettledThenUntouched(t: Tables, u: Tables, v: Tables, id: JobId, e: Reality.Evidence)
    requires id in t.rows && Settled(t, u, id, e) && Untouched(u, v, id)
    ensures Settled(t, v, id, e)
  {
  }

  /** The jobs of `done` are settled and every other one is untouched. */
  ghost predicate SettledSoFar(t: Tables, u: Tables, done: set<JobId>, evidence: JobId -> Reality.Evidence) {
    && u.rows.Keys == t.rows.Keys && u.nextId == t.nextId
    && forall id :: id in t.rows ==>
         if id in done then Settled(t, u, id, evidence(id)) else Untouched(t, u, id)
  }

  lemma OneMoreSettled(
    t: Tables, u: Tables, v: Tables, done: set<JobId>, next: JobId, evidence: JobId -> Reality.Evidence)
    requires SettledSoFar(t, u, done, evidence) && next in t.rows && next !in done
    requires v.rows.Keys == u.rows.Keys && v.nextId == u.nextId
    requires Settled(u, v, next, evidence(next))
    requires forall id :: id in u.rows && id != next ==> Untouched(u, v, id)
    ensures SettledSoFar(t, v, done + {next}, evidence)
  {
    forall id | id in t.rows
      ensures if id in done + {next} then Settled(t, v, id, evidence(id)) else Untouched(t, v, id)
    {
      if id == next { UntouchedThenSettled(t, u, v, id, evidence(id)); }
      else if id in done { SettledThenUntouched(t, u, v, id, evidence(id)); }
    }
  }

  predicate Wanted(parked: bool, s: RepairState) {
    if parked then s == AwaitingReview else s.IsActionable()
  }

  /** The listed jobs reality sends somewhere else. */
  ghost function Moving(t: Tables, ids: set<JobId>, evidence: JobId -> Reality.Evidence): set<JobId> {
    set id | id in ids && id in t.rows && Reconciled(t.rows[id], evidence(id)) != PositionOf(t.rows[id])
  }

  ghost function ListedIds(t: Tables, parked: bool): set<JobId> {
    set id | id in t.rows && Wanted(parked, t.rows[id].state)
  }

  lemma OneMoreMoving(t: Tables, done: set<JobId>, next: JobId, evidence: JobId -> Reality.Evidence)
    requires next in t.rows && next !in done
    ensures |Moving(t, done + {next}, evidence)| == |Moving(t, done, evidence)| +
      if Reconciled(t.rows[next], evidence(next)) != PositionOf(t.rows[next]) then 1 else 0
  {
    if Reconciled(t.rows[next], evidence(next)) != PositionOf(t.rows[next]) {
      assert Moving(t, done + {next}, evidence) == Moving(t, done, evidence) + {next};
    } else {
      assert Moving(t, done + {next}, evidence) == Moving(t, done, evidence);
    }
  }

  /** What reconciliation reads of a job is the same in both rows. */
  predicate SameToReality(a: Row, b: Row) {
    a.state == b.state && a.reviewFrom == b.reviewFrom && a.data == b.data
  }

  /** Reconciling the unfinished jobs and then the parked ones settles every job there is. */
  lemma BothPassesSettle(t: Tables, u: Tables, v: Tables, evidence: JobId -> Reality.Evidence, id: JobId)
    requires Consistent(t) && id in t.rows
    requires SettledSoFar(t, u, ListedIds(t, false), evidence)
    requires SettledSoFar(u, v, ListedIds(u, true), evidence)
    ensures Settled(t, v, id, evidence(id))
  {
    assert TrailFor(t, id);
    if t.rows[id].state.IsActionable() {
      TargetIsStable(t.rows[id], evidence(id), t.rows[id].state);
      SettledThenUntouched(t, u, v, id, evidence(id));
    } else if t.rows[id].state == AwaitingReview {
      UntouchedThenSettled(t, u, v, id, evidence(id));
    }
  }

  class Reconciler {
    const store: RepairStore

    constructor (store: RepairStore)
      ensures this.store == store
    {
      this.store := store;
    }

    /** Returns whether the job was moved. */
    method ReconcileActionableJob(job: Job, e: Reality.Evidence, now: Time) returns (moved: bool)
      requires Consistent(store.Contents())
      requires job.id in store.rows && SameToReality(store.rows[job.id], job.row)
      requires job.row.state.IsActionable()
      modifies store
      ensures Consistent(store.Contents()) && store.nextId == old(store.nextId)
      ensures store.rows.Keys == old(store.rows.Keys)
      ensures Settled(old(store.Contents()), store.Contents(), job.id, e)
      ensures forall id :: id in old(store.rows) && id != job.id ==>
        Untouched(old(store.Contents()), store.Contents(), id)
      ensures moved <==> Reconciled(job.row, e) != PositionOf(job.row)
      // A job sent back is tried again at once, and nobody's lease on it is touched.
      ensures moved ==>
                store.rows[job.id] == old(store.rows[job.id]).(
                  state := store.rows[job.id].state, reviewFrom := None, reviewReason := None, failureReason := None,
                  attempts := 0, nextAttemptAt := None, updatedAt := now)
      ensures !moved ==> store.Contents() == old(store.Contents())
    {
      hide Consistent, Settled, Untouched, Reconciled;
      EmptyPatchChangesNothing(store.rows[job.id].data);
      RewindEffect(store.Contents(), job, e, now);
      var target := RealityBackedTarget(job.row, e, job.row.state);
      if target == job.row.state { return false; }
      var plan := PlanTransition(job, target, Reconciliation);
      if plan.Err? { return false; }
      var r := store.Apply(job.id, plan.value, PLAIN_UPDATE, now);
      moved := r.Ok?;
    }

    /** Returns whether the job's resume point was moved; the job stays parked either way. */
    method ReconcileParkedJob(job: Job, e: Reality.Evidence, now: Time) returns (moved: bool)
      requires Consistent(store.Contents())
      requires job.id in store.rows && SameToReality(store.rows[job.id], job.row)
      requires job.row.state == AwaitingReview
      modifies store
      ensures Consistent(store.Contents()) && store.nextId == old(store.nextId)
      ensures store.rows.Keys == old(store.rows.Keys)
      ensures Settled(old(store.Contents()), store.Contents(), job.id, e)
      ensures forall id :: id in old(store.rows) && id != job.id ==>
        Untouched(old(store.Contents()), store.Contents(), id)
      ensures moved <==> Reconciled(job.row, e) != PositionOf(job.row)
      ensures moved ==>
                store.rows[job.id] == old(store.rows[job.id]).(
                  reviewFrom := store.rows[job.id].reviewFrom, updatedAt := now)
      ensures !moved ==> store.Contents() == old(store.Contents())
    {
      hide Consistent, Settled, Untouched, Reconciled;
      CorrectionEffect(store.Contents(), job, e, now);
      if job.row.reviewFrom.None? { return false; }
      var target := RealityBackedTarget(job.row, e, job.row.reviewFrom.value);
      if target == job.row.reviewFrom.value { return false; }
      var r := store.SetReviewResumePoint(job.id, target, now);
      moved := r.Ok?;
    }

    method ReconcileOne(parked: bool, job: Job, e: Reality.Evidence, now: Time) returns (moved: bool)
      requires Consistent(store.Contents())
      requires job.id in store.rows && SameToReality(store.rows[job.id], job.row)
      requires Wanted(parked, job.row.state)
      modifies store
      ensures Consistent(store.Contents()) && store.nextId == old(store.nextId)
      ensures store.rows.Keys == old(store.rows.Keys)
      ensures Settled(old(store.Contents()), store.Contents(), job.id, e)
      ensures forall id :: id in old(store.rows) && id != job.id ==>
        Untouched(old(store.Contents()), store.Contents(), id)
      ensures moved <==> Reconciled(job.row, e) != PositionOf(job.row)
    {
      if parked { moved := ReconcileParkedJob(job, e, now); }
      else { moved := ReconcileActionableJob(job, e, now); }
    }

    /** The unfinished jobs, or the parked ones, each once. */
    method ListWanted(parked: bool) returns (jobs: seq<Job>)
      requires Consistent(store.Contents()) && store.nextId >= 0
      ensures IsListing(store.Contents(), jobs, parked)
      ensures Before(jobs, |jobs|) == ListedIds(store.Contents(), parked)
      ensures |jobs| == |ListedIds(store.Contents(), parked)|
    {
      ListedExactly(store.Contents(), parked);
      hide Consistent, Before, Listing, ListedIds, IsListing;
      jobs := store.List((s: RepairState) => Wanted(parked, s));
    }

    /** Reconcile the next job listed, the ones before it being settled. */
    method ReconcileNext(
      parked: bool, jobs: seq<Job>, i: nat, evidence: JobId -> Reality.Evidence, now: Time, ghost t: Tables)
      returns (did: bool)
      requires Consistent(store.Contents()) && i < |jobs| && IsListing(t, jobs, parked)
      requires SettledSoFar(t, store.Contents(), Before(jobs, i), evidence)
      modifies store
      ensures Consistent(store.Contents())
      ensures SettledSoFar(t, store.Contents(), Before(jobs, i + 1), evidence)
      ensures |Moving(t, Before(jobs, i + 1), evidence)|
              == |Moving(t, Before(jobs, i), evidence)| + if did then 1 else 0
    {
      ghost var job, u, done := jobs[i], store.Contents(), Before(jobs, i);
      hide Consistent, Settled, Reconciled, Moving, SettledSoFar, Untouched, Before, RealityBackedTarget;
      NextListed(t, jobs, i, parked);
      StillUntouched(t, u, done, job.id, evidence);
      did := ReconcileOne(parked, jobs[i], evidence(jobs[i].id), now);
      OneMoreSettled(t, u, store.Contents(), done, job.id, evidence);
      OneMoreMoving(t, done, job.id, evidence);
    }

    /** Reconcile every job the listing selects, in order of id; returns how many moved. */
    method ReconcileListed(parked: bool, evidence: JobId -> Reality.Evidence, now: Time)
      returns (examined: nat, moved: nat)
      requires Consistent(store.Contents()) && store.nextId >= 0
      modifies store
      ensures Consistent(store.Contents())
      ensures SettledSoFar(old(store.Contents()), store.Contents(),
                           ListedIds(old(store.Contents()), parked), evidence)
      ensures examined == |ListedIds(old(store.Contents()), parked)|
      ensures moved == |Moving(old(store.Contents()), ListedIds(old(store.Contents()), parked), evidence)|
    {
      ghost var t := store.Contents();
      NothingSettledYet(t, evidence);
      NothingMoving(t, evidence);
      hide Consistent, Settled, Reconciled, Moving, SettledSoFar, Untouched, Before, ListedIds, RealityBackedTarget,
        IsListing;
      var jobs := ListWanted(parked);
      examined, moved := |jobs|, 0;
      assert Before(jobs, 0) == {} by { NothingBefore(jobs); }
      for i := 0 to |jobs|
        invariant Consistent(store.Contents())
        invariant SettledSoFar(t, store.Contents(), Before(jobs, i), evidence)
        invariant moved == |Moving(t, Before(jobs, i), evidence)|
      {
        var did := ReconcileNext(parked, jobs, i, evidence, now, t);
        if did { moved := moved + 1; }
      }
    }

    lemma NothingBefore(jobs: seq<Job>)
      ensures Before(jobs, 0) == {}
    {
    }

    /** What the listing selects, one job at a time and each job once. */
    lemma ListedExactly(t: Tables, parked: bool)
      requires Consistent(t) && t.nextId >= 0
      ensures var jobs := Listing(t, t.nextId, (s: RepairState) => Wanted(parked, s));
        && Before(jobs, |jobs|) == ListedIds(t, parked)
        && |jobs| == |ListedIds(t, parked)|
        && IsListing(t, jobs, parked)
    {
      var wanted := (s: RepairState) => Wanted(parked, s);
      var jobs := Listing(t, t.nextId, wanted);
      ListingExact(t, t.nextId, wanted);
      assert forall i :: 0 <= i < |jobs| ==> jobs[i] in jobs;
      if Before(jobs, |jobs|) != ListedIds(t, parked) {
        forall id ensures id in Before(jobs, |jobs|) <==> id in ListedIds(t, parked) {
          if id in ListedIds(t, parked) { assert Job(id, t.rows[id]) in jobs; }
        }
        assert false;
      }
      EachOnce(t, jobs, |jobs|, parked);
    }

    lemma {:induction false} EachOnce(t: Tables, jobs: seq<Job>, i: nat, parked: bool)
      requires IsListing(t, jobs, parked) && i <= |jobs|
      ensures |Before(jobs, i)| == i
    {
      if i == 0 { NothingBefore(jobs); }
      else {
        EachOnce(t, jobs, i - 1, parked);
        NextListed(t, jobs, i - 1, parked);
      }
    }

    ghost predicate IsListing(t: Tables, jobs: seq<Job>, parked: bool) {
      && (forall i :: 0 <= i < |jobs| ==>
            jobs[i].id in t.rows && jobs[i].row == t.rows[jobs[i].id] && Wanted(parked, jobs[i].row.state))
      && (forall i, j :: 0 <= i < j < |jobs| ==> jobs[i].id < jobs[j].id)
    }

    /** The ids of the first `i` jobs of a listing. */
    ghost function Before(jobs: seq<Job>, i: nat): set<JobId>
      requires i <= |jobs|
    {
      set k | 0 <= k < i :: jobs[k].id
    }

    lemma NextListed(t: Tables, jobs: seq<Job>, i: nat, parked: bool)
      requires IsListing(t, jobs, parked) && i < |jobs|
      ensures jobs[i].id in t.rows && jobs[i].row == t.rows[jobs[i].id] && Wanted(parked, jobs[i].row.state)
      ensures jobs[i].id !in Before(jobs, i)
      ensures Before(jobs, i + 1) == Before(jobs, i) + {jobs[i].id}
    {
      if Before(jobs, i + 1) != Before(jobs, i) + {jobs[i].id} { assert false; }
    }

    lemma ClearingTouchesNothing(t: Tables, owner: string, now: Time)
      requires Consistent(t)
      ensures Consistent(ClearStaleLeases(t, owner, now))
      ensures ClearStaleLeases(t, owner, now).rows.Keys == t.rows.Keys
      ensures ClearStaleLeases(t, owner, now).nextId == t.nextId
      ensures forall id :: id in t.rows ==> Untouched(t, ClearStaleLeases(t, owner, now), id)
    {
      StepKeepsConsistent(t, Clearing(owner, now));
      forall id | id in t.rows ensures Untouched(t, ClearStaleLeases(t, owner, now), id) {
        ClearingUntouched(t, owner, now, id);
      }
      hide Consistent, Untouched;
    }

    lemma ClearingUntouched(t: Tables, owner: string, now: Time, id: JobId)
      requires Consistent(t) && id in t.rows
      ensures Untouched(t, ClearStaleLeases(t, owner, now), id)
    {
      assert TrailFor(t, id);
    }

    /** Leases have no say in what is listed or where it goes. */
    lemma SameListing(t: Tables, u: Tables, parked: bool, evidence: JobId -> Reality.Evidence)
      requires u.rows.Keys == t.rows.Keys && forall id :: id in t.rows ==> Untouched(t, u, id)
      ensures ListedIds(u, parked) == ListedIds(t, parked)
      ensures Moving(u, ListedIds(u, parked), evidence) == Moving(t, ListedIds(t, parked), evidence)
    {
      forall id | id in t.rows
        ensures PositionOf(u.rows[id]) == PositionOf(t.rows[id])
        ensures Reconciled(u.rows[id], evidence(id)) == Reconciled(t.rows[id], evidence(id))
      {
        assert Untouched(t, u, id);
      }
      if ListedIds(u, parked) != ListedIds(t, parked) { assert false; }
      if Moving(u, ListedIds(u, parked), evidence) != Moving(t, ListedIds(t, parked), evidence) { assert false; }
    }

    lemma ParkedAsBefore(t: Tables, u: Tables, evidence: JobId -> Reality.Evidence, id: JobId)
      requires Consistent(t) && SettledSoFar(t, u, ListedIds(t, false), evidence) && id in t.rows
      ensures id in u.rows
      ensures u.rows[id].state == AwaitingReview <==> t.rows[id].state == AwaitingReview
      ensures t.rows[id].state == AwaitingReview ==> SameToReality(u.rows[id], t.rows[id])
    {
      if t.rows[id].state.IsActionable() {
        assert Settled(t, u, id, evidence(id));
        TargetIsStable(t.rows[id], evidence(id), t.rows[id].state);
      } else {
        assert Untouched(t, u, id);
      }
    }

    /** Rewinding the unfinished jobs neither parks a job nor touches a parked one. */
    lemma SameParked(t: Tables, u: Tables, evidence: JobId -> Reality.Evidence)
      requires Consistent(t) && SettledSoFar(t, u, ListedIds(t, false), evidence)
      ensures ListedIds(u, true) == ListedIds(t, true)
      ensures Moving(u, ListedIds(u, true), evidence) == Moving(t, ListedIds(t, true), evidence)
    {
      forall id | id in t.rows
        ensures id in u.rows
        ensures u.rows[id].state == AwaitingReview <==> t.rows[id].state == AwaitingReview
        ensures t.rows[id].state == AwaitingReview ==> SameToReality(u.rows[id], t.rows[id])
      {
        ParkedAsBefore(t, u, evidence, id);
      }
      assert u.rows.Keys == t.rows.Keys;
      hide SettledSoFar, Consistent;
      var listed := ListedIds(t, true);
      forall id ensures id in ListedIds(u, true) <==> id in listed {}
      if ListedIds(u, true) != listed { assert false; }
      forall id ensures id in Moving(u, listed, evidence) <==> id in Moving(t, listed, evidence) {}
      if Moving(u, listed, evidence) != Moving(t, listed, evidence) { assert false; }
    }

    lemma NothingSettledYet(t: Tables, evidence: JobId -> Reality.Evidence)
      requires Consistent(t)
      ensures SettledSoFar(t, t, {}, evidence)
    {
      forall id | id in t.rows ensures Untouched(t, t, id) { assert TrailFor(t, id); }
    }

    lemma StillUntouched(t: Tables, u: Tables, done: set<JobId>, id: JobId, evidence: JobId -> Reality.Evidence)
      requires SettledSoFar(t, u, done, evidence) && id in t.rows && id !in done
      ensures id in u.rows && SameToReality(u.rows[id], t.rows[id])
    {
      assert Untouched(t, u, id);
    }

    lemma NothingMoving(t: Tables, evidence: JobId -> Reality.Evidence)
      ensures |Moving(t, {}, evidence)| == 0
    {
      if Moving(t, {}, evidence) != {} { assert false; }
    }

    /** Clear stale leases, walk the unfinished jobs back, then correct the parked ones. */
    method ReconcileOnStartup(owner: string, evidence: JobId -> Reality.Evidence, now: Time)
      returns (summary: ReconcileSummary)
      requires Consistent(store.Contents())
      modifies store
      ensures Consistent(store.Contents())
      ensures store.rows.Keys == old(store.rows.Keys)
      ensures forall id :: id in old(store.rows) ==>
        Settled(old(store.Contents()), store.Contents(), id, evidence(id))
      ensures summary.leasesCleared == |set id | id in old(store.rows) && IsStaleLease(old(store.rows)[id], owner, now)|
      ensures summary.jobsExamined == |ListedIds(old(store.Contents()), false)|
      ensures summary.parkedExamined == |ListedIds(old(store.Contents()), true)|
      ensures summary.jobsRewound ==
        |Moving(old(store.Contents()), ListedIds(old(store.Contents()), false), evidence)|
      ensures summary.parkedCorrected ==
        |Moving(old(store.Contents()), ListedIds(old(store.Contents()), true), evidence)|
    {
      ghost var t := store.Contents();
      assert store.nextId >= 0;
      ClearingTouchesNothing(t, owner, now);
      hide Consistent, Settled, Untouched, SettledSoFar, ClearStaleLeases, ListedIds, Moving;
      var cleared := store.ClearStaleLeases(owner, now);
      ghost var u := store.Contents();
      var examined, rewound := ReconcileListed(false, evidence, now);
      ghost var v := store.Contents();
      var parkedExamined, corrected := ReconcileListed(true, evidence, now);
      forall id | id in t.rows ensures Settled(t, store.Contents(), id, evidence(id)) {
        BothPassesSettle(u, v, store.Contents(), evidence, id);
        UntouchedThenSettled(t, u, store.Contents(), id, evidence(id));
      }
      SameListing(t, u, false, evidence);
      SameListing(t, u, true, evidence);
      SameParked(u, v, evidence);
      summary := ReconcileSummary(cleared, examined, rewound, parkedExamined, corrected);
    }
  }
}
