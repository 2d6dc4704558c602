/**
 * The drive loop: one step after another while a job keeps moving, with everybody else writing to
 * the same store in between (src/repair/worker.rs).
 */
module Worker {
  import opened Prelude
  import opened Lifecycle
  import opened JobModel
  import opened Table
  import opened Protocol
  import opened Policy
  import opened Steps
  import opened OperatorReview
  import opened Callers
  import opened Store

  /** What one iteration of the loop meets: port answers, other writers, and a failing database. */
  datatype Moment = Moment(
    world: World, shuttingDown: bool,
    beforeApply: seq<Call>, applyFails: bool,
    beforeRenewal: seq<Call>, renewalFails: bool,
    beforeReload: seq<Call>, reloadFails: bool)

  ghost predicate IsQuiet(m: Moment) {
    && m.beforeApply == [] && m.beforeRenewal == [] && m.beforeReload == []
    && !m.applyFails && !m.renewalFails && !m.reloadFails
  }

  ghost predicate AllReadable(cs: seq<Call>) { forall c :: c in cs ==> Readable(c) }

  ghost predicate ReadableMoment(m: Moment) {
    AllReadable(m.beforeApply) && AllReadable(m.beforeRenewal) && AllReadable(m.beforeReload)
  }

  datatype TickSummary = TickSummary(
    advanced: nat, parked: nat, waiting: nat, retrying: nat, rewound: nat)

  /** How to leave a job when the worker stops touching it. */
  datatype Stop = Stop(retryAt: Option<Time>, countAttempt: bool)

  const IDLE: Stop := Stop(None, false)

  /** How the loop ended: released, lease lost to another worker, or iteration bound reached. */
  datatype Ending = Released | LeaseLost | BoundReached

  /** What one iteration makes of the job: carry on, stop, or leave it to its new owner. */
  datatype Next = GoOn(job: Job) | Halt(stop: Stop) | Lost

  const BOUND: nat := 2 * |PROGRESSION|

  function StopForRetry(job: Job, w: World): Stop {
    Stop(Some(w.now + RetryDelayWithJitter(job.row.attempts + 1, w.policy, w.jitter)), true)
  }

  lemma {:induction false} AfterOne(t: Tables, c: Call)
    ensures After(t, []) == t
    ensures After(t, [c]) == if WriteOf(c).Some? then Do(t, WriteOf(c).value) else t
  {
    AfterSnoc(t, [], c);
    assert [] + [c] == [c];
  }

  lemma {:induction false} WritesConcat(cs: seq<Call>, ds: seq<Call>)
    ensures Writes(cs + ds) == Writes(cs) + Writes(ds)
  {
    if cs == [] {
      assert cs + ds == ds;
    } else {
      var w := WriteOf(cs[0]);
      var head := if w.Some? then [w.value] else [];
      assert (cs + ds)[0] == cs[0] && (cs + ds)[1..] == cs[1..] + ds;
      assert Writes(cs) == head + Writes(cs[1..]) && Writes(cs + ds) == head + Writes(cs[1..] + ds);
      hide WriteOf, Writes;
      WritesConcat(cs[1..], ds);
    }
  }

  lemma AfterConcat(t: Tables, cs: seq<Call>, ds: seq<Call>)
    ensures After(t, cs + ds) == After(After(t, cs), ds)
  {
    WritesConcat(cs, ds);
    RunAppend(t, Writes(cs), Writes(ds));
  }

  lemma AfterKeepsConsistent(t: Tables, cs: seq<Call>)
    requires Consistent(t) && AllReadable(cs)
    ensures Consistent(After(t, cs))
  {
    WritesAreLegal(cs);
    RunKeepsConsistent(t, Writes(cs));
  }

  /** The last call was lease bookkeeping. */
  ghost predicate LastKept(log: seq<Call>) { log != [] && log[|log| - 1].Keeps? }

  /** On a table nobody else touched, the swap of a step that succeeded goes through. */
  lemma {:induction false} UndisturbedAdvance(t: Tables, job: Job, u: TransitionUpdate, now: Time)
    requires job.id in t.rows && t.rows[job.id] == job.row && job.row.state.IsActionable()
    requires PlanTransition(job, job.row.state.Next().GetOr(job.row.state), Progress).Ok?
    ensures var (after, r) := Table.Apply(t, job.id,
      PlanTransition(job, job.row.state.Next().GetOr(job.row.state), Progress).value, u, now);
      if r.Ok? then
        r == Ok(Applied.Applied) && job.id in after.rows
        && RankOf(after.rows[job.id]) == RankOf(job.row) + 1
      else !r.error.Conflict?
  {
    var k := job.row.state.Rank().value;
    RankIsPosition(PROGRESSION[k + 1], k + 1);
  }

  // ---- What the loop does when nobody else is about ---------------------------------------------

  function Renewal(owner: string, lease: Time, id: JobId, w: World): Call {
    Keeps(Renewing(id, owner, w.now + lease))
  }

  /** The job read again after an advance. */
  function Resumed(t: Tables, id: JobId): Next {
    if id in t.rows && t.rows[id].state.IsActionable() then GoOn(Job(id, t.rows[id])) else Halt(IDLE)
  }

  /** The step's own write, if the outcome leads to one. */
  function StepCalls(job: Job, w: World): seq<Call> {
    if WorkerWrite(job, w).Some? then [Works(job, w)] else []
  }

  /** An advance whose swap the store accepts. */
  predicate Advances(t: Tables, job: Job, w: World) {
    && Step(job, w).outcome.Advance? && WorkerWrite(job, w).Some? && WorkerWrite(job, w).value.Swap?
    && var write := WorkerWrite(job, w).value;
       Table.Apply(t, write.id, write.transition, write.update, write.at).1.Ok?
  }

  /** The calls of one undisturbed iteration: the step's write, and the renewal after an advance. */
  function QuietCalls(t: Tables, owner: string, lease: Time, job: Job, w: World): seq<Call> {
    if Advances(t, job, w) then StepCalls(job, w) + [Renewal(owner, lease, job.id, w)] else StepCalls(job, w)
  }

  /** How an undisturbed iteration leaves the job, `u` being the tables after its calls. */
  function QuietNext(t: Tables, u: Tables, owner: string, job: Job, w: World): Next {
    match Step(job, w).outcome
    case Advance(_) =>
      if !Advances(t, job, w) then Halt(StopForRetry(job, w))
      else if job.id !in u.rows then Halt(IDLE)
      else if u.rows[job.id].leaseOwner != Some(owner) then Lost
      else if u.rows[job.id].state.IsActionable() then GoOn(Job(job.id, u.rows[job.id]))
      else Halt(IDLE)
    case Rewind(_) => if job.id in u.rows then GoOn(Job(job.id, u.rows[job.id])) else Halt(IDLE)
    case Park(_, _, _) => Halt(IDLE)
    case Wait(after, _) => Halt(Stop(Some(w.now + after), false))
    case Retry =>
      if job.row.attempts + 1 >= w.policy.maxAttempts then Halt(IDLE) else Halt(StopForRetry(job, w))
  }

  function LetGo(id: JobId, stop: Stop, now: Time): Call {
    Keeps(Releasing(id, stop.retryAt, stop.countAttempt, now))
  }

  /** Every call of an undisturbed drive from iteration `i` on. */
  function QuietRun(t: Tables, owner: string, lease: Time, job: Job, at: nat -> Moment, i: nat): seq<Call>
    decreases BOUND - i
  {
    if i >= BOUND || at(i).shuttingDown then [LetGo(job.id, IDLE, at(i).world.now)]
    else
      var calls := QuietCalls(t, owner, lease, job, at(i).world);
      var u := After(t, calls);
      match QuietNext(t, u, owner, job, at(i).world)
      case GoOn(moved) => calls + QuietRun(u, owner, lease, moved, at, i + 1)
      case Halt(stop) => calls + [LetGo(job.id, stop, at(i + 1).world.now)]
      case Lost => calls
  }

  /** One iteration off the front of a run. */
  lemma {:induction false} RunUnfolds(
    t: Tables, owner: string, lease: Time, job: Job, at: nat -> Moment, i: nat, calls: seq<Call>, u: Tables, next: Next)
    requires i < BOUND && !at(i).shuttingDown
    requires calls == QuietCalls(t, owner, lease, job, at(i).world) && u == After(t, calls)
    requires next == QuietNext(t, u, owner, job, at(i).world)
    ensures next.GoOn? ==>
              QuietRun(t, owner, lease, job, at, i) == calls + QuietRun(u, owner, lease, next.job, at, i + 1)
    ensures next.Halt? ==>
              QuietRun(t, owner, lease, job, at, i) == calls + [LetGo(job.id, next.stop, at(i + 1).world.now)]
    ensures next.Lost? ==> QuietRun(t, owner, lease, job, at, i) == calls
  {
    hide QuietCalls, QuietNext, After;
  }

  /** Where an undisturbed drive stands: the calls made so far, and those still to come from tables `u`. */
  ghost predicate OnCourse(
    whole: seq<Call>, owner: string, lease: Time, at: nat -> Moment, log: seq<Call>, u: Tables, job: Job, i: nat,
    stop: Stop, ending: Ending)
  {
    whole == match ending
             case BoundReached => log + QuietRun(u, owner, lease, job, at, i)
             case Released => log + [LetGo(job.id, stop, at(i).world.now)]
             case LeaseLost => log
  }

  lemma {:induction false} BeginsOnCourse(t: Tables, owner: string, lease: Time, start: Job, at: nat -> Moment)
    ensures OnCourse(QuietRun(t, owner, lease, start, at, 0), owner, lease, at, [], t, start, 0, IDLE, BoundReached)
  {
  }

  lemma {:induction false} LeavesOnCourse(
    whole: seq<Call>, owner: string, lease: Time, at: nat -> Moment, log: seq<Call>, u: Tables, job: Job, i: nat)
    requires OnCourse(whole, owner, lease, at, log, u, job, i, IDLE, BoundReached)
    ensures at(i).shuttingDown || i >= BOUND ==>
              OnCourse(whole, owner, lease, at, log, u, job, i, IDLE, Released)
  {
  }

  lemma {:induction false} StaysOnCourse(
    whole: seq<Call>, owner: string, lease: Time, at: nat -> Moment, had: seq<Call>, t: Tables, job: Job, i: nat,
    log: seq<Call>, u: Tables, next: Next)
    requires i < BOUND && !at(i).shuttingDown
    requires OnCourse(whole, owner, lease, at, had, t, job, i, IDLE, BoundReached)
    requires log == had + QuietCalls(t, owner, lease, job, at(i).world)
    requires u == After(t, QuietCalls(t, owner, lease, job, at(i).world))
    requires next == QuietNext(t, u, owner, job, at(i).world)
    ensures next.GoOn? ==> OnCourse(whole, owner, lease, at, log, u, next.job, i + 1, IDLE, BoundReached)
    ensures next.Halt? ==> OnCourse(whole, owner, lease, at, log, u, job, i + 1, next.stop, Released)
    ensures next.Lost? ==> OnCourse(whole, owner, lease, at, log, u, job, i + 1, IDLE, LeaseLost)
  {
    var calls := QuietCalls(t, owner, lease, job, at(i).world);
    RunUnfolds(t, owner, lease, job, at, i, calls, u, next);
    hide QuietCalls, QuietNext, QuietRun, After, LetGo;
    var run := QuietRun(t, owner, lease, job, at, i);
    assert whole == had + run;
    if next.GoOn? {
      Regroup(had, calls, QuietRun(u, owner, lease, next.job, at, i + 1));
    } else if next.Halt? {
      Regroup(had, calls, [LetGo(job.id, next.stop, at(i + 1).world.now)]);
    }
  }

  lemma Regroup(a: seq<Call>, b: seq<Call>, c: seq<Call>)
    ensures a + (b + c) == (a + b) + c
  {
  }

  /** A call of this worker's drive of job `id`, other than the release that ends it. */
  predicate DrivesJob(c: Call, id: JobId, owner: string) {
    match c
    case Works(job, _) => job.id == id
    case Keeps(Renewing(target, holder, _)) => target == id && holder == owner
    case _ => false
  }

  predicate IsRelease(c: Call, id: JobId) { c.Keeps? && c.bookkeeping.Releasing? && c.bookkeeping.id == id }

  /** A step that advances comes from a state the worker acts on, and progress from there is planned. */
  lemma AdvanceIsPlanned(job: Job, w: World)
    requires Step(job, w).outcome.Advance?
    ensures PlanTransition(job, job.row.state.Next().GetOr(job.row.state), Progress).Ok?
  {
    RewindsToStaged(job, w);
    RankIsPosition(job.row.state, job.row.state.Rank().value);
    hide Step;
  }

  /** An undisturbed advance the store refuses: its write changes nothing and the job is retried. */
  lemma {:induction false} QuietAdvance(t: Tables, owner: string, lease: Time, job: Job, w: World, patch: JobPatch)
    requires Step(job, w).outcome == Advance(patch)
    requires PlanTransition(job, job.row.state.Next().GetOr(job.row.state), Progress).Ok?
    ensures var tr := PlanTransition(job, job.row.state.Next().GetOr(job.row.state), Progress).value;
            var (u, r) := Table.Apply(t, job.id, tr, PLAIN_UPDATE.(patch := patch), w.now);
            && WriteOf(Works(job, w)) == Some(Write.Swap(job.id, tr, PLAIN_UPDATE.(patch := patch), w.now))
            && StepCalls(job, w) == [Works(job, w)] && (Advances(t, job, w) <==> r.Ok?)
            && After(t, [Works(job, w)]) == u && (r.Err? ==> u == t)
  {
    AfterOne(t, Works(job, w));
  }

  lemma {:induction false} QuietAdvanceRefused(
    t: Tables, owner: string, lease: Time, job: Job, w: World, patch: JobPatch)
    requires Step(job, w).outcome == Advance(patch)
    requires PlanTransition(job, job.row.state.Next().GetOr(job.row.state), Progress).Ok?
    requires !Advances(t, job, w)
    ensures QuietCalls(t, owner, lease, job, w) == [Works(job, w)] && After(t, [Works(job, w)]) == t
    ensures QuietNext(t, t, owner, job, w) == Halt(StopForRetry(job, w))
  {
    QuietAdvance(t, owner, lease, job, w, patch);
  }

  lemma {:induction false} QuietAdvanceTaken(t: Tables, owner: string, lease: Time, job: Job, w: World, patch: JobPatch)
    requires Step(job, w).outcome == Advance(patch)
    requires PlanTransition(job, job.row.state.Next().GetOr(job.row.state), Progress).Ok?
    requires Advances(t, job, w)
    ensures QuietCalls(t, owner, lease, job, w) == [Works(job, w)] + [Renewal(owner, lease, job.id, w)]
    ensures var u := After(t, [Works(job, w)]);
            var v := Table.RenewLease(u, job.id, owner, w.now + lease).0;
            && After(t, [Works(job, w)] + [Renewal(owner, lease, job.id, w)]) == v
            && job.id in v.rows
            && QuietNext(t, v, owner, job, w)
               == if Table.RenewLease(u, job.id, owner, w.now + lease).1 then Resumed(v, job.id) else Lost
  {
    QuietAdvance(t, owner, lease, job, w, patch);
    AfterSnoc(t, [Works(job, w)], Renewal(owner, lease, job.id, w));
    hide Step, WorkerWrite, StepCalls, After, PatchAll, StopForRetry;
  }

  lemma {:induction false} QuietRewind(t: Tables, owner: string, lease: Time, job: Job, w: World, to: RepairState)
    requires Step(job, w).outcome == Rewind(to)
    ensures PlanTransition(job, to, Reconciliation).Ok?
    ensures var tr := PlanTransition(job, to, Reconciliation).value;
            var u := Table.Apply(t, job.id, tr, PLAIN_UPDATE, w.now).0;
            && WriteOf(Works(job, w)) == Some(Write.Swap(job.id, tr, PLAIN_UPDATE, w.now))
            && StepCalls(job, w) == [Works(job, w)] && QuietCalls(t, owner, lease, job, w) == [Works(job, w)]
            && After(t, [Works(job, w)]) == u
            && QuietNext(t, u, owner, job, w)
               == if job.id in u.rows then GoOn(Job(job.id, u.rows[job.id])) else Halt(IDLE)
  {
    RewindsToStaged(job, w);
    AfterOne(t, Works(job, w));
  }

  lemma {:induction false} QuietWait(
    t: Tables, owner: string, lease: Time, job: Job, w: World, after: int, patch: JobPatch)
    requires Step(job, w).outcome == Wait(after, patch)
    ensures StepCalls(job, w) == if patch != NO_PATCH then [Works(job, w)] else []
    ensures QuietCalls(t, owner, lease, job, w) == StepCalls(job, w)
    ensures After(t, StepCalls(job, w))
            == if patch != NO_PATCH then Table.RecordProgress(t, job.id, patch, w.now) else t
    ensures patch != NO_PATCH ==> WriteOf(Works(job, w)) == Some(Telemetry(job.id, patch, w.now))
    ensures forall u :: QuietNext(t, u, owner, job, w) == Halt(Stop(Some(w.now + after), false))
  {
    AfterOne(t, Works(job, w));
  }

  lemma {:induction false} QuietRetry(t: Tables, owner: string, lease: Time, job: Job, w: World)
    requires Step(job, w).outcome == Retry
    ensures QuietCalls(t, owner, lease, job, w) == StepCalls(job, w)
    ensures var exhausted := job.row.attempts + 1 >= w.policy.maxAttempts;
            && (!exhausted ==> StepCalls(job, w) == [] && After(t, []) == t)
            && (exhausted ==>
                  WorkerWrite(job, w) == Planned(job, AwaitingReview, TransitionReason.Review(RetryBudgetExhausted),
                                                 TransitionUpdate([], None, NO_PATCH), w.now))
            && forall u :: QuietNext(t, u, owner, job, w) == Halt(if exhausted then IDLE else StopForRetry(job, w))
  {
    AfterOne(t, Works(job, w));
  }

  class RepairWorker {
    const store: RepairStore
    const owner: string
    const lease: Time

    /** Every call made on the store during the current drive, ours and everybody else's. */
    ghost var log: seq<Call>
    /** The ones among them that this worker made. */
    ghost var own: seq<Call>
    /** The tables when the current drive began. */
    ghost var origin: Tables

    constructor (store: RepairStore, owner: string, lease: Time)
      ensures this.store == store && this.owner == owner && this.lease == lease
    {
      this.store, this.owner, this.lease := store, owner, lease;
    }

    /** The log accounts for everything the store holds. */
    ghost predicate Accounted()
      reads this, store
    {
      && Consistent(origin)
      && AllReadable(log)
      && store.Contents() == After(origin, log)
    }

    lemma AccountedIsConsistent()
      requires Accounted()
      ensures Consistent(store.Contents())
    {
      AfterKeepsConsistent(origin, log);
    }

    method Others(calls: seq<Call>)
      requires Accounted() && AllReadable(calls)
      modifies this`log, store
      ensures Accounted() && log == old(log) + calls
      ensures calls == [] ==> store.Contents() == old(store.Contents())
    {
      store.Meanwhile(Writes(calls));
      AfterConcat(origin, log, calls);
      log := log + calls;
    }

    /** Try the swap of `job`'s current step. */
    method Swap(job: Job, w: World, tr: Transition, u: TransitionUpdate, fails: bool)
      returns (r: Result<Applied, StoreError>)
      requires Accounted() && SchemaAdmits(job)
      requires WriteOf(Works(job, w)) == Some(Write.Swap(job.id, tr, u, w.now))
      modifies this`log, this`own, store
      ensures Accounted()
      ensures fails ==>
                r == Err(Database) && store.Contents() == old(store.Contents()) && log == old(log) && own == old(own)
      ensures !fails ==> log == old(log) + [Works(job, w)] && own == old(own) + [Works(job, w)]
      ensures !fails ==>
        (store.Contents(), r) == Table.Apply(old(store.Contents()), job.id, tr, u, w.now)
    {
      if fails { return Err(Database); }
      AfterSnoc(origin, log, Works(job, w));
      r := store.Apply(job.id, tr, u, w.now);
      log, own := log + [Works(job, w)], own + [Works(job, w)];
    }

    method Keep(w: Write)
      requires Accounted() && (w.Renewing? || w.Releasing?)
      modifies this`log, this`own, store
      ensures Accounted() && log == old(log) + [Keeps(w)] && own == old(own) + [Keeps(w)]
      ensures store.Contents() == Do(old(store.Contents()), w)
    {
      AfterSnoc(origin, log, Keeps(w));
      store.Meanwhile([w]);
      assert [w][1..] == [];
      log, own := log + [Keeps(w)], own + [Keeps(w)];
    }

    /** Renew the lease; an error is not a loss, because the swap still protects correctness. */
    method RenewLease(id: JobId, now: Time, fails: bool) returns (held: bool)
      requires Accounted()
      modifies this`log, this`own, store
      ensures Accounted()
      ensures fails ==>
                held && store.Contents() == old(store.Contents()) && log == old(log) && own == old(own)
      ensures !fails ==>
                log == old(log) + [Keeps(Renewing(id, owner, now + lease))]
                && own == old(own) + [Keeps(Renewing(id, owner, now + lease))]
      ensures !fails ==>
        (store.Contents(), held) == Table.RenewLease(old(store.Contents()), id, owner, now + lease)
      ensures !held ==> LastKept(log) && log[|log| - 1].bookkeeping.Renewing?
    {
      hide Consistent, AllReadable, After;
      if fails { return true; }
      held := id in store.rows && store.rows[id].leaseOwner == Some(owner);
      Keep(Renewing(id, owner, now + lease));
    }

    method Reload(id: JobId, fails: bool) returns (job: Option<Job>)
      requires Accounted()
      ensures job.Some? ==> id in store.rows && job.value == Job(id, store.rows[id]) && SchemaAdmits(job.value)
      ensures job.Some? <==> id in store.rows && !fails
    {
      if fails || id !in store.rows { return None; }
      AccountedIsConsistent();
      assert TrailFor(store.Contents(), id);
      job := Some(Job(id, store.rows[id]));
    }

    /** The job as the store has it, ready for a step. */
    predicate Fresh(job: Job)
      reads store
    {
      job.id in store.rows && store.rows[job.id] == job.row && job.row.state.IsActionable()
    }

    lemma FreshIsOnTheWay(job: Job)
      requires Fresh(job)
      ensures RankOf(job.row) <= 7
    {
    }

    method Begin()
      requires Consistent(store.Contents())
      modifies this
      ensures Accounted() && log == own == [] && origin == store.Contents()
      ensures store.Contents() == old(store.Contents())
    {
      origin, log, own := store.Contents(), [], [];
    }

    /** What one iteration adds to the worker's own calls: the step's write unless the store fails. */
    ghost predicate Recorded(before: seq<Call>, job: Job, m: Moment)
      reads this`own
    {
      var step := if m.applyFails then [] else StepCalls(job, m.world);
      || own == before + step
      || own == before + step + [Renewal(owner, lease, job.id, m.world)]
    }

    /** Nobody else about: exactly these calls, and this is what comes of the job. */
    ghost predicate Undisturbed(t: Tables, before: seq<Call>, job: Job, m: Moment, next: Next)
      reads this`log, store
    {
      && log == before + QuietCalls(t, owner, lease, job, m.world)
      && store.Contents() == After(t, QuietCalls(t, owner, lease, job, m.world))
      && next == QuietNext(t, store.Contents(), owner, job, m.world)
    }

    /** A step succeeded: record it, renew the lease, read the job again. */
    method OnAdvance(job: Job, m: Moment, patch: JobPatch, before: TickSummary)
      returns (next: Next, summary: TickSummary)
      requires Accounted() && SchemaAdmits(job) && ReadableMoment(m)
      requires Step(job, m.world).outcome == Advance(patch)
      modifies this`log, this`own, store
      ensures Accounted() && Recorded(old(own), job, m)
      ensures next.GoOn? ==> SchemaAdmits(next.job) && next.job.id == job.id
      ensures next.Lost? ==> LastKept(log) && log[|log| - 1].bookkeeping.Renewing?
      ensures summary == before || summary == before.(advanced := before.advanced + 1)
      ensures next.GoOn? ==> Fresh(next.job)
      ensures IsQuiet(m) && old(Fresh(job)) ==>
        && Undisturbed(old(store.Contents()), old(log), job, m, next)
        && (next.GoOn? ==> RankOf(next.job.row) == RankOf(job.row) + 1)
        && summary == if Advances(old(store.Contents()), job, m.world)
                      then before.(advanced := before.advanced + 1) else before
    {
      hide Accounted, Table.Apply, Step, WorkerWrite, Renewal, Undisturbed, Recorded, Readable, AllReadable,
        Table.RenewLease, RankOf, Advances, StepCalls, WriteOf, StopForRetry, Resumed;
      summary := before;
      var plan := PlanTransition(job, job.row.state.Next().GetOr(job.row.state), Progress);
      AdvanceIsPlanned(job, m.world);
      ghost var t, had, ours := store.Contents(), log, own;
      QuietAdvance(t, owner, lease, job, m.world, patch);
      Others(m.beforeApply);
      var r := Swap(job, m.world, plan.value, PLAIN_UPDATE.(patch := patch), m.applyFails);
      if r.Ok? {
        if r.value == Applied.Applied { summary := summary.(advanced := summary.advanced + 1); }
        next := KeepOn(job, m);
      } else {
        next := Halt(if r.error.Conflict? then IDLE else StopForRetry(job, m.world));
      }
      StillRecorded(ours, job, m);
      AdvanceUndisturbed(t, had, job, m, patch, r, next);
    }

    lemma StillRecorded(ours: seq<Call>, job: Job, m: Moment)
      requires StepCalls(job, m.world) == [Works(job, m.world)]
      requires var step := if m.applyFails then ours else ours + [Works(job, m.world)];
               own == step || own == step + [Renewal(owner, lease, job.id, m.world)]
      ensures Recorded(ours, job, m)
    {
      assert ours + [] == ours;
    }

    lemma RenewalKeepsRank(u: Tables, id: JobId, owner: string, expires: Time)
      ensures var v := Table.RenewLease(u, id, owner, expires).0;
              (id in v.rows <==> id in u.rows) && (id in u.rows ==> RankOf(v.rows[id]) == RankOf(u.rows[id]))
    {
    }

    /** What an undisturbed advance has come to, from what its two halves did. */
    lemma {:induction false} AdvanceUndisturbed(
      t: Tables, had: seq<Call>, job: Job, m: Moment, patch: JobPatch, r: Result<Applied, StoreError>, next: Next)
      requires Step(job, m.world).outcome == Advance(patch)
      requires PlanTransition(job, job.row.state.Next().GetOr(job.row.state), Progress).Ok?
      ensures
        var tr := PlanTransition(job, job.row.state.Next().GetOr(job.row.state), Progress).value;
        var (u, result) := Table.Apply(t, job.id, tr, PLAIN_UPDATE.(patch := patch), m.world.now);
        var (v, held) := Table.RenewLease(u, job.id, owner, m.world.now + lease);
        && r == result && job.id in t.rows && t.rows[job.id] == job.row && job.row.state.IsActionable()
        && (r.Err? ==>
              log == had + [Works(job, m.world)] && store.Contents() == u
              && next == Halt(if r.error.Conflict? then IDLE else StopForRetry(job, m.world)))
        && (r.Ok? ==>
              log == had + [Works(job, m.world)] + [Renewal(owner, lease, job.id, m.world)]
              && store.Contents() == v && next == if held then Resumed(v, job.id) else Lost)
        ==>
          && Undisturbed(t, had, job, m, next)
          && (next.GoOn? ==> RankOf(next.job.row) == RankOf(job.row) + 1)
          && (Advances(t, job, m.world) <==> r.Ok?) && (r.Ok? ==> r == Ok(Applied.Applied))
    {
      hide Step, WorkerWrite, StepCalls, Advances, After, Renewal, QuietCalls, QuietNext, Table.Apply, WriteOf,
        StopForRetry, Table.RenewLease, PlanTransition;
      QuietAdvance(t, owner, lease, job, m.world, patch);
      if job.id in t.rows && t.rows[job.id] == job.row && job.row.state.IsActionable() {
        UndisturbedAdvance(t, job, PLAIN_UPDATE.(patch := patch), m.world.now);
        RenewalKeepsRank(Table.Apply(t, job.id,
          PlanTransition(job, job.row.state.Next().GetOr(job.row.state), Progress).value,
          PLAIN_UPDATE.(patch := patch), m.world.now).0, job.id, owner, m.world.now + lease);
      }
      if Advances(t, job, m.world) { QuietAdvanceTaken(t, owner, lease, job, m.world, patch); }
      else { QuietAdvanceRefused(t, owner, lease, job, m.world, patch); }
    }

    /** After an advance: renew the lease, then read the job again. */
    method KeepOn(job: Job, m: Moment) returns (next: Next)
      requires Accounted() && ReadableMoment(m)
      modifies this`log, this`own, store
      ensures Accounted()
      ensures next.GoOn? ==>
                SchemaAdmits(next.job) && next.job.id == job.id && Fresh(next.job)
      ensures next.Lost? ==> LastKept(log) && log[|log| - 1].bookkeeping.Renewing?
      ensures own == old(own) || own == old(own) + [Renewal(owner, lease, job.id, m.world)]
      ensures IsQuiet(m) ==>
                && log == old(log) + [Renewal(owner, lease, job.id, m.world)]
                && var (u, held) := Table.RenewLease(old(store.Contents()), job.id, owner, m.world.now + lease);
                   store.Contents() == u && next == if held then Resumed(u, job.id) else Lost
    {
      hide Accounted, Table.RenewLease, Step;
      Others(m.beforeRenewal);
      var held := RenewLease(job.id, m.world.now, m.renewalFails);
      if !held { return Lost; }
      Others(m.beforeReload);
      var reloaded := Reload(job.id, m.reloadFails);
      next := if reloaded.Some? && reloaded.value.row.state.IsActionable()
              then GoOn(reloaded.value) else Halt(IDLE);
    }

    /** Reality is behind: move the job back and carry on from there. */
    method OnRewind(job: Job, m: Moment, to: RepairState) returns (next: Next)
      requires Accounted() && SchemaAdmits(job) && ReadableMoment(m)
      requires Step(job, m.world).outcome == Rewind(to)
      modifies this`log, this`own, store
      ensures Accounted() && Recorded(old(own), job, m)
      ensures next.GoOn? ==> SchemaAdmits(next.job) && next.job.id == job.id
      ensures !next.Lost?
      ensures IsQuiet(m) && old(Fresh(job)) ==>
        && Undisturbed(old(store.Contents()), old(log), job, m, next)
        && (next.GoOn? ==> Fresh(next.job) && RankOf(next.job.row) == 3)
    {
      ghost var t, had, ours := store.Contents(), log, own;
      QuietRewind(t, owner, lease, job, m.world, to);
      hide Step, Accounted, Readable, AllReadable, WriteOf, WorkerWrite, StepCalls, Undisturbed, Recorded, Table.Apply,
        RankOf;
      var plan := PlanTransition(job, to, Reconciliation);
      Others(m.beforeApply);
      var r := Swap(job, m.world, plan.value, PLAIN_UPDATE, m.applyFails);
      if r.Err? {
        next := Halt(IDLE);
      } else {
        Others(m.beforeReload);
        var reloaded := Reload(job.id, m.reloadFails);
        next := if reloaded.Some? then GoOn(reloaded.value) else Halt(IDLE);
      }
      StillRecorded(ours, job, m);
      RewindUndisturbed(t, had, job, m, to, r, next);
    }

    lemma {:induction false} RewindUndisturbed(
      t: Tables, had: seq<Call>, job: Job, m: Moment, to: RepairState, r: Result<Applied, StoreError>, next: Next)
      requires Step(job, m.world).outcome == Rewind(to) && PlanTransition(job, to, Reconciliation).Ok?
      ensures
        var tr := PlanTransition(job, to, Reconciliation).value;
        var (u, result) := Table.Apply(t, job.id, tr, PLAIN_UPDATE, m.world.now);
        && r == result && job.id in t.rows && t.rows[job.id] == job.row && job.row.state.IsActionable()
        && log == had + [Works(job, m.world)] && store.Contents() == u
        && next == (if r.Ok? && job.id in u.rows then GoOn(Job(job.id, u.rows[job.id])) else Halt(IDLE))
        ==>
          && Undisturbed(t, had, job, m, next)
          && (next.GoOn? ==> Fresh(next.job) && RankOf(next.job.row) == 3)
    {
      QuietRewind(t, owner, lease, job, m.world, to);
      RewindsToStaged(job, m.world);
      hide Step, WorkerWrite, StepCalls, After, Renewal, QuietCalls, QuietNext, WriteOf;
    }

    /** Park the job for a human; a failure to do so is only logged. */
    method Park(job: Job, m: Moment, reason: ReviewReason, offers: seq<Offer>, patch: JobPatch)
      requires Accounted() && SchemaAdmits(job) && ReadableMoment(m)
      requires WorkerWrite(job, m.world) == Planned(job, AwaitingReview, TransitionReason.Review(reason),
                                                    TransitionUpdate(offers, None, patch), m.world.now)
      modifies this`log, this`own, store
      ensures Accounted() && own == old(own) + if m.applyFails then [] else StepCalls(job, m.world)
      ensures IsQuiet(m) ==>
        log == old(log) + StepCalls(job, m.world)
        && store.Contents() == After(old(store.Contents()), StepCalls(job, m.world))
    {
      AfterOne(store.Contents(), Works(job, m.world));
      var plan := PlanTransition(job, AwaitingReview, TransitionReason.Review(reason));
      if plan.Ok? {
        Others(m.beforeApply);
        var _ := Swap(job, m.world, plan.value, TransitionUpdate(offers, None, patch), m.applyFails);
      }
    }

    method Tell(job: Job, w: World, patch: JobPatch)
      requires Accounted() && SchemaAdmits(job)
      requires WriteOf(Works(job, w)) == Some(Telemetry(job.id, patch, w.now))
      modifies this`log, this`own, store
      ensures Accounted() && log == old(log) + [Works(job, w)] && own == old(own) + [Works(job, w)]
      ensures store.Contents() == Table.RecordProgress(old(store.Contents()), job.id, patch, w.now)
    {
      AfterSnoc(origin, log, Works(job, w));
      hide WriteOf, After, Consistent;
      store.RecordProgress(job.id, patch, w.now);
      log, own := log + [Works(job, w)], own + [Works(job, w)];
    }

    /** Telemetry is written for what it is worth; the job waits either way. */
    method OnWait(job: Job, m: Moment, after: int, patch: JobPatch) returns (next: Next)
      requires Accounted() && SchemaAdmits(job) && ReadableMoment(m)
      requires Step(job, m.world).outcome == Wait(after, patch)
      modifies this`log, this`own, store
      ensures Accounted() && next == Halt(Stop(Some(m.world.now + after), false)) && Recorded(old(own), job, m)
      ensures IsQuiet(m) ==> Undisturbed(old(store.Contents()), old(log), job, m, next)
    {
      ghost var t, had, ours := store.Contents(), log, own;
      QuietWait(t, owner, lease, job, m.world, after, patch);
      hide Step, Accounted, Readable, AllReadable, WriteOf, WorkerWrite, StepCalls, Undisturbed, Recorded,
        Table.RecordProgress;
      if patch != NO_PATCH && !m.applyFails {
        Others(m.beforeApply);
        Tell(job, m.world, patch);
      }
      next := Halt(Stop(Some(m.world.now + after), false));
      WaitUndisturbed(t, had, ours, job, m, after, patch, next);
    }

    lemma {:induction false} WaitUndisturbed(
      t: Tables, had: seq<Call>, ours: seq<Call>, job: Job, m: Moment, after: int, patch: JobPatch, next: Next)
      requires Step(job, m.world).outcome == Wait(after, patch) && next == Halt(Stop(Some(m.world.now + after), false))
      requires own == if patch != NO_PATCH && !m.applyFails then ours + [Works(job, m.world)] else ours
      ensures Recorded(ours, job, m)
      ensures log == (if patch != NO_PATCH then had + [Works(job, m.world)] else had)
              && store.Contents()
                 == (if patch != NO_PATCH then Table.RecordProgress(t, job.id, patch, m.world.now) else t)
              ==> Undisturbed(t, had, job, m, next)
    {
      QuietWait(t, owner, lease, job, m.world, after, patch);
      hide Step, WorkerWrite, StepCalls, After, Renewal, QuietCalls, QuietNext, Table.RecordProgress;
      assert ours + [] == ours && had + [] == had;
    }

    method OnRetry(job: Job, m: Moment) returns (next: Next)
      requires Accounted() && SchemaAdmits(job) && ReadableMoment(m)
      requires Step(job, m.world).outcome == Retry
      modifies this`log, this`own, store
      ensures Accounted() && next.Halt? && Recorded(old(own), job, m)
      ensures next.stop == if job.row.attempts + 1 >= m.world.policy.maxAttempts then IDLE
                           else StopForRetry(job, m.world)
      ensures IsQuiet(m) ==> Undisturbed(old(store.Contents()), old(log), job, m, next)
    {
      QuietRetry(store.Contents(), owner, lease, job, m.world);
      hide Step, Consistent, AllReadable, After, WorkerWrite, StepCalls, Advances, Renewal, QuietCalls, QuietNext;
      if job.row.attempts + 1 >= m.world.policy.maxAttempts {
        Park(job, m, RetryBudgetExhausted, [], NO_PATCH);
        return Halt(IDLE);
      }
      next := Halt(StopForRetry(job, m.world));
    }

    /** One iteration: a step and what its outcome makes of the job. */
    method DriveOnce(job: Job, m: Moment, before: TickSummary) returns (next: Next, summary: TickSummary)
      requires Accounted() && SchemaAdmits(job) && ReadableMoment(m)
      modifies this`log, this`own, store
      ensures Accounted() && Recorded(old(own), job, m)
      ensures next.GoOn? ==> SchemaAdmits(next.job) && next.job.id == job.id
      ensures next.Lost? ==> LastKept(log) && log[|log| - 1].bookkeeping.Renewing?
      ensures before.rewound <= summary.rewound <= before.rewound + 1
      ensures summary.rewound > before.rewound <==> Step(job, m.world).outcome.Rewind?
      ensures summary.parked == before.parked + (if Step(job, m.world).outcome.Park? then 1 else 0)
      ensures summary.waiting == before.waiting + (if Step(job, m.world).outcome.Wait? then 1 else 0)
      ensures summary.retrying == before.retrying + (if Step(job, m.world).outcome == Retry then 1 else 0)
      ensures IsQuiet(m) && old(Fresh(job)) ==> Undisturbed(old(store.Contents()), old(log), job, m, next)
      ensures IsQuiet(m) && old(Fresh(job)) && next.GoOn? ==> Fresh(next.job)
      ensures IsQuiet(m) && old(Fresh(job)) && next.GoOn? ==>
        if summary.rewound == before.rewound then RankOf(next.job.row) == RankOf(job.row) + 1
        else RankOf(next.job.row) == 3
    {
      summary := before;
      hide Recorded, Undisturbed;
      match Step(job, m.world).outcome {
        case Advance(patch) => next, summary := OnAdvance(job, m, patch, before);
        case Rewind(to) =>
          summary := summary.(rewound := summary.rewound + 1);
          next := OnRewind(job, m, to);
        case Park(reason, offers, patch) =>
          summary := summary.(parked := summary.parked + 1);
          ghost var t, had, ours := store.Contents(), log, own;
          Park(job, m, reason, offers, patch);
          next := Halt(IDLE);
          ParkedUndisturbed(t, had, ours, job, m);
        case Wait(after, patch) =>
          summary := summary.(waiting := summary.waiting + 1);
          next := OnWait(job, m, after, patch);
        case Retry =>
          summary := summary.(retrying := summary.retrying + 1);
          next := OnRetry(job, m);
      }
    }

    lemma ParkedUndisturbed(t: Tables, had: seq<Call>, ours: seq<Call>, job: Job, m: Moment)
      requires Step(job, m.world).outcome.Park?
      requires own == ours + if m.applyFails then [] else StepCalls(job, m.world)
      ensures Recorded(ours, job, m)
      ensures log == had + StepCalls(job, m.world) && store.Contents() == After(t, StepCalls(job, m.world)) ==>
                Undisturbed(t, had, job, m, Halt(IDLE))
    {
      assert StepCalls(job, m.world) + [] == StepCalls(job, m.world);
    }

    /** The worker's own calls are steps and renewals of this one job, and at the end its release. */
    ghost predicate OnlyDrives(id: JobId, released: bool)
      reads this`own
    {
      && (released ==> own != [] && IsRelease(own[|own| - 1], id))
      && forall k :: 0 <= k < |own| - (if released then 1 else 0) ==> DrivesJob(own[k], id, owner)
    }

    lemma UndisturbedStays(
      whole: seq<Call>, at: nat -> Moment, had: seq<Call>, t: Tables, job: Job, i: nat, next: Next)
      requires i < BOUND && !at(i).shuttingDown && Undisturbed(t, had, job, at(i), next)
      requires OnCourse(whole, owner, lease, at, had, t, job, i, IDLE, BoundReached)
      ensures next.GoOn? ==>
                OnCourse(whole, owner, lease, at, log, store.Contents(), next.job, i + 1, IDLE, BoundReached)
      ensures next.Halt? ==> OnCourse(whole, owner, lease, at, log, store.Contents(), job, i + 1, next.stop, Released)
      ensures next.Lost? ==> OnCourse(whole, owner, lease, at, log, store.Contents(), job, i + 1, IDLE, LeaseLost)
    {
      StaysOnCourse(whole, owner, lease, at, had, t, job, i, log, store.Contents(), next);
    }

    /** A drive that was undisturbed made exactly the calls it was to make. */
    lemma CourseRun(
      whole: seq<Call>, at: nat -> Moment, before: seq<Call>, u: Tables, job: Job, i: nat, stop: Stop, ending: Ending)
      requires OnCourse(
                 whole, owner, lease, at, before, u, job, i, stop, if ending == LeaseLost then LeaseLost else Released)
      requires log == if ending == LeaseLost then before else before + [LetGo(job.id, stop, at(i).world.now)]
      ensures log == whole
    {
    }

    lemma NoneYet(id: JobId)
      requires own == []
      ensures OnlyDrives(id, false)
    {
    }

    lemma OnlyDrivesSoFar(id: JobId)
      requires OnlyDrives(id, false)
      ensures forall k :: 0 <= k < |own| ==> DrivesJob(own[k], id, owner)
    {
    }

    lemma ReleasedAtLast(ours: seq<Call>, id: JobId, stop: Stop, now: Time, ending: Ending)
      requires forall k :: 0 <= k < |ours| ==> DrivesJob(ours[k], id, owner)
      requires own == if ending == LeaseLost then ours else ours + [LetGo(id, stop, now)]
      ensures OnlyDrives(id, ending != LeaseLost) && ours <= own
    {
    }

    lemma StillOnlyDrives(ours: seq<Call>, job: Job, m: Moment)
      requires forall k :: 0 <= k < |ours| ==> DrivesJob(ours[k], job.id, owner)
      requires Recorded(ours, job, m)
      ensures OnlyDrives(job.id, false) && ours <= own
      ensures ours == [] && !m.applyFails ==> StepCalls(job, m.world) <= own
    {
      hide WorkerWrite;
    }

    /**
     * Step one job for as long as it keeps moving, at most `BOUND` times, then release it unless
     * the lease turned out to belong to somebody else. Whatever happens in between, the store ends
     * up where the logged calls put it, and the worker's own calls are of this one job, the first
     * its first step. Undisturbed, the calls are exactly those of `QuietRun`, and the bound is only
     * reached by a job that was rewound at least three times.
     */
    method Drive(start: Job, at: nat -> Moment, before: TickSummary)
      returns (summary: TickSummary, ending: Ending)
      requires Consistent(store.Contents()) && SchemaAdmits(start)
      requires forall i :: ReadableMoment(at(i))
      modifies this, store
      ensures origin == old(store.Contents()) && Accounted()
      ensures Consistent(store.Contents())
      ensures ending == LeaseLost <==>
        !(LastKept(log) && log[|log| - 1].bookkeeping.Releasing?)
      ensures OnlyDrives(start.id, ending != LeaseLost)
      ensures !at(0).shuttingDown && !at(0).applyFails ==> StepCalls(start, at(0).world) <= own
      ensures (forall i :: IsQuiet(at(i))) && old(Fresh(start)) ==>
        log == QuietRun(old(store.Contents()), owner, lease, start, at, 0)
      ensures ending == BoundReached && (forall i :: IsQuiet(at(i))) && old(Fresh(start)) ==>
        summary.rewound >= before.rewound + 3
    {
      hide Accounted, Consistent, ReadableMoment, SchemaAdmits, IsQuiet, RankOf, Fresh, OnCourse, QuietRun, StepCalls,
        OnlyDrives, Step;
      Begin();
      ghost var t := store.Contents();
      ghost var whole := QuietRun(t, owner, lease, start, at, 0);
      ghost var quiet := (forall k :: IsQuiet(at(k))) && Fresh(start);
      BeginsOnCourse(t, owner, lease, start, at);
      NoneYet(start.id);
      var stop, i;
      ghost var job;
      summary, ending, stop, i, job := DriveLoop(start, at, before, whole, quiet);
      if quiet && ending == BoundReached { LeavesOnCourse(whole, owner, lease, at, log, store.Contents(), job, i); }
      OnlyDrivesSoFar(start.id);
      ghost var ours, made, u := own, log, store.Contents();
      if ending != LeaseLost {
        Keep(Releasing(start.id, stop.retryAt, stop.countAttempt, at(i).world.now));
      }
      ReleasedAtLast(ours, start.id, stop, at(i).world.now, ending);
      LastCall(made, start.id, stop, at(i).world.now, ending);
      if quiet { CourseRun(whole, at, made, u, job, i, stop, ending); }
      AccountedIsConsistent();
    }

    lemma LastCall(made: seq<Call>, id: JobId, stop: Stop, now: Time, ending: Ending)
      requires log == if ending == LeaseLost then made else made + [LetGo(id, stop, now)]
      requires ending == LeaseLost ==> LastKept(log) && log[|log| - 1].bookkeeping.Renewing?
      ensures ending == LeaseLost <==> !(LastKept(log) && log[|log| - 1].bookkeeping.Releasing?)
    {
    }

    /** The iterations of a drive, and how to leave the job after them. */
    method DriveLoop(start: Job, at: nat -> Moment, before: TickSummary, ghost whole: seq<Call>, ghost quiet: bool)
      returns (summary: TickSummary, ending: Ending, stop: Stop, i: nat, ghost job: Job)
      requires Accounted() && SchemaAdmits(start) && own == [] && OnlyDrives(start.id, false)
      requires forall k :: ReadableMoment(at(k))
      requires quiet ==>
                 && (forall k :: IsQuiet(at(k))) && Fresh(start)
                 && OnCourse(whole, owner, lease, at, log, store.Contents(), start, 0, IDLE, BoundReached)
      modifies this`log, this`own, store
      ensures Accounted() && OnlyDrives(start.id, false) && job.id == start.id
      ensures ending == LeaseLost ==> LastKept(log) && log[|log| - 1].bookkeeping.Renewing?
      ensures ending == BoundReached ==> i == BOUND && stop == IDLE
      ensures quiet ==> OnCourse(whole, owner, lease, at, log, store.Contents(), job, i, stop, ending)
      ensures !at(0).shuttingDown && !at(0).applyFails ==> StepCalls(start, at(0).world) <= own
      ensures quiet && ending == BoundReached ==> summary.rewound >= before.rewound + 3
    {
      hide Accounted, Consistent, ReadableMoment, SchemaAdmits, IsQuiet, RankOf, Fresh, Undisturbed, Recorded, OnCourse,
        QuietRun, StepCalls, OnlyDrives, Step;
      if quiet { FreshIsOnTheWay(start); }
      summary := before;
      var here := start;
      job, i, stop, ending := start, 0, IDLE, BoundReached;
      while i < BOUND && ending == BoundReached
        invariant 0 <= i <= BOUND && here == job
        invariant Accounted() && SchemaAdmits(here)
        invariant job.id == start.id && summary.rewound >= before.rewound
        invariant ending == LeaseLost ==> LastKept(log) && log[|log| - 1].bookkeeping.Renewing?
        invariant OnlyDrives(start.id, false)
        invariant i == 0 ==> here == start && own == [] && (ending == BoundReached || at(0).shuttingDown)
        invariant i > 0 && !at(0).applyFails ==> StepCalls(start, at(0).world) <= own
        invariant quiet ==> OnCourse(whole, owner, lease, at, log, store.Contents(), job, i, stop, ending)
        invariant ending == BoundReached ==> stop == IDLE
        invariant quiet && ending == BoundReached ==>
          Fresh(job) && RankOf(job.row) <= 7
          && i + RankOf(start.row) <= RankOf(job.row) + 5 * (summary.rewound - before.rewound)
        decreases BOUND - i, ending == BoundReached
      {
        var m := at(i);
        if m.shuttingDown {
          if quiet { LeavesOnCourse(whole, owner, lease, at, log, store.Contents(), job, i); }
          ending := Released;
        } else {
          var next: Next;
          ghost var had, ours, was := log, own, store.Contents();
          OnlyDrivesSoFar(start.id);
          next, summary := DriveOnce(here, m, summary);
          StillOnlyDrives(ours, job, m);
          if quiet { UndisturbedStays(whole, at, had, was, job, i, next); }
          match next {
            case GoOn(moved) =>
              here, job := moved, moved;
              if quiet { FreshIsOnTheWay(job); }
            case Halt(how) => stop, ending := how, Released;
            case Lost => ending := LeaseLost;
          }
          i := i + 1;
        }
      }
    }
  }
}
