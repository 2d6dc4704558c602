/**
 * What every run of store statements keeps, whoever issued them and however stale the job they
 * were planned from (src/repair/adapters/sqlite.rs, src/repair/domain.rs).
 */
module Protocol {
  import opened Prelude
  import opened Lifecycle
  import opened JobModel
  import opened Table

  // ---- The audit trail alone determines where a job is -------------------------------------

  datatype Position = Position(state: RepairState, reviewFrom: Option<RepairState>)

  /**
   * Read one audit row. A `reconciliation` row over a parked job corrects its resume point; over
   * any other job it is a rewind.
   */
  function ReplayStep(p: Position, r: Record): Position {
    if r.reason == ReconciliationAudit && p.state == AwaitingReview then p.(reviewFrom := Some(r.to))
    else Position(r.to, if r.to == AwaitingReview then Some(r.from) else None)
  }

  function Replay(trail: seq<Record>): Position {
    if |trail| <= 1 then Position(Discovered, None)
    else ReplayStep(Replay(trail[..|trail| - 1]), trail[|trail| - 1])
  }

  function PositionOf(row: Row): Position { Position(row.state, row.reviewFrom) }

  /** `r` continues a trail that stands at `p`, as a correction or as a real transition. */
  ghost predicate Continues(p: Position, r: Record) {
    if r.reason == ReconciliationAudit && p.state == AwaitingReview then
      p.reviewFrom == Some(r.from) && r.to != r.from && r.to.IsActionable()
    else
      && r.from == p.state
      && exists tr: Transition :: IsValidated(tr) && tr.from == r.from && tr.to == r.to
                               && AsAudit(tr.reason) == r.reason
  }

  /** Every audit row after the opening one continues the rows before it. */
  ghost predicate Connected(trail: seq<Record>) {
    && |trail| >= 1
    && trail[0].reason == DiscoveredAudit
    && forall i :: 1 <= i < |trail| ==> Continues(Replay(trail[..i]), trail[i])
  }

  ghost predicate ParkedExactly(row: Row) {
    && (row.state == AwaitingReview <==> row.reviewFrom.Some?)
    && (row.reviewFrom.Some? ==> row.reviewFrom.value.IsActionable())
  }

  ghost predicate TrailFor(t: Tables, id: JobId)
    requires id in t.rows
  {
    && id in t.trail
    && Connected(t.trail[id])
    && Replay(t.trail[id]) == PositionOf(t.rows[id])
    && ParkedExactly(t.rows[id])
  }

  /** The unique index on (tracker, torrent) is exactly the rows' own keys. */
  ghost predicate IndexOk(t: Tables) {
    && (forall id :: id in t.rows ==> 0 <= id < t.nextId)
    && 0 <= t.nextId
    && (forall id :: id in t.rows ==>
          (t.rows[id].tracker, t.rows[id].torrentId) in t.index
          && t.index[(t.rows[id].tracker, t.rows[id].torrentId)] == id)
    && (forall k :: k in t.index ==>
          t.index[k] in t.rows && (t.rows[t.index[k]].tracker, t.rows[t.index[k]].torrentId) == k)
  }

  ghost predicate Consistent(t: Tables) {
    && IndexOk(t)
    && t.trail.Keys == t.rows.Keys
    && forall id :: id in t.rows ==> TrailFor(t, id)
  }

  /** The only demand on callers: a swap carries a transition the table once accepted. */
  ghost predicate Legal(w: Write) {
    w.Swap? ==> IsValidated(w.transition)
  }

  lemma {:induction false} ReplayAppend(trail: seq<Record>, r: Record)
    requires |trail| >= 1
    ensures Replay(trail + [r]) == ReplayStep(Replay(trail), r)
  {
    assert (trail + [r])[..|trail|] == trail;
  }

  lemma ConnectedAppend(trail: seq<Record>, r: Record)
    requires Connected(trail) && Continues(Replay(trail), r)
    ensures Connected(trail + [r])
  {
    var longer := trail + [r];
    forall i | 1 <= i < |longer| ensures Continues(Replay(longer[..i]), longer[i]) {
      assert longer[..i] == trail[..i];
      if i == |trail| { assert trail[..i] == trail; }
    }
  }

  lemma DiscoveringKeeps(t: Tables, h: HitAndRun, now: Time)
    requires Consistent(t)
    ensures Consistent(RecordDiscovery(t, h, now).0)
  {
    var u := RecordDiscovery(t, h, now).0;
    forall id | id in u.rows ensures TrailFor(u, id) {
      if id in t.rows { assert TrailFor(t, id); }
    }
  }

  lemma SwapKeeps(t: Tables, id: JobId, tr: Transition, u: TransitionUpdate, now: Time)
    requires Consistent(t) && IsValidated(tr)
    ensures Consistent(Apply(t, id, tr, u, now).0)
  {
    var after := Apply(t, id, tr, u, now).0;
    if after != t {
      SwapTrail(t, id, tr, u, now);
      hide PatchAll, IsValidated, TrailFor, Admissible;
      OneJobWritten(t, after, id, after.rows[id], after.trail[id]);
    }
  }

  lemma SwapTrail(t: Tables, id: JobId, tr: Transition, u: TransitionUpdate, now: Time)
    requires Consistent(t) && IsValidated(tr) && Apply(t, id, tr, u, now).0 != t
    ensures TrailFor(Apply(t, id, tr, u, now).0, id)
  {
    assert TrailFor(t, id);
    var r := Record(tr.from, tr.to, AsAudit(tr.reason), u.offers, now);
    assert Continues(Replay(t.trail[id]), r);
    ReplayAppend(t.trail[id], r);
    ConnectedAppend(t.trail[id], r);
    hide Consistent, PatchAll, Connected, Continues, Replay;
  }

  /** A job written over keeps the tables in order if it does so for itself and stays the same warning. */
  lemma OneJobWritten(t: Tables, after: Tables, id: JobId, row: Row, trail: seq<Record>)
    requires Consistent(t) && id in t.rows
    requires after == t.(rows := t.rows[id := row], trail := t.trail[id := trail]) && TrailFor(after, id)
    requires row.tracker == t.rows[id].tracker && row.torrentId == t.rows[id].torrentId
    ensures Consistent(after)
  {
    forall other | other in after.rows ensures TrailFor(after, other) {
      if other != id { assert TrailFor(t, other); }
    }
    hide TrailFor;
  }

  lemma ResumePointKeeps(t: Tables, id: JobId, resume: RepairState, now: Time)
    requires Consistent(t)
    ensures Consistent(SetReviewResumePoint(t, id, resume, now).0)
  {
    var after := SetReviewResumePoint(t, id, resume, now).0;
    if after != t {
      assert TrailFor(t, id);
      var r := Record(t.rows[id].reviewFrom.value, resume, ReconciliationAudit, [], now);
      ReplayAppend(t.trail[id], r);
      ConnectedAppend(t.trail[id], r);
      forall other | other in after.rows ensures TrailFor(after, other) {
        if other != id { assert TrailFor(t, other); }
      }
    }
  }

  /** Leases, releases and telemetry leave every state, resume point and audit row alone. */
  lemma BookkeepingKeepsPositions(t: Tables, w: Write)
    requires !w.Discovering? && !w.Swap? && !w.ResumePoint?
    ensures Do(t, w).trail == t.trail && Do(t, w).index == t.index && Do(t, w).nextId == t.nextId
    ensures Do(t, w).rows.Keys == t.rows.Keys
    ensures forall id :: id in t.rows ==>
      && PositionOf(Do(t, w).rows[id]) == PositionOf(t.rows[id])
      && Do(t, w).rows[id].tracker == t.rows[id].tracker
      && Do(t, w).rows[id].torrentId == t.rows[id].torrentId
  {
  }

  lemma StepKeepsConsistent(t: Tables, w: Write)
    requires Consistent(t) && Legal(w)
    ensures Consistent(Do(t, w))
  {
    match w
    case Discovering(warning, at) => DiscoveringKeeps(t, warning, at);
    case Swap(id, tr, u, at) => SwapKeeps(t, id, tr, u, at);
    case ResumePoint(id, resume, at) => ResumePointKeeps(t, id, resume, at);
    case _ =>
      BookkeepingKeepsPositions(t, w);
      forall id | id in Do(t, w).rows ensures TrailFor(Do(t, w), id) {
        assert TrailFor(t, id);
      }
  }

  lemma {:induction false} RunKeepsConsistent(t: Tables, ws: seq<Write>)
    requires Consistent(t) && forall w :: w in ws ==> Legal(w)
    ensures Consistent(Run(t, ws))
    decreases |ws|
  {
    if ws != [] {
      StepKeepsConsistent(t, ws[0]);
      RunKeepsConsistent(Do(t, ws[0]), ws[1..]);
    }
  }

  /**
   * Under any interleaving of legal writes, replaying a job's audit rows alone yields its current
   * state and resume point, and each row continues the ones before it in exactly one way.
   */
  lemma AuditTrailReplays(ws: seq<Write>)
    requires forall w :: w in ws ==> Legal(w)
    ensures forall id :: id in Run(EMPTY, ws).rows ==>
      && id in Run(EMPTY, ws).trail
      && Connected(Run(EMPTY, ws).trail[id])
      && Replay(Run(EMPTY, ws).trail[id]) == PositionOf(Run(EMPTY, ws).rows[id])
  {
    RunKeepsConsistent(EMPTY, ws);
    forall id | id in Run(EMPTY, ws).rows ensures TrailFor(Run(EMPTY, ws), id) {
    }
  }

  /** A swap adds exactly one audit row when it is applied; a refused or replayed one adds nothing. */
  lemma OnlyAppliedSwapsWrite(t: Tables, id: JobId, tr: Transition, u: TransitionUpdate, now: Time)
    requires Consistent(t)
    ensures Apply(t, id, tr, u, now).1 != Ok(Applied.Applied) ==> Apply(t, id, tr, u, now).0 == t
    ensures Apply(t, id, tr, u, now).1 == Ok(Applied.Applied) ==>
      && Apply(t, id, tr, u, now).0.trail[id] ==
           t.trail[id] + [Record(tr.from, tr.to, AsAudit(tr.reason), u.offers, now)]
      && forall other :: other in t.rows && other != id ==>
           Apply(t, id, tr, u, now).0.trail[other] == t.trail[other]
    ensures Apply(t, id, tr, u, now).1 == Ok(AlreadyInTargetState) ==>
      id in t.rows && t.rows[id].state == tr.to
  {
    if id in t.rows { assert TrailFor(t, id); }
  }

  /** The audit row one write adds to job `id`, if it adds one. */
  ghost function NewRecord(t: Tables, w: Write, id: JobId): Option<Record> {
    if id !in t.rows then None
    else
      match w
      case Swap(target, tr, u, at) =>
        if target == id && t.rows[id].state == tr.from && Admissible(tr, u)
        then Some(Record(tr.from, tr.to, AsAudit(tr.reason), u.offers, at)) else None
      case ResumePoint(target, resume, at) =>
        if target == id && t.rows[id].state == AwaitingReview && t.rows[id].reviewFrom.Some?
           && t.rows[id].reviewFrom != Some(resume) && resume.IsActionable()
        then Some(Record(t.rows[id].reviewFrom.value, resume, ReconciliationAudit, [], at)) else None
      case _ => None
  }

  lemma SwapIsOneRecord(t: Tables, target: JobId, tr: Transition, u: TransitionUpdate, at: Time, id: JobId)
    requires Consistent(t) && IsValidated(tr) && id in t.rows
    ensures var after := Apply(t, target, tr, u, at).0; var r := NewRecord(t, Swap(target, tr, u, at), id);
      && id in after.rows && id in after.trail
      && after.trail[id] == (if r.Some? then t.trail[id] + [r.value] else t.trail[id])
      && PositionOf(after.rows[id]) ==
           if r.Some? then ReplayStep(PositionOf(t.rows[id]), r.value) else PositionOf(t.rows[id])
  {
    assert TrailFor(t, id);
    hide PatchAll, Replay, Connected;
  }

  /** A write changes a job's position exactly as its audit row says, and not at all without one. */
  lemma WriteIsOneRecord(t: Tables, w: Write, id: JobId)
    requires Consistent(t) && Legal(w) && id in t.rows
    ensures id in Do(t, w).rows && id in Do(t, w).trail && id in t.trail
    ensures var r := NewRecord(t, w, id);
      && Do(t, w).trail[id] == (if r.Some? then t.trail[id] + [r.value] else t.trail[id])
      && PositionOf(Do(t, w).rows[id]) ==
           if r.Some? then ReplayStep(PositionOf(t.rows[id]), r.value) else PositionOf(t.rows[id])
  {
    assert TrailFor(t, id);
    match w
    case Swap(target, tr, u, at) => SwapIsOneRecord(t, target, tr, u, at, id); hide *;
    case ResumePoint(target, resume, at) => hide Apply, Swapped, Replay, Connected, PatchAll;
    case Discovering(warning, at) => hide Apply, Swapped, Replay, Connected, PatchAll;
    case _ => BookkeepingKeepsPositions(t, w); hide Apply, Swapped, Replay, Connected, PatchAll;
  }

  lemma NewRecordContinues(t: Tables, w: Write, id: JobId)
    requires Consistent(t) && Legal(w) && id in t.rows && NewRecord(t, w, id).Some?
    ensures Continues(PositionOf(t.rows[id]), NewRecord(t, w, id).value)
  {
    assert TrailFor(t, id);
  }

  lemma RewindsGoBack(p: Position, r: Record)
    requires Continues(p, r) && r.reason == ReconciliationAudit && p.state != AwaitingReview
    ensures r.to != AwaitingReview && r.from.Rank().Some? && r.to.Rank().Some?
    ensures r.to.Rank().value < r.from.Rank().value
  {
    var tr: Transition :| IsValidated(tr) && tr.from == r.from && tr.to == r.to
                       && AsAudit(tr.reason) == r.reason;
    assert tr.reason == Reconciliation;
  }

  /**
   * A `reconciliation` row is a resume-point correction exactly when the rows before it leave the
   * job parked; then it names the old resume point. Otherwise it is a rewind, strictly backwards.
   */
  lemma CorrectionOrRewind(trail: seq<Record>, i: nat)
    requires Connected(trail) && 1 <= i < |trail| && trail[i].reason == ReconciliationAudit
    ensures Replay(trail[..i]).state == AwaitingReview ==>
      && Replay(trail[..i]).reviewFrom == Some(trail[i].from)
      && Replay(trail[..i + 1]) == Position(AwaitingReview, Some(trail[i].to))
    ensures Replay(trail[..i]).state != AwaitingReview ==>
      && Replay(trail[..i]).state == trail[i].from
      && Replay(trail[..i + 1]) == Position(trail[i].to, None)
      && trail[i].from.Rank().Some? && trail[i].to.Rank().Some?
      && trail[i].to.Rank().value < trail[i].from.Rank().value
  {
    var before, r := trail[..i], trail[i];
    assert Continues(Replay(before), r);
    hide Connected, Continues, Replay, ReplayStep;
    OneLonger(trail, i);
    ReplayAppend(before, r);
    CorrectsOrRewinds(Replay(before), r);
  }

  lemma OneLonger(trail: seq<Record>, i: nat)
    requires i < |trail|
    ensures trail[..i + 1] == trail[..i] + [trail[i]]
  {
  }

  lemma CorrectsOrRewinds(p: Position, r: Record)
    requires Continues(p, r) && r.reason == ReconciliationAudit
    ensures p.state == AwaitingReview ==>
      p.reviewFrom == Some(r.from) && ReplayStep(p, r) == Position(AwaitingReview, Some(r.to))
    ensures p.state != AwaitingReview ==>
      && p.state == r.from && ReplayStep(p, r) == Position(r.to, None)
      && r.from.Rank().Some? && r.to.Rank().Some? && r.to.Rank().value < r.from.Rank().value
  {
    if p.state != AwaitingReview { RewindsGoBack(p, r); }
  }

  // ---- No run skips a step ---------------------------------------------------------------

  /** The first audit row after the last restart. */
  function SinceRestart(trail: seq<Record>): nat {
    if trail == [] then 0
    else if trail[|trail| - 1].reason == RestartAudit then |trail|
    else SinceRestart(trail[..|trail| - 1])
  }

  /** The audit row of step `k` being done: by progress, or for matching by an operator's choice. */
  predicate Climbs(r: Record, k: nat) {
    || (r.reason == ProgressAudit && r.from.Rank() == Some(k) && r.to.Rank() == Some(k + 1))
    || (k == 1 && r.reason == ChooseAudit && r.from == AwaitingReview && r.to == Matched)
  }

  ghost predicate Climbed(trail: seq<Record>, k: nat) {
    exists i :: SinceRestart(trail) <= i < |trail| && Climbs(trail[i], k)
  }

  function RankAt(p: Position): nat { EffectiveRank(p.state, p.reviewFrom) }

  function RankOf(row: Row): nat { RankAt(PositionOf(row)) }

  /** Every step below where the job stands is on record since its last restart. */
  ghost predicate ClimbedTo(trail: seq<Record>, rank: nat) {
    forall k: nat :: k < rank ==> Climbed(trail, k)
  }

  ghost predicate NothingSkipped(t: Tables) {
    forall id :: id in t.rows && id in t.trail ==> ClimbedTo(t.trail[id], RankOf(t.rows[id]))
  }

  /** The job does not rise, or it rises by one step and the row is the record of that step. */
  predicate HonestRecord(p: Position, r: Record) {
    || RankAt(ReplayStep(p, r)) <= RankAt(p)
    || (RankAt(ReplayStep(p, r)) == RankAt(p) + 1 && Climbs(r, RankAt(p)))
  }

  /**
   * The guard the compare-and-swap itself does not check: a job parked since it was loaded still
   * resumes no earlier than the row assumes.
   */
  predicate PinnedRecord(p: Position, r: Record) {
    p.state == AwaitingReview ==>
      && (r.reason == RetryAudit || r.reason == ReconciliationAudit ==> r.to.Rank().GetOr(0) <= RankAt(p))
      && (r.reason == ChooseAudit ==> 1 <= RankAt(p))
  }

  /** For every audit row that can follow, honesty is exactly the guard. */
  lemma HonestIffPinned(p: Position, r: Record)
    requires Continues(p, r) && (p.state == AwaitingReview <==> p.reviewFrom.Some?)
    ensures HonestRecord(p, r) <==> PinnedRecord(p, r)
  {
    if !(r.reason == ReconciliationAudit && p.state == AwaitingReview) {
      var tr: Transition :| IsValidated(tr) && tr.from == r.from && tr.to == r.to
                         && AsAudit(tr.reason) == r.reason;
      var reviewFrom :| ValidateTransition(tr.from, tr.to, tr.reason, reviewFrom).Ok?;
      if tr.reason == Progress { RankIsPosition(tr.to, tr.from.Rank().value + 1); }
    }
  }

  ghost predicate Pinned(t: Tables, w: Write) {
    forall id :: id in t.rows && NewRecord(t, w, id).Some? ==>
      PinnedRecord(PositionOf(t.rows[id]), NewRecord(t, w, id).value)
  }

  ghost predicate Honest(t: Tables, w: Write) {
    forall id :: id in t.rows && NewRecord(t, w, id).Some? ==>
      HonestRecord(PositionOf(t.rows[id]), NewRecord(t, w, id).value)
  }

  /**
   * Exactly the pinned writes are honest: a worker's progress, park or rewind always is, and an
   * operator's retry or choice and a resume-point correction is as long as the job has not been
   * parked further back since it was loaded.
   */
  lemma WriteHonestIffPinned(t: Tables, w: Write)
    requires Consistent(t) && Legal(w)
    ensures Honest(t, w) <==> Pinned(t, w)
  {
    forall id | id in t.rows && NewRecord(t, w, id).Some?
      ensures HonestRecord(PositionOf(t.rows[id]), NewRecord(t, w, id).value)
         <==> PinnedRecord(PositionOf(t.rows[id]), NewRecord(t, w, id).value)
    {
      assert TrailFor(t, id);
      NewRecordContinues(t, w, id);
      HonestIffPinned(PositionOf(t.rows[id]), NewRecord(t, w, id).value);
    }
  }

  lemma SinceRestartAppend(trail: seq<Record>, r: Record)
    ensures SinceRestart(trail + [r])
         == if r.reason == RestartAudit then |trail| + 1 else SinceRestart(trail)
  {
    assert (trail + [r])[..|trail|] == trail;
  }

  lemma {:induction false} SinceRestartBound(trail: seq<Record>)
    ensures SinceRestart(trail) <= |trail|
  {
    if trail != [] { SinceRestartBound(trail[..|trail| - 1]); }
  }

  lemma ClimbedAppend(trail: seq<Record>, r: Record, k: nat)
    requires r.reason != RestartAudit && (Climbed(trail, k) || Climbs(r, k))
    ensures Climbed(trail + [r], k)
  {
    SinceRestartAppend(trail, r);
    SinceRestartBound(trail);
    if Climbs(r, k) {
      assert Climbs((trail + [r])[|trail|], k);
    } else {
      var i :| SinceRestart(trail) <= i < |trail| && Climbs(trail[i], k);
      assert Climbs((trail + [r])[i], k);
    }
  }

  lemma RestartsStartOver(p: Position, r: Record)
    requires Continues(p, r) && r.reason == RestartAudit
    ensures RankAt(ReplayStep(p, r)) == 0
  {
  }

  lemma RecordSkipsNothing(p: Position, trail: seq<Record>, r: Record)
    requires Continues(p, r) && (p.state == AwaitingReview <==> p.reviewFrom.Some?)
    requires PinnedRecord(p, r) && ClimbedTo(trail, RankAt(p))
    ensures ClimbedTo(trail + [r], RankAt(ReplayStep(p, r)))
  {
    HonestIffPinned(p, r);
    if r.reason == RestartAudit {
      RestartsStartOver(p, r);
    } else {
      forall k: nat | k < RankAt(ReplayStep(p, r)) ensures Climbed(trail + [r], k) {
        ClimbedAppend(trail, r, k);
      }
    }
  }

  lemma StepSkipsNothing(t: Tables, w: Write)
    requires Consistent(t) && Legal(w) && NothingSkipped(t) && Pinned(t, w)
    ensures NothingSkipped(Do(t, w))
  {
    var after := Do(t, w);
    forall id | id in after.rows && id in after.trail
      ensures ClimbedTo(after.trail[id], RankOf(after.rows[id]))
    {
      if id in t.rows {
        assert TrailFor(t, id);
        WriteIsOneRecord(t, w, id);
        var r := NewRecord(t, w, id);
        if r.Some? {
          NewRecordContinues(t, w, id);
          RecordSkipsNothing(PositionOf(t.rows[id]), t.trail[id], r.value);
        }
      } else {
        NewJobsStartAtZero(t, w, id);
      }
    }
  }

  lemma NewJobsStartAtZero(t: Tables, w: Write, id: JobId)
    requires Consistent(t) && id !in t.rows && id in Do(t, w).rows
    ensures RankOf(Do(t, w).rows[id]) == 0
  {
    match w
    case Swap(target, tr, u, at) =>
    case ResumePoint(target, resume, at) =>
    case Discovering(warning, at) =>
    case _ => BookkeepingKeepsPositions(t, w);
  }

  /** Every write of `ws` is pinned at the moment it runs. */
  ghost predicate AlwaysPinned(t: Tables, ws: seq<Write>)
    decreases |ws|
  {
    ws != [] ==> Pinned(t, ws[0]) && AlwaysPinned(Do(t, ws[0]), ws[1..])
  }

  lemma {:induction false} RunSkipsNothing(t: Tables, ws: seq<Write>)
    requires Consistent(t) && NothingSkipped(t) && AlwaysPinned(t, ws)
    requires forall w :: w in ws ==> Legal(w)
    ensures NothingSkipped(Run(t, ws))
    decreases |ws|
  {
    if ws != [] {
      StepKeepsConsistent(t, ws[0]);
      StepSkipsNothing(t, ws[0]);
      RunSkipsNothing(Do(t, ws[0]), ws[1..]);
    }
  }

  /** The writes no operator and no resume-point correction is involved in need no guard at all. */
  lemma WorkerWritesArePinned(t: Tables, w: Write)
    requires Consistent(t) && Legal(w) && !w.ResumePoint?
    requires w.Swap? ==>
      w.transition.reason != OperatorRetry && w.transition.reason != OperatorChooseCandidate
    ensures Pinned(t, w)
  {
    forall id | id in t.rows && NewRecord(t, w, id).Some?
      ensures PinnedRecord(PositionOf(t.rows[id]), NewRecord(t, w, id).value)
    {
      var reviewFrom :| ValidateTransition(
        w.transition.from, w.transition.to, w.transition.reason, reviewFrom).Ok?;
    }
  }

  /** So are an operator's moves on a job that has not changed position since it was loaded. */
  lemma FreshOperatorWritesArePinned(t: Tables, id: JobId, tr: Transition, u: TransitionUpdate, at: Time)
    requires Consistent(t) && id in t.rows
    requires ValidateTransition(tr.from, tr.to, tr.reason, t.rows[id].reviewFrom).Ok?
    ensures Pinned(t, Swap(id, tr, u, at))
  {
    assert ParkedExactly(t.rows[id]) by { assert TrailFor(t, id); }
    hide Consistent, PatchAll, Replay;
  }

  /** So is a correction of the resume point to one no further along. */
  lemma BackwardCorrectionsArePinned(t: Tables, id: JobId, resume: RepairState, at: Time)
    requires Consistent(t)
    requires id in t.rows && t.rows[id].reviewFrom.Some? ==>
               resume.Rank().GetOr(0) <= t.rows[id].reviewFrom.value.Rank().GetOr(0)
    ensures Pinned(t, ResumePoint(id, resume, at))
  {
    if id in t.rows { assert TrailFor(t, id) && ParkedExactly(t.rows[id]); }
    hide Consistent, Replay;
  }
}
