/**
 * What each statement of the SQLite store does to the tables, as functions on values
 * (src/repair/adapters/sqlite.rs). `Store.RepairStore` is proved to do exactly this.
 */
module Table {
  import opened Prelude
  import opened Lifecycle
  import opened JobModel

  datatype Tables = Tables(
    rows: map<JobId, Row>, trail: map<JobId, seq<Record>>, index: map<(string, string), JobId>,
    nextId: JobId)

  datatype Applied = Applied | AlreadyInTargetState

  datatype StoreError =
    | Missing | Conflict(expected: RepairState, actual: RepairState) | Corrupt | Database

  datatype Discovery = Found(id: JobId, created: bool)

  const EMPTY: Tables := Tables(map[], map[], map[], 1)

  const NO_DATA: JobData := JobData(None, None, None, None, None, None, 0, None, None, false, [])

  function NewRow(h: HitAndRun, now: Time): Row {
    Row(h.tracker, h.torrentId, h.torrentName, h.deadline, Discovered, None, None, None,
        NO_DATA.(infoHash := h.infoHash, totalBytes := h.sizeBytes), 0, None, None, None, now, now)
  }

  function RecordDiscovery(t: Tables, h: HitAndRun, now: Time): (Tables, Discovery) {
    var key := (h.tracker, h.torrentId);
    if key in t.index then (t, Found(t.index[key], false))
    else
      var id := t.nextId;
      var opening :=
        Record(Discovered, Discovered, DiscoveredAudit, [], now);
      (Tables(t.rows[id := NewRow(h, now)], t.trail[id := [opening]], t.index[key := id], id + 1),
       Found(id, true))
  }

  /** The row a compare-and-swap leaves behind when it goes through. */
  function Swapped(row: Row, tr: Transition, u: TransitionUpdate, now: Time): Row {
    var parking := tr.to == AwaitingReview;
    var data := if parking then row.data.(resumeApproved := false) else row.data;
    row.(state := tr.to,
         reviewFrom := if parking then Some(tr.from) else None,
         reviewReason := if tr.reason.Review? then Some(tr.reason.why) else None,
         failureReason := u.failureReason,
         data := PatchAll(data, u.patch),
         attempts := 0, nextAttemptAt := None, updatedAt := now)
  }

  /** Whether the database's own constraints let the swap's rows in. */
  predicate Admissible(tr: Transition, u: TransitionUpdate) {
    && (tr.to == AwaitingReview ==> tr.from.IsActionable())
    && (u.patch.files.Some? ==> DistinctPaths(u.patch.files.value))
  }

  /** The compare-and-swap: state and audit row together, or nothing at all. */
  function Apply(t: Tables, id: JobId, tr: Transition, u: TransitionUpdate, now: Time)
    : (Tables, Result<Applied, StoreError>)
  {
    if id !in t.rows then (t, Err(Missing))
    else
      var row := t.rows[id];
      if row.state != tr.from then
        (t, if row.state == tr.to then Ok(AlreadyInTargetState) else Err(Conflict(tr.from, row.state)))
      else if !Admissible(tr, u) then (t, Err(Database))
      else
        var record := Record(tr.from, tr.to, AsAudit(tr.reason), u.offers, now);
        var so := if id in t.trail then t.trail[id] else [];
        (t.(rows := t.rows[id := Swapped(row, tr, u, now)], trail := t.trail[id := so + [record]]),
         Ok(Applied.Applied))
  }

  /** Correct where a parked job resumes, without un-parking it. */
  function SetReviewResumePoint(t: Tables, id: JobId, resume: RepairState, now: Time)
    : (Tables, Result<(), StoreError>)
  {
    if id !in t.rows then (t, Err(Missing))
    else
      var row := t.rows[id];
      if row.state != AwaitingReview then (t, Ok(()))
      else if row.reviewFrom.None? then (t, Err(Corrupt))
      else if row.reviewFrom == Some(resume) then (t, Ok(()))
      else if !resume.IsActionable() then (t, Err(Database))
      else
        var record := Record(row.reviewFrom.value, resume, ReconciliationAudit, [], now);
        var so := if id in t.trail then t.trail[id] else [];
        (t.(rows := t.rows[id := row.(reviewFrom := Some(resume), updatedAt := now)],
            trail := t.trail[id := so + [record]]),
         Ok(()))
  }

  /** Telemetry: the scalar columns only, no transition and no audit row. */
  function RecordProgress(t: Tables, id: JobId, patch: JobPatch, now: Time): Tables {
    if id !in t.rows then t
    else
      var row := t.rows[id];
      t.(rows := t.rows[id := row.(data := PatchScalars(row.data, patch), updatedAt := now)])
  }

  function Release(t: Tables, id: JobId, retryAt: Option<Time>, countAttempt: bool, now: Time): Tables {
    if id !in t.rows then t
    else
      var row := t.rows[id];
      t.(rows := t.rows[id := row.(
        leaseOwner := None, leaseExpiresAt := None, nextAttemptAt := retryAt,
        attempts := row.attempts + if countAttempt then 1 else 0, updatedAt := now)])
  }

  function RenewLease(t: Tables, id: JobId, owner: string, expires: Time): (Tables, bool) {
    if id in t.rows && t.rows[id].leaseOwner == Some(owner) then
      (t.(rows := t.rows[id := t.rows[id].(leaseExpiresAt := Some(expires))]), true)
    else (t, false)
  }

  /** Whether a job may be claimed at `now`. */
  predicate IsDue(row: Row, now: Time) {
    && row.state.IsActionable()
    && (row.nextAttemptAt.Some? ==> row.nextAttemptAt.value <= now)
    && (row.leaseExpiresAt.Some? ==> row.leaseExpiresAt.value <= now)
  }

  function Leased(t: Tables, ids: set<JobId>, owner: string, expires: Time): Tables {
    t.(rows := map id | id in t.rows ::
      if id in ids then t.rows[id].(leaseOwner := Some(owner), leaseExpiresAt := Some(expires))
      else t.rows[id])
  }

  predicate IsStaleLease(row: Row, owner: string, now: Time) {
    row.leaseExpiresAt.Some? && (row.leaseExpiresAt.value <= now || row.leaseOwner == Some(owner))
  }

  function ClearStaleLeases(t: Tables, owner: string, now: Time): Tables {
    t.(rows := map id | id in t.rows ::
      if IsStaleLease(t.rows[id], owner, now)
      then t.rows[id].(leaseOwner := None, leaseExpiresAt := None)
      else t.rows[id])
  }

  /** One statement against the store, as some worker, operator or reconciler issued it. */
  datatype Write =
    | Discovering(warning: HitAndRun, at: Time)
    | Swap(id: JobId, transition: Transition, update: TransitionUpdate, at: Time)
    | ResumePoint(id: JobId, resume: RepairState, at: Time)
    | Telemetry(id: JobId, patch: JobPatch, at: Time)
    | Claiming(ids: set<JobId>, owner: string, expires: Time)
    | Releasing(id: JobId, retryAt: Option<Time>, countAttempt: bool, at: Time)
    | Renewing(id: JobId, owner: string, expires: Time)
    | Clearing(owner: string, at: Time)

  function Do(t: Tables, w: Write): Tables {
    match w
    case Discovering(warning, at) => RecordDiscovery(t, warning, at).0
    case Swap(id, transition, update, at) => Apply(t, id, transition, update, at).0
    case ResumePoint(id, resume, at) => SetReviewResumePoint(t, id, resume, at).0
    case Telemetry(id, patch, at) => RecordProgress(t, id, patch, at)
    case Claiming(ids, owner, expires) => Leased(t, ids, owner, expires)
    case Releasing(id, retryAt, countAttempt, at) => Release(t, id, retryAt, countAttempt, at)
    case Renewing(id, owner, expires) => RenewLease(t, id, owner, expires).0
    case Clearing(owner, at) => ClearStaleLeases(t, owner, at)
  }

  function Run(t: Tables, ws: seq<Write>): Tables
    decreases |ws|
  {
    if ws == [] then t else Run(Do(t, ws[0]), ws[1..])
  }

  lemma {:induction false} RunAppend(t: Tables, ws: seq<Write>, vs: seq<Write>)
    ensures Run(t, ws + vs) == Run(Run(t, ws), vs)
    decreases |ws|
  {
    if ws == [] {
      assert ws + vs == vs;
    } else {
      assert (ws + vs)[1..] == ws[1..] + vs;
      RunAppend(Do(t, ws[0]), ws[1..], vs);
    }
  }

  lemma RunSnoc(t: Tables, ws: seq<Write>, w: Write)
    ensures Run(t, ws + [w]) == Do(Run(t, ws), w)
  {
    RunAppend(t, ws, [w]);
    assert [w][1..] == [];
  }
}
