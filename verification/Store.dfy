/** The store itself: tables it updates in place, one statement or transaction per method
    (src/repair/adapters/sqlite.rs). */
module Store {
  import opened Prelude
  import opened Lifecycle
  import opened JobModel
  import opened Table

  /** `ORDER BY next_attempt_at IS NOT NULL, next_attempt_at, id`. */
  predicate ClaimedBefore(t: Tables, a: JobId, b: JobId)
    requires a in t.rows && b in t.rows
  {
    var (p, q) := (t.rows[a].nextAttemptAt, t.rows[b].nextAttemptAt);
    match (p, q)
    case (None, None) => a <= b
    case (None, Some(_)) => true
    case (Some(_), None) => false
    case (Some(x), Some(y)) => x < y || (x == y && a <= b)
  }

  lemma ClaimsInOrder(t: Tables, a: JobId, b: JobId, ids: set<JobId>)
    requires ids <= t.rows.Keys && a in t.rows && b in t.rows && !ClaimedBefore(t, b, a)
    requires forall id :: id in ids ==> ClaimedBefore(t, b, id)
    ensures forall id :: id in ids ==> ClaimedBefore(t, a, id)
  {
  }

  lemma Inhabited(ids: set<JobId>)
    requires ids != {}
    ensures exists id: JobId :: id in ids
  {
    if !exists id: JobId :: id in ids { assert false; }
  }

  ghost function Due(t: Tables, now: Time): set<JobId> {
    set id | id in t.rows && IsDue(t.rows[id], now)
  }

  /** The jobs with ids below `bound` that satisfy `wanted`, in order of id. */
  function Listing(t: Tables, bound: nat, wanted: RepairState -> bool): seq<Job> {
    if bound == 0 then []
    else
      var id := bound - 1;
      Listing(t, id, wanted)
        + if id in t.rows && wanted(t.rows[id].state) then [Job(id, t.rows[id])] else []
  }

  class RepairStore {
    var rows: map<JobId, Row>
    var trail: map<JobId, seq<Record>>
    var index: map<(string, string), JobId>
    var nextId: JobId

    function Contents(): Tables
      reads this
    {
      Tables(rows, trail, index, nextId)
    }

    constructor ()
      ensures Contents() == EMPTY
    {
      rows, trail, index, nextId := map[], map[], map[], 1;
    }

    method RecordDiscovery(warning: HitAndRun, now: Time) returns (found: Discovery)
      modifies this
      ensures (Contents(), found) == Table.RecordDiscovery(old(Contents()), warning, now)
    {
      var key := (warning.tracker, warning.torrentId);
      if key in index { return Found(index[key], false); }
      var id := nextId;
      rows := rows[id := NewRow(warning, now)];
      trail := trail[id := [Record(RepairState.Discovered, RepairState.Discovered, DiscoveredAudit, [], now)]];
      index := index[key := id];
      nextId := nextId + 1;
      found := Found(id, true);
    }

    method Apply(id: JobId, tr: Transition, update: TransitionUpdate, now: Time)
      returns (r: Result<Applied, StoreError>)
      modifies this
      ensures (Contents(), r) == Table.Apply(old(Contents()), id, tr, update, now)
    {
      if id !in rows { return Err(Missing); }
      var row := rows[id];
      if row.state != tr.from {
        if row.state == tr.to { return Ok(AlreadyInTargetState); }
        return Err(Conflict(tr.from, row.state));
      }
      if !Admissible(tr, update) { return Err(Database); }
      var parking := tr.to == AwaitingReview;
      var data := if parking then row.data.(resumeApproved := false) else row.data;
      data := ApplyPatch(data, update.patch);
      rows := rows[id := row.(
        state := tr.to,
        reviewFrom := if parking then Some(tr.from) else None,
        reviewReason := if tr.reason.Review? then Some(tr.reason.why) else None,
        failureReason := update.failureReason,
        data := data, attempts := 0, nextAttemptAt := None, updatedAt := now)];
      var before := if id in trail then trail[id] else [];
      trail := trail[id := before + [Record(tr.from, tr.to, AsAudit(tr.reason), update.offers, now)]];
      r := Ok(Applied.Applied);
    }

    /** Scalars first, then the file rows are replaced one by one, then their progress is set. */
    method ApplyPatch(before: JobData, patch: JobPatch) returns (data: JobData)
      ensures data == PatchAll(before, patch)
    {
      data := PatchScalars(before, patch);
      if patch.files.Some? {
        var files := patch.files.value;
        var inserted: seq<PlannedFile> := [];
        for i := 0 to |files|
          invariant inserted == Inserted(files)[..i]
        {
          inserted := inserted + [files[i].(recheckProgress := None)];
        }
        assert inserted == Inserted(files);
        data := data.(files := inserted);
      }
      if patch.fileProgress.Some? {
        var progress, files := patch.fileProgress.value, data.files;
        for i := 0 to |progress|
          invariant WithProgress(files, progress[i..]) == WithProgress(data.files, progress)
        {
          var (path, ratio) := progress[i];
          files := seq(|files|, k requires 0 <= k < |files| =>
            if files[k].torrentPath == path then files[k].(recheckProgress := Some(ratio)) else files[k]);
          assert progress[i..][1..] == progress[i + 1..];
        }
        assert progress[|progress|..] == [];
        data := data.(files := files);
      }
    }

    method SetReviewResumePoint(id: JobId, resume: RepairState, now: Time) returns (r: Result<(), StoreError>)
      modifies this
      ensures (Contents(), r) == Table.SetReviewResumePoint(old(Contents()), id, resume, now)
    {
      if id !in rows { return Err(Missing); }
      var row := rows[id];
      if row.state != AwaitingReview { return Ok(()); }
      if row.reviewFrom.None? { return Err(Corrupt); }
      if row.reviewFrom == Some(resume) { return Ok(()); }
      if !resume.IsActionable() { return Err(Database); }
      rows := rows[id := row.(reviewFrom := Some(resume), updatedAt := now)];
      var before := if id in trail then trail[id] else [];
      trail := trail[id := before + [Record(row.reviewFrom.value, resume, ReconciliationAudit, [], now)]];
      r := Ok(());
    }

    method RecordProgress(id: JobId, patch: JobPatch, now: Time)
      modifies this
      ensures Contents() == Table.RecordProgress(old(Contents()), id, patch, now)
    {
      if id in rows {
        rows := rows[id := rows[id].(data := PatchScalars(rows[id].data, patch), updatedAt := now)];
      }
    }

    method Release(id: JobId, retryAt: Option<Time>, countAttempt: bool, now: Time)
      modifies this
      ensures Contents() == Table.Release(old(Contents()), id, retryAt, countAttempt, now)
    {
      if id in rows {
        var attempts := rows[id].attempts + if countAttempt then 1 else 0;
        rows := rows[id := rows[id].(
          leaseOwner := None, leaseExpiresAt := None, nextAttemptAt := retryAt,
          attempts := attempts, updatedAt := now)];
      }
    }

    method RenewLease(id: JobId, owner: string, expires: Time) returns (renewed: bool)
      modifies this
      ensures (Contents(), renewed) == Table.RenewLease(old(Contents()), id, owner, expires)
    {
      renewed := id in rows && rows[id].leaseOwner == Some(owner);
      if renewed { rows := rows[id := rows[id].(leaseExpiresAt := Some(expires))]; }
    }

    method ClearStaleLeases(owner: string, now: Time) returns (cleared: nat)
      modifies this
      ensures Contents() == Table.ClearStaleLeases(old(Contents()), owner, now)
      ensures cleared == |set id | id in old(rows) && IsStaleLease(old(rows)[id], owner, now)|
    {
      var stale := set id | id in rows && IsStaleLease(rows[id], owner, now);
      rows := map id | id in rows ::
        if IsStaleLease(rows[id], owner, now)
        then rows[id].(leaseOwner := None, leaseExpiresAt := None) else rows[id];
      cleared := |stale|;
    }

    /** The job of `ids` that is claimed before all the others. */
    method FirstClaimable(ids: set<JobId>) returns (first: JobId)
      requires ids != {} && ids <= rows.Keys
      ensures first in ids
      ensures forall id :: id in ids ==> ClaimedBefore(Contents(), first, id)
    {
      Inhabited(ids);
      first :| first in ids;
      var rest := ids - {first};
      while rest != {}
        invariant first in ids && rest <= ids
        invariant forall id :: id in ids - rest ==> ClaimedBefore(Contents(), first, id)
        decreases rest
      {
        Inhabited(rest);
        var other: JobId :| other in rest;
        if !ClaimedBefore(Contents(), first, other) {
          ClaimsInOrder(Contents(), other, first, ids - rest);
          first := other;
        }
        rest := rest - {other};
      }
    }

    /** The subquery of a claim: up to `limit` due jobs, the longest-waiting first. */
    method SelectDue(limit: int, now: Time) returns (chosen: seq<JobId>, ids: set<JobId>)
      ensures ids <= Due(Contents(), now)
      ensures |ids| == (if 0 <= limit < |Due(Contents(), now)| then limit else |Due(Contents(), now)|)
      ensures forall a, b :: a in ids && b in Due(Contents(), now) - ids ==> ClaimedBefore(Contents(), a, b)
      ensures |chosen| == |ids| && forall i :: 0 <= i < |chosen| ==> chosen[i] in ids
      ensures forall i, j :: 0 <= i < j < |chosen| ==> chosen[i] != chosen[j]
    {
      hide ClaimedBefore, IsDue;
      ghost var t := Contents();
      ghost var due := Due(t, now);
      var waiting := set id | id in rows && IsDue(rows[id], now);
      chosen, ids := [], {};
      while waiting != {} && (limit < 0 || |chosen| < limit)
        invariant waiting == due - ids && ids <= due <= rows.Keys
        invariant |ids| == |chosen| && (0 <= limit ==> |chosen| <= limit)
        invariant forall i :: 0 <= i < |chosen| ==> chosen[i] in ids
        invariant forall i, j :: 0 <= i < j < |chosen| ==> chosen[i] != chosen[j]
        invariant forall a, b :: a in ids && b in waiting ==> ClaimedBefore(t, a, b)
        decreases waiting
      {
        var first := FirstClaimable(waiting);
        waiting, chosen, ids := waiting - {first}, chosen + [first], ids + {first};
      }
      assert due == ids + waiting;
      assert |due| == |ids| + |waiting|;
    }

    /**
     * Lease up to `limit` due jobs, the longest-waiting first; no limit when it is negative.
     * Nothing but the leases of the claimed jobs changes.
     */
    method Claim(owner: string, lease: Time, limit: int, now: Time) returns (claimed: seq<Job>, ids: set<JobId>)
      modifies this
      ensures Contents() == Leased(old(Contents()), ids, owner, now + lease)
      ensures ids <= Due(old(Contents()), now)
      ensures |ids| == (if 0 <= limit < |Due(old(Contents()), now)| then limit
                        else |Due(old(Contents()), now)|)
      ensures forall a, b :: a in ids && b in Due(old(Contents()), now) - ids ==>
        ClaimedBefore(old(Contents()), a, b)
      ensures |claimed| == |ids| && forall i :: 0 <= i < |claimed| ==>
        claimed[i].id in ids && claimed[i].id in rows && claimed[i].row == rows[claimed[i].id]
      ensures forall i, j :: 0 <= i < j < |claimed| ==> claimed[i].id != claimed[j].id
    {
      var chosen: seq<JobId>;
      chosen, ids := SelectDue(limit, now);
      rows := Leased(Contents(), ids, owner, now + lease).rows;
      claimed := [];
      for i := 0 to |chosen|
        invariant |claimed| == i
        invariant forall k :: 0 <= k < i ==>
          claimed[k].id == chosen[k] && chosen[k] in rows && claimed[k].row == rows[chosen[k]]
      {
        claimed := claimed + [Job(chosen[i], rows[chosen[i]])];
      }
    }

    /** The jobs in the wanted states, `ORDER BY id`. */
    method List(wanted: RepairState -> bool) returns (jobs: seq<Job>)
      requires nextId >= 0
      ensures jobs == Listing(Contents(), nextId, wanted)
    {
      jobs := [];
      for id := 0 to nextId
        invariant jobs == Listing(Contents(), id, wanted)
      {
        if id in rows && wanted(rows[id].state) { jobs := jobs + [Job(id, rows[id])]; }
      }
    }

    /** Whatever other workers, operators and reconcilers do to the store in the meantime. */
    method Meanwhile(others: seq<Write>)
      modifies this
      ensures Contents() == Run(old(Contents()), others)
    {
      for i := 0 to |others|
        invariant Run(Contents(), others[i..]) == Run(old(Contents()), others)
      {
        assert others[i..][1..] == others[i + 1..];
        match others[i] {
          case Discovering(warning, at) => var _ := RecordDiscovery(warning, at);
          case Swap(id, tr, update, at) => var _ := Apply(id, tr, update, at);
          case ResumePoint(id, resume, at) => var _ := SetReviewResumePoint(id, resume, at);
          case Telemetry(id, patch, at) => RecordProgress(id, patch, at);
          case Claiming(ids, owner, expires) => rows := Leased(Contents(), ids, owner, expires).rows;
          case Releasing(id, retryAt, countAttempt, at) => Release(id, retryAt, countAttempt, at);
          case Renewing(id, owner, expires) => var _ := RenewLease(id, owner, expires);
          case Clearing(owner, at) => var _ := ClearStaleLeases(owner, at);
        }
      }
    }
  }
}
