/** What the statements of the store mean column by column, and what leases are for (src/repair/adapters/sqlite.rs). */
module StoreLaws {
  import opened Prelude
  import opened Lifecycle
  import opened JobModel
  import opened Table
  import opened Store

  // ---- Patches ------------------------------------------------------------------------------------

  /** A column reads what the patch says of it, and what it held where the patch says nothing. */
  predicate Reads<T(==)>(after: Option<T>, patch: Option<T>, before: Option<T>) {
    match patch
    case Some(x) => after == Some(x)
    case None => after == before
  }

  /** Every scalar column on its own; the plan is none of them. */
  lemma ScalarsRead(d: JobData, p: JobPatch)
    ensures var after := PatchScalars(d, p);
            && Reads(after.infoHash, p.infoHash, d.infoHash) && Reads(after.torrentFile, p.torrentFile, d.torrentFile)
            && Reads(after.totalBytes, p.totalBytes, d.totalBytes)
            && Reads(after.stagingDir, p.stagingDir, d.stagingDir)
            && Reads(after.materialization, p.materialization, d.materialization)
            && Reads(after.recheckingStartedAt, p.recheckingStartedAt, d.recheckingStartedAt)
            && Reads(Some(after.unknownStreak), p.unknownStreak, Some(d.unknownStreak))
            && Reads(after.uploadedBytes, p.uploadedBytes, d.uploadedBytes)
            && Reads(after.seedingSeconds, p.seedingSeconds, d.seedingSeconds)
            && Reads(Some(after.resumeApproved), p.resumeApproved, Some(d.resumeApproved))
            && after.files == d.files
  {
  }

  /** A whole patch: the same scalars, the plan replaced where there is one, and the progress noted last. */
  lemma PatchReads(d: JobData, p: JobPatch)
    ensures var after := PatchAll(d, p);
            && after == PatchScalars(d, p).(files := after.files)
            && var plan := if p.files.Some? then p.files.value else d.files;
               && |after.files| == |plan|
               && forall i :: 0 <= i < |plan| ==>
                    && after.files[i] == plan[i].(recheckProgress := after.files[i].recheckProgress)
                    && ProgressNoted(after.files[i].recheckProgress, plan[i].torrentPath,
                                     if p.files.Some? then None else plan[i].recheckProgress,
                                     if p.fileProgress.Some? then p.fileProgress.value else [])
  {
    var plan := if p.files.Some? then Inserted(p.files.value) else d.files;
    var progress := if p.fileProgress.Some? then p.fileProgress.value else [];
    ProgressRead(plan, progress);
  }

  /** The ratio last reported for the path, or what was noted before. */
  ghost predicate ProgressNoted(
    after: Option<real>, path: string, before: Option<real>, progress: seq<(string, real)>)
  {
    if exists i :: 0 <= i < |progress| && progress[i].0 == path then
      exists i :: 0 <= i < |progress| && progress[i].0 == path && after == Some(progress[i].1)
                  && forall j :: i < j < |progress| ==> progress[j].0 != path
    else after == before
  }

  lemma {:induction false} ProgressRead(files: seq<PlannedFile>, progress: seq<(string, real)>)
    ensures var after := WithProgress(files, progress);
            && |after| == |files|
            && forall i :: 0 <= i < |files| ==>
                 && after[i] == files[i].(recheckProgress := after[i].recheckProgress)
                 && ProgressNoted(after[i].recheckProgress, files[i].torrentPath, files[i].recheckProgress, progress)
    decreases |progress|
  {
    if progress != [] {
      var (path, ratio) := progress[0];
      var updated := seq(|files|, i requires 0 <= i < |files| =>
        if files[i].torrentPath == path then files[i].(recheckProgress := Some(ratio)) else files[i]);
      ProgressRead(updated, progress[1..]);
      forall i | 0 <= i < |files|
        ensures ProgressNoted(WithProgress(files, progress)[i].recheckProgress, files[i].torrentPath,
                              files[i].recheckProgress, progress)
      {
        NotedOnce(WithProgress(files, progress)[i].recheckProgress, files[i].torrentPath,
                  files[i].recheckProgress, progress);
      }
    }
  }

  /** Reports after the first decide, unless there are none for the path. */
  lemma NotedOnce(after: Option<real>, path: string, before: Option<real>, progress: seq<(string, real)>)
    requires progress != []
    requires ProgressNoted(after, path, if progress[0].0 == path then Some(progress[0].1) else before, progress[1..])
    ensures ProgressNoted(after, path, before, progress)
  {
    var rest := progress[1..];
    assert forall i :: 0 <= i < |rest| ==> rest[i] == progress[i + 1];
    if i :| 0 <= i < |rest| && rest[i].0 == path {
      var k :| 0 <= k < |rest| && rest[k].0 == path && after == Some(rest[k].1)
               && forall j :: k < j < |rest| ==> rest[j].0 != path;
      assert progress[k + 1].0 == path && after == Some(progress[k + 1].1);
      assert forall j :: k + 1 < j < |progress| ==> progress[j] == rest[j - 1];
    } else {
      assert forall j :: 0 < j < |progress| ==> progress[j] == rest[j - 1];
    }
  }

  // ---- Rows ---------------------------------------------------------------------------------------

  /** A job begins as the warning describes it, with nothing done, tried, leased or approved. */
  lemma DiscoveredRow(t: Tables, h: HitAndRun, now: Time)
    requires (h.tracker, h.torrentId) !in t.index
    ensures var (u, found) := RecordDiscovery(t, h, now);
            && found == Found(t.nextId, true) && u.rows.Keys == t.rows.Keys + {t.nextId} && u.nextId == t.nextId + 1
            && u.trail[t.nextId] == [Record(Discovered, Discovered, DiscoveredAudit, [], now)]
            && var row := u.rows[t.nextId];
               && row.state == Discovered && row.reviewFrom == None && row.reviewReason == None
               && row.failureReason == None && row.attempts == 0 && row.nextAttemptAt == None
               && row.leaseOwner == None && row.leaseExpiresAt == None && row.createdAt == row.updatedAt == now
               && row.tracker == h.tracker && row.torrentId == h.torrentId && row.torrentName == h.torrentName
               && row.deadline == h.deadline && row.data.infoHash == h.infoHash && row.data.totalBytes == h.sizeBytes
               && row.data.files == [] && !row.data.resumeApproved && row.data.unknownStreak == 0
               && row.data.stagingDir == None && row.data.materialization == None
  {
  }

  /**
   * A swap that goes through: the new state, where a parked job resumes and why it is parked, a clean
   * slate of attempts, the lease as it was, and no approval into a park.
   */
  lemma SwappedRow(t: Tables, id: JobId, tr: Transition, u: TransitionUpdate, now: Time)
    requires id in t.rows && t.rows[id].state == tr.from && Apply(t, id, tr, u, now).1.Ok?
    ensures var (before, row) := (t.rows[id], Apply(t, id, tr, u, now).0.rows[id]);
            && row.state == tr.to && row.attempts == 0 && row.nextAttemptAt == None && row.updatedAt == now
            && row.reviewFrom == (if tr.to == AwaitingReview then Some(tr.from) else None)
            && (row.reviewReason.Some? <==> tr.reason.Review?)
            && (tr.reason.Review? ==> row.reviewReason == Some(tr.reason.why))
            && row.failureReason == u.failureReason
            && row.leaseOwner == before.leaseOwner && row.leaseExpiresAt == before.leaseExpiresAt
            && row.createdAt == before.createdAt && row.deadline == before.deadline && row.tracker == before.tracker
            && row.torrentId == before.torrentId && row.torrentName == before.torrentName
            && (tr.to == AwaitingReview && u.patch.resumeApproved.None? ==> !row.data.resumeApproved)
            && (tr.to != AwaitingReview ==> row.data == PatchAll(before.data, u.patch))
  {
  }

  // ---- Leases -------------------------------------------------------------------------------------

  /** A job is due when it is on the worker's path, its time has come, and nobody holds it any more. */
  lemma DueIs(t: Tables, now: Time, id: JobId)
    ensures id in Due(t, now) <==>
              && id in t.rows && t.rows[id].state.Rank().Some? && t.rows[id].state != Completed
              && (match t.rows[id].nextAttemptAt case None => true case Some(at) => at <= now)
              && (match t.rows[id].leaseExpiresAt case None => true case Some(at) => at <= now)
  {
  }

  /** First those to be tried at once, then by the time they wait for, then by number. */
  lemma InLine(t: Tables, a: JobId, b: JobId)
    requires a in t.rows && b in t.rows
    ensures var (p, q) := (t.rows[a].nextAttemptAt, t.rows[b].nextAttemptAt);
            ClaimedBefore(t, a, b) <==>
              || (p == None && q != None)
              || (p == q && a <= b)
              || (p.Some? && q.Some? && p.value < q.value)
  {
  }

  /** Two claims, the second before the leases of the first are out, have no job in common. */
  method NeverClaimedTwice(
    store: RepairStore, first: string, second: string, lease: Time, other: Time, limit: int, now: Time, later: Time)
    returns (mine: set<JobId>, theirs: set<JobId>)
    requires later < now + lease
    modifies store
    ensures mine !! theirs && mine <= store.rows.Keys
    ensures forall id :: id in mine ==>
              store.rows[id].leaseOwner == Some(first) && store.rows[id].leaseExpiresAt == Some(now + lease)
    ensures forall id :: id in theirs ==>
              id in store.rows && store.rows[id].leaseOwner == Some(second)
              && store.rows[id].leaseExpiresAt == Some(later + other)
    ensures forall id :: id in store.rows && id !in mine && id !in theirs ==>
              id in old(store.rows) && store.rows[id] == old(store.rows)[id]
  {
    var claimed;
    ghost var t := store.Contents();
    claimed, mine := store.Claim(first, lease, limit, now);
    forall id | id in mine ensures id !in Due(store.Contents(), later) {
      LeasedIsNotDue(t, mine, first, now + lease, id, later);
    }
    claimed, theirs := store.Claim(second, other, limit, later);
  }

  /** What a claim leaves out is not due, or comes after everything it took; it takes no more than asked. */
  method ClaimTakesTheFirst(store: RepairStore, owner: string, lease: Time, limit: nat, now: Time)
    returns (ids: set<JobId>)
    modifies store
    ensures |ids| <= limit
    ensures forall id :: id in ids ==> id in old(store.rows) && old(store.rows)[id].state.IsActionable()
    ensures forall a, b :: a in ids && b in old(store.rows) && b !in ids && b in Due(old(store.Contents()), now) ==>
              var (p, q) := (old(store.rows)[a].nextAttemptAt, old(store.rows)[b].nextAttemptAt);
              && |ids| == limit
              && (q == None ==> p == None && a <= b)
              && (p.Some? ==> q.Some? && p.value <= q.value && (p.value == q.value ==> a <= b))
  {
    var claimed;
    claimed, ids := store.Claim(owner, lease, limit, now);
    ghost var t := old(store.Contents());
    hide IsDue;
    forall a, b | a in ids && b in t.rows && b !in ids && b in Due(t, now)
      ensures |ids| == limit && ClaimedBefore(t, a, b)
    {
      FullWhenLeftOut(ids, Due(t, now), b, limit);
      assert b in Due(t, now) - ids;
    }
  }

  lemma FullWhenLeftOut(ids: set<JobId>, due: set<JobId>, b: JobId, limit: nat)
    requires ids <= due && b in due && b !in ids
    requires |ids| == if limit < |due| then limit else |due|
    ensures |ids| == limit
  {
    assert |ids + {b}| <= |due| by { SubsetSize(ids + {b}, due); }
  }

  lemma {:induction false} SubsetSize(a: set<JobId>, b: set<JobId>)
    requires a <= b
    ensures |a| <= |b|
  {
    if a != {} {
      Inhabited(a);
      var x: JobId :| x in a;
      SubsetSize(a - {x}, b - {x});
    }
  }

  /** A released job is nobody's, and due again from the moment it was released for, or at once. */
  lemma ReleasedIsDue(t: Tables, id: JobId, retryAt: Option<Time>, count: bool, now: Time, at: Time)
    requires id in t.rows && t.rows[id].state.IsActionable()
    ensures var u := Release(t, id, retryAt, count, now);
            && id in u.rows && u.rows[id].leaseOwner == None
            && u.rows[id].attempts == t.rows[id].attempts + (if count then 1 else 0)
            && (id in Due(u, at) <==> (retryAt.Some? ==> retryAt.value <= at))
            && forall other :: other in t.rows && other != id ==> other in u.rows && u.rows[other] == t.rows[other]
  {
  }

  /** Held leases last: until they run out, nobody else is given the job. */
  lemma LeasedIsNotDue(t: Tables, ids: set<JobId>, owner: string, expires: Time, id: JobId, at: Time)
    requires id in ids && id in t.rows && at < expires
    ensures id !in Due(Leased(t, ids, owner, expires), at)
  {
  }

  /** At a worker's start its own leases go, and so do those run out; the rest of the tables stays. */
  lemma StaleLeasesCleared(t: Tables, owner: string, now: Time, id: JobId)
    requires id in t.rows
    ensures var u := ClearStaleLeases(t, owner, now);
            && id in u.rows && u.trail == t.trail && u.index == t.index && u.nextId == t.nextId
            && u.rows[id]
               == t.rows[id].(leaseOwner := u.rows[id].leaseOwner, leaseExpiresAt := u.rows[id].leaseExpiresAt)
            && (u.rows[id].leaseExpiresAt.Some? ==>
                  now < u.rows[id].leaseExpiresAt.value && u.rows[id].leaseOwner != Some(owner))
            && (u.rows[id] == t.rows[id]
                || (t.rows[id].leaseExpiresAt.Some?
                    && u.rows[id].leaseOwner == None && u.rows[id].leaseExpiresAt == None
                    && (t.rows[id].leaseExpiresAt.value <= now || t.rows[id].leaseOwner == Some(owner))))
  {
  }

  /** A renewal moves the end of a lease its owner still holds, and nothing else. */
  lemma RenewedIs(t: Tables, id: JobId, owner: string, expires: Time)
    ensures var (u, held) := RenewLease(t, id, owner, expires);
            && (held <==> id in t.rows && t.rows[id].leaseOwner == Some(owner))
            && (!held ==> u == t)
            && (held ==> u == t.(rows := t.rows[id := t.rows[id].(leaseExpiresAt := Some(expires))]))
  {
  }

  /** A swap that says nothing but where to moves the job and offers nothing. */
  lemma PlainSwapMovesOnly(t: Tables, id: JobId, tr: Transition, now: Time)
    requires id in t.rows && t.rows[id].state == tr.from && Apply(t, id, tr, PLAIN_UPDATE, now).1.Ok?
    ensures var (before, u) := (t.rows[id], Apply(t, id, tr, PLAIN_UPDATE, now).0);
            && u.rows[id].failureReason == None
            && u.rows[id].data
               == before.data.(resumeApproved := before.data.resumeApproved && tr.to != AwaitingReview)
            && u.trail[id] == (if id in t.trail then t.trail[id] else [])
                              + [Record(tr.from, tr.to, AsAudit(tr.reason), [], now)]
  {
  }
}
