/**
 * Starting up against the disk: what is inspected is what is there, and what stands afterwards has
 * its files (src/repair/reconcile.rs, src/staging/adapters/local.rs).
 */
module Startup {
  import opened Prelude
  import opened Lifecycle
  import opened JobModel
  import opened Table
  import opened Protocol
  import opened Steps
  import opened Reality
  import opened Disk
  import opened StagingPass
  import opened LocalStagingFs
  import opened Reconcile
  import opened Store

  /** What is looked for of a planned file; where it came from plays no part. */
  function InspectionItem(file: PlannedFile, dir: string): Item {
    Item(file.source.GetOr([]), Under(file.torrentPath, dir), file.length, file.materializedAs)
  }

  /** The file is in its place under the directory, at its size. */
  ghost predicate InPlace(fs: Fs, file: PlannedFile, dir: string) {
    && InStaging(dir + "/" + file.torrentPath) in fs.names
    && fs.names[InStaging(dir + "/" + file.torrentPath)] in fs.contents
    && |fs.contents[fs.names[InStaging(dir + "/" + file.torrentPath)]]| == file.length
  }

  /** Every planned file of the job is in place. */
  ghost predicate DataInPlace(fs: Fs, row: Row) {
    row.data.stagingDir.Some? ==>
      forall i :: 0 <= i < |row.data.files| ==> InPlace(fs, row.data.files[i], row.data.stagingDir.value)
  }

  /** The evidence says of the job's files what the disk says. */
  ghost predicate TellsOfDisk(fs: Fs, row: Row, e: Reality.Evidence) {
    row.data.stagingDir.Some? && |row.data.files| > 0 ==>
      e.presence.Answered? && (e.presence.value == WhollyPresent <==> DataInPlace(fs, row))
  }

  /** Look for one job's files; nothing to look for counts as nothing there. */
  method InspectJob(staging: LocalStaging, row: Row, known: Answer<bool>) returns (e: Reality.Evidence)
    requires staging.Valid()
    ensures TellsOfDisk(staging.fs, row, e) && e.torrentKnown == known
  {
    var items: seq<Item> := [];
    if row.data.stagingDir.Some? {
      var dir := row.data.stagingDir.value;
      for i := 0 to |row.data.files|
        invariant |items| == i
        invariant forall k :: 0 <= k < i ==> items[k] == InspectionItem(row.data.files[k], dir)
      {
        items := items + [InspectionItem(row.data.files[i], dir)];
      }
    }
    var presence := staging.Inspect(items);
    e := Evidence(known, Answered(presence));
  }

  /** Where the job is to go on from. */
  function GoesOnFrom(row: Row): Option<RepairState> {
    if row.state == AwaitingReview then row.reviewFrom else Some(row.state)
  }

  predicate AtStagedOrBeyond(row: Row) {
    && row.state != Completed && row.state != Failed
    && GoesOnFrom(row).Some? && GoesOnFrom(row).value.Rank().GetOr(0) >= 3
  }

  /** A job reconciled by true evidence stands at `staged` or beyond only with its files in place. */
  lemma SettledHasItsData(t: Tables, u: Tables, id: JobId, e: Reality.Evidence, fs: Fs)
    requires Consistent(t) && id in t.rows && Settled(t, u, id, e) && TellsOfDisk(fs, t.rows[id], e)
    ensures AtStagedOrBeyond(u.rows[id]) ==> DataInPlace(fs, u.rows[id])
  {
    assert TrailFor(t, id);
    var row := t.rows[id];
    hide Consistent, TrailFor, RealityBackedTarget, InPlace;
    if row.state.IsActionable() || row.state == AwaitingReview {
      var starting := GoesOnFrom(row).value;
      TargetIsStable(row, e, starting);
      if row.data.stagingDir.Some? && |row.data.files| > 0 && starting.Rank().value >= 3
         && e.presence.value != WhollyPresent {
        MissingDataGoesBack(row, e, starting);
      }
    }
  }

  /** Look for every job's files. */
  method InspectAll(staging: LocalStaging, rows: map<JobId, Row>, known: JobId -> Answer<bool>)
    returns (found: map<JobId, Reality.Evidence>)
    requires staging.Valid()
    ensures found.Keys == rows.Keys
    ensures forall id :: id in rows ==> TellsOfDisk(staging.fs, rows[id], found[id])
  {
    found := map[];
    var left := rows.Keys;
    hide TellsOfDisk;
    while left != {}
      invariant left <= rows.Keys && found.Keys == rows.Keys - left
      invariant forall id :: id in found ==> TellsOfDisk(staging.fs, rows[id], found[id])
      decreases |left|
    {
      Inhabited(left);
      var id: JobId :| id in left;
      var e := InspectJob(staging, rows[id], known(id));
      found, left := found[id := e], left - {id};
    }
  }

  lemma AllHaveTheirData(t: Tables, u: Tables, evidence: JobId -> Reality.Evidence, fs: Fs)
    requires Consistent(t) && u.rows.Keys == t.rows.Keys
    requires forall id :: id in t.rows ==> Settled(t, u, id, evidence(id)) && TellsOfDisk(fs, t.rows[id], evidence(id))
    ensures forall id :: id in u.rows && AtStagedOrBeyond(u.rows[id]) ==> DataInPlace(fs, u.rows[id])
  {
    forall id | id in u.rows && AtStagedOrBeyond(u.rows[id]) ensures DataInPlace(fs, u.rows[id]) {
      SettledHasItsData(t, u, id, evidence(id), fs);
    }
  }

  /**
   * Inspect every job's files and reconcile: afterwards every job to go on from `staged` or beyond
   * has every planned file in its place at its size.
   */
  method StartUp(
    reconciler: Reconciler, staging: LocalStaging, owner: string, known: JobId -> Answer<bool>, now: Time)
    returns (summary: ReconcileSummary)
    requires Consistent(reconciler.store.Contents()) && staging.Valid()
    modifies reconciler.store
    ensures Consistent(reconciler.store.Contents())
    ensures reconciler.store.rows.Keys == old(reconciler.store.rows.Keys)
    ensures forall id :: id in reconciler.store.rows && AtStagedOrBeyond(reconciler.store.rows[id]) ==>
              DataInPlace(staging.fs, reconciler.store.rows[id])
  {
    ghost var t := reconciler.store.Contents();
    hide Consistent, Settled, TellsOfDisk, DataInPlace, AtStagedOrBeyond, LocalStaging.Valid;
    var found := InspectAll(staging, reconciler.store.rows, known);
    var evidence := (id: JobId) => if id in found then found[id] else Evidence(known(id), CallFailed);
    summary := reconciler.ReconcileOnStartup(owner, evidence, now);
    AllHaveTheirData(t, reconciler.store.Contents(), evidence, staging.fs);
  }
}
