/** The step that stages a matched job's files (src/repair/application/stage.rs). */
module StageStep {
  import opened Prelude
  import opened Lifecycle
  import opened JobModel
  import opened Steps
  import opened Disk
  import opened StagingPass
  import opened LocalStagingFs
  import opened Policy

  /** What to stage for a planned file, carrying over how an earlier attempt staged it. */
  function ItemFor(file: PlannedFile, dir: string): Item
    requires file.source.Some?
  {
    Item(file.source.value, Under(file.torrentPath, dir), file.length, file.materializedAs)
  }

  /** Distinct torrent paths have distinct places under one directory. */
  lemma DistinctPathsDistinctPlaces(a: string, b: string, dir: string)
    ensures Under(a, dir) == Under(b, dir) <==> a == b
  {
    assert Under(a, dir)[|dir| + 1..] == a && Under(b, dir)[|dir| + 1..] == b;
  }

  predicate SomeSourceless(planned: seq<PlannedFile>) {
    exists i | 0 <= i < |planned| :: planned[i].source.None?
  }

  function ItemsFor(planned: seq<PlannedFile>, dir: string): (items: seq<Item>)
    requires !SomeSourceless(planned)
  {
    seq(|planned|, k requires 0 <= k < |planned| => ItemFor(planned[k], dir))
  }

  lemma DistinctPathsDistinctItems(planned: seq<PlannedFile>, dir: string)
    requires !SomeSourceless(planned) && DistinctPaths(planned)
    ensures DistinctDestinations(ItemsFor(planned, dir))
  {
    forall a, b | 0 <= a < b < |planned|
      ensures ItemsFor(planned, dir)[a].destination != ItemsFor(planned, dir)[b].destination
    {
      DistinctPathsDistinctPlaces(planned[a].torrentPath, planned[b].torrentPath, dir);
    }
  }

  /** Nothing when a file has no source. */
  method CollectItems(planned: seq<PlannedFile>, dir: string) returns (items: Option<seq<Item>>)
    ensures items == if SomeSourceless(planned) then None else Some(ItemsFor(planned, dir))
  {
    var collected: seq<Item> := [];
    var i := 0;
    while i < |planned|
      invariant 0 <= i <= |planned| && |collected| == i
      invariant forall k :: 0 <= k < i ==> planned[k].source.Some? && collected[k] == ItemFor(planned[k], dir)
    {
      if planned[i].source.None? {
        return None;
      }
      collected := collected + [ItemFor(planned[i], dir)];
      i := i + 1;
    }
    assert collected == ItemsFor(planned, dir);
    items := Some(collected);
  }

  method RecordStrategies(planned: seq<PlannedFile>, dir: string, layout: seq<StagedFile>)
    returns (files: seq<PlannedFile>)
    ensures files == seq(|planned|, k requires 0 <= k < |planned| => Materialized(planned[k], dir, layout))
  {
    files := [];
    var i := 0;
    while i < |planned|
      invariant 0 <= i <= |planned| && |files| == i
      invariant forall k :: 0 <= k < i ==> files[k] == Materialized(planned[k], dir, layout)
    {
      files := files + [planned[i].(materializedAs := StrategyFor(layout, Under(planned[i].torrentPath, dir)))];
      i := i + 1;
    }
  }

  /** There is something to stage, room for it, and a way to stage each file. */
  ghost predicate CanStage(staging: LocalStaging, planned: seq<PlannedFile>, dir: string, preference: seq<Strategy>)
    reads staging`fs, staging`free
    requires staging.fs.Valid()
  {
    && preference != [] && !SomeSourceless(planned)
    && staging.Fits(staging.fs, staging.free, ItemsFor(planned, dir), preference)
    && staging.AllStageable(staging.fs, ItemsFor(planned, dir), preference)
  }

  function TotalPlanned(planned: seq<PlannedFile>): nat {
    if planned == [] then 0 else planned[0].length + TotalPlanned(planned[1..])
  }

  /** Every file has a source of its size in the library and nothing yet in its place. */
  ghost predicate AllToBeCopied(fs: Fs, planned: seq<PlannedFile>, dir: string)
    requires fs.Valid()
  {
    forall i :: 0 <= i < |planned| ==>
      && planned[i].source.Some? && fs.HasSize(InLibrary(planned[i].source.value), planned[i].length)
      && InStaging(dir + "/" + planned[i].torrentPath) !in fs.names
  }

  const COPY_ONLY: MaterializationPolicy := MaterializationPolicy(false, false, true)

  lemma {:induction false} TotalIsSum(planned: seq<PlannedFile>, dir: string)
    requires !SomeSourceless(planned)
    ensures SumLengths(ItemsFor(planned, dir)) == TotalPlanned(planned)
  {
    if planned != [] {
      assert forall i :: 0 <= i < |planned[1..]| ==> planned[1..][i] == planned[i + 1];
      TotalIsSum(planned[1..], dir);
      assert ItemsFor(planned, dir)[1..] == ItemsFor(planned[1..], dir);
    }
  }

  /** With copying the only way, room is exactly what the files come to and the margin. */
  lemma CopyOnlyRoom(staging: LocalStaging, fs: Fs, free: nat, planned: seq<PlannedFile>, dir: string)
    requires fs.Valid() && !SomeSourceless(planned) && AllToBeCopied(fs, planned, dir)
    ensures COPY_ONLY.Preference() == [Copy]
    ensures staging.Fits(fs, free, ItemsFor(planned, dir), [Copy])
            <==> TotalPlanned(planned) == 0 || TotalPlanned(planned) + staging.minFree <= free
    ensures staging.AllStageable(fs, ItemsFor(planned, dir), [Copy])
  {
    var items := ItemsFor(planned, dir);
    TotalIsSum(planned, dir);
    staging.SpaceAsked(fs, free, items, [Copy]);
    forall i | 0 <= i < |items| ensures staging.Stageable(fs, items[i], [Copy]) {
      assert planned[i].source.Some?;
      assert FirstViable([Copy], staging.CapsOf(items[i])) == Some(Copy);
    }
    assert staging.AllToCopy(fs, items, [Copy]);
  }

  /**
   * The outcome is the step's, for whatever staging came back with. When it advances, every planned
   * file is on disk at its size; when a file has no source, nothing is touched. With no call failing,
   * it advances exactly when all can be staged.
   */
  method StageMatched(job: Job, w: World, planned: seq<PlannedFile>, staging: LocalStaging)
    returns (outcome: StepOutcome, ghost staged: Result<seq<StagedFile>, StagingError>)
    requires w.planned == Answered(planned) && staging.Valid()
    modifies staging
    ensures staging.Valid() && Preserves(old(staging.fs), staging.fs)
    ensures outcome == StageFiles(job, w.(staged := staged))
    ensures SomeSourceless(planned) ==> staging.fs == old(staging.fs)
    ensures outcome.Advance? && DistinctPaths(planned) ==> AllOnDisk(planned, StagingDir(job), staging.fs)
    ensures outcome.Advance? && DistinctPaths(planned) ==>
              && outcome.patch.files.Some?
              && StagedFromLibrary(old(staging.fs), staging.fs, planned, StagingDir(job), outcome.patch.files.value)
              && (outcome.patch.materialization == Some(Hardlink)
                  <==> exists f :: f in outcome.patch.files.value && f.materializedAs == Some(Hardlink))
    ensures LibraryNamesKept(old(staging.fs), staging.fs)
    ensures var preference := w.policy.materialization.Preference();
            staging.NoFaultsFrom(old(staging.tick)) && DistinctPaths(planned) ==>
              (outcome.Advance? <==> old(CanStage(staging, planned, StagingDir(job), preference)))
    ensures var total := TotalPlanned(planned);
            w.policy.materialization == COPY_ONLY && AllToBeCopied(old(staging.fs), planned, StagingDir(job)) ==>
              && (total > 0 && total + staging.minFree > old(staging.free) ==>
                    outcome == ParkPlain(InsufficientStagingSpace))
              && (DistinctPaths(planned) && staging.NoFaultsFrom(old(staging.tick)) ==>
                    total + staging.minFree <= old(staging.free) ==> outcome.Advance?)
  {
    var dir := StagingDir(job);
    staged := Err(StagingIo);
    var items := CollectItems(planned, dir);
    hide Preserves, OnlyRenames, AlreadyStaged, DistinctDestinations, DistinctPaths, Destinations,
      AllOnDisk, LibraryNamesKept, Faithful, StagedFromLibrary, ItemsFor, LocalStaging.Predictable,
      LocalStaging.NoFaultsFrom, LocalStaging.Fits,
      LocalStaging.AllStageable, LocalStaging.Chosen, LocalStaging.Keeps;
    Untouched(staging.fs);
    if items.None? {
      return ParkPlain(AmbiguousMatch), staged;
    }
    var preference := w.policy.materialization.Preference();
    if preference == [] {
      return ParkPlain(MaterializationUnavailable), staged;
    }
    staging.PoliciesArePredictable(items.value, w.policy.materialization);
    if DistinctPaths(planned) { DistinctPathsDistinctItems(planned, dir); }
    if AllToBeCopied(staging.fs, planned, dir) { CopyOnlyRoom(staging, staging.fs, staging.free, planned, dir); }
    hide AllToBeCopied, TotalPlanned, LocalStaging.WrittenLength, LocalStaging.AllToCopy, LocalStaging.AllThere;
    var layout;
    ghost var before := staging.fs;
    layout := staging.Materialize(items.value, preference);
    staged := layout;
    OnlyDestinations(before, staging.fs, items.value);
    if layout.Err? {
      return StagingRefusal(layout.error), staged;
    }
    NowOnDisk(planned, dir, items.value, staging.fs);
    var files := RecordStrategies(planned, dir, layout.value);
    if DistinctPaths(planned) { RecordedAsStaged(before, staging.fs, planned, dir, items.value, layout.value, files); }
    outcome := Advance(NO_PATCH.(
      stagingDir := Some(dir), materialization := SummaryStrategy(layout.value), files := Some(files)));
  }

  ghost predicate AllOnDisk(planned: seq<PlannedFile>, dir: string, fs: Fs) {
    && fs.Valid()
    && forall i :: 0 <= i < |planned| ==>
         planned[i].source.Some? && AlreadyStaged(fs, ItemFor(planned[i], dir))
  }

  /** Every library name is bound as it was. */
  ghost predicate LibraryNamesKept(before: Fs, now: Fs) {
    forall n :: n in before.names && n.InLibrary? ==> n in now.names && now.names[n] == before.names[n]
  }

  lemma Untouched(fs: Fs)
    requires fs.Valid()
    ensures Preserves(fs, fs) && LibraryNamesKept(fs, fs)
  {
  }

  lemma OnlyDestinations(before: Fs, now: Fs, items: seq<Item>)
    requires OnlyRenames(before, now, Destinations(items))
    ensures LibraryNamesKept(before, now)
  {
  }

  lemma NowOnDisk(planned: seq<PlannedFile>, dir: string, items: seq<Item>, fs: Fs)
    requires fs.Valid() && !SomeSourceless(planned) && items == ItemsFor(planned, dir)
    requires DistinctDestinations(items) ==> forall i :: 0 <= i < |items| ==> AlreadyStaged(fs, items[i])
    ensures DistinctPaths(planned) ==> AllOnDisk(planned, dir, fs)
  {
    if DistinctPaths(planned) {
      DistinctPathsDistinctItems(planned, dir);
      forall i | 0 <= i < |planned| ensures planned[i].source.Some? && AlreadyStaged(fs, ItemFor(planned[i], dir)) {
        assert items[i] == ItemFor(planned[i], dir);
      }
    }
  }

  // ---- What is recorded is what was staged ------------------------------------------------------------

  /**
   * At its size in its place: what was there before, recorded as it was (and as a hardlink where nothing
   * was), or the library file's bytes, recorded as a hardlink exactly when it is that very file.
   */
  ghost predicate FileStaged(before: Fs, after: Fs, file: PlannedFile, path: string, recorded: Option<Strategy>)
    requires before.Valid() && file.source.Some?
  {
    var place, source := InStaging(path), InLibrary(file.source.value);
    && after.Valid() && after.HasSize(place, file.length) && recorded.Some?
    && if before.HasSize(place, file.length)
       then after.names[place] == before.names[place] && recorded.value == file.materializedAs.GetOr(Hardlink)
       else
         && before.Exists(source) && after.Read(place) == before.Read(source)
         && (recorded.value == Hardlink <==> after.names[place] == before.names[source])
  }

  /** Every planned file is, and its plan says how. */
  ghost predicate StagedFromLibrary(
    before: Fs, after: Fs, planned: seq<PlannedFile>, dir: string, files: seq<PlannedFile>)
    requires before.Valid()
  {
    && |files| == |planned|
    && forall i :: 0 <= i < |planned| ==>
         && files[i] == planned[i].(materializedAs := files[i].materializedAs) && planned[i].source.Some?
         && FileStaged(before, after, planned[i], dir + "/" + planned[i].torrentPath, files[i].materializedAs)
  }

  /** The only report of a path is the one found. */
  lemma {:induction false} StrategyOfOnly(layout: seq<StagedFile>, i: nat)
    requires i < |layout| && forall j :: 0 <= j < |layout| && j != i ==> layout[j].path != layout[i].path
    ensures StrategyFor(layout, layout[i].path) == Some(layout[i].strategy)
  {
    if i < |layout| - 1 { StrategyOfOnly(layout[..|layout| - 1], i); }
  }

  lemma {:induction false} SummaryIsRiskiest(layout: seq<StagedFile>)
    ensures SummaryStrategy(layout) == Some(Hardlink)
            <==> exists i :: 0 <= i < |layout| && layout[i].strategy == Hardlink
  {
  }

  lemma {:induction false} RecordedAsStaged(
    before: Fs, after: Fs, planned: seq<PlannedFile>, dir: string, items: seq<Item>, layout: seq<StagedFile>,
    files: seq<PlannedFile>)
    requires before.Valid() && !SomeSourceless(planned) && DistinctPaths(planned)
    requires items == ItemsFor(planned, dir) && |layout| == |items|
    requires forall i :: 0 <= i < |items| ==> layout[i].path == items[i].destination
    requires DistinctDestinations(items) ==> Faithful(before, after, items, layout)
    requires after.Valid() && AllOnDisk(planned, dir, after) && LibraryNamesKept(before, after)
    requires files == seq(|planned|, k requires 0 <= k < |planned| => Materialized(planned[k], dir, layout))
    ensures StagedFromLibrary(before, after, planned, dir, files)
    ensures SummaryStrategy(layout) == Some(Hardlink)
            <==> exists f :: f in files && f.materializedAs == Some(Hardlink)
  {
    DistinctPathsDistinctItems(planned, dir);
    forall i | 0 <= i < |planned|
      ensures files[i].materializedAs == Some(layout[i].strategy)
      ensures FileStaged(before, after, planned[i], dir + "/" + planned[i].torrentPath, files[i].materializedAs)
    {
      assert forall j :: 0 <= j < |layout| && j != i ==> items[j].destination != items[i].destination;
      StrategyOfOnly(layout, i);
      ItemStagedAs(before, after, planned[i], dir, layout[i].strategy);
    }
    SummaryIsRiskiest(layout);
    hide FileStaged, SummaryStrategy, StrategyFor;
    if i :| 0 <= i < |layout| && layout[i].strategy == Hardlink { assert files[i] in files; }
  }

  lemma ItemStagedAs(before: Fs, after: Fs, file: PlannedFile, dir: string, strategy: Strategy)
    requires before.Valid() && file.source.Some? && FaithfulItem(before, after, ItemFor(file, dir), strategy)
    requires AlreadyStaged(after, ItemFor(file, dir)) && LibraryNamesKept(before, after)
    ensures FileStaged(before, after, file, dir + "/" + file.torrentPath, Some(strategy))
  {
    var source := InLibrary(file.source.value);
    if before.Exists(source) { assert before.names[source] in before.contents; }
  }
}
