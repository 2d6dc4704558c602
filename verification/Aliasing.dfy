/** What a staged file that is a library file is reported as under a set of policies. */
module Aliasing {
  import opened Prelude
  import opened Lifecycle
  import opened JobModel
  import opened MatchModel
  import opened Policy
  import opened Steps
  import opened Disk
  import opened StagingPass
  import opened LibrarySafety

  /** The policies passes run under, whether the staging filesystem clones, and which sources are on it. */
  datatype Setting = Setting(policies: set<MaterializationPolicy>, cloning: bool, local: LibraryPath -> bool) {
    function CapsOf(source: LibraryPath): Caps { Caps(local(source), local(source) && cloning) }
  }

  ghost predicate Within(e: Event, g: Setting) {
    e.PassBegins? ==> e.caps == g.CapsOf(e.source) && exists p :: p in g.policies && e.preference == p.Preference()
  }

  ghost predicate AllWithin(events: seq<Event>, g: Setting) {
    forall i :: 0 <= i < |events| ==> Within(events[i], g)
  }

  /** A policy under which a hardlink is ever reached. */
  predicate Linking(policy: MaterializationPolicy, cloning: bool) {
    policy.allowHardlink && !policy.allowCopy && !(policy.preferReflink && cloning)
  }

  /** A policy under which a file of its own is ever staged. */
  predicate Replicating(policy: MaterializationPolicy, cloning: bool) {
    policy.allowCopy || (policy.preferReflink && cloning)
  }

  /** The policy can get a file staged by this strategy. */
  predicate Yields(policy: MaterializationPolicy, cloning: bool, strategy: Strategy) {
    match strategy
    case Reflink => policy.preferReflink && cloning
    case Copy => policy.allowCopy
    case Hardlink => Linking(policy, cloning)
  }

  ghost predicate SomeLinks(g: Setting) { exists p :: p in g.policies && Linking(p, g.cloning) }
  ghost predicate SomeCopies(g: Setting) { exists p :: p in g.policies && p.allowCopy }
  ghost predicate SomeReplicates(g: Setting) { exists p :: p in g.policies && Replicating(p, g.cloning) }

  /** A hardlink, which is also what is assumed when nothing is known, or what some policy can get. */
  ghost predicate Attributable(strategy: Strategy, g: Setting) {
    strategy == Hardlink || exists p :: p in g.policies && Yields(p, g.cloning, strategy)
  }

  /** Strategies before the `k`-th were unavailable on these devices; a copy never is. */
  ghost predicate FellThrough(p: Pass, k: nat) {
    forall j :: 0 <= j < k && j < |p.preference| ==>
      p.preference[j] != Copy && (p.preference[j] == Reflink ==> !p.caps.reflink)
  }

  ghost predicate PassFits(p: Pass, policy: MaterializationPolicy, cloning: bool) {
    && p.preference == policy.Preference() && p.caps.reflink == (p.caps.canHardlink && cloning)
    && (p.phase.Trying? ==> FellThrough(p, p.phase.k))
    && (p.phase.Copying? ==> policy.allowCopy)
    && (p.phase.Sizing? ==> Yields(policy, cloning, p.phase.strategy))
    && (p.phase.Finished? && p.phase.result.Ok? ==>
          p.phase.result.value == p.item.previous.GetOr(Hardlink) || Yields(policy, cloning, p.phase.result.value))
  }

  ghost predicate Belongs(p: Pass, g: Setting) {
    && (exists policy :: policy in g.policies && PassFits(p, policy, g.cloning))
    && (p.item.previous.Some? ==> Attributable(p.item.previous.value, g))
  }

  predicate Aliases(s: System, n: Name) {
    n.InStaging? && n in s.fs.names && s.fs.names[n] in s.library
  }

  ghost predicate Consistent(s: System, g: Setting) {
    && (forall id :: id in s.passes ==> Belongs(s.passes[id], g))
    && (forall d :: d in s.recorded ==> Attributable(s.recorded[d], g))
    && (forall d :: d in s.materialized ==> Attributable(s.materialized[d], g))
    && (!SomeLinks(g) ==> forall n :: !Aliases(s, n))
  }

  /** Each strategy stands where the policy puts it, the hardlink last. */
  lemma PlaceInOrder(policy: MaterializationPolicy, k: nat)
    requires k < |policy.Preference()|
    ensures policy.Preference()[k] == Reflink ==> policy.preferReflink
    ensures policy.Preference()[k] == Copy ==> policy.allowCopy
    ensures policy.Preference()[k] == Hardlink ==>
              && policy.allowHardlink && k + 1 == |policy.Preference()|
              && (policy.preferReflink ==> k > 0 && policy.Preference()[0] == Reflink)
              && (policy.allowCopy ==> k > 0 && policy.Preference()[k - 1] == Copy)
  {
    var order := policy.Preference();
    assert policy.preferReflink ==> order[0] == Reflink;
    assert policy.allowHardlink ==> order[|order| - 1] == Hardlink;
    assert policy.allowHardlink && policy.allowCopy ==> order[|order| - 2] == Copy;
    assert forall j :: 0 <= j < |order| && order[j] == Hardlink ==> j == |order| - 1;
  }

  lemma AttemptFits(fs: Fs, p: Pass, luck: Luck, policy: MaterializationPolicy, cloning: bool)
    requires fs.Valid() && PassFits(p, policy, cloning) && p.phase.Trying? && p.phase.k < |p.preference|
    ensures var (after, phase) := Attempt(fs, p.item, p.caps, p.preference[p.phase.k], p.phase.k, luck);
            PassFits(p.(phase := phase), policy, cloning)
  {
    PlaceInOrder(policy, p.phase.k);
  }

  lemma PassStepFits(fs: Fs, p: Pass, luck: Luck, policy: MaterializationPolicy, cloning: bool)
    requires fs.Valid() && IsOpen(p, fs) && PassFits(p, policy, cloning)
    ensures PassFits(p.(phase := PassStep(fs, p, luck).1), policy, cloning)
  {
    if p.phase.Trying? && p.phase.k < |p.preference| {
      AttemptFits(fs, p, luck, policy, cloning);
      hide Attempt;
    }
  }

  lemma PassStepBelongs(fs: Fs, p: Pass, luck: Luck, g: Setting)
    requires fs.Valid() && IsOpen(p, fs) && Belongs(p, g)
    ensures Belongs(p.(phase := PassStep(fs, p, luck).1), g)
  {
    var policy :| policy in g.policies && PassFits(p, policy, g.cloning);
    PassStepFits(fs, p, luck, policy, g.cloning);
    hide PassStep, PassFits;
  }

  /** A name staged by this call is a library file only by a hardlink. */
  lemma PassStepAliases(fs: Fs, p: Pass, luck: Luck, policy: MaterializationPolicy, cloning: bool, library: set<Inode>)
    requires fs.Valid() && IsOpen(p, fs) && PassFits(p, policy, cloning) && !Linking(policy, cloning)
    requires forall i :: i in library ==> i in fs.contents
    requires p.item.To() in fs.names ==> fs.names[p.item.To()] !in library
    ensures var after := PassStep(fs, p, luck).0;
            p.item.To() in after.names ==> after.names[p.item.To()] !in library
  {
    if p.phase.Trying? && p.phase.k < |p.preference| {
      AttemptFits(fs, p, luck, policy, cloning);
      PlaceInOrder(policy, p.phase.k);
    }
  }

  /** A copy is only opened where some policy permits it, and then nothing staged is a library file. */
  lemma ConsistentIsHarmless(s: System, e: Event, g: Setting)
    requires Sound(s) && Consistent(s, g) && !(SomeLinks(g) && SomeCopies(g))
    ensures CopyHarmless(s, e)
  {
    if e.PassMoves? && e.id in s.passes {
      var p := s.passes[e.id];
      assert Belongs(p, g);
      var policy :| policy in g.policies && PassFits(p, policy, g.cloning);
      if p.phase.Trying? && p.phase.k < |p.preference| { PlaceInOrder(policy, p.phase.k); }
      assert !Aliases(s, p.item.To()) || SomeLinks(g);
    }
  }

  lemma MoveKeepsUnaliased(s: System, p: Pass, luck: Luck, g: Setting)
    requires Safe(s) && IsOpen(p, s.fs) && Belongs(p, g) && !SomeLinks(g) && !Aliases(s, p.item.To())
    ensures var after := PassStep(s.fs, p, luck).0;
            p.item.To() in after.names ==> after.names[p.item.To()] !in s.library
  {
    var policy :| policy in g.policies && PassFits(p, policy, g.cloning);
    assert !Linking(policy, g.cloning);
    PassStepAliases(s.fs, p, luck, policy, g.cloning, s.library.Keys);
  }

  lemma PassMovesKeepsConsistent(s: System, id: nat, luck: Luck, catalogue: Catalogue, g: Setting)
    requires Safe(s) && Consistent(s, g) && !(SomeLinks(g) && SomeCopies(g))
    ensures Consistent(Do(s, PassMoves(id, luck), catalogue), g)
  {
    if id in s.passes {
      var p := s.passes[id];
      ConsistentIsHarmless(s, PassMoves(id, luck), g);
      PassStepBelongs(s.fs, p, luck, g);
      PassStepKeeps(s.fs, p, luck, s.library.Keys);
      if !SomeLinks(g) { MoveKeepsUnaliased(s, p, luck, g); }
      var (fs, phase) := PassStep(s.fs, p, luck);
      hide PassStep, Attempt, Belongs, Attributable;
      var r := Do(s, PassMoves(id, luck), catalogue);
      assert r.fs == fs && r.passes == s.passes[id := p.(phase := phase)];
      assert forall n :: n != p.item.To() && Aliases(r, n) ==> Aliases(s, n);
    }
  }

  lemma BeginKeepsConsistent(s: System, e: Event, catalogue: Catalogue, g: Setting)
    requires Safe(s) && Consistent(s, g) && e.PassBegins? && Within(e, g)
    ensures Consistent(Do(s, e, catalogue), g)
  {
    var r := Do(s, e, catalogue);
    if e.id !in s.passes {
      var policy :| policy in g.policies && e.preference == policy.Preference();
      assert PassFits(r.passes[e.id], policy, g.cloning);
      assert Belongs(r.passes[e.id], g);
      hide Attributable, PassFits, Belongs;
      assert r.fs == s.fs && r.library == s.library;
      assert forall n :: Aliases(r, n) ==> Aliases(s, n);
    }
  }

  lemma FinishedIsAttributable(p: Pass, g: Setting)
    requires Belongs(p, g) && p.phase.Finished? && p.phase.result.Ok?
    ensures Attributable(p.phase.result.value, g)
  {
    var policy :| policy in g.policies && PassFits(p, policy, g.cloning);
  }

  lemma RecordsKeepsConsistent(s: System, id: nat, catalogue: Catalogue, g: Setting)
    requires Safe(s) && Consistent(s, g)
    ensures Consistent(Do(s, Records(id), catalogue), g)
  {
    if id in s.passes && s.passes[id].phase.Finished? && s.passes[id].phase.result.Ok? {
      FinishedIsAttributable(s.passes[id], g);
    }
    hide Attributable, PassFits, Belongs;
    var r := Do(s, Records(id), catalogue);
    assert forall n :: Aliases(r, n) ==> Aliases(s, n);
  }

  /** The summary of a report is the strategy of one of its files. */
  lemma SummaryIsSomeones(files: seq<StagedFile>) returns (i: nat)
    requires SummaryStrategy(files).Some?
    ensures i < |files| && files[i].strategy == SummaryStrategy(files).value
  {
    if AnyAliases(files) {
      i :| 0 <= i < |files| && files[i].strategy.AliasesLibraryFile();
    } else if j :| 0 <= j < |files| && files[j].strategy == Copy {
      i := j;
    } else {
      i := 0;
    }
  }

  lemma SummarisesKeepsConsistent(s: System, dir: string, ids: seq<nat>, catalogue: Catalogue, g: Setting)
    requires Safe(s) && Consistent(s, g)
    ensures Consistent(Do(s, Summarises(dir, ids), catalogue), g)
  {
    if AllStaged(s.passes, ids) && SummaryStrategy(ReportOf(s.passes, ids)).Some? {
      var i := SummaryIsSomeones(ReportOf(s.passes, ids));
      FinishedIsAttributable(s.passes[ids[i]], g);
    }
    hide Attributable, PassFits, Belongs, SummaryStrategy;
    var r := Do(s, Summarises(dir, ids), catalogue);
    assert forall n :: Aliases(r, n) ==> Aliases(s, n);
  }

  lemma EventKeepsConsistent(s: System, e: Event, catalogue: Catalogue, g: Setting)
    requires Safe(s) && Consistent(s, g) && Within(e, g) && !(SomeLinks(g) && SomeCopies(g))
    ensures Consistent(Do(s, e, catalogue), g)
  {
    if e.PassMoves? {
      PassMovesKeepsConsistent(s, e.id, e.luck, catalogue, g);
    } else if e.PassBegins? {
      BeginKeepsConsistent(s, e, catalogue, g);
    } else if e.Records? {
      RecordsKeepsConsistent(s, e.id, catalogue, g);
    } else if e.Summarises? {
      SummarisesKeepsConsistent(s, e.dir, e.ids, catalogue, g);
    } else if e.PassCrashes? {
      assert forall n :: Aliases(Do(s, e, catalogue), n) ==> Aliases(s, n);
    } else {
      NewLibraryFilesAreNew(s, e, catalogue);
      OtherEventsOnlyRemove(s, e, catalogue);
      hide Step, ApplyCalls, Witnessed, Belongs, Attributable;
    }
  }

  lemma NewLibraryFilesAreNew(s: System, e: Event, catalogue: Catalogue)
    requires Safe(s) && !e.PassMoves? && !e.PassBegins? && !e.PassCrashes? && !e.Records? && !e.Summarises?
    ensures forall n :: Aliases(Do(s, e, catalogue), n) ==> Aliases(s, n)
    ensures forall d :: d in Do(s, e, catalogue).recorded ==>
              d in s.recorded && Do(s, e, catalogue).recorded[d] == s.recorded[d]
    ensures Do(s, e, catalogue).materialized == s.materialized
  {
    OtherEventsOnlyRemove(s, e, catalogue);
    hide Step, ApplyCalls, Witnessed, OnDisk;
  }

  lemma {:induction false} RunsAreConsistent(s: System, events: seq<Event>, catalogue: Catalogue, g: Setting)
    requires Initial(s) && AllWithin(events, g) && !(SomeLinks(g) && SomeCopies(g))
    ensures Safe(Run(s, events, catalogue)) && Consistent(Run(s, events, catalogue), g)
  {
    if events != [] {
      var rest, e := events[..|events| - 1], events[|events| - 1];
      RunsAreConsistent(s, rest, catalogue, g);
      var before := Run(s, rest, catalogue);
      ConsistentIsHarmless(before, e, g);
      EventKeepsSafe(before, e, catalogue);
      EventKeepsConsistent(before, e, catalogue, g);
    }
  }

  /**
   * A staged file that is a library file is a hardlink to every pass that finished on it and to the
   * job row, and so is whatever the row says of a directory it is in.
   */
  ghost predicate AliasesReported(s: System) {
    forall n :: Aliases(s, n) ==>
      && (n.path in s.recorded ==> s.recorded[n.path] == Hardlink)
      && (forall dir :: dir in s.materialized && Beneath(n.path, dir) ==> s.materialized[dir] == Hardlink)
      && forall id :: id in s.passes && s.passes[id].item.destination == n.path
                      && s.passes[id].phase.Finished? && s.passes[id].phase.result.Ok?
                      ==> s.passes[id].phase.result.value == Hardlink
  }

  /** Where no policy copies, or none links, overlapping passes never write a library file. */
  lemma CopyingOrLinkingIsSafe(s: System, events: seq<Event>, catalogue: Catalogue, g: Setting)
    requires Initial(s) && AllWithin(events, g) && !(SomeLinks(g) && SomeCopies(g))
    ensures LibraryIntact(Run(s, events, catalogue))
  {
    RunsAreConsistent(s, events, catalogue, g);
  }

  /** Where no policy replicates, or none links, every alias is reported. */
  lemma ReplicatingOrLinkingIsReported(s: System, events: seq<Event>, catalogue: Catalogue, g: Setting)
    requires Initial(s) && AllWithin(events, g) && !(SomeLinks(g) && SomeReplicates(g))
    ensures AliasesReported(Run(s, events, catalogue))
  {
    if SomeCopies(g) {
      var p :| p in g.policies && p.allowCopy;
      assert Replicating(p, g.cloning);
    }
    RunsAreConsistent(s, events, catalogue, g);
    var r := Run(s, events, catalogue);
    if SomeLinks(g) {
      forall strategy | Attributable(strategy, g) ensures strategy == Hardlink { NotByLink(strategy, g); }
      forall id | id in r.passes && r.passes[id].phase.Finished? && r.passes[id].phase.result.Ok?
        ensures r.passes[id].phase.result.value == Hardlink
      {
        assert Belongs(r.passes[id], g);
        FinishedIsAttributable(r.passes[id], g);
      }
    }
  }

  lemma NotByLink(strategy: Strategy, g: Setting)
    requires Attributable(strategy, g)
    ensures strategy != Hardlink ==> SomeReplicates(g)
  {
    if strategy != Hardlink {
      var p :| p in g.policies && Yields(p, g.cloning, strategy);
      assert Replicating(p, g.cloning);
    }
  }

  /** In such runs, incomplete data of a job with a library file in its directory is held as aliased. */
  lemma AliasedJobsAreHeld(
    s: System, events: seq<Event>, catalogue: Catalogue, g: Setting, n: Name, dir: string, ratio: real)
    requires Initial(s) && AllWithin(events, g) && !(SomeLinks(g) && SomeReplicates(g))
    requires Aliases(Run(s, events, catalogue), n) && Beneath(n.path, dir)
    ensures var materialized := Run(s, events, catalogue).materialized;
            AssessData(Partial(ratio), if dir in materialized then Some(materialized[dir]) else None)
            == Hold(AliasedIncompleteData)
  {
    ReplicatingOrLinkingIsReported(s, events, catalogue, g);
    hide Run, Initial;
  }

  /** One hardlinked file makes the job's recorded materialization a hardlink, and its data held as aliased. */
  lemma OneAliasMarksTheJob(job: Job, w: World, k: nat)
    requires job.row.state == Matched && Step(job, w).outcome.Advance?
    requires w.staged.Ok? && k < |w.staged.value| && w.staged.value[k].strategy == Hardlink
    ensures Step(job, w).outcome.patch.materialization == Some(Hardlink)
    ensures forall ratio: real ::
              AssessData(Partial(ratio), Step(job, w).outcome.patch.materialization) == Hold(AliasedIncompleteData)
  {
    assert AnyAliases(w.staged.value);
  }

  /** An alias reported as anything else leaves the job's data held as plainly incomplete, not as aliased. */
  lemma HiddenAliasLooksIncomplete(path: string, length: nat, ratio: real, strategy: Strategy)
    requires strategy != Hardlink
    ensures SummaryStrategy([StagedFile(path, strategy, length)]) == Some(strategy)
    ensures AssessData(Partial(ratio), Some(strategy)) == Hold(IncompleteData)
  {
    assert [StagedFile(path, strategy, length)][0].strategy == strategy;
  }
}
