/** Which policies may be in use together, and the runs that go wrong under the others. */
module PolicyConflicts {
  import opened Prelude
  import opened JobModel
  import opened Policy
  import opened Disk
  import opened StagingPass
  import opened LibrarySafety
  import opened Aliasing

  // ---- Runs put together from passes ---------------------------------------------------------------

  lemma RunSnoc(s: System, events: seq<Event>, e: Event, catalogue: Catalogue)
    requires Sound(s)
    ensures Run(s, events + [e], catalogue) == Do(Run(s, events, catalogue), e, catalogue)
  {
    assert (events + [e])[..|events|] == events;
  }

  lemma {:induction false} RunAppend(s: System, first: seq<Event>, second: seq<Event>, catalogue: Catalogue)
    requires Sound(s)
    ensures Run(s, first + second, catalogue) == Run(Run(s, first, catalogue), second, catalogue)
  {
    hide Do;
    if second == [] {
      assert first + second == first;
    } else {
      var rest, e := second[..|second| - 1], second[|second| - 1];
      RunAppend(s, first, rest, catalogue);
      assert first + second == first + rest + [e] && second == rest + [e];
      RunSnoc(s, first + rest, e, catalogue);
      RunSnoc(Run(s, first, catalogue), rest, e, catalogue);
    }
  }

  lemma AloneSnoc(s: System, events: seq<Event>, e: Event, catalogue: Catalogue)
    requires Sound(s)
    ensures Alone(s, events + [e], catalogue)
            <==> Alone(s, events, catalogue) && BeginsAlone(Run(s, events, catalogue), e)
  {
    assert (events + [e])[..|events|] == events;
    hide Do, Run, BeginsAlone, Sound;
  }

  lemma {:induction false} AloneAppend(s: System, first: seq<Event>, second: seq<Event>, catalogue: Catalogue)
    requires Sound(s) && Alone(s, first, catalogue) && Alone(Run(s, first, catalogue), second, catalogue)
    ensures Alone(s, first + second, catalogue)
  {
    if second == [] {
      assert first + second == first;
    } else {
      var rest, e := second[..|second| - 1], second[|second| - 1];
      hide Do, Run, Alone, BeginsAlone, Sound;
      assert first + second == first + rest + [e] && second == rest + [e];
      RunAppend(s, first, rest, catalogue);
      AloneSnoc(Run(s, first, catalogue), rest, e, catalogue);
      AloneAppend(s, first, rest, catalogue);
      AloneSnoc(s, first + rest, e, catalogue);
    }
  }

  lemma ThreeParts(
    s: System, a: seq<Event>, b: seq<Event>, c: seq<Event>, catalogue: Catalogue, s1: System, s2: System)
    requires Sound(s) && s1 == Run(s, a, catalogue) && s2 == Run(s1, b, catalogue)
    ensures Run(s, a + b + c, catalogue) == Run(s2, c, catalogue)
    ensures Alone(s, a, catalogue) && Alone(s1, b, catalogue) && Alone(s2, c, catalogue) ==>
              Alone(s, a + b + c, catalogue)
  {
    hide Do, Run, Alone;
    RunAppend(s, a, b, catalogue);
    RunAppend(s, a + b, c, catalogue);
    if Alone(s, a, catalogue) && Alone(s1, b, catalogue) && Alone(s2, c, catalogue) {
      AloneAppend(s, a, b, catalogue);
      AloneAppend(s, a + b, c, catalogue);
    }
  }

  lemma OneAlone(s: System, e: Event, catalogue: Catalogue)
    requires Sound(s) && BeginsAlone(s, e)
    ensures Alone(s, [e], catalogue)
  {
    hide Do;
    assert [e][..|[e]| - 1] == [];
    assert Run(s, [], catalogue) == s && Alone(s, [], catalogue);
  }

  lemma {:induction false} NothingBegins(s: System, events: seq<Event>, catalogue: Catalogue)
    requires Sound(s) && forall i :: 0 <= i < |events| ==> !events[i].PassBegins?
    ensures Alone(s, events, catalogue)
  {
    if events != [] { NothingBegins(s, events[..|events| - 1], catalogue); }
  }

  const NEAR: LibraryPath := ["near"]
  const FAR: LibraryPath := ["far"]
  const STAGED: Name := InStaging("job/film")

  /** One source is on the staging filesystem's device, the others are not. */
  const NEAR_ONLY: LibraryPath -> bool := (source: LibraryPath) => source == NEAR

  /** A library of two files, and nothing else yet. */
  function TwoFiles(b: Byte): System {
    System(Fs(map[InLibrary(NEAR) := 0, InLibrary(FAR) := 1], map[0 := [b], 1 := [b]], 2),
           map[0 := [b], 1 := [b]], map[], map[], map[], map[])
  }

  function ItemOf(s: System, source: LibraryPath): Item {
    Item(source, "job/film", 1, if "job/film" in s.recorded then Some(s.recorded["job/film"]) else None)
  }

  function PassOf(s: System, source: LibraryPath, policy: MaterializationPolicy, g: Setting): Pass {
    Begun(ItemOf(s, source), policy.Preference(), g.CapsOf(source))
  }

  function Begin(id: nat, source: LibraryPath, policy: MaterializationPolicy, g: Setting): Event {
    PassBegins(id, source, "job/film", 1, policy.Preference(), g.CapsOf(source))
  }

  function Whole(
    id: nat, source: LibraryPath, policy: MaterializationPolicy, g: Setting, lucks: seq<Luck>): seq<Event>
  {
    [Begin(id, source, policy, g)] + Moves(id, lucks)
  }

  lemma BeginsAPass(
    s: System, id: nat, source: LibraryPath, policy: MaterializationPolicy, g: Setting, catalogue: Catalogue)
    requires Sound(s) && id !in s.passes
    ensures var begun := s.(passes := s.passes[id := PassOf(s, source, policy, g)]);
            Sound(begun) && Run(s, [Begin(id, source, policy, g)], catalogue) == begun
  {
    var begin := Begin(id, source, policy, g);
    RunSnoc(s, [], begin, catalogue);
    assert [] + [begin] == [begin];
    hide MaterializationPolicy.Preference;
  }

  lemma WholeIsAPass(
    s: System, id: nat, source: LibraryPath, policy: MaterializationPolicy, g: Setting, lucks: seq<Luck>,
    catalogue: Catalogue)
    requires Sound(s) && id !in s.passes
    ensures var (fs, p) := RunPass(s.fs, PassOf(s, source, policy, g), lucks);
            Run(s, Whole(id, source, policy, g, lucks), catalogue) == s.(fs := fs, passes := s.passes[id := p])
  {
    var begun := s.(passes := s.passes[id := PassOf(s, source, policy, g)]);
    BeginsAPass(s, id, source, policy, g, catalogue);
    hide Do, RunPass, Run, Sound, PassOf;
    RunAppend(s, [Begin(id, source, policy, g)], Moves(id, lucks), catalogue);
    PassAloneIsARun(begun, id, lucks, catalogue);
    var (fs, p) := RunPass(s.fs, begun.passes[id], lucks);
    assert begun.passes[id := p] == s.passes[id := p];
  }

  lemma WholeIsWithin(id: nat, source: LibraryPath, policy: MaterializationPolicy, g: Setting, lucks: seq<Luck>)
    requires policy in g.policies
    ensures AllWithin(Whole(id, source, policy, g, lucks), g)
  {
    var events := Whole(id, source, policy, g, lucks);
    forall i | 0 <= i < |events| ensures Within(events[i], g) {
      assert i > 0 ==> events[i] == Moves(id, lucks)[i - 1];
    }
  }

  lemma WholeIsAlone(
    s: System, id: nat, source: LibraryPath, policy: MaterializationPolicy, g: Setting, lucks: seq<Luck>,
    catalogue: Catalogue)
    requires Sound(s) && forall i :: Active(s, i) ==> s.passes[i].item.destination != "job/film"
    ensures Alone(s, Whole(id, source, policy, g, lucks), catalogue)
  {
    var begin := Begin(id, source, policy, g);
    OneAlone(s, begin, catalogue);
    NothingBegins(Run(s, [begin], catalogue), Moves(id, lucks), catalogue);
    AloneAppend(s, [begin], Moves(id, lucks), catalogue);
  }

  // ---- Single passes that meet no fault ---------------------------------------------------------------

  /** Up to the strategy after an unavailable clone. */
  function ToLast(policy: MaterializationPolicy): seq<Luck> {
    [Fine, Fine] + if policy.preferReflink then [Fine] else []
  }

  function Last(policy: MaterializationPolicy): nat { if policy.preferReflink then 1 else 0 }

  ghost predicate Startable(fs: Fs, item: Item) {
    fs.Valid() && !fs.Exists(item.To()) && fs.HasSize(item.From(), item.length)
  }

  lemma TwoCalls(fs: Fs, p: Pass)
    requires Startable(fs, p.item) && p.phase == Inspecting
    ensures RunPass(fs, p, [Fine, Fine]) == (fs, p.(phase := Trying(0)))
  {
    assert [] + [Fine] == [Fine] && [Fine] + [Fine] == [Fine, Fine];
    RunPassSnoc(fs, p, [], Fine);
    RunPassSnoc(fs, p, [Fine], Fine);
  }

  lemma ReachesLast(fs: Fs, p: Pass, policy: MaterializationPolicy)
    requires Startable(fs, p.item) && p.phase == Inspecting && p.preference == policy.Preference()
    requires policy.preferReflink ==> !p.caps.reflink
    ensures RunPass(fs, p, ToLast(policy)) == (fs, p.(phase := Trying(Last(policy))))
  {
    TwoCalls(fs, p);
    if policy.preferReflink { RunPassSnoc(fs, p, [Fine, Fine], Fine); }
  }

  lemma PassLinks(fs: Fs, p: Pass, policy: MaterializationPolicy, cloning: bool)
    requires Startable(fs, p.item) && p.phase == Inspecting && p.preference == policy.Preference()
    requires Linking(policy, cloning) && p.caps == Caps(true, cloning)
    ensures RunPass(fs, p, ToLast(policy) + [Fine])
            == (fs.Link(p.item.To(), p.item.From()), p.(phase := Sizing(Hardlink)))
  {
    ReachesLast(fs, p, policy);
    RunPassSnoc(fs, p, ToLast(policy), Fine);
    assert policy.Preference()[Last(policy)] == Hardlink;
  }

  lemma PassCopies(fs: Fs, p: Pass, policy: MaterializationPolicy, b: Byte)
    requires Startable(fs, p.item) && p.phase == Inspecting && p.preference == policy.Preference()
    requires policy.allowCopy && p.caps == Caps(false, false) && p.item.length == 1
    ensures RunPass(fs, p, ToLast(policy) + [Fine] + [Chunk([b])] + [Fine] + [Fine])
            == (fs.Create(p.item.To(), [b]), p.(phase := Finished(Ok(Copy))))
  {
    ReachesLast(fs, p, policy);
    var lucks := ToLast(policy);
    RunPassSnoc(fs, p, lucks, Fine);
    assert policy.Preference()[Last(policy)] == Copy;
    hide MaterializationPolicy.Preference;
    CopyFills(fs, p, lucks + [Fine], b);
  }

  lemma CopyFills(fs: Fs, p: Pass, lucks: seq<Luck>, b: Byte)
    requires Startable(fs, p.item) && p.phase == Inspecting && p.item.length == 1
    requires RunPass(fs, p, lucks) == (fs.Create(p.item.To(), []), p.(phase := Copying(fs.next)))
    ensures RunPass(fs, p, lucks + [Chunk([b])] + [Fine] + [Fine])
            == (fs.Create(p.item.To(), [b]), p.(phase := Finished(Ok(Copy))))
  {
    hide Attempt;
    var blank, full := fs.Create(p.item.To(), []), fs.Create(p.item.To(), [b]);
    RunPassSnoc(fs, p, lucks, Chunk([b]));
    assert blank.contents[fs.next] + [b] == [b];
    assert blank.Write(fs.next, [b]) == full;
    RunPassSnoc(fs, p, lucks + [Chunk([b])], Fine);
    RunPassSnoc(fs, p, lucks + [Chunk([b])] + [Fine], Fine);
    assert |full.Read(p.item.To())| == 1;
  }

  lemma PassClones(fs: Fs, p: Pass, policy: MaterializationPolicy)
    requires Startable(fs, p.item) && p.phase == Inspecting && p.preference == policy.Preference()
    requires policy.preferReflink && p.caps.reflink
    ensures RunPass(fs, p, [Fine, Fine] + [Fine] + [Fine])
            == (fs.Create(p.item.To(), fs.Read(p.item.From())), p.(phase := Finished(Ok(Reflink))))
  {
    TwoCalls(fs, p);
    assert policy.Preference()[0] == Reflink;
    RunPassSnoc(fs, p, [Fine, Fine], Fine);
    RunPassSnoc(fs, p, [Fine, Fine] + [Fine], Fine);
  }

  /** A file of the right size at the destination is reported as recorded. */
  lemma PassFinds(fs: Fs, p: Pass)
    requires fs.Valid() && p.phase == Inspecting && fs.HasSize(p.item.To(), p.item.length)
    ensures RunPass(fs, p, [Fine]) == (fs, p.(phase := Finished(Ok(p.item.previous.GetOr(Hardlink)))))
  {
    assert [] + [Fine] == [Fine];
    RunPassSnoc(fs, p, [], Fine);
  }

  // ---- Copying beside linking -------------------------------------------------------------------------

  function Truncating(p: MaterializationPolicy, q: MaterializationPolicy, g: Setting): seq<Event> {
    Whole(1, FAR, p, g, ToLast(p)) + Whole(2, NEAR, q, g, ToLast(q) + [Fine]) + [PassMoves(1, Fine)]
  }

  /** Whatever links at a name a copy is about to open. */
  lemma OpensTheLink(s: System, k: nat, i: Inode, catalogue: Catalogue)
    requires Sound(s) && 1 in s.passes && s.passes[1].phase == Trying(k) && s.passes[1].item.To() == STAGED
    requires k < |s.passes[1].preference| && s.passes[1].preference[k] == Copy
    requires s.fs.Exists(s.passes[1].item.From()) && s.fs.Exists(STAGED) && s.fs.names[STAGED] == i
    ensures var r := Do(s, PassMoves(1, Fine), catalogue);
            r.library == s.library && i in r.fs.contents && r.fs.contents[i] == []
  {
  }

  /** A pass under a policy that copies, from another device, is about to. */
  lemma AboutToCopy(p: MaterializationPolicy, g: Setting, b: Byte, catalogue: Catalogue)
    requires p.allowCopy && g.local == NEAR_ONLY
    ensures var s, copying := TwoFiles(b), PassOf(TwoFiles(b), FAR, p, g).(phase := Trying(Last(p)));
            Run(s, Whole(1, FAR, p, g, ToLast(p)), catalogue) == s.(passes := map[1 := copying])
    ensures Last(p) < |p.Preference()| && p.Preference()[Last(p)] == Copy
  {
    var s := TwoFiles(b);
    ReachesLast(s.fs, PassOf(s, FAR, p, g), p);
    hide Do, Run, RunPass, Whole;
    WholeIsAPass(s, 1, FAR, p, g, ToLast(p), catalogue);
  }

  /**
   * A copy and a link of different policies overlapping on one destination: the second links the
   * library file there after the first found nothing, and the first's copy then truncates it.
   */
  lemma OverlappingPoliciesTruncate(
    p: MaterializationPolicy, q: MaterializationPolicy, g: Setting, b: Byte, catalogue: Catalogue)
    requires p in g.policies && q in g.policies && p.allowCopy && Linking(q, g.cloning) && g.local == NEAR_ONLY
    ensures Initial(TwoFiles(b)) && AllWithin(Truncating(p, q, g), g)
    ensures var r := Run(TwoFiles(b), Truncating(p, q, g), catalogue);
            0 in r.library && 0 in r.fs.contents && r.library[0] == [b] && r.fs.contents[0] == []
  {
    var s := TwoFiles(b);
    assert Initial(s);
    var first, second := Whole(1, FAR, p, g, ToLast(p)), Whole(2, NEAR, q, g, ToLast(q) + [Fine]);
    AboutToCopy(p, g, b, catalogue);
    WholeIsWithin(1, FAR, p, g, ToLast(p));
    WholeIsWithin(2, NEAR, q, g, ToLast(q) + [Fine]);
    WithinAppend(first, second, PassMoves(1, Fine), g);
    hide Do, Run, Initial, AllWithin, Within, RunPass, Whole, ToLast, Last, MaterializationPolicy.Preference, Linking;
    var trying := Run(s, first, catalogue);
    PassLinks(trying.fs, PassOf(trying, NEAR, q, g), q, g.cloning);
    WholeIsAPass(trying, 2, NEAR, q, g, ToLast(q) + [Fine], catalogue);
    RunAppend(s, first, second, catalogue);
    RunSnoc(s, first + second, PassMoves(1, Fine), catalogue);
    OpensTheLink(Run(s, first + second, catalogue), Last(p), 0, catalogue);
  }

  lemma WithinAppend(first: seq<Event>, second: seq<Event>, e: Event, g: Setting)
    requires AllWithin(first, g) && AllWithin(second, g) && Within(e, g)
    ensures AllWithin(first + second + [e], g)
  {
  }

  /** However passes under these policies overlap, on whatever devices, no library file is written. */
  ghost predicate AlwaysIntact(policies: set<MaterializationPolicy>, cloning: bool) {
    forall local: LibraryPath -> bool, s: System, events: seq<Event>, catalogue: Catalogue ::
      Initial(s) && AllWithin(events, Setting(policies, cloning, local)) ==> LibraryIntact(Run(s, events, catalogue))
  }

  /**
   * Passes may overlap freely exactly when no policy in use permits copying while another, or an
   * earlier one, comes to hardlinks.
   */
  lemma OverlapIsSafeIff(policies: set<MaterializationPolicy>, cloning: bool)
    ensures AlwaysIntact(policies, cloning)
            <==> !exists p, q :: p in policies && q in policies && p.allowCopy && Linking(q, cloning)
  {
    var g := Setting(policies, cloning, NEAR_ONLY);
    if p, q :| p in policies && q in policies && p.allowCopy && Linking(q, cloning) {
      var catalogue: Catalogue := _ => [];
      OverlappingPoliciesTruncate(p, q, g, 0, catalogue);
      hide Initial, Run, AllWithin, Truncating, Linking;
      assert !LibraryIntact(Run(TwoFiles(0), Truncating(p, q, g), catalogue));
    } else {
      forall local: LibraryPath -> bool, s: System, events: seq<Event>, catalogue: Catalogue |
        Initial(s) && AllWithin(events, Setting(policies, cloning, local))
        ensures LibraryIntact(Run(s, events, catalogue))
      {
        CopyingOrLinkingIsSafe(s, events, catalogue, Setting(policies, cloning, local));
      }
    }
  }

  // ---- Replicating beside linking -----------------------------------------------------------------------

  /** A pass of a replicating policy to its end: from far a copy, or else from near a clone. */
  function Replicated(p: MaterializationPolicy, g: Setting): seq<Event> {
    if p.allowCopy then Whole(1, FAR, p, g, ToLast(p) + [Fine] + [Chunk([0])] + [Fine] + [Fine])
    else Whole(1, NEAR, p, g, [Fine, Fine] + [Fine] + [Fine])
  }

  function ReplicatedAs(p: MaterializationPolicy): Strategy { if p.allowCopy then Copy else Reflink }

  /** The staged file is recorded and then goes, the record stays. */
  const LOSES: seq<Event> := [Records(1), Discards("job", {})]

  /** A library file is linked and the process ends before that is recorded; the next pass finds it. */
  function Relinked(q: MaterializationPolicy, g: Setting): seq<Event> {
    Whole(2, NEAR, q, g, ToLast(q) + [Fine]) + [PassCrashes(2)] + Whole(3, NEAR, q, g, [Fine])
  }

  function Hiding(p: MaterializationPolicy, q: MaterializationPolicy, g: Setting): seq<Event> {
    Replicated(p, g) + LOSES + Relinked(q, g)
  }

  /** The pass replicated and is all there is beside the library. */
  ghost predicate HasReplica(s: System, strategy: Strategy) {
    && s.fs == TwoFiles(0).fs.Create(STAGED, [0]) && s.library == TwoFiles(0).library
    && s.passes.Keys == {1} && s.passes[1].phase == Finished(Ok(strategy)) && s.recorded == map[]
    && s.passes[1].item.destination == "job/film"
  }

  /** The record is all that is left of the replica. */
  ghost predicate LostReplica(s: System, strategy: Strategy) {
    && s.fs.Valid() && s.fs.HasSize(InLibrary(NEAR), 1) && s.fs.names[InLibrary(NEAR)] in s.library
    && !s.fs.Exists(STAGED) && s.recorded == map["job/film" := strategy]
    && s.passes.Keys == {1} && s.passes[1].phase.Finished?
  }

  lemma ReplicatingPass(p: MaterializationPolicy, g: Setting) returns (source: LibraryPath, lucks: seq<Luck>)
    requires Replicating(p, g.cloning) && g.local == NEAR_ONLY
    ensures Replicated(p, g) == Whole(1, source, p, g, lucks)
    ensures var s := TwoFiles(0);
            RunPass(s.fs, PassOf(s, source, p, g), lucks)
            == (s.fs.Create(STAGED, [0]), PassOf(s, source, p, g).(phase := Finished(Ok(ReplicatedAs(p)))))
  {
    var s := TwoFiles(0);
    hide RunPass, Whole, ToLast, MaterializationPolicy.Preference;
    if p.allowCopy {
      source, lucks := FAR, ToLast(p) + [Fine] + [Chunk([0])] + [Fine] + [Fine];
      PassCopies(s.fs, PassOf(s, FAR, p, g), p, 0);
    } else {
      source, lucks := NEAR, [Fine, Fine] + [Fine] + [Fine];
      PassClones(s.fs, PassOf(s, NEAR, p, g), p);
    }
  }

  lemma ReplicatesFirst(p: MaterializationPolicy, g: Setting, catalogue: Catalogue)
    requires Replicating(p, g.cloning) && g.local == NEAR_ONLY
    ensures HasReplica(Run(TwoFiles(0), Replicated(p, g), catalogue), ReplicatedAs(p))
  {
    var s := TwoFiles(0);
    var source, lucks := ReplicatingPass(p, g);
    WholeIsAPass(s, 1, source, p, g, lucks, catalogue);
    hide Do, Run, RunPass, Whole, MaterializationPolicy.Preference, Replicated, ReplicatedAs;
  }

  lemma ReplicatesAlone(p: MaterializationPolicy, g: Setting, catalogue: Catalogue)
    requires p in g.policies && Replicating(p, g.cloning) && g.local == NEAR_ONLY
    ensures AllWithin(Replicated(p, g), g) && Alone(TwoFiles(0), Replicated(p, g), catalogue)
  {
    var s := TwoFiles(0);
    var source, lucks := ReplicatingPass(p, g);
    assert Sound(s) && s.passes == map[];
    hide Do, Run, RunPass, Whole, MaterializationPolicy.Preference, Replicated, ReplicatedAs, Replicating, Alone,
      AllWithin, TwoFiles;
    WholeIsWithin(1, source, p, g, lucks);
    WholeIsAlone(s, 1, source, p, g, lucks, catalogue);
  }

  lemma RecordIsKept(s: System, strategy: Strategy, catalogue: Catalogue)
    requires HasReplica(s, strategy) && Sound(s)
    ensures Do(s, Records(1), catalogue) == s.(recorded := map["job/film" := strategy])
  {
  }

  lemma FileIsDiscarded(s: System, strategy: Strategy, catalogue: Catalogue)
    requires HasReplica(s.(recorded := map[]), strategy) && Sound(s) && s.recorded == map["job/film" := strategy]
    ensures LostReplica(Do(s, Discards("job", {}), catalogue), strategy)
  {
    var gone := set n | n in s.fs.names && n.InStaging? && Beneath(n.path, "job");
    assert Do(s, Discards("job", {}), catalogue) == s.(fs := s.fs.UnlinkAll(gone - {}));
    hide Do, Sound;
    assert "job" + "/" <= "job/film";
    assert gone - {} == {STAGED};
    WithoutReplica(s, strategy);
  }

  lemma WithoutReplica(s: System, strategy: Strategy)
    requires s.fs.Valid() && HasReplica(s.(recorded := map[]), strategy) && s.recorded == map["job/film" := strategy]
    ensures LostReplica(s.(fs := s.fs.UnlinkAll({STAGED})), strategy)
  {
    assert s.fs.UnlinkAll({STAGED}).names[InLibrary(NEAR)] == 0;
  }

  lemma LosesTheFile(s: System, strategy: Strategy, catalogue: Catalogue)
    requires Sound(s) && HasReplica(s, strategy)
    ensures LostReplica(Run(s, LOSES, catalogue), strategy) && Alone(s, LOSES, catalogue)
  {
    NothingBegins(s, LOSES, catalogue);
    var events := [Records(1)];
    assert [] + events == events && events + [Discards("job", {})] == LOSES;
    hide Do, Alone, LostReplica;
    RunSnoc(s, [], Records(1), catalogue);
    RecordIsKept(s, strategy, catalogue);
    RunSnoc(s, events, Discards("job", {}), catalogue);
    FileIsDiscarded(Run(s, events, catalogue), strategy, catalogue);
  }

  lemma LinksNear(s: System, q: MaterializationPolicy, g: Setting, strategy: Strategy, catalogue: Catalogue)
    requires Sound(s) && Linking(q, g.cloning) && g.local == NEAR_ONLY && LostReplica(s, strategy)
    ensures var events := Whole(2, NEAR, q, g, ToLast(q) + [Fine]);
            var r := Run(s, events, catalogue);
            r == s.(fs := s.fs.Link(STAGED, InLibrary(NEAR)),
                    passes := s.passes[2 := PassOf(s, NEAR, q, g).(phase := Sizing(Hardlink))])
  {
    assert Startable(s.fs, ItemOf(s, NEAR));
    PassLinks(s.fs, PassOf(s, NEAR, q, g), q, g.cloning);
    hide Do, Run, RunPass, Whole, MaterializationPolicy.Preference, ToLast, Linking, Sound, LostReplica, Startable;
    WholeIsAPass(s, 2, NEAR, q, g, ToLast(q) + [Fine], catalogue);
  }

  lemma LinksAndEnds(s: System, q: MaterializationPolicy, g: Setting, strategy: Strategy, catalogue: Catalogue)
    requires Sound(s) && Linking(q, g.cloning) && g.local == NEAR_ONLY && LostReplica(s, strategy)
    ensures var events := Whole(2, NEAR, q, g, ToLast(q) + [Fine]) + [PassCrashes(2)];
            && Run(s, events, catalogue) == s.(fs := s.fs.Link(STAGED, InLibrary(NEAR)))
            && Alone(s, events, catalogue)
  {
    var events := Whole(2, NEAR, q, g, ToLast(q) + [Fine]);
    LinksNear(s, q, g, strategy, catalogue);
    WholeIsAlone(s, 2, NEAR, q, g, ToLast(q) + [Fine], catalogue);
    hide Do, Run, Whole, Alone, ToLast, Linking, Sound, PassOf;
    assert s.passes[2 := PassOf(s, NEAR, q, g).(phase := Sizing(Hardlink))] - {2} == s.passes;
    Crashes(Run(s, events, catalogue), 2, catalogue);
    RunAppend(s, events, [PassCrashes(2)], catalogue);
    AloneAppend(s, events, [PassCrashes(2)], catalogue);
  }

  lemma FindsTheLink(s: System, q: MaterializationPolicy, g: Setting, strategy: Strategy, catalogue: Catalogue)
    requires Sound(s) && LostReplica(s, strategy)
    ensures var t := s.(fs := s.fs.Link(STAGED, InLibrary(NEAR)));
            var r := Run(t, Whole(3, NEAR, q, g, [Fine]), catalogue);
            && Alone(t, Whole(3, NEAR, q, g, [Fine]), catalogue)
            && Aliases(r, STAGED) && 3 in r.passes && r.passes[3].item.destination == "job/film"
            && r.passes[3].phase == Finished(Ok(strategy))
  {
    var t := s.(fs := s.fs.Link(STAGED, InLibrary(NEAR)));
    PassFinds(t.fs, PassOf(t, NEAR, q, g));
    WholeIsAPass(t, 3, NEAR, q, g, [Fine], catalogue);
    WholeIsAlone(t, 3, NEAR, q, g, [Fine], catalogue);
    hide Do, Run, RunPass, Whole, Alone, MaterializationPolicy.Preference;
  }

  /** A pass links, ends before it is recorded, and the next one reports what the record says. */
  lemma RelinksUnnoticed(s: System, q: MaterializationPolicy, g: Setting, strategy: Strategy, catalogue: Catalogue)
    requires Sound(s) && q in g.policies && Linking(q, g.cloning) && g.local == NEAR_ONLY
    requires LostReplica(s, strategy)
    ensures var r := Run(s, Relinked(q, g), catalogue);
            Aliases(r, STAGED) && 3 in r.passes && r.passes[3].item.destination == "job/film"
            && r.passes[3].phase == Finished(Ok(strategy))
    ensures AllWithin(Relinked(q, g), g) && Alone(s, Relinked(q, g), catalogue)
  {
    var lucks := ToLast(q) + [Fine];
    var link, find := Whole(2, NEAR, q, g, lucks), Whole(3, NEAR, q, g, [Fine]);
    LinksAndEnds(s, q, g, strategy, catalogue);
    FindsTheLink(s, q, g, strategy, catalogue);
    WholeIsWithin(2, NEAR, q, g, lucks);
    WholeIsWithin(3, NEAR, q, g, [Fine]);
    hide Do, Run, Whole, Alone, AllWithin, Within, MaterializationPolicy.Preference, ToLast, Linking, LostReplica,
      Aliases, Sound;
    RunAppend(s, link + [PassCrashes(2)], find, catalogue);
    AloneAppend(s, link + [PassCrashes(2)], find, catalogue);
    assert AllWithin(link + [PassCrashes(2)] + find, g) by { WithinOnEnd(link, 2, find, g); }
  }

  lemma Crashes(s: System, id: nat, catalogue: Catalogue)
    requires Sound(s)
    ensures Run(s, [PassCrashes(id)], catalogue) == s.(passes := s.passes - {id})
    ensures Alone(s, [PassCrashes(id)], catalogue)
  {
    assert [] + [PassCrashes(id)] == [PassCrashes(id)];
    RunSnoc(s, [], PassCrashes(id), catalogue);
    NothingBegins(s, [PassCrashes(id)], catalogue);
  }

  lemma WithinOnEnd(first: seq<Event>, id: nat, last: seq<Event>, g: Setting)
    requires AllWithin(first, g) && AllWithin(last, g)
    ensures AllWithin(first + [PassCrashes(id)] + last, g)
  {
  }

  /**
   * Even one pass at a time: the row says an earlier file here was a copy or a clone when a pass
   * under another policy links the library file and the process ends before that is recorded. The
   * next pass finds a file of the right size and reports it as the earlier one.
   */
  lemma ChangedPolicyHidesAlias(p: MaterializationPolicy, q: MaterializationPolicy, g: Setting, catalogue: Catalogue)
    requires p in g.policies && q in g.policies && g.local == NEAR_ONLY
    requires Replicating(p, g.cloning) && Linking(q, g.cloning)
    ensures Initial(TwoFiles(0)) && AllWithin(Hiding(p, q, g), g) && Alone(TwoFiles(0), Hiding(p, q, g), catalogue)
    ensures var r := Run(TwoFiles(0), Hiding(p, q, g), catalogue);
            Aliases(r, STAGED) && 3 in r.passes && r.passes[3].item.destination == "job/film"
            && r.passes[3].phase == Finished(Ok(ReplicatedAs(p))) && ReplicatedAs(p) != Hardlink
  {
    hide Do, Run, Alone, AllWithin, Linking, Replicating, Replicated, Relinked, HasReplica, LostReplica, Aliases,
      RunPass;
    var s := TwoFiles(0);
    assert Initial(s);
    hide Initial, TwoFiles, Sound;
    var first, last := Replicated(p, g), Relinked(q, g);
    ReplicatesFirst(p, g, catalogue);
    ReplicatesAlone(p, g, catalogue);
    var replicated := Run(s, first, catalogue);
    LosesTheFile(replicated, ReplicatedAs(p), catalogue);
    var lost := Run(replicated, LOSES, catalogue);
    RelinksUnnoticed(lost, q, g, ReplicatedAs(p), catalogue);
    ThreeParts(s, first, LOSES, last, catalogue, replicated, lost);
    LosesWithin(first, last, g);
  }

  lemma LosesWithin(first: seq<Event>, last: seq<Event>, g: Setting)
    requires AllWithin(first, g) && AllWithin(last, g)
    ensures AllWithin(first + LOSES + last, g)
  {
  }

  /** However passes under these policies overlap, every staged file that is a library file is reported as such. */
  ghost predicate AlwaysReported(policies: set<MaterializationPolicy>, cloning: bool) {
    forall local: LibraryPath -> bool, s: System, events: seq<Event>, catalogue: Catalogue ::
      Initial(s) && AllWithin(events, Setting(policies, cloning, local)) ==> AliasesReported(Run(s, events, catalogue))
  }

  /** The same, where no pass begins while another runs on its destination. */
  ghost predicate AlwaysReportedAlone(policies: set<MaterializationPolicy>, cloning: bool) {
    forall local: LibraryPath -> bool, s: System, events: seq<Event>, catalogue: Catalogue ::
      Initial(s) && AllWithin(events, Setting(policies, cloning, local)) && Alone(s, events, catalogue)
      ==> AliasesReported(Run(s, events, catalogue))
  }

  ghost predicate MayHide(policies: set<MaterializationPolicy>, cloning: bool) {
    exists p, q :: p in policies && q in policies && Replicating(p, cloning) && Linking(q, cloning)
  }

  /**
   * Every alias is reported exactly when no policy in use, or used earlier, gets files of their own
   * staged while another comes to hardlinks; one pass at a time needs no less.
   */
  lemma AliasesAreReportedIff(policies: set<MaterializationPolicy>, cloning: bool)
    ensures AlwaysReported(policies, cloning) <==> !MayHide(policies, cloning)
    ensures AlwaysReportedAlone(policies, cloning) <==> !MayHide(policies, cloning)
  {
    if MayHide(policies, cloning) {
      HiddenSomewhere(policies, cloning);
    } else {
      forall local: LibraryPath -> bool, s: System, events: seq<Event>, catalogue: Catalogue |
        Initial(s) && AllWithin(events, Setting(policies, cloning, local))
        ensures AliasesReported(Run(s, events, catalogue))
      {
        ReplicatingOrLinkingIsReported(s, events, catalogue, Setting(policies, cloning, local));
      }
    }
  }

  lemma HiddenSomewhere(policies: set<MaterializationPolicy>, cloning: bool)
    requires MayHide(policies, cloning)
    ensures !AlwaysReported(policies, cloning) && !AlwaysReportedAlone(policies, cloning)
  {
    var p, q :| p in policies && q in policies && Replicating(p, cloning) && Linking(q, cloning);
    var catalogue: Catalogue := _ => [];
    hide Initial, Run, AllWithin, Alone, Hiding, Linking, Replicating, TwoFiles, MayHide, Aliases, ReplicatedAs,
      AlwaysReported, AlwaysReportedAlone, AliasesReported;
    HiddenBy(p, q, Setting(policies, cloning, NEAR_ONLY), catalogue);
    NotAlways(policies, cloning, TwoFiles(0), Hiding(p, q, Setting(policies, cloning, NEAR_ONLY)), catalogue);
  }

  lemma HiddenBy(p: MaterializationPolicy, q: MaterializationPolicy, g: Setting, catalogue: Catalogue)
    requires p in g.policies && q in g.policies && g.local == NEAR_ONLY
    requires Replicating(p, g.cloning) && Linking(q, g.cloning)
    ensures Initial(TwoFiles(0)) && AllWithin(Hiding(p, q, g), g) && Alone(TwoFiles(0), Hiding(p, q, g), catalogue)
    ensures !AliasesReported(Run(TwoFiles(0), Hiding(p, q, g), catalogue))
  {
    ChangedPolicyHidesAlias(p, q, g, catalogue);
    hide Initial, Run, AllWithin, Alone, Hiding, Linking, Replicating, TwoFiles, Aliases, ReplicatedAs, AliasesReported;
    Misreported(Run(TwoFiles(0), Hiding(p, q, g), catalogue), 3, ReplicatedAs(p));
  }

  lemma NotAlways(
    policies: set<MaterializationPolicy>, cloning: bool, s: System, events: seq<Event>, catalogue: Catalogue)
    requires Initial(s) && AllWithin(events, Setting(policies, cloning, NEAR_ONLY)) && Alone(s, events, catalogue)
    requires !AliasesReported(Run(s, events, catalogue))
    ensures !AlwaysReported(policies, cloning) && !AlwaysReportedAlone(policies, cloning)
  {
    hide Run, AllWithin, Alone, AliasesReported;
  }

  lemma Misreported(s: System, id: nat, strategy: Strategy)
    requires Aliases(s, STAGED) && id in s.passes && s.passes[id].item.destination == "job/film"
    requires s.passes[id].phase == Finished(Ok(strategy)) && strategy != Hardlink
    ensures !AliasesReported(s)
  {
    assert STAGED.path == "job/film";
  }
}
