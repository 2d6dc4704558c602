/** Staging on the local filesystem, one call at a time (src/staging/adapters/local.rs). */
module LocalStagingFs {
  import opened Prelude
  import opened JobModel
  import opened Steps
  import opened Disk
  import opened StagingPass
  import Policy

  /** The inodes of `before` hold in `after` what they held: nothing that existed was written to. */
  ghost predicate Preserves(before: Fs, after: Fs) {
    && before.Valid() && after.Valid() && before.next <= after.next
    && forall i :: i in before.contents ==> i in after.contents && after.contents[i] == before.contents[i]
  }

  /** Only names in `touched` are bound differently. */
  ghost predicate OnlyRenames(before: Fs, after: Fs, touched: set<Name>) {
    forall n :: n !in touched ==>
      (n in before.names <==> n in after.names) && (n in before.names ==> after.names[n] == before.names[n])
  }

  predicate AlreadyStaged(fs: Fs, item: Item)
    requires fs.Valid()
  {
    fs.HasSize(item.To(), item.length)
  }

  ghost predicate DistinctDestinations(items: seq<Item>) {
    forall i, j :: 0 <= i < j < |items| ==> items[i].destination != items[j].destination
  }

  class LocalStaging {
    const minFree: nat
    const stagingDevice: nat
    /** Whether a clone inside the staging root works. */
    const cloning: bool
    const deviceOf: LibraryPath -> nat
    /** How the operating system answers the calls to come. */
    const luck: nat -> Luck

    var fs: Fs
    var free: nat
    /** The least the free space has ever been. */
    ghost var lowest: nat
    var tick: nat
    var probes: map<(nat, nat), Caps>
    var probeAttempts: nat

    constructor (disk: Fs, free: nat, minFree: nat, stagingDevice: nat, cloning: bool,
                 deviceOf: LibraryPath -> nat, luck: nat -> Luck)
      requires disk.Valid()
      ensures Valid() && fs == disk && this.free == lowest == free && probes == map[] && probeAttempts == 0
    {
      fs, this.free, lowest, tick := disk, free, free, 0;
      this.minFree, this.stagingDevice, this.cloning := minFree, stagingDevice, cloning;
      this.deviceOf, this.luck := deviceOf, luck;
      probes, probeAttempts := map[], 0;
    }

    function CapsFor(sourceDevice: nat): Caps {
      Caps(sourceDevice == stagingDevice, sourceDevice == stagingDevice && cloning)
    }

    function CapsOf(item: Item): Caps { CapsFor(deviceOf(item.source)) }

    /** The cache holds what a probe would find, one attempt per device pair. */
    ghost predicate Valid()
      reads this
    {
      && fs.Valid() && lowest <= free
      && (forall d :: d in probes ==> probes[d] == CapsFor(d.0) && d.1 == stagingDevice)
      && probeAttempts == |probes|
    }

    /** No call from the `n`-th on fails. */
    ghost predicate NoFaultsFrom(n: nat) { forall t :: n <= t ==> !luck(t).Faulty? }

    /** The least so far is what it was, or at most `cost` below where this began. */
    ghost predicate DipsAtMost(was: nat, start: nat, cost: nat)
      reads this`lowest
    {
      lowest == was || (lowest < was && lowest + cost >= start)
    }

    method NextLuck() returns (l: Luck)
      modifies this`tick
      ensures l == luck(old(tick)) && tick == old(tick) + 1
    {
      l := luck(tick);
      tick := tick + 1;
    }

    method ProbeDevices(sourceDevice: nat) returns (caps: Caps)
      requires Valid()
      modifies this`probes, this`probeAttempts
      ensures Valid() && caps == CapsFor(sourceDevice)
      ensures probes == old(probes)[(sourceDevice, stagingDevice) := caps]
      ensures probeAttempts == old(probeAttempts) + if (sourceDevice, stagingDevice) in old(probes) then 0 else 1
    {
      var key := (sourceDevice, stagingDevice);
      if key in probes {
        caps := probes[key];
        assert probes[key := caps] == probes;
        return;
      }
      probeAttempts := probeAttempts + 1;
      var canHardlink := sourceDevice == stagingDevice;
      var reflink := if canHardlink then cloning else false;
      caps := Caps(canHardlink, reflink);
      probes := probes[key := caps];
    }

    method Predict(length: nat, preference: seq<Strategy>, sourceDevice: nat) returns (cost: nat)
      requires Valid()
      modifies this`probes, this`probeAttempts
      ensures Valid() && cost == PredictedCost(length, preference, CapsFor(sourceDevice))
    {
      var caps := ProbeDevices(sourceDevice);
      var k := 0;
      while k < |preference|
        invariant 0 <= k <= |preference|
        invariant PredictedCost(length, preference, caps) == PredictedCost(length, preference[k..], caps)
      {
        var strategy := preference[k];
        assert preference[k..][1..] == preference[k + 1..];
        var viable;
        match strategy {
          case Reflink => viable := caps.reflink;
          case Hardlink => viable := caps.canHardlink;
          case Copy => return length;
        }
        if viable { return 0; }
        k := k + 1;
      }
      cost := length;
    }

    /** What an item would newly write; an unknown source counts in full. */
    function CostOf(on: Fs, item: Item, preference: seq<Strategy>): nat
      requires on.Valid()
    {
      if AlreadyStaged(on, item) then 0
      else if on.Exists(item.From()) then PredictedCost(item.length, preference, CapsOf(item))
      else item.length
    }

    function Needed(on: Fs, items: seq<Item>, preference: seq<Strategy>): nat
      requires on.Valid()
    {
      if items == [] then 0
      else Needed(on, items[..|items| - 1], preference) + CostOf(on, items[|items| - 1], preference)
    }

    method RequiredNewBytes(items: seq<Item>, preference: seq<Strategy>) returns (total: nat)
      requires Valid()
      modifies this`probes, this`probeAttempts
      ensures Valid() && total == Needed(fs, items, preference)
    {
      total := 0;
      var i := 0;
      while i < |items|
        invariant 0 <= i <= |items| && Valid() && fs == old(fs)
        invariant total == Needed(fs, items[..i], preference)
      {
        var item := items[i];
        assert items[..i + 1][..i] == items[..i];
        if !AlreadyStaged(fs, item) {
          var cost := item.length;
          if fs.Exists(item.From()) {
            cost := Predict(item.length, preference, deviceOf(item.source));
          }
          total := total + cost;
        }
        i := i + 1;
      }
      assert items[..|items|] == items;
    }

    /** What removing a name gives back: the file's bytes, if no other name holds them. */
    function Freed(n: Name): nat
      reads this
      requires fs.Valid()
    {
      if !fs.Exists(n) || exists m :: m in fs.names && m != n && fs.names[m] == fs.names[n] then 0
      else |fs.Read(n)|
    }

    /** What a copy or a clone holds comes back when it goes, and of a hardlink nothing does. */
    lemma DiscardGivesBack(before: Fs, item: Item, strategy: Strategy, content: Content)
      requires Confined(before, fs, item) && Staged(before, fs, item, strategy, content)
      ensures Freed(item.To()) == if strategy == Hardlink then 0 else |content|
    {
    }

    /** Open a name that does not exist and write the source's bytes into it. */
    method CopyFile(item: Item, ghost before: Fs, ghost start: Pass, ghost lucks: seq<Luck>, k: nat)
      returns (copied: bool, ghost after: seq<Luck>)
      requires Valid() && fs.HasSize(item.From(), item.length) && !fs.Exists(item.To())
      requires start.item == item && k < |start.preference| && start.preference[k] == Copy
      requires Traced(before, start, lucks, fs, Trying(k)) && Confined(before, fs, item)
      modifies this`fs, this`free, this`lowest, this`tick
      ensures Valid() && Confined(before, fs, item)
      ensures free + item.length >= old(free) && DipsAtMost(old(lowest), old(free), item.length)
      ensures tick >= old(tick) && (copied ==> item.length <= old(free) && (Faulty in after ==> Faulty in lucks))
      ensures NoFaultsFrom(old(tick)) ==> (copied <==> item.length <= old(free))
      ensures copied ==>
                && Traced(before, start, after, fs, Sizing(Copy))
                && Staged(before, fs, item, Copy, old(fs).Read(item.From()))
      ensures !copied ==> Traced(before, start, after, fs, Finished(Err(StagingIo)))
    {
      hide Traced, Confined, PassStep, CopyState, Staged;
      after := lucks;
      var opening := NextLuck();
      if opening.Faulty? {
        CopyRefused(before, start, after, fs, k);
        after := after + [Faulty];
        return false, after;
      }
      var inode := fs.next;
      var source := fs.Read(item.From());
      CopyOpens(before, start, after, fs, k);
      after := after + [Fine];
      fs := fs.Create(item.To(), []);
      copied, after := WriteAll(inode, source, before, start, after);
      if !copied {
        CopyBreaks(before, start, after, fs, inode);
        after := after + [Faulty];
        return;
      }
      CopyEnds(before, start, after, fs, inode);
      after := after + [Fine];
    }

    /** As much at a time as the system takes; a fault or a full disk ends it. */
    method WriteAll(inode: Inode, source: Content, ghost before: Fs, ghost start: Pass, ghost lucks: seq<Luck>)
      returns (copied: bool, ghost after: seq<Luck>)
      requires Valid() && CopyState(before, start, lucks, fs, inode)
      requires inode in fs.contents && fs.contents[inode] == []
      modifies this`fs, this`free, this`lowest, this`tick
      ensures Valid() && CopyState(before, start, after, fs, inode) && inode in fs.contents
      ensures free + |source| >= old(free) && DipsAtMost(old(lowest), old(free), |source|)
      ensures tick >= old(tick) && (Faulty in after ==> Faulty in lucks)
      ensures copied ==> fs.contents[inode] == source && free + |source| == old(free)
      ensures NoFaultsFrom(old(tick)) ==> (copied <==> |source| <= old(free))
    {
      hide CopyState;
      after := lucks;
      var written := 0;
      while written < |source|
        invariant 0 <= written <= |source| && free + written == old(free) && tick >= old(tick)
        invariant DipsAtMost(old(lowest), old(free), written) && (Faulty in after ==> Faulty in lucks)
        invariant Valid() && inode in fs.contents && fs.contents[inode] == source[..written]
        invariant CopyState(before, start, after, fs, inode)
        decreases |source| - written
      {
        var chance := NextLuck();
        var left := |source| - written;
        var size := if chance.Chunk? && 0 < |chance.bytes| < left then |chance.bytes| else left;
        if chance.Faulty? || size > free {
          return false, after;
        }
        var chunk := source[written..written + size];
        CopyWrites(before, start, after, fs, inode, chunk);
        after := after + [Chunk(chunk)];
        assert source[..written] + chunk == source[..written + size];
        fs := fs.Write(inode, fs.contents[inode] + chunk);
        free := free - size;
        lowest := if free < lowest then free else lowest;
        written := written + size;
      }
      assert source[..|source|] == source;
      copied := true;
    }

    method Attempt(item: Item, strategy: Strategy, caps: Caps, ghost before: Fs, ghost start: Pass,
                   ghost lucks: seq<Luck>, k: nat)
      returns (r: Result<(), StagingError>, ghost after: seq<Luck>)
      requires Valid() && fs.HasSize(item.From(), item.length) && !fs.Exists(item.To())
      requires start.item == item && start.caps == caps && k < |start.preference| && start.preference[k] == strategy
      requires Traced(before, start, lucks, fs, Trying(k)) && Confined(before, fs, item)
      modifies this`fs, this`free, this`lowest, this`tick
      ensures Valid() && Confined(before, fs, item)
      ensures var cost := if strategy == Copy then item.length else 0;
              free + cost >= old(free) && DipsAtMost(old(lowest), old(free), cost)
      ensures tick >= old(tick)
      ensures NoFaultsFrom(old(tick)) && r != Err(StagingIo) && Faulty in after ==> Faulty in lucks
      ensures NoFaultsFrom(old(tick)) ==>
                r == if !Viable(strategy, caps) then Err(StrategyUnavailable)
                     else if strategy == Copy && item.length > old(free) then Err(StagingIo)
                     else Ok(())
      ensures r.Ok? ==>
                && Traced(before, start, after, fs, Sizing(strategy))
                && Staged(before, fs, item, strategy, old(fs).Read(item.From()))
      ensures r.Err? ==> r.error in {StrategyUnavailable, StagingIo}
      ensures r == Err(StagingIo) ==> Traced(before, start, after, fs, Finished(Err(StagingIo)))
      ensures r == Err(StrategyUnavailable) ==>
                && Traced(before, start, after, fs, Trying(k + 1)) && fs == old(fs) && free == old(free)
                && lowest == old(lowest)
                && strategy != Copy && !(strategy == Reflink && caps.reflink)
    {
      hide Traced, Confined, PassStep, Staged;
      after := lucks;
      match strategy
      case Reflink =>
        if !caps.reflink {
          Unavailable(before, start, after, fs, k, Fine);
          after := after + [Fine];
          return Err(StrategyUnavailable), after;
        }
        var answer := NextLuck();
        if answer.Faulty? {
          CloneRefused(before, start, after, fs, k);
          after := after + [Faulty];
          return Err(StagingIo), after;
        }
        Clones(before, start, after, fs, k);
        after := after + [Fine];
        fs := fs.Create(item.To(), fs.Read(item.From()));
        return Ok(()), after;
      case Hardlink =>
        if !caps.canHardlink {
          Unavailable(before, start, after, fs, k, Fine);
          after := after + [Fine];
          return Err(StrategyUnavailable), after;
        }
        var answer := NextLuck();
        if answer.Faulty? {
          Unavailable(before, start, after, fs, k, Faulty);
          after := after + [Faulty];
          return Err(StrategyUnavailable), after;
        }
        Links(before, start, after, fs, k);
        after := after + [Fine];
        fs := fs.Link(item.To(), item.From());
        return Ok(()), after;
      case Copy =>
        var copied;
        copied, after := CopyFile(item, before, start, after, k);
        return if copied then Ok(()) else Err(StagingIo), after;
    }

    /** Whether the source is there as planned, and what would come of it with no call failing. */
    predicate Stageable(on: Fs, item: Item, preference: seq<Strategy>)
      requires on.Valid()
    {
      AlreadyStaged(on, item) || (on.HasSize(item.From(), item.length) && FirstViable(preference, CapsOf(item)).Some?)
    }

    /** What is recorded of an earlier attempt, or the first strategy the devices allow. */
    function Chosen(on: Fs, item: Item, preference: seq<Strategy>): Strategy
      requires on.Valid()
    {
      if AlreadyStaged(on, item) then item.previous.GetOr(Hardlink)
      else FirstViable(preference, CapsOf(item)).GetOr(Hardlink)
    }

    /** What trying the strategies in order comes to with `space` bytes free and no call failing. */
    function Tries(length: nat, preference: seq<Strategy>, caps: Caps, space: nat): Result<Strategy, StagingError> {
      match FirstViable(preference, caps)
      case None => Err(if preference == [] then NoStrategyPermitted else StrategyUnavailable)
      case Some(s) => if s == Copy && length > space then Err(StagingIo) else Ok(s)
    }

    /** What materialising an item comes to with `space` bytes free and no call failing. */
    function Outcome(on: Fs, item: Item, preference: seq<Strategy>, space: nat): Result<Strategy, StagingError>
      requires on.Valid()
    {
      if AlreadyStaged(on, item) then Ok(item.previous.GetOr(Hardlink))
      else if !on.Exists(item.From()) then Err(SourceMissing)
      else if !on.HasSize(item.From(), item.length) then Err(SourceChanged)
      else Tries(item.length, preference, CapsOf(item), space)
    }

    /** With room for what it is counted for, only a source or a strategy can be missing. */
    lemma OutcomeWithRoom(on: Fs, item: Item, preference: seq<Strategy>, space: nat)
      requires on.Valid() && CostOf(on, item, preference) <= space
      ensures Outcome(on, item, preference, space).Ok? <==> Stageable(on, item, preference)
      ensures Stageable(on, item, preference) ==>
                Outcome(on, item, preference, space) == Ok(Chosen(on, item, preference))
    {
      CostOfFirstViable(item.length, preference, CapsOf(item));
    }

    /** Spent on this item at most what the space check counts, unless a copy hides behind a link. */
    ghost predicate Affordable(start: nat, now: nat, cost: nat, preference: seq<Strategy>, caps: Caps) {
      !LinksBeforeCopying(preference, caps) ==> now + cost >= start
    }

    /**
     * A file already there at the right size is left alone. Anything else at the destination goes
     * first, so no strategy ever meets an existing name.
     */
    method MaterializeOne(item: Item, preference: seq<Strategy>)
      returns (r: Result<StagedFile, StagingError>, ghost lucks: seq<Luck>)
      requires Valid()
      modifies this
      ensures Valid() && Confined(old(fs), fs, item)
      ensures Traced(old(fs), Begun(item, preference, CapsOf(item)), lucks, fs,
                     Finished(StrategyOf(r)))
      ensures AlreadyStaged(old(fs), item) ==>
                fs == old(fs) && free == old(free)
                && r == Ok(StagedFile(item.destination, item.previous.GetOr(Hardlink), item.length))
      ensures r.Ok? ==>
                && AlreadyStaged(fs, item) && r.value.path == item.destination && r.value.bytes == item.length
      ensures r.Ok? && !AlreadyStaged(old(fs), item) ==>
                && old(fs).Exists(item.From())
                && Staged(old(fs), fs, item, r.value.strategy, old(fs).Read(item.From()))
      ensures r.Ok? ==> FaithfulItem(old(fs), fs, item, r.value.strategy)
      ensures r.Err? ==> r.error != InsufficientSpace
      ensures Affordable(old(free), free, CostOf(old(fs), item, preference), preference, CapsOf(item))
      ensures lowest == old(lowest)
              || (lowest < old(lowest)
                  && Affordable(old(free), lowest, CostOf(old(fs), item, preference), preference, CapsOf(item)))
      ensures tick >= old(tick) && (NoFaultsFrom(old(tick)) && r.Ok? ==> Faulty !in lucks)
      ensures NoFaultsFrom(old(tick)) ==>
                StrategyOf(r) == Outcome(old(fs), item, preference, old(free) + old(Freed(item.To())))
      ensures NoFaultsFrom(old(tick)) && InStaging(item.destination) !in old(fs).names ==>
                && (r == Err(SourceMissing) <==> InLibrary(item.source) !in old(fs).names)
                && (r == Err(SourceChanged) <==>
                      InLibrary(item.source) in old(fs).names
                      && |old(fs).contents[old(fs).names[InLibrary(item.source)]]| != item.length)
    {
      ghost var start := Begun(item, preference, CapsOf(item));
      hide PassStep, Staged;
      hide Traced, Confined, LinksBeforeCopying, PredictedCost, Tries;
      if AlreadyStaged(fs, item) {
        Begins(fs, start);
        Skips(fs, start);
        return Ok(StagedFile(item.destination, item.previous.GetOr(Hardlink), item.length)), [Fine];
      }
      var removed;
      removed, lucks := RemoveLeftover(item, start);
      if !removed {
        return Err(StagingIo), lucks;
      }
      var refusal;
      refusal, lucks := CheckSource(item, old(fs), start, lucks);
      if refusal.Some? {
        return Err(refusal.value), lucks;
      }
      r, lucks := TryEach(item, preference, old(fs), start, lucks);
    }

    /** Whatever of another size is at the destination goes. */
    method RemoveLeftover(item: Item, ghost start: Pass) returns (removed: bool, ghost lucks: seq<Luck>)
      requires Valid() && !AlreadyStaged(fs, item) && start.item == item && start.phase == Inspecting
      modifies this`fs, this`free, this`tick
      ensures Valid() && Confined(old(fs), fs, item) && tick >= old(tick)
      ensures fs == (if removed then old(fs).Unlink(item.To()) else old(fs))
      ensures free == old(free) + if removed then old(Freed(item.To())) else 0
      ensures Traced(old(fs), start, lucks, fs, if removed then Emptied else Finished(Err(StagingIo)))
      ensures NoFaultsFrom(old(tick)) ==> removed
      ensures removed ==> Faulty !in lucks
    {
      hide PassStep, Traced, Confined;
      Begins(fs, start);
      if !fs.Exists(item.To()) {
        FindsNothing(fs, start);
        assert fs.Unlink(item.To()) == fs;
        return true, [Fine];
      }
      var answer := NextLuck();
      if answer.Faulty? {
        UnlinkFails(fs, start);
        return false, [Fine, Faulty];
      }
      Unlinks(fs, start);
      free := free + Freed(item.To());
      fs := fs.Unlink(item.To());
      return true, [Fine, Fine];
    }

    /** The source as it is now, and the directories to put it under. */
    method CheckSource(item: Item, ghost before: Fs, ghost start: Pass, ghost lucks: seq<Luck>)
      returns (refusal: Option<StagingError>, ghost after: seq<Luck>)
      requires Valid() && start.item == item && Traced(before, start, lucks, fs, Emptied)
      modifies this`tick
      ensures tick >= old(tick) && (refusal.None? && Faulty in after ==> Faulty in lucks)
      ensures NoFaultsFrom(old(tick)) ==>
                refusal == if !fs.Exists(item.From()) then Some(SourceMissing)
                           else if !fs.HasSize(item.From(), item.length) then Some(SourceChanged)
                           else None
      ensures refusal.None? ==> fs.HasSize(item.From(), item.length) && Traced(before, start, after, fs, Trying(0))
      ensures refusal.Some? ==>
                && refusal.value in {SourceMissing, SourceChanged, StagingIo}
                && Traced(before, start, after, fs, Finished(Err(refusal.value)))
    {
      hide Traced, PassStep;
      if !fs.Exists(item.From()) {
        SourceGone(before, start, lucks, fs);
        return Some(SourceMissing), lucks + [Fine];
      }
      if |fs.Read(item.From())| != item.length {
        SourceDiffers(before, start, lucks, fs);
        return Some(SourceChanged), lucks + [Fine];
      }
      var directories := NextLuck();
      if directories.Faulty? {
        DirectoriesFail(before, start, lucks, fs);
        return Some(StagingIo), lucks + [Faulty];
      }
      SourceFine(before, start, lucks, fs);
      return None, lucks + [Fine];
    }

    method TryEach(item: Item, preference: seq<Strategy>, ghost before: Fs, ghost start: Pass, ghost lucks: seq<Luck>)
      returns (r: Result<StagedFile, StagingError>, ghost after: seq<Luck>)
      requires Valid() && fs.HasSize(item.From(), item.length) && !fs.Exists(item.To())
      requires start == Begun(item, preference, CapsOf(item))
      requires Traced(before, start, lucks, fs, Trying(0)) && Confined(before, fs, item)
      modifies this
      ensures Valid() && Confined(before, fs, item)
      ensures Traced(before, start, after, fs, Finished(StrategyOf(r)))
      ensures r.Ok? ==>
                && AlreadyStaged(fs, item) && r.value.path == item.destination && r.value.bytes == item.length
                && Staged(before, fs, item, r.value.strategy, old(fs).Read(item.From()))
      ensures r.Err? ==> r.error in {StrategyUnavailable, StagingIo, NoStrategyPermitted}
      ensures Affordable(
                old(free), free, PredictedCost(item.length, preference, CapsOf(item)), preference, CapsOf(item))
      ensures lowest == old(lowest)
              || (lowest < old(lowest)
                  && Affordable(old(free), lowest, PredictedCost(item.length, preference, CapsOf(item)), preference,
                                CapsOf(item)))
      ensures tick >= old(tick) && (NoFaultsFrom(old(tick)) && r.Ok? && Faulty in after ==> Faulty in lucks)
      ensures NoFaultsFrom(old(tick)) ==> StrategyOf(r) == Tries(item.length, preference, CapsOf(item), old(free))
    {
      hide PassStep, Traced, Confined, LinksBeforeCopying, PredictedCost, Staged;
      var caps := ProbeDevices(deviceOf(item.source));
      var lastError: Option<StagingError> := None;
      after := lucks;
      var k := 0;
      while k < |preference|
        invariant 0 <= k <= |preference| && Valid() && fs == old(fs) && free == old(free)
        invariant Traced(before, start, after, fs, Trying(k)) && lowest == old(lowest) && tick >= old(tick)
        invariant NoFaultsFrom(old(tick)) ==>
          FirstViable(preference, caps) == FirstViable(preference[k..], caps) && (Faulty in after ==> Faulty in lucks)
        invariant PassedOver(preference, caps, k)
        invariant lastError == if k == 0 then None else Some(StrategyUnavailable)
      {
        ghost var source := fs.Read(item.From());
        assert preference[k..][1..] == preference[k + 1..];
        var tried;
        tried, after := Attempt(item, preference[k], caps, before, start, after, k);
        SpendsAsPredicted(item.length, preference, caps, k);
        match tried {
          case Ok(_) =>
            Sizes(before, start, after, fs, preference[k], source);
            after := after + [Fine];
            return Ok(StagedFile(item.destination, preference[k], item.length)), after;
          case Err(e) =>
            if e != StrategyUnavailable {
              return Err(e), after;
            }
            lastError := Some(e);
        }
        k := k + 1;
      }
      Exhausted(before, start, after, fs, k);
      after := after + [Fine];
      r := Err(lastError.GetOr(NoStrategyPermitted));
    }

    // ---- Whole plans ---------------------------------------------------------------------------

    /** No copy can hide behind a link on any source's device. */
    ghost predicate Predictable(items: seq<Item>, preference: seq<Strategy>) {
      forall i :: 0 <= i < |items| ==> !LinksBeforeCopying(preference, CapsOf(items[i]))
    }

    /** Free space is not below what must be kept, or no lower than where the plan started. */
    predicate Keeps(start: nat, now: nat) {
      now >= start || now >= minFree
    }

    /** After the first `n` items, no more is gone than they were counted for. */
    ghost predicate Spent(before: Fs, start: nat, items: seq<Item>, n: nat, preference: seq<Strategy>, now: nat)
      requires before.Valid() && n <= |items|
    {
      DistinctDestinations(items) && Predictable(items, preference)
      ==> now + Needed(before, items[..n], preference) >= start
    }

    lemma CostUnchanged(before: Fs, now: Fs, items: seq<Item>, i: nat, preference: seq<Strategy>)
      requires before.Valid() && now.Valid() && i < |items| && DistinctDestinations(items)
      requires Preserves(before, now) && OnlyRenames(before, now, Destinations(items[..i]))
      ensures CostOf(now, items[i], preference) == CostOf(before, items[i], preference)
      ensures AlreadyStaged(now, items[i]) == AlreadyStaged(before, items[i])
    {
      assert items[i].To() !in Destinations(items[..i]);
      assert items[i].From() !in Destinations(items[..i]);
    }

    lemma {:induction false} NeededGrows(on: Fs, items: seq<Item>, n: nat, preference: seq<Strategy>)
      requires on.Valid() && n <= |items|
      ensures Needed(on, items[..n], preference) <= Needed(on, items, preference)
    {
      if n < |items| {
        NeededGrows(on, items[..|items| - 1], n, preference);
        assert items[..|items| - 1][..n] == items[..n];
      } else {
        assert items[..n] == items;
      }
    }

    /** Any order a policy gives is predictable on any devices. */
    lemma PoliciesArePredictable(items: seq<Item>, policy: Policy.MaterializationPolicy)
      ensures Predictable(items, policy.Preference())
    {
      forall i | 0 <= i < |items| ensures !LinksBeforeCopying(policy.Preference(), CapsOf(items[i])) {
        PolicyOrdersPredict(policy, CapsOf(items[i]));
      }
    }

    lemma SpendStep(
      before: Fs, was: Fs, start: nat, had: nat, now: nat, items: seq<Item>, i: nat, preference: seq<Strategy>)
      requires before.Valid() && was.Valid() && i < |items|
      requires Preserves(before, was) && OnlyRenames(before, was, Destinations(items[..i]))
      requires Spent(before, start, items, i, preference, had)
      requires Affordable(had, now, CostOf(was, items[i], preference), preference, CapsOf(items[i]))
      ensures Spent(before, start, items, i + 1, preference, now)
      ensures Spent(before, start, items, |items|, preference, now)
    {
      hide LinksBeforeCopying, PredictedCost;
      if DistinctDestinations(items) && Predictable(items, preference) {
        CostUnchanged(before, was, items, i, preference);
        assert items[..i + 1][..i] == items[..i];
        NeededGrows(before, items, i + 1, preference);
        assert items[..|items|] == items;
      }
    }

    lemma SpentIsKept(
      before: Fs, start: nat, items: seq<Item>, preference: seq<Strategy>, now: nat)
      requires before.Valid() && Spent(before, start, items, |items|, preference, now)
      requires Fits(before, start, items, preference)
      ensures DistinctDestinations(items) && Predictable(items, preference) ==> Keeps(start, now)
    {
      assert items[..|items|] == items;
    }

    /** What the plan needs leaves enough free, or it needs nothing. */
    predicate Fits(on: Fs, space: nat, items: seq<Item>, preference: seq<Strategy>)
      requires on.Valid()
    {
      var needed := Needed(on, items, preference);
      needed == 0 || needed + minFree <= space
    }

    lemma {:induction false} NothingIsWritten(on: Fs, items: seq<Item>, preference: seq<Strategy>)
      requires on.Valid() && AllThere(on, items)
      ensures WrittenLength(on, items, preference) == 0
    {
      if items != [] { NothingIsWritten(on, items[1..], preference); }
    }

    ghost predicate AllThere(on: Fs, items: seq<Item>)
      requires on.Valid()
    {
      forall i :: 0 <= i < |items| ==> on.HasSize(InStaging(items[i].destination), items[i].length)
    }

    /** Copying is the one strategy permitted, every source is there, and no destination is yet. */
    ghost predicate AllToCopy(on: Fs, items: seq<Item>, preference: seq<Strategy>) {
      && preference == [Copy]
      && forall i :: 0 <= i < |items| ==>
           InLibrary(items[i].source) in on.names && InStaging(items[i].destination) !in on.names
    }

    lemma {:induction false} CopiesAreWritten(on: Fs, items: seq<Item>, preference: seq<Strategy>)
      requires on.Valid() && AllToCopy(on, items, preference)
      ensures WrittenLength(on, items, preference) == SumLengths(items)
    {
      if items != [] {
        assert InStaging(items[0].destination) !in on.names;
        assert AllToCopy(on, items[1..], preference);
        CopiesAreWritten(on, items[1..], preference);
      }
    }

    /**
     * The item is written out in full: it is not there yet, and its source is not to be found or no
     * link or clone its device allows is tried before copying.
     */
    ghost predicate WrittenOut(on: Fs, item: Item, preference: seq<Strategy>)
      requires on.Valid()
    {
      && !on.HasSize(InStaging(item.destination), item.length)
      && (InLibrary(item.source) in on.names && deviceOf(item.source) == stagingDevice ==>
            forall k :: 0 <= k < |preference|
                        && (preference[k] == Hardlink || (preference[k] == Reflink && cloning)) ==>
              Copy in preference[..k])
    }

    /** What the items written out come to together. */
    ghost function WrittenLength(on: Fs, items: seq<Item>, preference: seq<Strategy>): nat
      requires on.Valid()
    {
      if items == [] then 0
      else (if WrittenOut(on, items[0], preference) then items[0].length else 0)
           + WrittenLength(on, items[1..], preference)
    }

    lemma CostIsWritten(on: Fs, item: Item, preference: seq<Strategy>)
      requires on.Valid()
      ensures CostOf(on, item, preference) == if WrittenOut(on, item, preference) then item.length else 0
    {
      CostWritten(item.length, preference, CapsOf(item));
    }

    lemma {:induction false} NeededAppend(on: Fs, item: Item, items: seq<Item>, preference: seq<Strategy>)
      requires on.Valid()
      ensures Needed(on, [item] + items, preference) == CostOf(on, item, preference) + Needed(on, items, preference)
    {
      var all := [item] + items;
      if items == [] {
        assert all[..|all| - 1] == [] && all == [item];
      } else {
        NeededAppend(on, item, items[..|items| - 1], preference);
        assert all[..|all| - 1] == [item] + items[..|items| - 1];
      }
    }

    /** What has to be found is what the items written out come to. */
    lemma {:induction false} NeededIsWritten(on: Fs, items: seq<Item>, preference: seq<Strategy>)
      requires on.Valid()
      ensures Needed(on, items, preference) == WrittenLength(on, items, preference)
    {
      if items != [] {
        NeededIsWritten(on, items[1..], preference);
        NeededAppend(on, items[0], items[1..], preference);
        CostIsWritten(on, items[0], preference);
        assert items == [items[0]] + items[1..];
      }
    }

    /** The space check in plain bytes. */
    lemma SpaceAsked(on: Fs, space: nat, items: seq<Item>, preference: seq<Strategy>)
      requires on.Valid()
      ensures !Fits(on, space, items, preference) <==>
                WrittenLength(on, items, preference) > 0 && WrittenLength(on, items, preference) + minFree > space
      ensures AllToCopy(on, items, preference) ==> WrittenLength(on, items, preference) == SumLengths(items)
      ensures AllThere(on, items) ==> WrittenLength(on, items, preference) == 0
    {
      NeededIsWritten(on, items, preference);
      if AllToCopy(on, items, preference) { CopiesAreWritten(on, items, preference); }
      if AllThere(on, items) { NothingIsWritten(on, items, preference); }
    }

    /** Every item's source is there as planned and can be staged, if the item is not staged already. */
    ghost predicate AllStageable(on: Fs, items: seq<Item>, preference: seq<Strategy>)
      requires on.Valid()
    {
      forall i :: 0 <= i < |items| ==> Stageable(on, items[i], preference)
    }

    /**
     * Refused for lack of space, nothing has changed. Otherwise, even when it fails midway: nothing
     * that existed was written to, only destinations are bound differently, files staged before stay
     * as they were, and the free space to keep was kept all the while. With no call failing and room
     * for the whole plan, it succeeds exactly when every item can be staged.
     */
    method Materialize(items: seq<Item>, preference: seq<Strategy>)
      returns (r: Result<seq<StagedFile>, StagingError>)
      requires Valid()
      modifies this
      ensures Valid() && Preserves(old(fs), fs) && OnlyRenames(old(fs), fs, Destinations(items))
      ensures r == Err(InsufficientSpace) ==> fs == old(fs) && free == old(free) && lowest == old(lowest)
      ensures r == Err(InsufficientSpace) <==> !Fits(old(fs), old(free), items, preference)
      ensures var written := WrittenLength(old(fs), items, preference);
              && (r == Err(InsufficientSpace) <==> written > 0 && written + minFree > old(free))
              && (AllToCopy(old(fs), items, preference) ==> written == SumLengths(items))
      ensures AllThere(old(fs), items) ==> r != Err(InsufficientSpace)
      ensures DistinctDestinations(items) ==>
                forall i :: 0 <= i < |items| && AlreadyStaged(old(fs), items[i]) ==>
                  fs.Exists(items[i].To()) && fs.names[items[i].To()] == old(fs).names[items[i].To()]
      ensures lowest <= old(lowest)
      ensures DistinctDestinations(items) && Predictable(items, preference) ==>
                Keeps(old(free), free) && (lowest == old(lowest) || Keeps(old(free), lowest))
      ensures r.Ok? ==>
                && |r.value| == |items|
                && forall i :: 0 <= i < |items| ==>
                     r.value[i].path == items[i].destination && r.value[i].bytes == items[i].length
      ensures r.Ok? && DistinctDestinations(items) ==>
                forall i :: 0 <= i < |items| ==> AlreadyStaged(fs, items[i])
      ensures r.Ok? && DistinctDestinations(items) ==> Faithful(old(fs), fs, items, r.value)
      ensures NoFaultsFrom(old(tick)) && DistinctDestinations(items) && Predictable(items, preference) ==>
                && (r.Ok? <==> Fits(old(fs), old(free), items, preference) && AllStageable(old(fs), items, preference))
                && (r.Ok? ==>
                      forall i :: 0 <= i < |items| ==> r.value[i].strategy == Chosen(old(fs), items[i], preference))
    {
      if Reflink in preference && items != [] && fs.Exists(items[0].From()) {
        var caps := ProbeDevices(deviceOf(items[0].source));
      }
      SpaceAsked(fs, free, items, preference);
      var needed := RequiredNewBytes(items, preference);
      if needed > 0 {
        if needed > (if free > minFree then free - minFree else 0) {
          return Err(InsufficientSpace);
        }
      }
      hide Needed, Predictable, Spent, DistinctDestinations, StagedKept, NoFaultsFrom, AllStageable, Chosen, AllToCopy,
        AllThere, SumLengths, Fits, WrittenLength, Faithful;
      r := StageAll(items, preference);
      SpentIsKept(old(fs), old(free), items, preference, free);
      if lowest != old(lowest) { SpentIsKept(old(fs), old(free), items, preference, lowest); }
      KeptNames(old(fs), fs, items);
    }

    /** What staging may have done, whether or not it got to the end. */
    ghost predicate Attempted(
      before: Fs, start: nat, items: seq<Item>, preference: seq<Strategy>, now: Fs, left: nat)
    {
      && Preserves(before, now) && OnlyRenames(before, now, Destinations(items))
      && (DistinctDestinations(items) ==> StagedKept(before, now, items))
      && Spent(before, start, items, |items|, preference, left)
    }

    /** One report per item, and all of them there. */
    ghost predicate Reported(items: seq<Item>, now: Fs, files: seq<StagedFile>) {
      && now.Valid() && |files| == |items|
      && (forall i :: 0 <= i < |items| ==>
            files[i].path == items[i].destination && files[i].bytes == items[i].length)
      && (DistinctDestinations(items) ==> forall i :: 0 <= i < |items| ==> AlreadyStaged(now, items[i]))
    }

    /** What the loop over the items keeps. */
    ghost predicate Progress(
      before: Fs, start: nat, items: seq<Item>, i: nat, preference: seq<Strategy>, now: Fs, left: nat,
      files: seq<StagedFile>)
    {
      && i <= |items| && |files| == i
      && Preserves(before, now) && OnlyRenames(before, now, Destinations(items[..i]))
      && Spent(before, start, items, i, preference, left)
      && (DistinctDestinations(items) ==>
            && StagedKept(before, now, items)
            && forall k :: 0 <= k < i ==> AlreadyStaged(now, items[k]))
      && forall k :: 0 <= k < i ==> files[k].path == items[k].destination && files[k].bytes == items[k].length
    }

    lemma ProgressStep(
      before: Fs, start: nat, items: seq<Item>, i: nat, preference: seq<Strategy>, was: Fs, had: nat,
      now: Fs, left: nat, files: seq<StagedFile>)
      requires Progress(before, start, items, i, preference, was, had, files) && i < |items|
      requires Confined(was, now, items[i]) && (AlreadyStaged(was, items[i]) ==> now == was)
      requires Affordable(had, left, CostOf(was, items[i], preference), preference, CapsOf(items[i]))
      ensures Attempted(before, start, items, preference, now, left)
      ensures forall file: StagedFile ::
                file.path == items[i].destination && file.bytes == items[i].length && AlreadyStaged(now, items[i])
                ==> Progress(before, start, items, i + 1, preference, now, left, files + [file])
    {
      hide Needed, CostOf, LinksBeforeCopying, PredictedCost, Predictable, Confined, DistinctDestinations, StagedKept;
      ItemStep(before, was, now, items, i);
      SpendStep(before, was, start, had, left, items, i, preference);
      DestinationsGrow(items, i + 1);
    }

    /** The least of free space is what it was, or within what the plan was counted for. */
    ghost predicate Dipped(before: Fs, start: nat, items: seq<Item>, preference: seq<Strategy>, was: nat, low: nat)
      requires before.Valid()
    {
      low == was || (low < was && Spent(before, start, items, |items|, preference, low))
    }

    lemma DipStep(
      before: Fs, start: nat, items: seq<Item>, i: nat, preference: seq<Strategy>, was: Fs, had: nat,
      lowWas: nat, low: nat, now: nat, files: seq<StagedFile>)
      requires Progress(before, start, items, i, preference, was, had, files) && i < |items|
      requires Dipped(before, start, items, preference, lowWas, low)
      requires now == low
               || (now < low && Affordable(had, now, CostOf(was, items[i], preference), preference, CapsOf(items[i])))
      ensures Dipped(before, start, items, preference, lowWas, now)
    {
      hide Needed, CostOf, LinksBeforeCopying, PredictedCost, Predictable, DistinctDestinations, StagedKept;
      if now != low { SpendStep(before, was, start, had, now, items, i, preference); }
    }

    /** No call to come fails, and there is room for a plan whose cost can be told. */
    ghost predicate Flawless(before: Fs, n: nat, start: nat, items: seq<Item>, preference: seq<Strategy>)
      requires before.Valid()
    {
      && NoFaultsFrom(n) && DistinctDestinations(items) && Predictable(items, preference)
      && Needed(before, items, preference) <= start
    }

    /** The first `i` items could be staged, and were as chosen. */
    ghost predicate AsChosen(
      before: Fs, items: seq<Item>, i: nat, preference: seq<Strategy>, files: seq<StagedFile>)
      requires before.Valid()
    {
      && i <= |items| && |files| == i
      && forall k :: 0 <= k < i ==>
           Stageable(before, items[k], preference) && files[k].strategy == Chosen(before, items[k], preference)
    }

    /** In a flawless run, an item comes to what it would have come to at the start. */
    lemma FlawlessItem(
      before: Fs, start: nat, items: seq<Item>, i: nat, preference: seq<Strategy>, was: Fs, had: nat, space: nat,
      files: seq<StagedFile>)
      requires Progress(before, start, items, i, preference, was, had, files) && i < |items|
      requires DistinctDestinations(items) && Predictable(items, preference)
      requires Needed(before, items, preference) <= start && had <= space
      ensures Outcome(was, items[i], preference, space).Ok? <==> Stageable(before, items[i], preference)
      ensures Stageable(before, items[i], preference) ==>
                Outcome(was, items[i], preference, space) == Ok(Chosen(before, items[i], preference))
    {
      CostUnchanged(before, was, items, i, preference);
      NeededGrows(before, items, i + 1, preference);
      assert items[..i + 1][..i] == items[..i];
      SourceUnchanged(before, was, items, i);
      hide CostOf, Outcome, Tries, PredictedCost, LinksBeforeCopying;
      OutcomeWithRoom(was, items[i], preference, space);
    }

    lemma FlawlessStep(
      before: Fs, n: nat, m: nat, start: nat, items: seq<Item>, i: nat, preference: seq<Strategy>, was: Fs, had: nat,
      space: nat, files: seq<StagedFile>, staged: Result<StagedFile, StagingError>)
      requires Progress(before, start, items, i, preference, was, had, files) && i < |items|
      requires before.Valid() && n <= m && had <= space
      requires NoFaultsFrom(m) ==> StrategyOf(staged) == Outcome(was, items[i], preference, space)
      requires Flawless(before, n, start, items, preference) ==> AsChosen(before, items, i, preference, files)
      ensures Flawless(before, n, start, items, preference) ==>
                && (staged.Ok? ==> AsChosen(before, items, i + 1, preference, files + [staged.value]))
                && (staged.Err? ==> !AllStageable(before, items, preference))
    {
      hide Stageable, Outcome, Chosen, Progress, DistinctDestinations, Predictable, Needed;
      if Flawless(before, n, start, items, preference) {
        FlawlessItem(before, start, items, i, preference, was, had, space, files);
      }
    }

    /** What one call of `MaterializeOne` does to all that the loop keeps. */
    lemma ItemStaged(
      before: Fs, n: nat, m: nat, start: nat, items: seq<Item>, i: nat, preference: seq<Strategy>, was: Fs, had: nat,
      space: nat, now: Fs, left: nat, lowWas: nat, low: nat, lowNow: nat, files: seq<StagedFile>,
      staged: Result<StagedFile, StagingError>)
      requires before.Valid() && i < |items|
      requires Running(before, n, start, items, i, preference, was, had, lowWas, low, files)
      requires was.Valid() && Confined(was, now, items[i]) && (AlreadyStaged(was, items[i]) ==> now == was)
      requires Affordable(had, left, CostOf(was, items[i], preference), preference, CapsOf(items[i]))
      requires lowNow == low
               || (lowNow < low
                   && Affordable(had, lowNow, CostOf(was, items[i], preference), preference, CapsOf(items[i])))
      requires n <= m && had <= space
      requires NoFaultsFrom(m) ==> StrategyOf(staged) == Outcome(was, items[i], preference, space)
      requires staged.Ok? ==>
                 && staged.value.path == items[i].destination && staged.value.bytes == items[i].length
                 && AlreadyStaged(now, items[i]) && FaithfulItem(was, now, items[i], staged.value.strategy)
      ensures staged.Ok? ==>
                Running(before, n, start, items, i + 1, preference, now, left, lowWas, lowNow, files + [staged.value])
      ensures staged.Err? ==>
                Concluded(before, n, start, items, preference, now, left, lowWas, lowNow, Err(staged.error))
    {
      ProgressStep(before, start, items, i, preference, was, had, now, left, files);
      DipStep(before, start, items, i, preference, was, had, lowWas, low, lowNow, files);
      FlawlessStep(before, n, m, start, items, i, preference, was, had, space, files, staged);
      if staged.Ok? {
        FaithfulNext(before, n, start, items, i, preference, was, had, lowWas, low, files, now, staged.value);
      }
      hide Progress, CostOf, LinksBeforeCopying, Confined, Affordable, Attempted, NoFaultsFrom, AllStageable, Flawless,
        AsChosen, Dipped, AlreadyStaged, StrategyOf, CapsOf, Outcome, Reported, FaithfulItem, FaithfulSoFar;
    }

    /** All that the loop over the items keeps. */
    ghost predicate Running(
      before: Fs, n: nat, start: nat, items: seq<Item>, i: nat, preference: seq<Strategy>, now: Fs, left: nat,
      lowWas: nat, low: nat, files: seq<StagedFile>)
      requires before.Valid()
    {
      && Progress(before, start, items, i, preference, now, left, files)
      && Dipped(before, start, items, preference, lowWas, low)
      && (Flawless(before, n, start, items, preference) ==> AsChosen(before, items, i, preference, files))
      && FaithfulSoFar(before, now, items, files)
    }

    lemma FaithfulNext(
      before: Fs, n: nat, start: nat, items: seq<Item>, i: nat, preference: seq<Strategy>, was: Fs, left: nat,
      lowWas: nat, low: nat, files: seq<StagedFile>, now: Fs, file: StagedFile)
      requires before.Valid() && i < |items|
      requires Running(before, n, start, items, i, preference, was, left, lowWas, low, files)
      requires Confined(was, now, items[i]) && FaithfulItem(was, now, items[i], file.strategy)
      ensures FaithfulSoFar(before, now, items, files + [file])
    {
      hide Faithful, FaithfulItem, Confined, DistinctDestinations, Dipped, Flawless, AsChosen, Spent, StagedKept;
      if DistinctDestinations(items) { FaithfulStep(before, was, now, items, files, file); }
    }

    /** What staging comes to, whether or not it gets to the end. */
    ghost predicate Concluded(
      before: Fs, n: nat, start: nat, items: seq<Item>, preference: seq<Strategy>, now: Fs, left: nat,
      lowWas: nat, low: nat, r: Result<seq<StagedFile>, StagingError>)
      requires before.Valid()
    {
      && Attempted(before, start, items, preference, now, left)
      && Dipped(before, start, items, preference, lowWas, low)
      && (r.Ok? ==> Reported(items, now, r.value) && FaithfulSoFar(before, now, items, r.value))
      && (Flawless(before, n, start, items, preference) ==>
            && (r.Ok? <==> AllStageable(before, items, preference))
            && (r.Ok? ==> AsChosen(before, items, |items|, preference, r.value)))
    }

    lemma SourceUnchanged(before: Fs, was: Fs, items: seq<Item>, i: nat)
      requires i < |items| && Preserves(before, was) && OnlyRenames(before, was, Destinations(items[..i]))
      ensures was.HasSize(items[i].From(), items[i].length) <==> before.HasSize(items[i].From(), items[i].length)
    {
      assert items[i].From() !in Destinations(items[..i]);
    }

    method StageAll(items: seq<Item>, preference: seq<Strategy>)
      returns (r: Result<seq<StagedFile>, StagingError>)
      requires Valid()
      modifies this
      ensures Valid() && r != Err(InsufficientSpace)
      ensures Concluded(old(fs), old(tick), old(free), items, preference, fs, free, old(lowest), lowest, r)
    {
      var files: seq<StagedFile> := [];
      var i := 0;
      StageBegins(fs, tick, items, preference, free, lowest);
      hide Running, Concluded, CostOf, LinksBeforeCopying, PredictedCost, Traced, Staged, Confined, Affordable,
        Outcome, NoFaultsFrom, PassStep, AlreadyStaged, Freed, StrategyOf, CapsOf, FaithfulSoFar, FaithfulItem;
      while i < |items|
        invariant Valid() && i <= |items| && tick >= old(tick)
        invariant Running(old(fs), old(tick), old(free), items, i, preference, fs, free, old(lowest), lowest, files)
      {
        ghost var was, had, low, from, space := fs, free, lowest, tick, free + Freed(items[i].To());
        var staged;
        ghost var lucks;
        staged, lucks := MaterializeOne(items[i], preference);
        ItemStaged(old(fs), old(tick), from, old(free), items, i, preference, was, had, space, fs, free,
                   old(lowest), low, lowest, files, staged);
        if staged.Err? {
          return Err(staged.error);
        }
        files := files + [staged.value];
        i := i + 1;
      }
      StageEnds(old(fs), old(tick), old(free), items, preference, fs, free, old(lowest), lowest, files);
      r := Ok(files);
    }

    lemma StageBegins(before: Fs, n: nat, items: seq<Item>, preference: seq<Strategy>, free: nat, low: nat)
      requires before.Valid()
      ensures Running(before, n, free, items, 0, preference, before, free, low, low, [])
    {
      assert items[..0] == [];
    }

    lemma StageEnds(
      before: Fs, n: nat, start: nat, items: seq<Item>, preference: seq<Strategy>, now: Fs, left: nat,
      lowWas: nat, low: nat, files: seq<StagedFile>)
      requires before.Valid()
      requires Running(before, n, start, items, |items|, preference, now, left, lowWas, low, files)
      ensures Concluded(before, n, start, items, preference, now, left, lowWas, low, Ok(files))
    {
      assert items[..|items|] == items;
      hide Spent, Dipped, Flawless, Stageable, Chosen, StagedKept, Preserves, OnlyRenames;
    }

    lemma KeptNames(before: Fs, now: Fs, items: seq<Item>)
      requires before.Valid() && now.Valid()
      ensures DistinctDestinations(items) && StagedKept(before, now, items) ==>
                forall i :: 0 <= i < |items| && AlreadyStaged(before, items[i]) ==>
                  now.Exists(items[i].To()) && now.names[items[i].To()] == before.names[items[i].To()]
    {
    }

    /** How many of the items are there at the right size; an empty plan counts as absent. */
    method Inspect(items: seq<Item>) returns (presence: StagingPresence)
      requires Valid()
      ensures presence ==
                var present := Present(fs, items);
                if present == 0 then Absent
                else if present == |items| then WhollyPresent
                else Incomplete(present, |items|)
      ensures presence.WhollyPresent? <==> items != [] && forall i :: 0 <= i < |items| ==> AlreadyStaged(fs, items[i])
      ensures presence.Absent? <==> forall i :: 0 <= i < |items| ==> !AlreadyStaged(fs, items[i])
    {
      var present := 0;
      var i := 0;
      while i < |items|
        invariant 0 <= i <= |items| && present == Present(fs, items[..i]) <= i
        invariant present == i <==> forall k :: 0 <= k < i ==> AlreadyStaged(fs, items[k])
        invariant present == 0 <==> forall k :: 0 <= k < i ==> !AlreadyStaged(fs, items[k])
      {
        assert items[..i + 1][..i] == items[..i];
        if AlreadyStaged(fs, items[i]) { present := present + 1; }
        i := i + 1;
      }
      assert items[..|items|] == items;
      presence :=
        if present == 0 then Absent
        else if present == |items| then WhollyPresent
        else Incomplete(present, |items|);
    }

    /**
     * Names below the directory go one by one, and nothing else does. A removal that fails ends it
     * with the rest still there; with no call failing they all go.
     */
    method Discard(dir: string) returns (r: Result<(), StagingError>)
      requires Valid()
      modifies this`fs, this`free, this`tick
      ensures Valid() && Preserves(old(fs), fs) && free >= old(free)
      ensures forall n :: n in old(fs).names && !(n.InStaging? && Beneath(n.path, dir)) ==> n in fs.names
      ensures forall n :: n in fs.names ==> n in old(fs).names && fs.names[n] == old(fs).names[n]
      ensures r.Ok? ==> forall n :: n in fs.names ==> !(n.InStaging? && Beneath(n.path, dir))
      ensures NoFaultsFrom(old(tick)) ==> r.Ok?
      ensures r.Err? ==> r == Err(StagingIo)
    {
      var doomed := set n | n in fs.names && n.InStaging? && Beneath(n.path, dir);
      while doomed != {}
        invariant Valid() && Preserves(old(fs), fs) && free >= old(free) && tick >= old(tick)
        invariant doomed == set n | n in fs.names && n.InStaging? && Beneath(n.path, dir)
        invariant forall n :: n in old(fs).names && !(n.InStaging? && Beneath(n.path, dir)) ==> n in fs.names
        invariant forall n :: n in fs.names ==> n in old(fs).names && fs.names[n] == old(fs).names[n]
        decreases |doomed|
      {
        var answer := NextLuck();
        if answer.Faulty? {
          return Err(StagingIo);
        }
        var n :| n in doomed;
        free := free + Freed(n);
        fs := fs.Unlink(n);
        doomed := doomed - {n};
      }
      assert forall n :: n in fs.names ==> n !in doomed;
      r := Ok(());
    }
  }

  /** How a file was staged, without the rest of the report. */
  function StrategyOf(r: Result<StagedFile, StagingError>): Result<Strategy, StagingError> {
    match r
    case Ok(f) => Ok(f.strategy)
    case Err(e) => Err(e)
  }

  function SumLengths(items: seq<Item>): nat {
    if items == [] then 0 else items[0].length + SumLengths(items[1..])
  }

  function Destinations(items: seq<Item>): set<Name> {
    set i | 0 <= i < |items| :: items[i].To()
  }

  function Present(fs: Fs, items: seq<Item>): nat
    requires fs.Valid()
  {
    if items == [] then 0
    else Present(fs, items[..|items| - 1]) + if AlreadyStaged(fs, items[|items| - 1]) then 1 else 0
  }

  /** As many as there are items with a file of their size at their destination. */
  lemma {:induction false} PresentIs(fs: Fs, items: seq<Item>)
    requires fs.Valid()
    ensures Present(fs, items)
            == |set i | 0 <= i < |items| && fs.HasSize(InStaging(items[i].destination), items[i].length)|
  {
    var there := set i | 0 <= i < |items| && fs.HasSize(InStaging(items[i].destination), items[i].length);
    if items != [] {
      var n := |items| - 1;
      var front := items[..n];
      PresentIs(fs, front);
      var before := set i | 0 <= i < |front| && fs.HasSize(InStaging(front[i].destination), front[i].length);
      assert there == if AlreadyStaged(fs, items[n]) then before + {n} else before;
    }
  }

  /** Files of the right size are still bound as they were. */
  ghost predicate StagedKept(before: Fs, now: Fs, items: seq<Item>)
    requires before.Valid()
  {
    forall i :: 0 <= i < |items| && AlreadyStaged(before, items[i]) ==>
      now.Exists(items[i].To()) && now.names[items[i].To()] == before.names[items[i].To()]
  }

  /**
   * Each of the first files reported is what was there before, as it was recorded, or has become its
   * source: that very file when linked, and a file of its own with the source's bytes otherwise.
   */
  ghost predicate Faithful(before: Fs, now: Fs, items: seq<Item>, files: seq<StagedFile>)
    requires before.Valid()
  {
    && now.Valid() && |files| <= |items|
    && forall k :: 0 <= k < |files| ==> FaithfulItem(before, now, items[k], files[k].strategy)
  }

  ghost predicate FaithfulSoFar(before: Fs, now: Fs, items: seq<Item>, files: seq<StagedFile>)
    requires before.Valid()
  {
    DistinctDestinations(items) ==> Faithful(before, now, items, files)
  }

  ghost predicate FaithfulItem(before: Fs, now: Fs, item: Item, strategy: Strategy)
    requires before.Valid()
  {
    && now.Valid() && now.Exists(item.To())
    && if AlreadyStaged(before, item)
       then now.names[item.To()] == before.names[item.To()] && strategy == item.previous.GetOr(Hardlink)
       else before.Exists(item.From()) && Staged(before, now, item, strategy, before.Read(item.From()))
  }

  /** What was staged stays so while another item is. */
  lemma StaysFaithful(before: Fs, was: Fs, now: Fs, item: Item, strategy: Strategy, other: Item)
    requires before.Valid() && FaithfulItem(before, was, item, strategy)
    requires Confined(was, now, other) && item.destination != other.destination
    ensures FaithfulItem(before, now, item, strategy)
  {
    assert item.To() != other.To() && item.From() != other.To();
    assert was.names[item.To()] in was.contents;
  }

  /** An item staged faithfully to how things are was staged faithfully to how they began. */
  lemma FaithfulFromTheStart(
    before: Fs, was: Fs, now: Fs, items: seq<Item>, i: nat, strategy: Strategy)
    requires i < |items| && DistinctDestinations(items)
    requires Preserves(before, was) && OnlyRenames(before, was, Destinations(items[..i]))
    requires FaithfulItem(was, now, items[i], strategy)
    ensures FaithfulItem(before, now, items[i], strategy)
  {
    assert items[i].To() !in Destinations(items[..i]);
    assert items[i].From() !in Destinations(items[..i]);
  }

  lemma FaithfulStep(
    before: Fs, was: Fs, now: Fs, items: seq<Item>, files: seq<StagedFile>, file: StagedFile)
    requires before.Valid() && |files| < |items| && DistinctDestinations(items)
    requires Preserves(before, was) && OnlyRenames(before, was, Destinations(items[..|files|]))
    requires Faithful(before, was, items, files)
    requires Confined(was, now, items[|files|]) && FaithfulItem(was, now, items[|files|], file.strategy)
    ensures Faithful(before, now, items, files + [file])
  {
    assert now.Valid();
    hide FaithfulItem, Confined, Preserves, OnlyRenames;
    forall k | 0 <= k < |files| ensures FaithfulItem(before, now, items[k], files[k].strategy) {
      StaysFaithful(before, was, now, items[k], files[k].strategy, items[|files|]);
    }
    FaithfulFromTheStart(before, was, now, items, |files|, file.strategy);
  }

  lemma DestinationsGrow(items: seq<Item>, n: nat)
    requires n <= |items|
    ensures Destinations(items[..n]) <= Destinations(items)
  {
    assert forall i :: 0 <= i < n ==> items[..n][i] == items[i];
  }

  /** One item more: confined to one destination more. */
  lemma ItemStep(before: Fs, was: Fs, now: Fs, items: seq<Item>, i: nat)
    requires i < |items| && Preserves(before, was) && OnlyRenames(before, was, Destinations(items[..i]))
    requires Confined(was, now, items[i])
    requires AlreadyStaged(was, items[i]) ==> now == was
    ensures Preserves(before, now) && OnlyRenames(before, now, Destinations(items[..i + 1]))
    ensures DistinctDestinations(items) && StagedKept(before, was, items) ==> StagedKept(before, now, items)
    ensures DistinctDestinations(items) ==>
              forall k :: 0 <= k < i && AlreadyStaged(was, items[k]) ==> AlreadyStaged(now, items[k])
  {
    assert items[..i + 1] == items[..i] + [items[i]];
    forall n ensures n in Destinations(items[..i + 1]) <==> n in Destinations(items[..i]) || n == items[i].To() {
      if n in Destinations(items[..i + 1]) {
        var k :| 0 <= k < i + 1 && items[..i + 1][k].To() == n;
        if k < i { assert items[..i][k].To() == n; }
      }
      if n in Destinations(items[..i]) {
        var k :| 0 <= k < i && items[..i][k].To() == n;
        assert items[..i + 1][k].To() == n;
      }
      if n == items[i].To() { assert items[..i + 1][i].To() == n; }
    }
    if DistinctDestinations(items) && StagedKept(before, was, items) {
      forall k | 0 <= k < |items| && AlreadyStaged(before, items[k])
        ensures now.Exists(items[k].To()) && now.names[items[k].To()] == before.names[items[k].To()]
      {
        assert was.Exists(items[k].To()) && was.names[items[k].To()] == before.names[items[k].To()];
        if k == i {
          assert AlreadyStaged(was, items[i]);
        } else {
          assert items[k].destination != items[i].destination;
        }
      }
    }
  }

  /** At the strategy reached, a copy is what was predicted, unless a link came before it. */
  lemma SpendsAsPredicted(length: nat, preference: seq<Strategy>, caps: Caps, k: nat)
    requires k < |preference| && PassedOver(preference, caps, k)
    ensures !LinksBeforeCopying(preference, caps) && preference[k] == Copy
            ==> PredictedCost(length, preference, caps) == length
  {
    if preference[k] == Copy { CostOfReachedCopy(length, preference, caps, k); }
  }

  // ---- Single calls, traced as a pass -----------------------------------------------------------

  /** `lucks` is how the calls made so far went. */
  ghost predicate Traced(before: Fs, start: Pass, lucks: seq<Luck>, fs: Fs, phase: Phase) {
    && before.Valid() && start.phase == Inspecting
    && RunPass(before, start, lucks) == (fs, start.(phase := phase))
  }

  /** What one file's pass may have changed. */
  ghost predicate Confined(before: Fs, fs: Fs, item: Item) {
    Preserves(before, fs) && OnlyRenames(before, fs, {item.To()})
  }

  /** The destination is the source's inode after a link, and a new one with its bytes otherwise. */
  ghost predicate Staged(before: Fs, fs: Fs, item: Item, strategy: Strategy, content: Content) {
    && fs.Valid() && fs.Exists(item.To()) && fs.Read(item.To()) == content
    && if strategy == Hardlink then fs.Exists(item.From()) && fs.names[item.To()] == fs.names[item.From()]
       else fs.names[item.To()] >= before.next
  }

  lemma TracedStep(before: Fs, start: Pass, lucks: seq<Luck>, fs: Fs, phase: Phase, luck: Luck)
    requires Traced(before, start, lucks, fs, phase) && fs.Valid() && IsOpen(start.(phase := phase), fs)
    ensures var (next, following) := PassStep(fs, start.(phase := phase), luck);
            Traced(before, start, lucks + [luck], next, following)
  {
    RunPassSnoc(before, start, lucks, luck);
  }

  lemma CopyRefused(before: Fs, start: Pass, lucks: seq<Luck>, fs: Fs, k: nat)
    requires fs.Valid() && k < |start.preference| && start.preference[k] == Copy
    requires Traced(before, start, lucks, fs, Trying(k))
    ensures Traced(before, start, lucks + [Faulty], fs, Finished(Err(StagingIo)))
  {
    TracedStep(before, start, lucks, fs, Trying(k), Faulty);
  }

  /** A copy in progress, into an inode made for it. */
  ghost predicate CopyState(before: Fs, start: Pass, lucks: seq<Luck>, fs: Fs, inode: Inode) {
    && Traced(before, start, lucks, fs, Copying(inode)) && Confined(before, fs, start.item)
    && fs.Valid() && inode >= before.next && fs.Exists(start.item.To()) && fs.names[start.item.To()] == inode
  }

  lemma CopyOpens(before: Fs, start: Pass, lucks: seq<Luck>, fs: Fs, k: nat)
    requires fs.Valid() && k < |start.preference| && start.preference[k] == Copy
    requires fs.Exists(start.item.From()) && !fs.Exists(start.item.To())
    requires Traced(before, start, lucks, fs, Trying(k)) && Confined(before, fs, start.item)
    ensures CopyState(before, start, lucks + [Fine], fs.Create(start.item.To(), []), fs.next)
  {
    TracedStep(before, start, lucks, fs, Trying(k), Fine);
  }

  lemma CopyBreaks(before: Fs, start: Pass, lucks: seq<Luck>, fs: Fs, inode: Inode)
    requires inode in fs.contents && CopyState(before, start, lucks, fs, inode)
    ensures Traced(before, start, lucks + [Faulty], fs, Finished(Err(StagingIo))) && Confined(before, fs, start.item)
  {
    TracedStep(before, start, lucks, fs, Copying(inode), Faulty);
  }

  lemma CopyWrites(before: Fs, start: Pass, lucks: seq<Luck>, fs: Fs, inode: Inode, chunk: Content)
    requires inode in fs.contents && CopyState(before, start, lucks, fs, inode)
    ensures fs.Valid()
    ensures CopyState(before, start, lucks + [Chunk(chunk)], fs.Write(inode, fs.contents[inode] + chunk), inode)
  {
    TracedStep(before, start, lucks, fs, Copying(inode), Chunk(chunk));
  }

  lemma CopyEnds(before: Fs, start: Pass, lucks: seq<Luck>, fs: Fs, inode: Inode)
    requires inode in fs.contents && CopyState(before, start, lucks, fs, inode)
    ensures Traced(before, start, lucks + [Fine], fs, Sizing(Copy)) && Confined(before, fs, start.item)
    ensures Staged(before, fs, start.item, Copy, fs.contents[inode])
  {
    TracedStep(before, start, lucks, fs, Copying(inode), Fine);
  }

  lemma Begins(fs: Fs, start: Pass)
    requires fs.Valid() && start.phase == Inspecting
    ensures Traced(fs, start, [], fs, Inspecting) && Confined(fs, fs, start.item)
  {
  }

  lemma Skips(fs: Fs, start: Pass)
    requires fs.Valid() && start.phase == Inspecting && fs.HasSize(start.item.To(), start.item.length)
    ensures Traced(fs, start, [Fine], fs, Finished(Ok(start.item.previous.GetOr(Hardlink))))
  {
    TracedStep(fs, start, [], fs, Inspecting, Fine);
    assert [] + [Fine] == [Fine];
  }

  lemma FindsNothing(fs: Fs, start: Pass)
    requires fs.Valid() && start.phase == Inspecting && !fs.Exists(start.item.To())
    ensures Traced(fs, start, [Fine], fs, Emptied)
  {
    TracedStep(fs, start, [], fs, Inspecting, Fine);
    assert [] + [Fine] == [Fine];
  }

  lemma FindsLeftover(fs: Fs, start: Pass)
    requires fs.Valid() && start.phase == Inspecting && fs.Exists(start.item.To())
    requires !fs.HasSize(start.item.To(), start.item.length)
    ensures Traced(fs, start, [Fine], fs, Unlinking)
  {
    TracedStep(fs, start, [], fs, Inspecting, Fine);
    assert [] + [Fine] == [Fine];
  }

  lemma UnlinkFails(fs: Fs, start: Pass)
    requires fs.Valid() && start.phase == Inspecting && fs.Exists(start.item.To())
    requires !fs.HasSize(start.item.To(), start.item.length)
    ensures Traced(fs, start, [Fine, Faulty], fs, Finished(Err(StagingIo)))
  {
    FindsLeftover(fs, start);
    TracedStep(fs, start, [Fine], fs, Unlinking, Faulty);
    assert [Fine] + [Faulty] == [Fine, Faulty];
  }

  lemma Unlinks(fs: Fs, start: Pass)
    requires fs.Valid() && start.phase == Inspecting && fs.Exists(start.item.To())
    requires !fs.HasSize(start.item.To(), start.item.length)
    ensures Traced(fs, start, [Fine, Fine], fs.Unlink(start.item.To()), Emptied)
    ensures Confined(fs, fs.Unlink(start.item.To()), start.item)
  {
    FindsLeftover(fs, start);
    TracedStep(fs, start, [Fine], fs, Unlinking, Fine);
    assert [Fine] + [Fine] == [Fine, Fine];
  }

  lemma SourceGone(before: Fs, start: Pass, lucks: seq<Luck>, fs: Fs)
    requires fs.Valid() && Traced(before, start, lucks, fs, Emptied) && !fs.Exists(start.item.From())
    ensures Traced(before, start, lucks + [Fine], fs, Finished(Err(SourceMissing)))
  {
    TracedStep(before, start, lucks, fs, Emptied, Fine);
  }

  lemma SourceDiffers(before: Fs, start: Pass, lucks: seq<Luck>, fs: Fs)
    requires fs.Valid() && Traced(before, start, lucks, fs, Emptied)
    requires fs.Exists(start.item.From()) && !fs.HasSize(start.item.From(), start.item.length)
    ensures Traced(before, start, lucks + [Fine], fs, Finished(Err(SourceChanged)))
  {
    TracedStep(before, start, lucks, fs, Emptied, Fine);
  }

  lemma DirectoriesFail(before: Fs, start: Pass, lucks: seq<Luck>, fs: Fs)
    requires fs.Valid() && Traced(before, start, lucks, fs, Emptied) && fs.HasSize(start.item.From(), start.item.length)
    ensures Traced(before, start, lucks + [Faulty], fs, Finished(Err(StagingIo)))
  {
    TracedStep(before, start, lucks, fs, Emptied, Faulty);
  }

  lemma SourceFine(before: Fs, start: Pass, lucks: seq<Luck>, fs: Fs)
    requires fs.Valid() && Traced(before, start, lucks, fs, Emptied) && fs.HasSize(start.item.From(), start.item.length)
    ensures Traced(before, start, lucks + [Fine], fs, Trying(0))
  {
    TracedStep(before, start, lucks, fs, Emptied, Fine);
  }

  lemma Unavailable(before: Fs, start: Pass, lucks: seq<Luck>, fs: Fs, k: nat, luck: Luck)
    requires fs.Valid() && k < |start.preference| && Traced(before, start, lucks, fs, Trying(k))
    requires || (start.preference[k] == Reflink && !start.caps.reflink)
             || (start.preference[k] == Hardlink && (!start.caps.canHardlink || luck.Faulty?))
    ensures Traced(before, start, lucks + [luck], fs, Trying(k + 1))
  {
    TracedStep(before, start, lucks, fs, Trying(k), luck);
  }

  lemma CloneRefused(before: Fs, start: Pass, lucks: seq<Luck>, fs: Fs, k: nat)
    requires fs.Valid() && k < |start.preference| && Traced(before, start, lucks, fs, Trying(k))
    requires start.preference[k] == Reflink && start.caps.reflink
    ensures Traced(before, start, lucks + [Faulty], fs, Finished(Err(StagingIo)))
  {
    TracedStep(before, start, lucks, fs, Trying(k), Faulty);
  }

  lemma Clones(before: Fs, start: Pass, lucks: seq<Luck>, fs: Fs, k: nat)
    requires fs.Valid() && k < |start.preference| && Traced(before, start, lucks, fs, Trying(k))
    requires start.preference[k] == Reflink && start.caps.reflink && Confined(before, fs, start.item)
    requires fs.Exists(start.item.From()) && !fs.Exists(start.item.To())
    ensures var next := fs.Create(start.item.To(), fs.Read(start.item.From()));
            && Traced(before, start, lucks + [Fine], next, Sizing(Reflink)) && Confined(before, next, start.item)
            && Staged(before, next, start.item, Reflink, fs.Read(start.item.From()))
  {
    TracedStep(before, start, lucks, fs, Trying(k), Fine);
  }

  lemma Links(before: Fs, start: Pass, lucks: seq<Luck>, fs: Fs, k: nat)
    requires fs.Valid() && k < |start.preference| && Traced(before, start, lucks, fs, Trying(k))
    requires start.preference[k] == Hardlink && start.caps.canHardlink && Confined(before, fs, start.item)
    requires fs.Exists(start.item.From()) && !fs.Exists(start.item.To())
    ensures var next := fs.Link(start.item.To(), start.item.From());
            && Traced(before, start, lucks + [Fine], next, Sizing(Hardlink)) && Confined(before, next, start.item)
            && Staged(before, next, start.item, Hardlink, fs.Read(start.item.From()))
  {
    TracedStep(before, start, lucks, fs, Trying(k), Fine);
  }

  lemma Sizes(before: Fs, start: Pass, lucks: seq<Luck>, fs: Fs, strategy: Strategy, content: Content)
    requires fs.Valid() && Traced(before, start, lucks, fs, Sizing(strategy))
    requires Staged(before, fs, start.item, strategy, content) && |content| == start.item.length
    ensures Traced(before, start, lucks + [Fine], fs, Finished(Ok(strategy))) && AlreadyStaged(fs, start.item)
  {
    TracedStep(before, start, lucks, fs, Sizing(strategy), Fine);
  }

  lemma Exhausted(before: Fs, start: Pass, lucks: seq<Luck>, fs: Fs, k: nat)
    requires fs.Valid() && k == |start.preference| && Traced(before, start, lucks, fs, Trying(k))
    ensures Traced(before, start, lucks + [Fine], fs,
                   Finished(Err(if k == 0 then NoStrategyPermitted else StrategyUnavailable)))
  {
    TracedStep(before, start, lucks, fs, Trying(k), Fine);
  }
}
