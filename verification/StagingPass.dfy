/**
 * Materialising one file as the sequence of system calls it is (src/staging/adapters/local.rs), so
 * that a pass can be interrupted, crash, or run beside another between any two of them.
 */
module StagingPass {
  import opened Prelude
  import opened JobModel
  import opened Steps
  import opened Disk
  import Policy

  /** What a device probe found for the source's device and the staging device. */
  datatype Caps = Caps(canHardlink: bool, reflink: bool)

  datatype Item = Item(source: LibraryPath, destination: string, length: nat, previous: Option<Strategy>) {
    function From(): Name { InLibrary(source) }
    function To(): Name { InStaging(destination) }
  }

  datatype Phase =
    | Inspecting
    | Unlinking
    | Emptied
    | Trying(k: nat)
    | Copying(inode: Inode)
    | Sizing(strategy: Strategy)
    | Finished(result: Result<Strategy, StagingError>)

  datatype Pass = Pass(item: Item, preference: seq<Strategy>, caps: Caps, phase: Phase)

  /** What the operating system makes of one call. */
  datatype Luck = Fine | Faulty | Chunk(bytes: Content)

  function Begun(item: Item, preference: seq<Strategy>, caps: Caps): Pass {
    Pass(item, preference, caps, Inspecting)
  }

  predicate IsOpen(p: Pass, fs: Fs) { p.phase.Copying? ==> p.phase.inode in fs.contents }

  /** The next phase, and the filesystem after the call. */
  function PassStep(fs: Fs, p: Pass, luck: Luck): (r: (Fs, Phase))
    requires fs.Valid() && IsOpen(p, fs)
    ensures r.0.Valid() && IsOpen(p.(phase := r.1), r.0)
  {
    var item := p.item;
    match p.phase
    case Inspecting =>
      if !fs.Exists(item.To()) then (fs, Emptied)
      else if fs.HasSize(item.To(), item.length) then (fs, Finished(Ok(item.previous.GetOr(Hardlink))))
      else (fs, Unlinking)
    case Unlinking =>
      if luck.Faulty? || !fs.Exists(item.To()) then (fs, Finished(Err(StagingIo)))
      else (fs.Unlink(item.To()), Emptied)
    case Emptied =>
      if !fs.Exists(item.From()) then (fs, Finished(Err(SourceMissing)))
      else if !fs.HasSize(item.From(), item.length) then (fs, Finished(Err(SourceChanged)))
      else if luck.Faulty? then (fs, Finished(Err(StagingIo)))
      else (fs, Trying(0))
    case Trying(k) =>
      if k >= |p.preference| then
        (fs, Finished(Err(if k == 0 then NoStrategyPermitted else StrategyUnavailable)))
      else Attempt(fs, item, p.caps, p.preference[k], k, luck)
    case Copying(inode) =>
      (match luck
       case Chunk(bytes) => (fs.Write(inode, fs.contents[inode] + bytes), Copying(inode))
       case Faulty => (fs, Finished(Err(StagingIo)))
       case Fine => (fs, Sizing(Copy)))
    case Sizing(strategy) =>
      if fs.HasSize(item.To(), item.length) then (fs, Finished(Ok(strategy)))
      else (fs, Finished(Err(StagingIo)))
    case Finished(_) => (fs, p.phase)
  }

  /**
   * One strategy. Neither a clone nor a link replaces a name that exists, but a copy opens whatever
   * is there and truncates it. Only an unavailable strategy lets the next one be tried.
   */
  function Attempt(fs: Fs, item: Item, caps: Caps, strategy: Strategy, k: nat, luck: Luck): (r: (Fs, Phase))
    requires fs.Valid()
    ensures r.0.Valid() && (r.1.Copying? ==> r.1.inode in r.0.contents)
  {
    var unusable := luck.Faulty? || !fs.Exists(item.From());
    match strategy
    case Reflink =>
      if !caps.reflink then (fs, Trying(k + 1))
      else if unusable || fs.Exists(item.To()) then (fs, Finished(Err(StagingIo)))
      else (fs.Create(item.To(), fs.Read(item.From())), Sizing(Reflink))
    case Hardlink =>
      if !caps.canHardlink || unusable || fs.Exists(item.To()) then (fs, Trying(k + 1))
      else (fs.Link(item.To(), item.From()), Sizing(Hardlink))
    case Copy =>
      if unusable then (fs, Finished(Err(StagingIo)))
      else if fs.Exists(item.To()) then
        (fs.Write(fs.names[item.To()], []), Copying(fs.names[item.To()]))
      else (fs.Create(item.To(), []), Copying(fs.next))
  }

  /** A pass run on its own. */
  function RunPass(fs: Fs, p: Pass, lucks: seq<Luck>): (r: (Fs, Pass))
    requires fs.Valid() && IsOpen(p, fs)
    ensures r.0.Valid() && IsOpen(r.1, r.0)
  {
    if lucks == [] then (fs, p)
    else
      var (before, q) := RunPass(fs, p, lucks[..|lucks| - 1]);
      var (after, phase) := PassStep(before, q, lucks[|lucks| - 1]);
      (after, q.(phase := phase))
  }

  lemma RunPassSnoc(fs: Fs, p: Pass, lucks: seq<Luck>, luck: Luck)
    requires fs.Valid() && IsOpen(p, fs)
    ensures var (before, q) := RunPass(fs, p, lucks);
            RunPass(fs, p, lucks + [luck])
            == (PassStep(before, q, luck).0, q.(phase := PassStep(before, q, luck).1))
  {
    assert (lucks + [luck])[..|lucks|] == lucks;
  }

  // ---- Predicting what a pass will write -----------------------------------------------------------

  predicate Viable(strategy: Strategy, caps: Caps) {
    match strategy
    case Reflink => caps.reflink
    case Hardlink => caps.canHardlink
    case Copy => true
  }

  /** The cost of the first viable strategy: the length for a copy, or where nothing would work. */
  function PredictedCost(length: nat, preference: seq<Strategy>, caps: Caps): nat {
    if preference == [] then length
    else if preference[0] == Copy then length
    else if Viable(preference[0], caps) then 0
    else PredictedCost(length, preference[1..], caps)
  }

  /** The strategy a pass ends with when no call fails. */
  function FirstViable(preference: seq<Strategy>, caps: Caps): Option<Strategy> {
    if preference == [] then None
    else if Viable(preference[0], caps) then Some(preference[0])
    else FirstViable(preference[1..], caps)
  }

  /** It is the first that is a copy or that the devices allow. */
  lemma {:induction false} FirstViableIff(preference: seq<Strategy>, caps: Caps, strategy: Strategy)
    ensures FirstViable(preference, caps) == Some(strategy) <==>
              exists k :: 0 <= k < |preference| && preference[k] == strategy && FirstAllowed(preference, caps, k)
    ensures FirstViable(preference, caps) == None <==>
              forall k :: 0 <= k < |preference| ==> preference[k] != Copy && !UsableLink(preference[k], caps)
  {
    if preference != [] {
      FirstViableIff(preference[1..], caps, strategy);
      forall k | 0 < k < |preference|
        ensures preference[1..][k - 1] == preference[k]
        ensures FirstAllowed(preference, caps, k) <==>
                  FirstAllowed(preference[1..], caps, k - 1) && !Viable(preference[0], caps)
      {
        assert forall j :: 0 < j < k ==> preference[1..][j - 1] == preference[j];
        assert FirstAllowed(preference, caps, k) ==>
            forall j :: 0 <= j < k - 1 ==> preference[1..][j] == preference[j + 1];
      }
      if FirstViable(preference, caps) == Some(strategy) && !Viable(preference[0], caps) {
        var k :| 0 <= k < |preference[1..]| && preference[1..][k] == strategy && FirstAllowed(preference[1..], caps, k);
        assert preference[k + 1] == strategy && FirstAllowed(preference, caps, k + 1);
      }
      if Viable(preference[0], caps) { assert FirstAllowed(preference, caps, 0); }
    }
  }

  predicate FirstAllowed(preference: seq<Strategy>, caps: Caps, k: nat)
    requires k < |preference|
  {
    && (preference[k] == Copy || UsableLink(preference[k], caps))
    && forall j :: 0 <= j < k ==> preference[j] != Copy && !UsableLink(preference[j], caps)
  }

  /** Only a copy is counted, or nothing being viable. */
  lemma {:induction false} CostOfFirstViable(length: nat, preference: seq<Strategy>, caps: Caps)
    ensures PredictedCost(length, preference, caps)
            == match FirstViable(preference, caps)
               case None => length
               case Some(s) => if s == Copy then length else 0
  {
    if preference != [] && !Viable(preference[0], caps) { CostOfFirstViable(length, preference[1..], caps); }
  }

  /** A link or clone these devices allow. */
  predicate UsableLink(strategy: Strategy, caps: Caps) {
    (strategy == Hardlink && caps.canHardlink) || (strategy == Reflink && caps.reflink)
  }

  /** The length is counted exactly when every usable link or clone comes after a copy. */
  lemma {:induction false} CostWritten(length: nat, preference: seq<Strategy>, caps: Caps)
    ensures (forall k :: 0 <= k < |preference| && UsableLink(preference[k], caps) ==> Copy in preference[..k]) ==>
              PredictedCost(length, preference, caps) == length
    ensures !(forall k :: 0 <= k < |preference| && UsableLink(preference[k], caps) ==> Copy in preference[..k]) ==>
              PredictedCost(length, preference, caps) == 0
  {
    if preference != [] {
      CostWritten(length, preference[1..], caps);
      forall k | 0 < k < |preference|
        ensures preference[1..][k - 1] == preference[k]
        ensures Copy in preference[..k] <==> preference[0] == Copy || Copy in preference[1..][..k - 1]
      {
        assert preference[..k] == [preference[0]] + preference[1..][..k - 1];
      }
      assert preference[..0] == [];
      if preference[0] != Copy && !UsableLink(preference[0], caps) {
        if k :| 0 <= k < |preference[1..]| && UsableLink(preference[1..][k], caps) && Copy !in preference[1..][..k] {
          assert UsableLink(preference[k + 1], caps) && Copy !in preference[..k + 1];
        }
      }
    }
  }

  /** Nothing before the `j`-th strategy ends a pass: no copy, and no clone these devices support. */
  predicate PassedOver(preference: seq<Strategy>, caps: Caps, j: nat)
    requires j <= |preference|
  {
    forall k :: 0 <= k < j ==> preference[k] != Copy && !(preference[k] == Reflink && caps.reflink)
  }

  /** A copy can be reached after a link that was predicted to work. */
  predicate LinksBeforeCopying(preference: seq<Strategy>, caps: Caps) {
    && caps.canHardlink
    && exists j ::
         && 0 <= j < |preference| && preference[j] == Copy
         && PassedOver(preference, caps, j) && Hardlink in preference[..j]
  }

  lemma {:induction false} CostOfReachedCopy(length: nat, preference: seq<Strategy>, caps: Caps, j: nat)
    requires j < |preference| && preference[j] == Copy && PassedOver(preference, caps, j)
    ensures PredictedCost(length, preference, caps)
            == if caps.canHardlink && Hardlink in preference[..j] then 0 else length
  {
    if j > 0 {
      assert preference[0] != Copy && !(preference[0] == Reflink && caps.reflink);
      forall k | 0 <= k < j - 1 ensures preference[1..][k] == preference[k + 1] { }
      CostOfReachedCopy(length, preference[1..], caps, j - 1);
      assert preference[..j] == [preference[0]] + preference[1..][..j - 1];
    }
  }

  /** What a pass at a given phase has behind it. */
  predicate Tried(p: Pass) {
    match p.phase
    case Trying(k) => k <= |p.preference| && PassedOver(p.preference, p.caps, k)
    case Copying(_) => CopyReached(p.preference, p.caps)
    case _ => true
  }

  predicate CopyReached(preference: seq<Strategy>, caps: Caps) {
    exists j :: 0 <= j < |preference| && preference[j] == Copy && PassedOver(preference, caps, j)
  }

  lemma PassStepTried(fs: Fs, p: Pass, luck: Luck)
    requires fs.Valid() && IsOpen(p, fs) && Tried(p)
    ensures Tried(p.(phase := PassStep(fs, p, luck).1))
  {
    if p.phase.Trying? && p.phase.k < |p.preference| {
      assert p.preference[p.phase.k] == Copy ==> CopyReached(p.preference, p.caps);
    }
  }

  lemma {:induction false} RunPassTried(fs: Fs, p: Pass, lucks: seq<Luck>)
    requires fs.Valid() && IsOpen(p, fs) && Tried(p)
    ensures Tried(RunPass(fs, p, lucks).1)
    ensures RunPass(fs, p, lucks).1.(phase := p.phase) == p
  {
    if lucks != [] {
      RunPassTried(fs, p, lucks[..|lucks| - 1]);
      var (before, q) := RunPass(fs, p, lucks[..|lucks| - 1]);
      PassStepTried(before, q, lucks[|lucks| - 1]);
    }
  }

  /** The same call's worth of bad luck at every strategy before the `j`-th. */
  function AllFaulty(n: nat): seq<Luck> { seq(n, _ => Faulty) }

  lemma {:induction false} ReachesCopy(fs: Fs, p: Pass, j: nat)
    requires fs.Valid() && p.phase == Trying(0)
    requires j <= |p.preference| && PassedOver(p.preference, p.caps, j)
    ensures RunPass(fs, p, AllFaulty(j)) == (fs, p.(phase := Trying(j)))
  {
    if j > 0 {
      ReachesCopy(fs, p, j - 1);
      assert AllFaulty(j) == AllFaulty(j - 1) + [Faulty];
      RunPassSnoc(fs, p, AllFaulty(j - 1), Faulty);
    }
  }

  /**
   * The space check foresees every copy exactly when no copy can be reached past a workable link.
   */
  lemma CopiesArePredictedIff(fs: Fs, item: Item, preference: seq<Strategy>, caps: Caps)
    requires fs.Valid() && item.length > 0
    requires fs.HasSize(item.From(), item.length) && !fs.Exists(item.To())
    ensures (forall lucks :: RunPass(fs, Begun(item, preference, caps), lucks).1.phase.Copying?
               ==> PredictedCost(item.length, preference, caps) == item.length)
            <==> !LinksBeforeCopying(preference, caps)
  {
    var p := Begun(item, preference, caps);
    if !LinksBeforeCopying(preference, caps) {
      forall lucks | RunPass(fs, p, lucks).1.phase.Copying?
        ensures PredictedCost(item.length, preference, caps) == item.length
      {
        RunPassTried(fs, p, lucks);
        var j :| 0 <= j < |preference| && preference[j] == Copy && PassedOver(preference, caps, j);
        CostOfReachedCopy(item.length, preference, caps, j);
      }
    } else {
      var j :| && 0 <= j < |preference| && preference[j] == Copy
               && PassedOver(preference, caps, j) && Hardlink in preference[..j];
      CostOfReachedCopy(item.length, preference, caps, j);
      var lucks := CopyDespitePrediction(fs, p, j);
      assert RunPass(fs, p, lucks).1.phase.Copying?;
    }
  }

  lemma CopyDespitePrediction(fs: Fs, p: Pass, j: nat) returns (lucks: seq<Luck>)
    requires fs.Valid() && p.phase == Inspecting
    requires fs.HasSize(p.item.From(), p.item.length) && !fs.Exists(p.item.To())
    requires j < |p.preference| && p.preference[j] == Copy && PassedOver(p.preference, p.caps, j)
    ensures RunPass(fs, p, lucks).1.phase.Copying?
  {
    var emptied, trying := p.(phase := Emptied), p.(phase := Trying(0));
    assert RunPass(fs, p, []) == (fs, p);
    assert PassStep(fs, p, Fine) == (fs, Emptied) && PassStep(fs, emptied, Fine) == (fs, Trying(0));
    assert PassStep(fs, p.(phase := Trying(j)), Fine).1.Copying?;
    hide RunPass, PassStep, PassedOver;
    RunPassSnoc(fs, p, [], Fine);
    RunPassSnoc(fs, p, [] + [Fine], Fine);
    var two := [] + [Fine] + [Fine];
    assert RunPass(fs, p, two) == (fs, trying);
    ReachesCopy(fs, trying, j);
    RunPassAppend(fs, p, two, AllFaulty(j));
    RunPassSnoc(fs, p, two + AllFaulty(j), Fine);
    lucks := two + AllFaulty(j) + [Fine];
  }

  lemma {:induction false} RunPassAppend(fs: Fs, p: Pass, first: seq<Luck>, second: seq<Luck>)
    requires fs.Valid() && IsOpen(p, fs)
    ensures var (mid, q) := RunPass(fs, p, first);
            RunPass(fs, p, first + second) == RunPass(mid, q, second)
  {
    var (mid, q) := RunPass(fs, p, first);
    if second == [] {
      assert first + second == first;
    } else {
      var rest := second[..|second| - 1];
      RunPassAppend(fs, p, first, rest);
      assert (first + second)[..|first + second| - 1] == first + rest;
    }
  }

  /** No order the policy gives can mispredict. */
  lemma PolicyOrdersPredict(policy: Policy.MaterializationPolicy, caps: Caps)
    ensures !LinksBeforeCopying(policy.Preference(), caps)
  {
    var order := policy.Preference();
    assert forall i, j :: 0 <= i < |order| && 0 <= j < |order| && order[i] == Hardlink && order[j] == Copy ==> j < i;
  }
}
