/**
 * Staging passes, the download client, lifecycle steps and the library's owner, all at once: what
 * any run of them does to library files.
 */
module LibrarySafety {
  import opened Prelude
  import opened JobModel
  import opened MatchModel
  import opened Steps
  import opened Disk
  import opened StagingPass
  import opened Client

  /** A file of a torrent: its path below the save path, and the bytes the pieces stand for. */
  datatype Wanted = Wanted(path: string, content: Content)

  type Catalogue = InfoHash -> seq<Wanted>

  /**
   * `library` is every inode a library name was ever bound to, with what its owner last put there.
   * `recorded` is the strategy the job row holds for each destination, `materialized` the one it
   * holds for all of a job's directory. A discard may fail midway, leaving the `spared` names behind.
   */
  datatype System = System(
    fs: Fs, library: map<Inode, Content>, torrents: Torrents, passes: map<nat, Pass>,
    recorded: map<string, Strategy>, materialized: map<string, Strategy>)

  datatype Event =
    | OwnerAdds(file: LibraryPath, content: Content)
    | OwnerWrites(file: LibraryPath, content: Content)
    | OwnerRemoves(file: LibraryPath)
    | PassBegins(id: nat, source: LibraryPath, destination: string, length: nat,
                 preference: seq<Strategy>, caps: Caps)
    | PassMoves(id: nat, luck: Luck)
    | PassCrashes(id: nat)
    | Records(id: nat)
    | Summarises(dir: string, ids: seq<nat>)
    | Forgets(destination: string)
    | Discards(dir: string, spared: set<Name>)
    | Acts(job: Job, w: World, savePath: string, took: seq<bool>, polls: nat)
    | Removes(infoHash: InfoHash)
    | ClientWrites(infoHash: InfoHash, k: nat, content: Content)

  // ---- The client's view of the disk -----------------------------------------------------------

  function StagedName(t: Torrent, wanted: Wanted): Name { InStaging(Under(wanted.path, t.savePath)) }

  predicate Holds(fs: Fs, n: Name, content: Content)
    requires fs.Valid()
  {
    fs.Exists(n) && fs.Read(n) == content
  }

  predicate AllThere(fs: Fs, t: Torrent, wanted: seq<Wanted>)
    requires fs.Valid()
  {
    forall k :: 0 <= k < |wanted| ==> Holds(fs, StagedName(t, wanted[k]), wanted[k].content)
  }

  /** Complete exactly when every file is there, byte for byte. */
  function OnDisk(fs: Fs, ts: Torrents, h: InfoHash, catalogue: Catalogue): DataCompleteness
    requires fs.Valid()
  {
    if h in ts && !AllThere(fs, ts[h], catalogue(h)) then Partial(0.0) else Complete
  }

  /** What the step was told of the torrent's state and data is what the client had to say then. */
  predicate Witnessed(s: System, job: Job, w: World, catalogue: Catalogue)
    requires s.fs.Valid()
  {
    w.status.Answered? && job.row.data.infoHash.Some? ==>
      var h := job.row.data.infoHash.value;
      var told, actual := w.status.value, Report(s.torrents, h, OnDisk(s.fs, s.torrents, h, catalogue), None, false);
      && told.Some? == actual.Some?
      && (told.Some? ==> told.value.state == actual.value.state && told.value.completeness == actual.value.completeness)
  }

  function ApplyCall(
    fs: Fs, ts: Torrents, call: ClientCall, savePath: string, polls: nat, catalogue: Catalogue): Torrents
    requires fs.Valid()
  {
    match call
    case AddPaused(h) => Added(ts, h, savePath)
    case AskStatus(h) => AfterPoll(ts, h)
    case Recheck(h) => AfterRecheck(ts, h, polls)
    case Resume(h) => AfterResume(ts, h, OnDisk(fs, ts, h, catalogue))
  }

  /** The calls of one step in turn, each taking effect or failing on the way. */
  function ApplyCalls(
    fs: Fs, ts: Torrents, calls: seq<ClientCall>, took: seq<bool>, savePath: string, polls: nat,
    catalogue: Catalogue): Torrents
    requires fs.Valid()
    decreases |calls|
  {
    if calls == [] then ts
    else
      var next := if took != [] && took[0] then ApplyCall(fs, ts, calls[0], savePath, polls, catalogue) else ts;
      ApplyCalls(fs, next, calls[1..], if took == [] then [] else took[1..], savePath, polls, catalogue)
  }

  // ---- Events ----------------------------------------------------------------------------------

  ghost predicate Sound(s: System) {
    && s.fs.Valid()
    && (forall id :: id in s.passes ==> IsOpen(s.passes[id], s.fs))
    && (forall i :: i in s.library ==> i in s.fs.contents)
  }

  predicate AllStaged(passes: map<nat, Pass>, ids: seq<nat>) {
    forall i :: 0 <= i < |ids| ==>
      ids[i] in passes && passes[ids[i]].phase.Finished? && passes[ids[i]].phase.result.Ok?
  }

  /** What the finished passes of one plan report together. */
  function ReportOf(passes: map<nat, Pass>, ids: seq<nat>): seq<StagedFile>
    requires AllStaged(passes, ids)
  {
    seq(|ids|, i requires 0 <= i < |ids| =>
      var p := passes[ids[i]]; StagedFile(p.item.destination, p.phase.result.value, p.item.length))
  }

  /** An event that cannot happen in this state changes nothing. */
  ghost function Do(s: System, e: Event, catalogue: Catalogue): (r: System)
    requires Sound(s)
  {
    match e
    case OwnerAdds(file, content) =>
      s.(fs := s.fs.Create(InLibrary(file), content), library := s.library[s.fs.next := content])
    case OwnerWrites(file, content) =>
      if !s.fs.Exists(InLibrary(file)) then s
      else
        var i := s.fs.names[InLibrary(file)];
        s.(fs := s.fs.Write(i, content), library := s.library[i := content])
    case OwnerRemoves(file) => s.(fs := s.fs.Unlink(InLibrary(file)))
    case PassBegins(id, source, destination, length, preference, caps) =>
      if id in s.passes then s
      else
        var previous := if destination in s.recorded then Some(s.recorded[destination]) else None;
        s.(passes := s.passes[id := Begun(Item(source, destination, length, previous), preference, caps)])
    case PassMoves(id, luck) =>
      if id !in s.passes then s
      else
        var (fs, phase) := PassStep(s.fs, s.passes[id], luck);
        s.(fs := fs, passes := s.passes[id := s.passes[id].(phase := phase)])
    case PassCrashes(id) => s.(passes := s.passes - {id})
    case Records(id) =>
      if id in s.passes && s.passes[id].phase.Finished? && s.passes[id].phase.result.Ok? then
        s.(recorded := s.recorded[s.passes[id].item.destination := s.passes[id].phase.result.value])
      else s
    case Summarises(dir, ids) =>
      if AllStaged(s.passes, ids) then
        var summary := SummaryStrategy(ReportOf(s.passes, ids));
        if summary.Some? then s.(materialized := s.materialized[dir := summary.value]) else s
      else s
    case Forgets(destination) => s.(recorded := s.recorded - {destination})
    case Discards(dir, spared) =>
      s.(fs := s.fs.UnlinkAll((set n | n in s.fs.names && n.InStaging? && Beneath(n.path, dir)) - spared))
    case Acts(job, w, savePath, took, polls) =>
      if !Witnessed(s, job, w, catalogue) then s
      else s.(torrents := ApplyCalls(s.fs, s.torrents, Step(job, w).calls, took, savePath, polls, catalogue))
    case Removes(h) => s.(torrents := AfterRemove(s.torrents, h))
    case ClientWrites(h, k, content) =>
      if h !in s.torrents || s.torrents[h].state != Downloading || k >= |catalogue(h)| then s
      else
        var n := StagedName(s.torrents[h], catalogue(h)[k]);
        if s.fs.Exists(n) then s.(fs := s.fs.Write(s.fs.names[n], content))
        else s.(fs := s.fs.Create(n, content))
  }

  // ---- What every run keeps --------------------------------------------------------------------

  ghost predicate LibraryIntact(s: System) {
    forall i :: i in s.library ==> i in s.fs.contents && s.fs.contents[i] == s.library[i]
  }

  predicate NothingDownloads(ts: Torrents) {
    forall h :: h in ts ==> ts[h].state != Downloading && !ts[h].completeness.Complete?
  }

  /** Library names are bound to library inodes, and no copy is being written into one. */
  ghost predicate Safe(s: System) {
    && Sound(s) && LibraryIntact(s) && NothingDownloads(s.torrents)
    && (forall n :: n in s.fs.names && n.InLibrary? ==> s.fs.names[n] in s.library)
    && (forall id :: id in s.passes && s.passes[id].phase.Copying? ==> s.passes[id].phase.inode !in s.library)
  }

  predicate Active(s: System, id: nat) { id in s.passes && !s.passes[id].phase.Finished? }

  predicate PastUnlink(p: Pass) { p.phase.Emptied? || p.phase.Trying? }

  /** No two running passes share a destination, and one past its unlink finds nothing there. */
  ghost predicate Separate(s: System) {
    && (forall i, j :: Active(s, i) && Active(s, j) && s.passes[i].item.destination == s.passes[j].item.destination
          ==> i == j)
    && (forall id :: id in s.passes && PastUnlink(s.passes[id]) ==> !s.fs.Exists(s.passes[id].item.To()))
  }

  /** Nothing but the event's own pass is running on its destination. */
  ghost predicate BeginsAlone(s: System, e: Event) {
    e.PassBegins? ==> forall id :: Active(s, id) ==> s.passes[id].item.destination != e.destination
  }

  // ---- Client calls never start a download -------------------------------------------------------

  /** A step that resumes a torrent was told, about that torrent, that its data is complete. */
  lemma ResumesWhatWasAsked(job: Job, w: World, i: nat)
    requires i < |Step(job, w).calls| && Step(job, w).calls[i].Resume?
    ensures job.row.data.infoHash == Some(Step(job, w).calls[i].infoHash)
    ensures Step(job, w).calls == [AskStatus(job.row.data.infoHash.value), Resume(job.row.data.infoHash.value)]
    ensures w.status.Answered? && w.status.value.Some? && w.status.value.value.completeness.Complete?
  {
    ResumeFollowsComplete(job, w, i);
    assert job.row.data.infoHash.Some?;
  }

  lemma {:induction false} CallsKeepNothingDownloads(
    fs: Fs, ts: Torrents, calls: seq<ClientCall>, took: seq<bool>, savePath: string, polls: nat, catalogue: Catalogue)
    requires fs.Valid() && NothingDownloads(ts)
    requires forall i :: 0 <= i < |calls| && calls[i].Resume? ==> OnDisk(fs, ts, calls[i].infoHash, catalogue).Complete?
    requires forall i :: 0 <= i < |calls| && calls[i].Resume? ==>
               i == |calls| - 1 && forall j :: 0 <= j < i ==> calls[j].AskStatus?
    ensures NothingDownloads(ApplyCalls(fs, ts, calls, took, savePath, polls, catalogue))
    decreases |calls|
  {
    if calls != [] {
      var next := if took != [] && took[0] then ApplyCall(fs, ts, calls[0], savePath, polls, catalogue) else ts;
      assert NothingDownloads(next);
      var rest := calls[1..];
      forall i | 0 <= i < |rest| && rest[i].Resume?
        ensures OnDisk(fs, next, rest[i].infoHash, catalogue).Complete?
      {
        assert calls[i + 1].Resume? && calls[0].AskStatus?;
      }
      CallsKeepNothingDownloads(fs, next, rest, if took == [] then [] else took[1..], savePath, polls, catalogue);
    }
  }

  lemma ActsKeepNothingDownloads(
    s: System, job: Job, w: World, took: seq<bool>, savePath: string, polls: nat, catalogue: Catalogue)
    requires Sound(s) && NothingDownloads(s.torrents) && Witnessed(s, job, w, catalogue)
    ensures NothingDownloads(ApplyCalls(s.fs, s.torrents, Step(job, w).calls, took, savePath, polls, catalogue))
  {
    var calls := Step(job, w).calls;
    forall i | 0 <= i < |calls| && calls[i].Resume?
      ensures OnDisk(s.fs, s.torrents, calls[i].infoHash, catalogue).Complete?
      ensures i == |calls| - 1 && forall j :: 0 <= j < i ==> calls[j].AskStatus?
    {
      ResumesWhatWasAsked(job, w, i);
      var h := calls[i].infoHash;
      CompleteMeansOnDisk(s.torrents, h, OnDisk(s.fs, s.torrents, h, catalogue), None, false);
      ResumeFollowsComplete(job, w, i);
    }
    CallsKeepNothingDownloads(s.fs, s.torrents, calls, took, savePath, polls, catalogue);
  }

  // ---- Every event keeps the library safe ----------------------------------------------------------

  /** Should the event be a copy opening a name that exists, that name is no library file. */
  ghost predicate CopyHarmless(s: System, e: Event)
    requires Sound(s)
  {
    e.PassMoves? && e.id in s.passes ==>
      var p := s.passes[e.id];
      p.phase.Trying? && p.phase.k < |p.preference| && p.preference[p.phase.k] == Copy && s.fs.Exists(p.item.To())
      ==> s.fs.names[p.item.To()] !in s.library
  }

  /** What one call of a pass leaves alone. */
  lemma PassStepKeeps(fs: Fs, p: Pass, luck: Luck, library: set<Inode>)
    requires fs.Valid() && IsOpen(p, fs)
    requires forall i :: i in library ==> i in fs.contents
    requires p.phase.Copying? ==> p.phase.inode !in library
    requires p.phase.Trying? && p.phase.k < |p.preference| && p.preference[p.phase.k] == Copy && fs.Exists(p.item.To())
             ==> fs.names[p.item.To()] !in library
    ensures var (after, phase) := PassStep(fs, p, luck);
            && (forall i :: i in library ==> i in after.contents && after.contents[i] == fs.contents[i])
            && (forall i :: i in fs.contents ==> i in after.contents)
            && (forall n :: n != p.item.To() ==> (n in after.names <==> n in fs.names))
            && (forall n :: n != p.item.To() && n in fs.names ==> after.names[n] == fs.names[n])
            && (phase.Copying? ==> phase.inode !in library)
  {
  }

  lemma PassMovesKeepsSafe(s: System, id: nat, luck: Luck, catalogue: Catalogue)
    requires Safe(s) && CopyHarmless(s, PassMoves(id, luck))
    ensures Safe(Do(s, PassMoves(id, luck), catalogue))
  {
    if id in s.passes {
      PassStepKeeps(s.fs, s.passes[id], luck, s.library.Keys);
      var (fs, phase) := PassStep(s.fs, s.passes[id], luck);
      hide PassStep, Attempt;
      var r := Do(s, PassMoves(id, luck), catalogue);
      assert r.fs == fs && r.passes == s.passes[id := s.passes[id].(phase := phase)];
    }
  }

  lemma OwnerKeepsSafe(s: System, e: Event, catalogue: Catalogue)
    requires Safe(s) && (e.OwnerAdds? || e.OwnerWrites? || e.OwnerRemoves?)
    ensures Safe(Do(s, e, catalogue))
  {
    hide OnDisk;
  }

  lemma EventKeepsSafe(s: System, e: Event, catalogue: Catalogue)
    requires Safe(s) && CopyHarmless(s, e)
    ensures Safe(Do(s, e, catalogue))
  {
    if e.OwnerAdds? || e.OwnerWrites? || e.OwnerRemoves? {
      OwnerKeepsSafe(s, e, catalogue);
    } else if e.PassMoves? {
      PassMovesKeepsSafe(s, e.id, e.luck, catalogue);
    } else if e.Acts? {
      ActsKeepsSafe(s, e, catalogue);
    } else {
      OthersKeepSafe(s, e, catalogue);
    }
  }

  lemma ActsKeepsSafe(s: System, e: Event, catalogue: Catalogue)
    requires Safe(s) && e.Acts?
    ensures Safe(Do(s, e, catalogue))
  {
    if Witnessed(s, e.job, e.w, catalogue) {
      ActsKeepNothingDownloads(s, e.job, e.w, e.took, e.savePath, e.polls, catalogue);
    }
    hide Step, ApplyCalls, Witnessed;
  }

  lemma OthersKeepSafe(s: System, e: Event, catalogue: Catalogue)
    requires Safe(s)
    requires || e.PassBegins? || e.PassCrashes? || e.Records? || e.Summarises? || e.Forgets? || e.Discards?
             || e.Removes? || e.ClientWrites?
    ensures Safe(Do(s, e, catalogue))
  {
    hide Step, ApplyCalls, Witnessed, PassStep, Attempt, OnDisk;
  }

  // ---- One pass per destination at a time ------------------------------------------------------------

  lemma PassStepUntouched(fs: Fs, p: Pass, luck: Luck)
    requires fs.Valid() && IsOpen(p, fs)
    ensures var (after, phase) := PassStep(fs, p, luck);
            && (phase.Emptied? || phase.Trying? ==>
                  (p.phase.Inspecting? || p.phase.Unlinking? || !fs.Exists(p.item.To())) ==> !after.Exists(p.item.To()))
            && (p.phase.Finished? ==> after == fs && phase == p.phase)
            && (forall n :: n != p.item.To() ==> (n in after.names <==> n in fs.names))
            && (phase.Emptied? || phase.Trying? ==> p.phase.Inspecting? || p.phase.Unlinking? || PastUnlink(p))
  {
  }

  lemma SeparateIsHarmless(s: System, e: Event)
    requires Sound(s) && Separate(s)
    ensures CopyHarmless(s, e)
  {
    if e.PassMoves? && e.id in s.passes && PastUnlink(s.passes[e.id]) {
      assert !s.fs.Exists(s.passes[e.id].item.To());
    }
  }

  lemma PassMovesKeepsSeparate(s: System, id: nat, luck: Luck, catalogue: Catalogue)
    requires Safe(s) && Separate(s)
    ensures Separate(Do(s, PassMoves(id, luck), catalogue))
  {
    if id in s.passes {
      PassStepUntouched(s.fs, s.passes[id], luck);
      OneMove(s, id, luck, catalogue);
      var (fs, phase) := PassStep(s.fs, s.passes[id], luck);
      hide Do, PassStep, Safe, Separate;
      MovedIsSeparate(s, id, fs, phase);
    }
  }

  lemma MovedIsSeparate(s: System, id: nat, fs: Fs, phase: Phase)
    requires Separate(s) && id in s.passes
    requires var p := s.passes[id];
             && (phase.Emptied? || phase.Trying? ==>
                   (p.phase.Inspecting? || p.phase.Unlinking? || !s.fs.Exists(p.item.To())) ==> !fs.Exists(p.item.To()))
             && (p.phase.Finished? ==> fs == s.fs && phase == p.phase)
             && (forall n :: n != p.item.To() ==> (n in fs.names <==> n in s.fs.names))
             && (phase.Emptied? || phase.Trying? ==> p.phase.Inspecting? || p.phase.Unlinking? || PastUnlink(p))
    ensures Separate(s.(fs := fs, passes := s.passes[id := s.passes[id].(phase := phase)]))
  {
    var p, r := s.passes[id], s.(fs := fs, passes := s.passes[id := s.passes[id].(phase := phase)]);
    assert forall i :: Active(r, i) ==> Active(s, i);
    forall j | j in r.passes && PastUnlink(r.passes[j]) ensures !r.fs.Exists(r.passes[j].item.To()) {
      if j == id {
        assert PastUnlink(p) ==> !s.fs.Exists(p.item.To());
      } else {
        assert Active(s, j) && !s.fs.Exists(s.passes[j].item.To());
        assert !p.phase.Finished? ==> Active(s, id);
      }
    }
  }

  /** No event but a pass's own call starts a staged file or moves a pass. */
  lemma OtherEventsOnlyRemove(s: System, e: Event, catalogue: Catalogue)
    requires Safe(s) && !e.PassMoves? && !e.PassBegins? && !e.PassCrashes?
    ensures Do(s, e, catalogue).passes == s.passes
    ensures forall n :: n in Do(s, e, catalogue).fs.names && n.InStaging? ==>
              n in s.fs.names && Do(s, e, catalogue).fs.names[n] == s.fs.names[n]
  {
    hide Step, ApplyCalls, Witnessed, PassStep, Attempt, OnDisk;
  }

  lemma FewerFilesKeepSeparate(s: System, r: System)
    requires Separate(s)
    requires forall id :: id in r.passes ==> id in s.passes && r.passes[id] == s.passes[id]
    requires forall n :: n in r.fs.names && n.InStaging? ==> n in s.fs.names
    ensures Separate(r)
  {
    forall i, j | Active(r, i) && Active(r, j) && r.passes[i].item.destination == r.passes[j].item.destination
      ensures i == j
    {
      assert Active(s, i) && Active(s, j);
    }
  }

  lemma EventKeepsSeparate(s: System, e: Event, catalogue: Catalogue)
    requires Safe(s) && Separate(s) && BeginsAlone(s, e)
    ensures Separate(Do(s, e, catalogue))
  {
    if e.PassMoves? {
      PassMovesKeepsSeparate(s, e.id, e.luck, catalogue);
    } else if e.PassBegins? {
      BeginKeepsSeparate(s, e, catalogue);
    } else if e.PassCrashes? {
      FewerFilesKeepSeparate(s, s.(passes := s.passes - {e.id}));
    } else {
      OtherEventsOnlyRemove(s, e, catalogue);
      hide Do;
      FewerFilesKeepSeparate(s, Do(s, e, catalogue));
    }
  }

  lemma BeginKeepsSeparate(s: System, e: Event, catalogue: Catalogue)
    requires Sound(s) && Separate(s) && e.PassBegins? && BeginsAlone(s, e)
    ensures Separate(Do(s, e, catalogue))
  {
    var r := Do(s, e, catalogue);
    assert forall i :: Active(r, i) && i != e.id ==> Active(s, i);
  }

  // ---- Runs ------------------------------------------------------------------------------------------

  ghost predicate Initial(s: System) {
    && Safe(s) && s.passes == map[] && s.torrents == map[] && s.recorded == map[] && s.materialized == map[]
    && forall n :: n in s.fs.names ==> n.InLibrary?
  }

  ghost function Run(s: System, events: seq<Event>, catalogue: Catalogue): (r: System)
    requires Sound(s)
    ensures Sound(r)
  {
    if events == [] then s
    else
      var before := Run(s, events[..|events| - 1], catalogue);
      DoKeepsSound(before, events[|events| - 1], catalogue);
      Do(before, events[|events| - 1], catalogue)
  }

  lemma DoKeepsSound(s: System, e: Event, catalogue: Catalogue)
    requires Sound(s)
    ensures Sound(Do(s, e, catalogue))
  {
    hide Step, ApplyCalls, Witnessed, OnDisk;
    if e.PassMoves? && e.id in s.passes {
      PassStepGrows(s.fs, s.passes[e.id], e.luck);
      hide PassStep, Attempt;
    }
  }

  lemma PassStepGrows(fs: Fs, p: Pass, luck: Luck)
    requires fs.Valid() && IsOpen(p, fs)
    ensures forall i :: i in fs.contents ==> i in PassStep(fs, p, luck).0.contents
  {
  }

  /** Whenever a pass begins, no other is running on its destination. */
  ghost predicate Alone(s: System, events: seq<Event>, catalogue: Catalogue)
    requires Sound(s)
  {
    events == []
    || (&& Alone(s, events[..|events| - 1], catalogue)
        && BeginsAlone(Run(s, events[..|events| - 1], catalogue), events[|events| - 1]))
  }

  lemma {:induction false} AloneRunsAreSeparate(s: System, events: seq<Event>, catalogue: Catalogue)
    requires Initial(s) && Alone(s, events, catalogue)
    ensures Safe(Run(s, events, catalogue)) && Separate(Run(s, events, catalogue))
  {
    if events != [] {
      var before := Run(s, events[..|events| - 1], catalogue);
      var e := events[|events| - 1];
      AloneRunsAreSeparate(s, events[..|events| - 1], catalogue);
      SeparateIsHarmless(before, e);
      EventKeepsSafe(before, e, catalogue);
      EventKeepsSeparate(before, e, catalogue);
    }
  }

  /**
   * In every run of staging passes, crashes, lifecycle steps, rechecks, resumes, discards and owner
   * edits, whatever the policies, with one pass per destination at a time: every library file holds
   * what its owner last put there, nothing is ever downloading, and a copy only ever opens a name
   * that does not exist.
   */
  lemma LibraryIsNeverWritten(s: System, events: seq<Event>, catalogue: Catalogue)
    requires Initial(s) && Alone(s, events, catalogue)
    ensures var r := Run(s, events, catalogue);
            && (forall i :: i in r.library ==> i in r.fs.contents && r.fs.contents[i] == r.library[i])
            && (forall h :: h in r.torrents ==> r.torrents[h].state != Downloading)
            && (forall id :: id in r.passes && r.passes[id].phase.Trying? ==> !r.fs.Exists(r.passes[id].item.To()))
  {
    AloneRunsAreSeparate(s, events, catalogue);
    var r := Run(s, events, catalogue);
    forall id | id in r.passes && r.passes[id].phase.Trying? ensures !r.fs.Exists(r.passes[id].item.To()) {
      assert PastUnlink(r.passes[id]);
    }
  }

  function Moves(id: nat, lucks: seq<Luck>): seq<Event> {
    seq(|lucks|, i requires 0 <= i < |lucks| => PassMoves(id, lucks[i]))
  }

  lemma OneMove(s: System, id: nat, luck: Luck, catalogue: Catalogue)
    requires Sound(s) && id in s.passes
    ensures var (fs, phase) := PassStep(s.fs, s.passes[id], luck);
            Do(s, PassMoves(id, luck), catalogue)
            == s.(fs := fs, passes := s.passes[id := s.passes[id].(phase := phase)])
  {
    hide PassStep;
  }

  /** A pass nothing interrupts is the run of its own calls. */
  lemma {:induction false} PassAloneIsARun(s: System, id: nat, lucks: seq<Luck>, catalogue: Catalogue)
    requires Sound(s) && id in s.passes
    ensures var (fs, p) := RunPass(s.fs, s.passes[id], lucks);
            Run(s, Moves(id, lucks), catalogue) == s.(fs := fs, passes := s.passes[id := p])
  {
    hide PassStep, Do, Sound;
    if lucks == [] {
      assert s.passes[id := s.passes[id]] == s.passes;
    } else {
      var front, last := lucks[..|lucks| - 1], lucks[|lucks| - 1];
      PassAloneIsARun(s, id, front, catalogue);
      assert Moves(id, lucks)[..|lucks| - 1] == Moves(id, front);
      var before := Run(s, Moves(id, front), catalogue);
      OneMove(before, id, last, catalogue);
    }
  }
}
