/** The download client's reference behaviour (src/seeding/adapters/fake.rs). */
module Client {
  import opened Prelude
  import opened JobModel
  import opened MatchModel

  datatype Torrent = Torrent(
    state: ClientTorrentState, completeness: DataCompleteness, savePath: string,
    checksRemaining: nat, uploadedBytes: nat, seedingSeconds: Option<nat>)

  type Torrents = map<InfoHash, Torrent>

  /** Adding again is a no-op; nothing is known about the data until it is checked. */
  function Added(ts: Torrents, h: InfoHash, savePath: string): Torrents {
    if h in ts then ts else ts[h := Torrent(Paused, Partial(0.0), savePath, 0, 0, None)]
  }

  /** A poll: a check runs down, and one that has run out leaves the torrent paused. */
  function Polled(t: Torrent): Torrent {
    if t.state != Checking then t
    else if t.checksRemaining > 0 then t.(checksRemaining := t.checksRemaining - 1)
    else t.(state := Paused)
  }

  /** How far along each file of a torrent is, if the client says so. */
  type FileProgress = Option<seq<(string, DataCompleteness)>>

  /** Only a check can be queued. */
  function StatusOf(t: Torrent, onDisk: DataCompleteness, files: FileProgress, queued: bool): TorrentStatus {
    TorrentStatus(t.state, if t.state == Checking then t.completeness else onDisk, files,
                  t.state == Checking && queued, t.uploadedBytes, t.seedingSeconds)
  }

  function AfterPoll(ts: Torrents, h: InfoHash): Torrents {
    if h in ts then ts[h := Polled(ts[h])] else ts
  }

  /** What a poll reports, completeness being read off the disk as it is now. */
  function Report(
    ts: Torrents, h: InfoHash, onDisk: DataCompleteness, files: FileProgress, queued: bool): Option<TorrentStatus>
  {
    if h in ts then Some(StatusOf(Polled(ts[h]), onDisk, files, queued)) else None
  }

  function AfterRecheck(ts: Torrents, h: InfoHash, polls: nat): Torrents {
    if h in ts && ts[h].state != Checking then ts[h := ts[h].(state := Checking, checksRemaining := polls)]
    else ts
  }

  /** Resuming incomplete data starts a download. */
  function AfterResume(ts: Torrents, h: InfoHash, onDisk: DataCompleteness): Torrents {
    if h in ts && ts[h].state != SeedingNow then
      ts[h := ts[h].(state := if onDisk.Complete? then SeedingNow else Downloading)]
    else ts
  }

  function AfterRemove(ts: Torrents, h: InfoHash): Torrents { ts - {h} }

  datatype ClientError = Rejected | Unavailable

  class FakeTorrentClient {
    var torrents: Torrents
    var onDisk: map<InfoHash, DataCompleteness>
    var fileProgress: map<InfoHash, seq<(string, DataCompleteness)>>
    var queued: map<InfoHash, bool>
    var recheckPolls: nat
    var nextError: Option<ClientError>
    var added: nat
    var rechecked: nat
    var resumed: nat

    constructor ()
      ensures torrents == map[] && onDisk == map[] && fileProgress == map[] && queued == map[] && nextError == None
      ensures added == rechecked == resumed == 0 && recheckPolls == 1
    {
      torrents, onDisk, fileProgress, queued, recheckPolls, nextError := map[], map[], map[], map[], 1, None;
      added, rechecked, resumed := 0, 0, 0;
    }

    function CompletenessOf(h: InfoHash): DataCompleteness
      reads this
    {
      if h in onDisk then onDisk[h] else Complete
    }

    function FilesOf(h: InfoHash): FileProgress
      reads this
    {
      if h in fileProgress then Some(fileProgress[h]) else None
    }

    predicate IsQueued(h: InfoHash)
      reads this
    {
      h in queued && queued[h]
    }

    /** A scripted error is reported once and stops the call before it does anything. */
    method TakeError() returns (e: Option<ClientError>)
      modifies this`nextError
      ensures e == old(nextError) && nextError == None
    {
      e := nextError;
      nextError := None;
    }

    method AddPaused(h: InfoHash, savePath: string, torrentFile: seq<Byte>) returns (r: Result<(), ClientError>)
      modifies this`nextError, this`torrents, this`added
      ensures nextError == None
      ensures r == if old(nextError).Some? then Err(old(nextError).value)
                   else if torrentFile == [] then Err(Rejected) else Ok(())
      ensures torrents == if r.Ok? then Added(old(torrents), h, savePath) else old(torrents)
      ensures added == old(added) + if r.Ok? && h !in old(torrents) then 1 else 0
    {
      var error := TakeError();
      if error.Some? { return Err(error.value); }
      if torrentFile == [] { return Err(Rejected); }
      if h in torrents { return Ok(()); }
      added := added + 1;
      torrents := torrents[h := Torrent(Paused, Partial(0.0), savePath, 0, 0, None)];
      return Ok(());
    }

    method Status(h: InfoHash) returns (r: Result<Option<TorrentStatus>, ClientError>)
      modifies this`nextError, this`torrents
      ensures nextError == None
      ensures r == if old(nextError).Some? then Err(old(nextError).value)
                   else Ok(Report(old(torrents), h, CompletenessOf(h), FilesOf(h), IsQueued(h)))
      ensures r.Ok? ==> (r.value.Some? <==> h in torrents)
      ensures r.Ok? && r.value.Some? ==>
                var told, t := r.value.value, torrents[h];
                && told.state == t.state && told.uploadedBytes == t.uploadedBytes
                && told.seedingSeconds == t.seedingSeconds
                && told.completeness == (if t.state == Checking then t.completeness
                                         else if h in onDisk then onDisk[h] else Complete)
                && told.files == (if h in fileProgress then Some(fileProgress[h]) else None)
                && (told.queued <==> t.state == Checking && h in queued && queued[h])
      ensures torrents == if r.Ok? then AfterPoll(old(torrents), h) else old(torrents)
    {
      var error := TakeError();
      if error.Some? { return Err(error.value); }
      var resolved := CompletenessOf(h);
      if h !in torrents { return Ok(None); }
      var entry := torrents[h];
      if entry.state == Checking {
        if entry.checksRemaining > 0 {
          entry := entry.(checksRemaining := entry.checksRemaining - 1);
        } else {
          entry := entry.(state := Paused);
        }
        torrents := torrents[h := entry];
      }
      assert torrents == AfterPoll(old(torrents), h);
      return Ok(Some(StatusOf(entry, resolved, FilesOf(h), IsQueued(h))));
    }

    method Recheck(h: InfoHash) returns (r: Result<(), ClientError>)
      modifies this`nextError, this`torrents, this`rechecked
      ensures nextError == None
      ensures r == if old(nextError).Some? then Err(old(nextError).value)
                   else if h !in old(torrents) then Err(Rejected) else Ok(())
      ensures torrents == if r.Ok? then AfterRecheck(old(torrents), h, recheckPolls) else old(torrents)
      ensures rechecked == old(rechecked) + if r.Ok? && old(torrents)[h].state != Checking then 1 else 0
    {
      var error := TakeError();
      if error.Some? { return Err(error.value); }
      if h !in torrents { return Err(Rejected); }
      if torrents[h].state != Checking {
        rechecked := rechecked + 1;
        torrents := torrents[h := torrents[h].(state := Checking, checksRemaining := recheckPolls)];
      }
      return Ok(());
    }

    method Resume(h: InfoHash) returns (r: Result<(), ClientError>)
      modifies this`nextError, this`torrents, this`resumed
      ensures nextError == None
      ensures r == if old(nextError).Some? then Err(old(nextError).value)
                   else if h !in old(torrents) then Err(Rejected) else Ok(())
      ensures torrents == if r.Ok? then AfterResume(old(torrents), h, CompletenessOf(h)) else old(torrents)
      ensures resumed == old(resumed) + if r.Ok? && old(torrents)[h].state != SeedingNow then 1 else 0
    {
      var error := TakeError();
      if error.Some? { return Err(error.value); }
      var resolved := CompletenessOf(h);
      if h !in torrents { return Err(Rejected); }
      if torrents[h].state != SeedingNow {
        resumed := resumed + 1;
        torrents := torrents[h := torrents[h].(state := if resolved.Complete? then SeedingNow else Downloading)];
      }
      return Ok(());
    }

    method Remove(h: InfoHash) returns (r: Result<(), ClientError>)
      modifies this`nextError, this`torrents
      ensures nextError == None
      ensures r == if old(nextError).Some? then Err(old(nextError).value) else Ok(())
      ensures torrents == if r.Ok? then AfterRemove(old(torrents), h) else old(torrents)
    {
      var error := TakeError();
      if error.Some? { return Err(error.value); }
      torrents := torrents - {h};
      return Ok(());
    }
  }

  /** A torrent is never reported complete while it is still being checked. */
  lemma CompleteMeansOnDisk(ts: Torrents, h: InfoHash, onDisk: DataCompleteness, files: FileProgress, queued: bool)
    requires h in ts ==> !ts[h].completeness.Complete?
    requires var told := Report(ts, h, onDisk, files, queued); told.Some? && told.value.completeness.Complete?
    ensures onDisk.Complete? && Report(ts, h, onDisk, files, queued).value.state != Checking
  {
  }

  // ---- The client over several calls ----------------------------------------------------------------

  function Polls(ts: Torrents, h: InfoHash, n: nat): Torrents {
    if n == 0 then ts else AfterPoll(Polls(ts, h, n - 1), h)
  }

  /** A recheck that takes `n` polls is reported running by exactly that many, and then over, its data as it is. */
  lemma {:induction false} RecheckTakesPolls(
    ts: Torrents, h: InfoHash, n: nat, k: nat, onDisk: DataCompleteness, files: FileProgress, queued: bool)
    requires h in ts && ts[h].state != Checking && k <= n
    ensures var told := Report(Polls(AfterRecheck(ts, h, n), h, k), h, onDisk, files, queued);
            && told.Some?
            && (k < n ==> told.value.state == Checking && told.value.queued == queued
                          && told.value.completeness == ts[h].completeness)
            && (k == n ==> told.value.state == Paused && !told.value.queued && told.value.completeness == onDisk)
            && told.value.files == files
    ensures h in Polls(AfterRecheck(ts, h, n), h, k)
            && Polls(AfterRecheck(ts, h, n), h, k)[h] == ts[h].(state := Checking, checksRemaining := n - k)
  {
    if k > 0 { RecheckTakesPolls(ts, h, n, k - 1, onDisk, files, queued); }
  }

  /** A torrent just added is paused and nothing of it is known to be there; one known before stays as it was. */
  lemma AddedIs(ts: Torrents, h: InfoHash, savePath: string)
    ensures h in Added(ts, h, savePath)
    ensures h in ts ==> Added(ts, h, savePath) == ts
    ensures h !in ts ==>
              && Added(ts, h, savePath)[h].state == Paused && Added(ts, h, savePath)[h].completeness == Partial(0.0)
              && Added(ts, h, savePath)[h].savePath == savePath
    ensures forall other :: other in ts ==>
              other in Added(ts, h, savePath) && Added(ts, h, savePath)[other] == ts[other]
  {
  }

  /** A resumed torrent seeds if its data is complete and downloads if not; rechecking it later stops that. */
  lemma ResumedIs(ts: Torrents, h: InfoHash, onDisk: DataCompleteness, polls: nat)
    requires h in ts && ts[h].state != SeedingNow
    ensures var u := AfterResume(ts, h, onDisk);
            && h in u && u[h].state == (if onDisk == Complete then SeedingNow else Downloading)
            && u == ts[h := ts[h].(state := u[h].state)]
            && h in AfterRecheck(u, h, polls) && AfterRecheck(u, h, polls)[h].state == Checking
            && h !in AfterRemove(u, h)
  {
  }
}
