/** Candidates, match plans and what the download client reports (src/library/domain.rs, src/seeding/domain.rs). */
module MatchModel {
  import opened Prelude
  import opened JobModel

  /** One file of a torrent: its '/'-joined path and its length. */
  datatype TorrentFile = TorrentFile(path: string, length: nat)

  datatype Origin = Sonarr(instance: string) | Radarr(instance: string) | Filesystem(root: LibraryPath)

  datatype Candidate = Candidate(path: LibraryPath, sizeBytes: nat, origin: Origin) {
    function FileName(): string {
      if path == [] then "" else path[|path| - 1]
    }
  }

  datatype Evidence = Evidence(
    sizeMatches: bool, nameMatches: bool, candidatesWithMatchingSize: nat, pieceVerified: bool)

  datatype FileMatch = FileMatch(
    torrentPath: string, length: nat, source: LibraryPath, origin: Origin,
    confidence: Confidence, evidence: Evidence)

  datatype UnmatchedReason =
    | NoCandidate
    | AmbiguousCandidates(candidates: seq<(LibraryPath, Origin)>)

  datatype UnmatchedFile = UnmatchedFile(torrentPath: string, length: nat, reason: UnmatchedReason)

  datatype MatchPlan = MatchPlan(matched: seq<FileMatch>, unmatched: seq<UnmatchedFile>)

  datatype ClientTorrentState = Paused | Checking | Downloading | SeedingNow | Errored

  datatype DataCompleteness = Complete | Partial(ratio: real) {
    function Ratio(): real {
      match this
      case Complete => 1.0
      case Partial(ratio) => ratio
    }
  }

  datatype TorrentStatus = TorrentStatus(
    state: ClientTorrentState, completeness: DataCompleteness,
    files: Option<seq<(string, DataCompleteness)>>, queued: bool,
    uploadedBytes: nat, seedingSeconds: Option<nat>)
}
