/** Piece verification: the retry loop that hashes chosen candidates (src/library/verification.rs). */
module Verification {
  import opened Prelude
  import opened JobModel
  import opened MatchModel
  import opened Pieces
  import opened TorrentOrder
  import opened Matching

  type Digest = seq<Byte>

  /** What one read finds: the hash of those bytes of that file, or nothing readable. */
  type Disk = (nat, LibraryPath, Range) -> Option<Digest>

  datatype Torrent = Torrent(files: seq<TorrentFile>, pieceLength: nat, pieces: seq<Digest>, count: nat) {
    function Total(): nat { TotalLength(files) }
    function Piece(p: nat): Range { PieceByteRange(p, pieceLength, Total()) }
    function Hash(p: nat): Digest { if p < |pieces| then pieces[p] else [] }
  }

  datatype PieceCheck = PieceCheck(torrentPath: string, candidate: LibraryPath, piece: nat, matched: bool)

  datatype RoundOutcome = Retry(rejected: seq<LibraryPath>) | Done(verified: seq<nat>)

  function Position(files: seq<TorrentFile>, path: string): (r: Option<nat>)
    ensures r.Some? ==> r.value < |files| && files[r.value].path == path
    ensures r.None? ==> forall i :: 0 <= i < |files| ==> files[i].path != path
  {
    if files == [] then None
    else if files[0].path == path then Some(0)
    else
      match Position(files[1..], path)
      case None => None
      case Some(i) => Some(i + 1)
  }

  /** The pieces a match for file `index` is checked by. */
  function ChosenAt(t: Torrent, index: nat): seq<nat>
    requires index < |t.files|
  {
    SelectPieces(PiecesWithinFile(FileByteRange(t.files, index), t.pieceLength, |t.pieces|, t.Total()), t.count)
  }

  function ChosenFor(t: Torrent, path: string): seq<nat> {
    match Position(t.files, path)
    case None => []
    case Some(index) => ChosenAt(t, index)
  }

  /** The bytes of the file at `path` that piece `p` covers. */
  function Asked(t: Torrent, path: string, p: nat): Range {
    match Position(t.files, path)
    case None => Range(0, 0)
    case Some(index) =>
      var file, piece := FileByteRange(t.files, index), t.Piece(p);
      if piece.start >= file.start && piece.end >= file.start
      then Range(piece.start - file.start, piece.end - file.start) else Range(0, 0)
  }

  /** A range that ends before it starts cannot be read. */
  function HashPiece(disk: Disk, tick: nat, candidate: LibraryPath, range: Range): Option<Digest> {
    if range.end < range.start then None else disk(tick, candidate, range)
  }

  lemma ChosenFacts(t: Torrent, index: nat)
    requires index < |t.files|
    ensures Ascending(ChosenAt(t, index))
    ensures forall p :: p in ChosenAt(t, index) ==>
              && 0 <= p < |t.pieces| && t.Piece(p).Within(FileByteRange(t.files, index))
              && t.Piece(p).end >= FileByteRange(t.files, index).start
  {
    var file := FileByteRange(t.files, index);
    var available := PiecesWithinFile(file, t.pieceLength, |t.pieces|, t.Total());
    PiecesWithinExact(file, t.pieceLength, |t.pieces|, t.Total());
    SelectionIsAvailable(available, t.count);
    if t.count >= 2 && |available| > t.count { SelectionIsSpread(available, t.count); }
    if t.count == 1 && |available| > 1 { SingleCheckIsFirst(available); }
    StartsGrow(t.files, index, |t.files|);
  }

  function ReadPiece(t: Torrent, disk: Disk, tick: nat, path: string, candidate: LibraryPath, p: nat): Option<Digest> {
    HashPiece(disk, tick, candidate, Asked(t, path, p))
  }

  /** A recorded check says what some read of those bytes of that file found. */
  ghost predicate Truthful(t: Torrent, disk: Disk, check: PieceCheck) {
    && check.piece < |t.pieces|
    && check.piece in ChosenFor(t, check.torrentPath)
    && exists tick: nat ::
         var digest := ReadPiece(t, disk, tick, check.torrentPath, check.candidate, check.piece);
         digest.Some? && check.matched == (digest.value == t.Hash(check.piece))
  }

  /** Some read of piece `p` for the match came back with nothing. */
  ghost predicate NoRead(t: Torrent, disk: Disk, m: FileMatch, p: nat) {
    exists tick: nat :: ReadPiece(t, disk, tick, m.torrentPath, m.source, p).None?
  }

  function Check(m: FileMatch, piece: nat, matched: bool): PieceCheck {
    PieceCheck(m.torrentPath, m.source, piece, matched)
  }

  /**
   * Hash the chosen pieces of one match, stopping at the first that fails or cannot be read, and at
   * nothing else.
   */
  method CheckMatch(t: Torrent, disk: Disk, tick: nat, m: FileMatch, index: nat)
    returns (checks: seq<PieceCheck>, verified: bool, rejected: bool, next: nat)
    requires Position(t.files, m.torrentPath) == Some(index)
    ensures verified <==> |checks| == |ChosenAt(t, index)| && forall k :: 0 <= k < |checks| ==> checks[k].matched
    ensures rejected <==> exists k :: 0 <= k < |checks| && !checks[k].matched
    ensures |checks| <= |ChosenAt(t, index)|
    ensures forall k :: 0 <= k < |checks| ==>
              checks[k] == Check(m, ChosenAt(t, index)[k], checks[k].matched) && Truthful(t, disk, checks[k])
    ensures forall k :: 0 <= k < |checks| - 1 ==> checks[k].matched
    ensures !verified && !rejected ==>
              |checks| < |ChosenAt(t, index)| && NoRead(t, disk, m, ChosenAt(t, index)[|checks|])
  {
    checks, verified, rejected, next := [], true, false, tick;
    var file := FileByteRange(t.files, index);
    var chosen := ChosenAt(t, index);
    ChosenFacts(t, index);
    var k := 0;
    while k < |chosen|
      invariant 0 <= k <= |chosen| && verified && !rejected && |checks| == k
      invariant forall j :: 0 <= j < k ==> checks[j] == Check(m, chosen[j], true) && Truthful(t, disk, checks[j])
    {
      var piece := chosen[k];
      assert piece in chosen;
      var relative := Range(t.Piece(piece).start - file.start, t.Piece(piece).end - file.start);
      var digest := HashPiece(disk, next, m.source, relative);
      assert digest == ReadPiece(t, disk, next, m.torrentPath, m.source, piece);
      next := next + 1;
      if digest.None? {
        verified := false;
        break;
      }
      var matched := digest.value == t.pieces[piece];
      var check := Check(m, piece, matched);
      assert Truthful(t, disk, check);
      checks := checks + [check];
      if !matched {
        verified := false;
        rejected := true;
        assert !checks[k].matched;
        break;
      }
      k := k + 1;
    }
  }

  ghost predicate FailedOn(report: seq<PieceCheck>, path: LibraryPath) {
    exists k :: 0 <= k < |report| && !report[k].matched && report[k].candidate == path
  }

  ghost predicate AllPassed(report: seq<PieceCheck>) {
    forall k :: 0 <= k < |report| ==> report[k].matched
  }

  ghost predicate AllTruthful(t: Torrent, disk: Disk, report: seq<PieceCheck>) {
    forall k :: 0 <= k < |report| ==> Truthful(t, disk, report[k])
  }

  /** At least one piece was chosen for the match, and every chosen one is on record as passed. */
  ghost predicate FullyChecked(t: Torrent, m: FileMatch, report: seq<PieceCheck>) {
    && ChosenFor(t, m.torrentPath) != []
    && forall p :: p in ChosenFor(t, m.torrentPath) ==> Check(m, p, true) in report
  }

  /**
   * The checks of one match: the first `n` chosen pieces passed, and the next, if there is one, is on
   * record as failed or could not be read. Nothing beyond it was checked.
   */
  ghost predicate StoppedAt(t: Torrent, disk: Disk, m: FileMatch, checks: seq<PieceCheck>, n: nat) {
    var chosen := ChosenFor(t, m.torrentPath);
    && n <= |chosen|
    && (forall k :: 0 <= k < |chosen| ==> (Check(m, chosen[k], true) in checks <==> k < n))
    && (forall k :: 0 <= k < |chosen| && k != n ==> Check(m, chosen[k], false) !in checks)
    && (n < |chosen| ==> Check(m, chosen[n], false) in checks || NoRead(t, disk, m, chosen[n]))
  }

  ghost predicate Judged(t: Torrent, disk: Disk, m: FileMatch, checks: seq<PieceCheck>) {
    exists n: nat :: StoppedAt(t, disk, m, checks, n)
  }

  ghost predicate AllJudged(t: Torrent, disk: Disk, matched: seq<FileMatch>, i: nat, checks: seq<PieceCheck>)
    requires i <= |matched|
  {
    forall j :: 0 <= j < i ==> Judged(t, disk, matched[j], checks)
  }

  ghost predicate DistinctMatches(matched: seq<FileMatch>) {
    forall i, j :: 0 <= i < j < |matched| ==> matched[i].torrentPath != matched[j].torrentPath
  }

  /** What is known of match `i` once its own checks are recorded. */
  lemma CheckedIff(t: Torrent, m: FileMatch, index: nat, checks: seq<PieceCheck>, verified: bool)
    requires Position(t.files, m.torrentPath) == Some(index)
    requires |checks| <= |ChosenAt(t, index)| && ChosenAt(t, index) != []
    requires forall k :: 0 <= k < |checks| ==> checks[k] == Check(m, ChosenAt(t, index)[k], checks[k].matched)
    requires verified <==> |checks| == |ChosenAt(t, index)| && AllPassed(checks)
    requires AllPassed(checks)
    ensures verified <==> FullyChecked(t, m, checks)
  {
    var chosen := ChosenAt(t, index);
    ChosenFacts(t, index);
    if verified {
      forall p | p in chosen ensures Check(m, p, true) in checks {
        var k :| 0 <= k < |chosen| && chosen[k] == p;
        assert checks[k] == Check(m, p, true);
      }
    } else {
      var p := chosen[|checks|];
      assert forall k :: 0 <= k < |checks| ==> checks[k].piece == chosen[k] < p;
      assert Check(m, p, true) !in checks;
    }
  }

  /** Only a match's own checks bear on it. */
  lemma OthersDoNotCount(t: Torrent, m: FileMatch, before: seq<PieceCheck>, own: seq<PieceCheck>)
    requires forall k :: 0 <= k < |before| ==> before[k].torrentPath != m.torrentPath
    ensures FullyChecked(t, m, before + own) <==> FullyChecked(t, m, own)
    ensures FullyChecked(t, m, own + before) <==> FullyChecked(t, m, own)
    ensures forall disk: Disk :: Judged(t, disk, m, own) ==>
              Judged(t, disk, m, before + own) && Judged(t, disk, m, own + before)
  {
    forall p, b ensures Check(m, p, b) in before + own <==> Check(m, p, b) in own {
      assert Check(m, p, b) !in before;
    }
    forall p, b ensures Check(m, p, b) in own + before <==> Check(m, p, b) in own {
      assert Check(m, p, b) !in before;
    }
    forall disk: Disk | Judged(t, disk, m, own)
      ensures Judged(t, disk, m, before + own) && Judged(t, disk, m, own + before)
    {
      var n: nat :| StoppedAt(t, disk, m, own, n);
      assert StoppedAt(t, disk, m, before + own, n) && StoppedAt(t, disk, m, own + before, n);
    }
  }

  /** What one match's own checks say: where they stopped, and why. */
  lemma OwnChecksJudge(
    t: Torrent, disk: Disk, m: FileMatch, index: nat, own: seq<PieceCheck>, passed: bool, failed: bool)
    requires Position(t.files, m.torrentPath) == Some(index) && |own| <= |ChosenAt(t, index)|
    requires forall k :: 0 <= k < |own| ==> own[k] == Check(m, ChosenAt(t, index)[k], own[k].matched)
    requires forall k :: 0 <= k < |own| - 1 ==> own[k].matched
    requires failed <==> !AllPassed(own)
    requires passed <==> |own| == |ChosenAt(t, index)| && AllPassed(own)
    requires !passed && !failed ==>
               |own| < |ChosenAt(t, index)| && NoRead(t, disk, m, ChosenAt(t, index)[|own|])
    ensures Judged(t, disk, m, own)
  {
    var chosen := ChosenAt(t, index);
    ChosenFacts(t, index);
    var n := if failed then |own| - 1 else |own|;
    hide ChosenAt, NoRead;
    forall k, b | 0 <= k < |chosen|
      ensures Check(m, chosen[k], b) in own <==> k < |own| && own[k].matched == b
    {
      if Check(m, chosen[k], b) in own {
        var j :| 0 <= j < |own| && own[j] == Check(m, chosen[k], b);
        assert chosen[j] == chosen[k];
      }
    }
    assert StoppedAt(t, disk, m, own, n);
  }

  /** The state of a round after its first `i` matches. */
  ghost predicate RoundState(
    t: Torrent, disk: Disk, matched: seq<FileMatch>, i: nat, checks: seq<PieceCheck>, verified: seq<nat>,
    rejected: seq<LibraryPath>)
  {
    && i <= |matched| && AllTruthful(t, disk, checks)
    && (forall k :: 0 <= k < |checks| ==> ComesFrom(matched, i, checks[k]))
    && (forall path :: path in rejected <==> FailedOn(checks, path))
    && (rejected != [] ==> exists j :: 0 <= j < i && matched[j].source in rejected)
    && (rejected == [] ==> AllPassed(checks))
    && Ascending(verified) && (forall j :: j in verified ==> 0 <= j < i)
    && (rejected == [] ==> VerifiedExactly(t, matched, i, checks, verified))
    && AllJudged(t, disk, matched, i, checks)
  }

  ghost predicate ComesFrom(matched: seq<FileMatch>, i: nat, check: PieceCheck)
    requires i <= |matched|
  {
    exists j :: 0 <= j < i && check.torrentPath == matched[j].torrentPath && check.candidate == matched[j].source
  }

  ghost predicate VerifiedExactly(
    t: Torrent, matched: seq<FileMatch>, i: nat, checks: seq<PieceCheck>, verified: seq<nat>)
    requires i <= |matched|
  {
    forall j :: 0 <= j < i ==> (j in verified <==> FullyChecked(t, matched[j], checks))
  }

  /** What checking one match yields. */
  ghost predicate OwnChecks(
    t: Torrent, disk: Disk, m: FileMatch, own: seq<PieceCheck>, passed: bool, failed: bool)
  {
    && AllTruthful(t, disk, own)
    && (forall k :: 0 <= k < |own| ==> own[k].torrentPath == m.torrentPath && own[k].candidate == m.source)
    && (failed <==> !AllPassed(own))
    && (passed ==> !failed)
    && (!failed ==> (passed <==> FullyChecked(t, m, own)))
    && Judged(t, disk, m, own)
  }

  lemma CheckMatchYields(
    t: Torrent, disk: Disk, m: FileMatch, index: nat, own: seq<PieceCheck>, passed: bool, failed: bool)
    requires Position(t.files, m.torrentPath) == Some(index) && ChosenAt(t, index) != []
    requires passed <==> |own| == |ChosenAt(t, index)| && AllPassed(own)
    requires failed <==> !AllPassed(own)
    requires |own| <= |ChosenAt(t, index)|
    requires forall k :: 0 <= k < |own| ==>
               own[k] == Check(m, ChosenAt(t, index)[k], own[k].matched) && Truthful(t, disk, own[k])
    requires forall k :: 0 <= k < |own| - 1 ==> own[k].matched
    requires !passed && !failed ==>
               |own| < |ChosenAt(t, index)| && NoRead(t, disk, m, ChosenAt(t, index)[|own|])
    ensures OwnChecks(t, disk, m, own, passed, failed)
  {
    hide Truthful, ChosenAt, NoRead, FullyChecked, Judged;
    OwnChecksJudge(t, disk, m, index, own, passed, failed);
    if !failed { CheckedIff(t, m, index, own, passed); }
  }

  lemma NothingToCheck(t: Torrent, disk: Disk, m: FileMatch)
    requires ChosenFor(t, m.torrentPath) == []
    ensures OwnChecks(t, disk, m, [], false, false)
  {
    assert StoppedAt(t, disk, m, [], 0);
  }

  lemma FailedOnConcat(a: seq<PieceCheck>, b: seq<PieceCheck>, path: LibraryPath)
    ensures FailedOn(a + b, path) <==> FailedOn(a, path) || FailedOn(b, path)
  {
    var all := a + b;
    if FailedOn(all, path) {
      var k :| 0 <= k < |all| && !all[k].matched && all[k].candidate == path;
      if k < |a| { assert a[k] == all[k]; } else { assert b[k - |a|] == all[k]; }
    }
    if FailedOn(a, path) {
      var k :| 0 <= k < |a| && !a[k].matched && a[k].candidate == path;
      assert all[k] == a[k];
    }
    if FailedOn(b, path) {
      var k :| 0 <= k < |b| && !b[k].matched && b[k].candidate == path;
      assert all[|a| + k] == b[k];
    }
  }

  lemma NothingFailed(own: seq<PieceCheck>, source: LibraryPath)
    requires forall k :: 0 <= k < |own| ==> own[k].candidate == source
    ensures forall path :: FailedOn(own, path) <==> path == source && !AllPassed(own)
  {
    if !AllPassed(own) {
      var k :| 0 <= k < |own| && !own[k].matched;
      assert FailedOn(own, source);
    }
  }

  lemma VerifiedStep(
    t: Torrent, matched: seq<FileMatch>, i: nat, checks: seq<PieceCheck>, verified: seq<nat>,
    own: seq<PieceCheck>, passed: bool)
    requires i < |matched| && DistinctMatches(matched)
    requires forall k :: 0 <= k < |checks| ==> ComesFrom(matched, i, checks[k])
    requires forall k :: 0 <= k < |own| ==> own[k].torrentPath == matched[i].torrentPath
    requires passed <==> FullyChecked(t, matched[i], own)
    requires forall j :: j in verified ==> 0 <= j < i
    requires VerifiedExactly(t, matched, i, checks, verified)
    ensures VerifiedExactly(t, matched, i + 1, checks + own, if passed then verified + [i] else verified)
  {
    hide FullyChecked;
    forall j | 0 <= j < i
      ensures FullyChecked(t, matched[j], checks + own) <==> FullyChecked(t, matched[j], checks)
    {
      OthersDoNotCount(t, matched[j], own, checks);
    }
    forall k | 0 <= k < |checks| ensures checks[k].torrentPath != matched[i].torrentPath {
      assert ComesFrom(matched, i, checks[k]);
    }
    OthersDoNotCount(t, matched[i], checks, own);
  }

  lemma JudgedStep(
    t: Torrent, disk: Disk, matched: seq<FileMatch>, i: nat, checks: seq<PieceCheck>, own: seq<PieceCheck>)
    requires i < |matched| && DistinctMatches(matched)
    requires forall k :: 0 <= k < |checks| ==> ComesFrom(matched, i, checks[k])
    requires forall k :: 0 <= k < |own| ==> own[k].torrentPath == matched[i].torrentPath
    requires AllJudged(t, disk, matched, i, checks) && Judged(t, disk, matched[i], own)
    ensures AllJudged(t, disk, matched, i + 1, checks + own)
  {
    hide Judged, FullyChecked;
    forall j | 0 <= j < i ensures Judged(t, disk, matched[j], checks + own) {
      OthersDoNotCount(t, matched[j], own, checks);
    }
    forall k | 0 <= k < |checks| ensures checks[k].torrentPath != matched[i].torrentPath {
      assert ComesFrom(matched, i, checks[k]);
    }
    OthersDoNotCount(t, matched[i], checks, own);
  }

  lemma AscendingSnoc(s: seq<nat>, x: nat)
    requires Ascending(s) && forall y :: y in s ==> y < x
    ensures Ascending(s + [x])
  {
    forall k | 0 <= k < |s| ensures s[k] < x {
      assert s[k] in s;
    }
  }

  lemma ComesFromStep(matched: seq<FileMatch>, i: nat, checks: seq<PieceCheck>, own: seq<PieceCheck>)
    requires i < |matched|
    requires forall k :: 0 <= k < |checks| ==> ComesFrom(matched, i, checks[k])
    requires forall k :: 0 <= k < |own| ==>
               own[k].torrentPath == matched[i].torrentPath && own[k].candidate == matched[i].source
    ensures forall k :: 0 <= k < |checks + own| ==> ComesFrom(matched, i + 1, (checks + own)[k])
  {
    var all := checks + own;
    forall k | 0 <= k < |all| ensures ComesFrom(matched, i + 1, all[k]) {
      if k < |checks| {
        assert ComesFrom(matched, i, checks[k]);
      } else {
        assert own[k - |checks|] == all[k];
      }
    }
  }

  lemma RejectedStep(
    checks: seq<PieceCheck>, own: seq<PieceCheck>, rejected: seq<LibraryPath>, source: LibraryPath, failed: bool)
    requires forall path :: path in rejected <==> FailedOn(checks, path)
    requires forall k :: 0 <= k < |own| ==> own[k].candidate == source
    requires failed <==> !AllPassed(own)
    ensures var after := if failed then rejected + [source] else rejected;
            forall path :: path in after <==> FailedOn(checks + own, path)
  {
    NothingFailed(own, source);
    forall path ensures path in (if failed then rejected + [source] else rejected) <==> FailedOn(checks + own, path) {
      FailedOnConcat(checks, own, path);
    }
  }

  lemma RoundStep(
    t: Torrent, disk: Disk, matched: seq<FileMatch>, i: nat, checks: seq<PieceCheck>, verified: seq<nat>,
    rejected: seq<LibraryPath>, own: seq<PieceCheck>, passed: bool, failed: bool)
    requires i < |matched| && DistinctMatches(matched)
    requires RoundState(t, disk, matched, i, checks, verified, rejected)
    requires OwnChecks(t, disk, matched[i], own, passed, failed)
    ensures RoundState(
              t, disk, matched, i + 1, checks + own, if passed then verified + [i] else verified,
              if failed then rejected + [matched[i].source] else rejected)
  {
    hide Truthful, FullyChecked, Judged;
    ComesFromStep(matched, i, checks, own);
    RejectedStep(checks, own, rejected, matched[i].source, failed);
    if rejected == [] && !failed { VerifiedStep(t, matched, i, checks, verified, own, passed); }
    JudgedStep(t, disk, matched, i, checks, own);
    hide FailedOn, ComesFrom, VerifiedExactly, AllJudged, Judged;
    var after := if failed then rejected + [matched[i].source] else rejected;
    if failed {
      assert matched[i].source in after;
    } else if rejected != [] {
      var j :| 0 <= j < i && matched[j].source in rejected;
      assert matched[j].source in after;
    }
    AscendingSnoc(verified, i);
  }

  /** Every match was checked as far as it goes, and nothing else was. */
  ghost predicate RoundRecord(t: Torrent, disk: Disk, matched: seq<FileMatch>, checks: seq<PieceCheck>) {
    && AllTruthful(t, disk, checks)
    && (forall k :: 0 <= k < |checks| ==> ComesFrom(matched, |matched|, checks[k]))
    && AllJudged(t, disk, matched, |matched|, checks)
  }

  /** A match for a file without a piece of its own is left be. */
  method CheckEntry(t: Torrent, disk: Disk, tick: nat, m: FileMatch)
    returns (own: seq<PieceCheck>, passed: bool, failed: bool, next: nat)
    ensures OwnChecks(t, disk, m, own, passed, failed)
  {
    var index := Position(t.files, m.torrentPath);
    if index.None? || ChosenAt(t, index.value) == [] {
      NothingToCheck(t, disk, m);
      return [], false, false, tick;
    }
    own, passed, failed, next := CheckMatch(t, disk, tick, m, index.value);
    hide Truthful, NoRead;
    CheckMatchYields(t, disk, m, index.value, own, passed, failed);
  }

  /** Done when nothing failed, with the fully checked matches; else the sources that did fail. */
  ghost predicate Concludes(t: Torrent, matched: seq<FileMatch>, checks: seq<PieceCheck>, outcome: RoundOutcome) {
    match outcome
    case Done(verified) =>
      && AllPassed(checks) && Ascending(verified)
      && (forall i :: i in verified ==> 0 <= i < |matched|)
      && VerifiedExactly(t, matched, |matched|, checks, verified)
    case Retry(rejected) =>
      && (exists i :: 0 <= i < |matched| && matched[i].source in rejected)
      && forall path :: path in rejected <==> FailedOn(checks, path)
  }

  method VerifyRound(t: Torrent, plan: MatchPlan, disk: Disk, tick: nat)
    returns (outcome: RoundOutcome, checks: seq<PieceCheck>, next: nat)
    requires DistinctMatches(plan.matched)
    ensures RoundRecord(t, disk, plan.matched, checks) && Concludes(t, plan.matched, checks, outcome)
  {
    var rejected: seq<LibraryPath> := [];
    var verified: seq<nat> := [];
    checks, next := [], tick;
    var i := 0;
    RoundBegins(t, disk, plan.matched);
    hide RoundState, OwnChecks, Truthful, FullyChecked, AllTruthful, AllPassed, FailedOn, VerifiedExactly, NoRead,
      RoundRecord, Concludes, DistinctMatches;
    while i < |plan.matched|
      invariant i <= |plan.matched| && RoundState(t, disk, plan.matched, i, checks, verified, rejected)
    {
      var m := plan.matched[i];
      var own, passed, failed;
      own, passed, failed, next := CheckEntry(t, disk, next, m);
      RoundStep(t, disk, plan.matched, i, checks, verified, rejected, own, passed, failed);
      checks := checks + own;
      verified := if passed then verified + [i] else verified;
      rejected := if failed then rejected + [m.source] else rejected;
      i := i + 1;
    }
    RoundEnds(t, disk, plan.matched, checks, verified, rejected);
    outcome := if rejected == [] then Done(verified) else Retry(rejected);
  }

  lemma RoundBegins(t: Torrent, disk: Disk, matched: seq<FileMatch>)
    ensures RoundState(t, disk, matched, 0, [], [], [])
  {
  }

  lemma RoundEnds(
    t: Torrent, disk: Disk, matched: seq<FileMatch>, checks: seq<PieceCheck>, verified: seq<nat>,
    rejected: seq<LibraryPath>)
    requires RoundState(t, disk, matched, |matched|, checks, verified, rejected)
    ensures RoundRecord(t, disk, matched, checks)
    ensures Concludes(t, matched, checks, if rejected == [] then Done(verified) else Retry(rejected))
  {
  }

  // ---- The retry loop ----------------------------------------------------------------------------

  predicate Skips(t: Torrent) { t.count == 0 || t.pieces == [] }

  /** The candidates nothing on record speaks against, in their order. */
  ghost function Survivors(candidates: seq<Candidate>, report: seq<PieceCheck>): seq<Candidate> {
    Keep(candidates, (c: Candidate) => !FailedOn(report, c.path))
  }

  function AsExact(m: FileMatch): FileMatch {
    m.(confidence := Exact, evidence := m.evidence.(pieceVerified := true))
  }

  /** `plan` is `base` with exactly the fully checked matches raised to `Exact`. */
  ghost predicate IsRaised(t: Torrent, plan: MatchPlan, base: MatchPlan, checks: seq<PieceCheck>) {
    && plan.unmatched == base.unmatched && |plan.matched| == |base.matched|
    && forall i :: 0 <= i < |base.matched| ==>
         plan.matched[i] == if FullyChecked(t, base.matched[i], checks) then AsExact(base.matched[i])
                            else base.matched[i]
  }

  lemma PlanPathsDistinct(files: seq<TorrentFile>, candidates: seq<Candidate>)
    requires DistinctFiles(files)
    ensures DistinctMatches(PlanFor(files, candidates).matched)
    decreases |files|
  {
    if files != [] {
      var rest := files[..|files| - 1];
      PlanPathsDistinct(rest, candidates);
      var before := PlanFor(rest, candidates).matched;
      forall k | 0 <= k < |before| ensures before[k].torrentPath != files[|files| - 1].path {
        var i := MatchComesFrom(rest, candidates, k);
        VerdictIff(rest[i], candidates);
      }
      VerdictIff(files[|files| - 1], candidates);
    }
  }

  lemma SourceIsCandidate(files: seq<TorrentFile>, candidates: seq<Candidate>, k: nat)
    requires k < |PlanFor(files, candidates).matched|
    ensures exists c :: c in candidates && c.path == PlanFor(files, candidates).matched[k].source
  {
    var i := MatchComesFrom(files, candidates, k);
    VerdictIff(files[i], candidates);
  }

  /** Dropping what a round rejected leaves the survivors of the longer report, and fewer of them. */
  lemma DropRejected(
    candidates: seq<Candidate>, report: seq<PieceCheck>, checks: seq<PieceCheck>, rejected: seq<LibraryPath>,
    source: LibraryPath)
    requires forall path :: path in rejected <==> FailedOn(checks, path)
    requires source in rejected && exists c :: c in Survivors(candidates, report) && c.path == source
    ensures Keep(Survivors(candidates, report), (c: Candidate) => c.path !in rejected)
            == Survivors(candidates, report + checks)
    ensures |Survivors(candidates, report + checks)| < |Survivors(candidates, report)|
  {
    forall c: Candidate
      ensures !FailedOn(report + checks, c.path) <==> !FailedOn(report, c.path) && c.path !in rejected
    {
      FailedOnConcat(report, checks, c.path);
    }
    KeepKeep(candidates, (c: Candidate) => !FailedOn(report, c.path), (c: Candidate) => c.path !in rejected,
             (c: Candidate) => !FailedOn(report + checks, c.path));
    KeepShrinks(Survivors(candidates, report), (c: Candidate) => c.path !in rejected);
  }

  method Raise(t: Torrent, base: MatchPlan, verified: seq<nat>, ghost checks: seq<PieceCheck>) returns (plan: MatchPlan)
    requires forall i :: i in verified ==> 0 <= i < |base.matched|
    requires VerifiedExactly(t, base.matched, |base.matched|, checks, verified)
    ensures IsRaised(t, plan, base, checks)
  {
    plan := base;
    var k := 0;
    while k < |verified|
      invariant 0 <= k <= |verified|
      invariant plan.unmatched == base.unmatched && |plan.matched| == |base.matched|
      invariant forall i :: 0 <= i < |base.matched| ==>
          plan.matched[i] == if i in verified[..k] then AsExact(base.matched[i]) else base.matched[i]
    {
      var i := verified[k];
      assert i in verified;
      var raised := plan.matched[i].(confidence := Exact);
      plan := plan.(matched := plan.matched[i := raised.(evidence := raised.evidence.(pieceVerified := true))]);
      assert verified[..k + 1] == verified[..k] + [verified[k]];
      k := k + 1;
    }
    assert verified[..|verified|] == verified;
  }

  // ---- What a whole run recorded ------------------------------------------------------------------

  /** The rounds' checks one after another. */
  function Flat(history: seq<seq<PieceCheck>>): seq<PieceCheck> {
    if history == [] then [] else Flat(history[..|history| - 1]) + history[|history| - 1]
  }

  function LastRound(history: seq<seq<PieceCheck>>): seq<PieceCheck> {
    if history == [] then [] else history[|history| - 1]
  }

  function Earlier(history: seq<seq<PieceCheck>>): seq<seq<PieceCheck>> {
    if history == [] then [] else history[..|history| - 1]
  }

  /** What the planner makes of the candidates left after these rounds. */
  ghost function PlanAfter(t: Torrent, candidates: seq<Candidate>, history: seq<seq<PieceCheck>>): MatchPlan {
    PlanFor(t.files, Survivors(candidates, Flat(history)))
  }

  /** Each round checked the plan it was given, and found something wrong. */
  ghost predicate Retried(t: Torrent, disk: Disk, candidates: seq<Candidate>, history: seq<seq<PieceCheck>>) {
    history == []
    || (&& Retried(t, disk, candidates, Earlier(history))
        && RoundRecord(t, disk, PlanAfter(t, candidates, Earlier(history)).matched, LastRound(history))
        && !AllPassed(LastRound(history)))
  }

  /** The plan and report of a whole run, round by round: all but the last round found something wrong. */
  ghost predicate VerifiedBy(
    t: Torrent, disk: Disk, candidates: seq<Candidate>, plan: MatchPlan, report: seq<PieceCheck>,
    history: seq<seq<PieceCheck>>)
  {
    if Skips(t) then plan == PlanFor(t.files, candidates) && report == [] && history == []
    else
      && history != [] && report == Flat(history) && Retried(t, disk, candidates, Earlier(history))
      && RoundRecord(t, disk, PlanAfter(t, candidates, Earlier(history)).matched, LastRound(history))
      && AllPassed(LastRound(history))
      && IsRaised(t, plan, PlanAfter(t, candidates, Earlier(history)), LastRound(history))
  }

  /**
   * Unless nothing is to be verified, rounds are run until one finds nothing wrong, within one round
   * per candidate and one more. The plan is the planner's for the candidates no check spoke against,
   * with exactly the matches raised whose every chosen piece passed in that last round.
   */
  method VerifyMatches(t: Torrent, candidates: seq<Candidate>, disk: Disk)
    returns (plan: MatchPlan, report: seq<PieceCheck>, rounds: nat, ghost history: seq<seq<PieceCheck>>)
    requires DistinctFiles(t.files)
    ensures VerifiedBy(t, disk, candidates, plan, report, history)
    ensures rounds == |history| <= |candidates| + 1
    ensures IsRaised(t, plan, PlanFor(t.files, Survivors(candidates, report)), LastRound(history))
    ensures forall i :: 0 <= i < |plan.matched| ==> !FailedOn(report, plan.matched[i].source)
  {
    report, rounds, history := [], 0, [];
    KeepEverything(candidates, (c: Candidate) => !FailedOn(report, c.path));
    if t.count == 0 || t.pieces == [] {
      plan := PlanMatches(t.files, candidates);
      NothingChosen(t, plan);
      NoReturnedSourceFailed(t, plan, candidates, report, []);
      return;
    }
    var remaining := candidates;
    var tick := 0;
    hide RoundRecord, AllPassed, FailedOn, VerifiedExactly, FullyChecked;
    while rounds < |candidates| + 1
      invariant rounds + |remaining| <= |candidates|
      invariant rounds == |history| && report == Flat(history)
      invariant remaining == Survivors(candidates, report)
      invariant Retried(t, disk, candidates, history)
      decreases |candidates| + 1 - rounds
    {
      var base := PlanMatches(t.files, remaining);
      PlanPathsDistinct(t.files, remaining);
      var outcome, checks;
      outcome, checks, tick := VerifyRound(t, base, disk, tick);
      rounds := rounds + 1;
      ghost var before := history;
      history := history + [checks];
      assert Earlier(history) == before && LastRound(history) == checks;
      assert Flat(history) == report + checks;
      match outcome
      case Retry(rejected) =>
        ghost var k :| 0 <= k < |base.matched| && base.matched[k].source in rejected;
        SourceIsCandidate(t.files, remaining, k);
        DropRejected(candidates, report, checks, rejected, base.matched[k].source);
        RejectedIsNotPassed(checks, base.matched[k].source);
        remaining := Keep(remaining, (c: Candidate) => c.path !in rejected);
        report := report + checks;
      case Done(verified) =>
        PassedChangesNothing(candidates, report, checks);
        plan := Raise(t, base, verified, checks);
        report := report + checks;
        NoReturnedSourceFailed(t, plan, candidates, report, checks);
        return;
    }
    assert false;
  }

  lemma RejectedIsNotPassed(checks: seq<PieceCheck>, path: LibraryPath)
    ensures FailedOn(checks, path) ==> !AllPassed(checks)
  {
  }

  lemma NothingChosen(t: Torrent, plan: MatchPlan)
    requires Skips(t)
    ensures IsRaised(t, plan, plan, [])
  {
    forall i | 0 <= i < |plan.matched| ensures !FullyChecked(t, plan.matched[i], []) {
      var m := plan.matched[i];
      var index := Position(t.files, m.torrentPath);
      if index.Some? {
        assert ChosenAt(t, index.value) == [];
      }
    }
  }

  lemma PassedChangesNothing(candidates: seq<Candidate>, report: seq<PieceCheck>, checks: seq<PieceCheck>)
    requires AllPassed(checks)
    ensures Survivors(candidates, report + checks) == Survivors(candidates, report)
  {
    forall c: Candidate ensures FailedOn(report + checks, c.path) <==> FailedOn(report, c.path) {
      FailedOnConcat(report, checks, c.path);
    }
    var p := (c: Candidate) => !FailedOn(report, c.path);
    var q := (c: Candidate) => !FailedOn(report + checks, c.path);
    KeepKeep(candidates, p, q, q);
    KeepKeep(candidates, q, p, q);
    KeepKeep(candidates, p, p, p);
    KeepKeep(candidates, p, q, p);
  }

  lemma NoReturnedSourceFailed(
    t: Torrent, plan: MatchPlan, candidates: seq<Candidate>, report: seq<PieceCheck>, checks: seq<PieceCheck>)
    requires IsRaised(t, plan, PlanFor(t.files, Survivors(candidates, report)), checks)
    ensures forall i :: 0 <= i < |plan.matched| ==> !FailedOn(report, plan.matched[i].source)
  {
    var kept := Survivors(candidates, report);
    forall i | 0 <= i < |plan.matched| ensures !FailedOn(report, plan.matched[i].source) {
      SourceIsCandidate(t.files, kept, i);
      var c :| c in kept && c.path == PlanFor(t.files, kept).matched[i].source;
      KeepMember(candidates, (c: Candidate) => !FailedOn(report, c.path), c);
    }
  }

  /** A match left below `Exact` was not checked in full; one at `Exact` passed some piece and every chosen one. */
  lemma ExactIffFullyChecked(t: Torrent, plan: MatchPlan, candidates: seq<Candidate>, checks: seq<PieceCheck>, i: nat)
    requires IsRaised(t, plan, PlanFor(t.files, candidates), checks) && i < |plan.matched|
    ensures plan.matched[i].confidence == Exact <==> FullyChecked(t, plan.matched[i], checks)
    ensures plan.matched[i].evidence.pieceVerified <==> FullyChecked(t, plan.matched[i], checks)
  {
    var k := MatchComesFrom(t.files, candidates, i);
    VerdictIff(t.files[k], candidates);
  }

  // ---- What an exact match has behind it -------------------------------------------------------------

  /** The pieces lying inside file `i`, by their numbers. */
  function OwnPieces(t: Torrent, i: nat): seq<nat>
    requires i < |t.files|
  {
    PiecesWithinFile(FileByteRange(t.files, i), t.pieceLength, |t.pieces|, t.Total())
  }

  /** Piece `p` of file `i` is on record as passed, having been read off its place in the source and hashed right. */
  ghost predicate Passed(t: Torrent, disk: Disk, report: seq<PieceCheck>, i: nat, source: LibraryPath, p: nat)
    requires i < |t.files|
  {
    && p < |t.pieces| && PieceCheck(t.files[i].path, source, p, true) in report
    && var start := FileStart(t.files, i);
       var end := Min(p * t.pieceLength + t.pieceLength, t.Total());
       && start <= p * t.pieceLength && start <= end
       && WasRead(disk, source, Range(p * t.pieceLength - start, end - start), t.pieces[p])
  }

  ghost predicate WasRead(disk: Disk, source: LibraryPath, range: Range, digest: Digest) {
    exists tick: nat :: disk(tick, source, range) == Some(digest)
  }

  lemma {:induction false} PassedIsTruthful(
    t: Torrent, disk: Disk, report: seq<PieceCheck>, i: nat, source: LibraryPath, p: nat)
    requires DistinctFiles(t.files) && i < |t.files| && p in ChosenAt(t, i)
    requires PieceCheck(t.files[i].path, source, p, true) in report
    requires Truthful(t, disk, PieceCheck(t.files[i].path, source, p, true))
    ensures Passed(t, disk, report, i, source, p)
  {
    PositionIs(t, i);
    ChosenFacts(t, i);
    var check := PieceCheck(t.files[i].path, source, p, true);
    var tick: nat :|
      var digest := ReadPiece(t, disk, tick, check.torrentPath, check.candidate, check.piece);
      digest.Some? && check.matched == (digest.value == t.Hash(check.piece));
    assert WasRead(disk, source, Asked(t, t.files[i].path, p), t.pieces[p]);
  }

  /**
   * An exact match has a piece of its own, and when there are no more of these than are to be checked
   * every one of them passed; otherwise so many did, the first and the last included.
   */
  lemma ExactMeansPassed(
    t: Torrent, disk: Disk, candidates: seq<Candidate>, plan: MatchPlan, report: seq<PieceCheck>,
    history: seq<seq<PieceCheck>>, k: nat) returns (i: nat)
    requires DistinctFiles(t.files) && VerifiedBy(t, disk, candidates, plan, report, history)
    requires k < |plan.matched| && plan.matched[k].confidence == Exact
    ensures i < |t.files| && t.files[i].path == plan.matched[k].torrentPath && OwnPieces(t, i) != [] && t.count > 0
    ensures var own, source := OwnPieces(t, i), plan.matched[k].source;
            && (|own| <= t.count ==> forall p :: p in own ==> Passed(t, disk, report, i, source, p))
            && (|own| > t.count ==> Passed(t, disk, report, i, source, own[0]))
            && (|own| > t.count >= 2 ==> Passed(t, disk, report, i, source, own[|own| - 1]))
  {
    i := ExactIsFullyChecked(t, disk, candidates, plan, report, history, k);
    var own, source := OwnPieces(t, i), plan.matched[k].source;
    SelectionIsAvailable(own, t.count);
    if t.count == 1 && |own| > 1 { SingleCheckIsFirst(own); }
    if t.count >= 2 && |own| > t.count {
      PiecesWithinExact(FileByteRange(t.files, i), t.pieceLength, |t.pieces|, t.Total());
      SelectionIsSpread(own, t.count);
    }
    hide VerifiedBy, Passed, PiecesWithinFile, SelectPieces;
    var chosen := ChosenAt(t, i);
    assert |own| > t.count ==> chosen[0] in chosen && chosen[|chosen| - 1] in chosen;
  }

  /** The planner alone never calls a match exact. */
  lemma NeverExact(t: Torrent, candidates: seq<Candidate>, plan: MatchPlan, k: nat)
    requires plan == PlanFor(t.files, candidates) && k < |plan.matched|
    ensures plan.matched[k].confidence != Exact
  {
    var i := MatchComesFrom(t.files, candidates, k);
    VerdictIff(t.files[i], candidates);
  }

  lemma ExactIsFullyChecked(
    t: Torrent, disk: Disk, candidates: seq<Candidate>, plan: MatchPlan, report: seq<PieceCheck>,
    history: seq<seq<PieceCheck>>, k: nat) returns (i: nat)
    requires DistinctFiles(t.files) && VerifiedBy(t, disk, candidates, plan, report, history)
    requires k < |plan.matched| && plan.matched[k].confidence == Exact
    ensures i < |t.files| && t.files[i].path == plan.matched[k].torrentPath && ChosenAt(t, i) != []
    ensures forall p :: p in ChosenAt(t, i) ==> Passed(t, disk, report, i, plan.matched[k].source, p)
  {
    var base, checks := PlanAfter(t, candidates, Earlier(history)), LastRound(history);
    if Skips(t) { NeverExact(t, candidates, plan, k); }
    i := MatchComesFrom(t.files, Survivors(candidates, Flat(Earlier(history))), k);
    VerdictIff(t.files[i], Survivors(candidates, Flat(Earlier(history))));
    PositionIs(t, i);
    var m := base.matched[k];
    assert FullyChecked(t, m, checks);
    forall p | p in ChosenAt(t, i) ensures Passed(t, disk, report, i, plan.matched[k].source, p) {
      assert Check(m, p, true) in checks;
      assert AllTruthful(t, disk, checks);
      PassedIsTruthful(t, disk, report, i, plan.matched[k].source, p);
    }
  }

  // ---- Readable pieces are read --------------------------------------------------------------------

  /** Every read of a chosen piece of the match comes back with something. */
  ghost predicate Readable(t: Torrent, disk: Disk, m: FileMatch) {
    forall p, tick: nat :: p in ChosenFor(t, m.torrentPath) ==>
      ReadPiece(t, disk, tick, m.torrentPath, m.source, p).Some?
  }

  /** A readable match is checked to the end or to a failure. */
  lemma ReadableIsDecided(t: Torrent, disk: Disk, m: FileMatch, checks: seq<PieceCheck>)
    requires Judged(t, disk, m, checks) && Readable(t, disk, m) && ChosenFor(t, m.torrentPath) != []
    ensures FullyChecked(t, m, checks) || exists p :: p in ChosenFor(t, m.torrentPath) && Check(m, p, false) in checks
  {
    var n: nat :| StoppedAt(t, disk, m, checks, n);
    var chosen := ChosenFor(t, m.torrentPath);
    if n < |chosen| {
      assert chosen[n] in chosen;
      assert Check(m, chosen[n], false) in checks;
    } else {
      forall p | p in chosen ensures Check(m, p, true) in checks {
        var k :| 0 <= k < |chosen| && chosen[k] == p;
      }
    }
  }

  lemma InReport(checks: seq<PieceCheck>, check: PieceCheck)
    requires check in checks && !check.matched
    ensures FailedOn(checks, check.candidate) && !AllPassed(checks)
  {
    var k :| 0 <= k < |checks| && checks[k] == check;
  }

  /** Whatever has a piece to be checked by and can be read ends `Exact`. */
  lemma ReadableMatchIsExact(
    t: Torrent, disk: Disk, candidates: seq<Candidate>, plan: MatchPlan, report: seq<PieceCheck>,
    history: seq<seq<PieceCheck>>, i: nat)
    requires VerifiedBy(t, disk, candidates, plan, report, history) && i < |plan.matched|
    requires ChosenFor(t, plan.matched[i].torrentPath) != [] && Readable(t, disk, plan.matched[i])
    ensures plan.matched[i].confidence == Exact && plan.matched[i].evidence.pieceVerified
  {
    ChosenNotSkipped(t, plan.matched[i].torrentPath);
    var base, checks := PlanAfter(t, candidates, Earlier(history)), LastRound(history);
    var m := base.matched[i];
    assert Judged(t, disk, m, checks);
    ReadableIsDecided(t, disk, m, checks);
    if p :| p in ChosenFor(t, m.torrentPath) && Check(m, p, false) in checks {
      InReport(checks, Check(m, p, false));
    }
  }

  lemma ChosenNotSkipped(t: Torrent, path: string)
    ensures ChosenFor(t, path) != [] ==> !Skips(t)
  {
  }

  // ---- When a genuine file is lost -----------------------------------------------------------------

  /** Every read of the candidate, as file `i` of the torrent, finds what the torrent says. */
  ghost predicate Genuine(t: Torrent, disk: Disk, i: nat, c: Candidate)
    requires i < |t.files|
  {
    && RightSize(t.files[i], c)
    && forall p, tick: nat :: p in ChosenAt(t, i) ==>
         ReadPiece(t, disk, tick, t.files[i].path, c.path, p) == Some(t.Hash(p))
  }

  /** Whenever it can be read, as whatever file of its size, the candidate hashes as the torrent says. */
  ghost predicate AlwaysMatches(t: Torrent, disk: Disk, c: Candidate) {
    forall j, p, tick: nat :: 0 <= j < |t.files| && RightSize(t.files[j], c) && p in ChosenAt(t, j) ==>
      ReadPiece(t, disk, tick, t.files[j].path, c.path, p) in {None, Some(t.Hash(p))}
  }

  lemma PositionIs(t: Torrent, i: nat)
    requires DistinctFiles(t.files) && i < |t.files|
    ensures Position(t.files, t.files[i].path) == Some(i) && ChosenFor(t, t.files[i].path) == ChosenAt(t, i)
  {
  }

  /** Where a recorded check comes from: a file of the candidate's own size. */
  lemma CheckedForItsSize(
    t: Torrent, disk: Disk, candidates: seq<Candidate>, before: seq<PieceCheck>, checks: seq<PieceCheck>, k: nat,
    c: Candidate) returns (j: nat)
    requires DistinctFiles(t.files)
    requires RoundRecord(t, disk, PlanFor(t.files, Survivors(candidates, before)).matched, checks)
    requires k < |checks| && checks[k].candidate == c.path
    requires forall d :: d in candidates && d.path == c.path ==> d == c
    ensures j < |t.files| && RightSize(t.files[j], c) && checks[k].torrentPath == t.files[j].path
  {
    var kept := Survivors(candidates, before);
    var matched := PlanFor(t.files, kept).matched;
    assert ComesFrom(matched, |matched|, checks[k]);
    var e :| && 0 <= e < |matched|
             && checks[k].torrentPath == matched[e].torrentPath && checks[k].candidate == matched[e].source;
    j := MatchComesFrom(t.files, kept, e);
    VerdictIff(t.files[j], kept);
    var d :| d in kept && RightSize(t.files[j], d) && d.path == matched[e].source;
    KeepMember(candidates, (x: Candidate) => !FailedOn(before, x.path), d);
  }

  /** No two candidates share a path with this one. */
  ghost predicate OnlyHere(candidates: seq<Candidate>, c: Candidate) {
    forall d :: d in candidates && d.path == c.path ==> d == c
  }

  lemma MatchingPasses(t: Torrent, disk: Disk, check: PieceCheck, j: nat, c: Candidate)
    requires DistinctFiles(t.files) && AlwaysMatches(t, disk, c) && Truthful(t, disk, check)
    requires j < |t.files| && RightSize(t.files[j], c) && check.torrentPath == t.files[j].path
    requires check.candidate == c.path
    ensures check.matched
  {
    PositionIs(t, j);
    hide ChosenAt, ReadPiece;
  }

  lemma RoundKeepsMatching(
    t: Torrent, disk: Disk, candidates: seq<Candidate>, before: seq<PieceCheck>, checks: seq<PieceCheck>, c: Candidate)
    requires DistinctFiles(t.files) && AlwaysMatches(t, disk, c) && OnlyHere(candidates, c)
    requires RoundRecord(t, disk, PlanFor(t.files, Survivors(candidates, before)).matched, checks)
    ensures !FailedOn(checks, c.path)
  {
    if FailedOn(checks, c.path) {
      var k :| 0 <= k < |checks| && !checks[k].matched && checks[k].candidate == c.path;
      var j := CheckedForItsSize(t, disk, candidates, before, checks, k, c);
      assert Truthful(t, disk, checks[k]);
      hide *;
      MatchingPasses(t, disk, checks[k], j, c);
    }
  }

  lemma FailedEarlier(history: seq<seq<PieceCheck>>, path: LibraryPath)
    ensures history != [] ==>
              (FailedOn(Flat(history), path)
               <==> FailedOn(Flat(Earlier(history)), path) || FailedOn(LastRound(history), path))
  {
    if history != [] { FailedOnConcat(Flat(Earlier(history)), LastRound(history), path); }
  }

  lemma {:induction false} RetriesKeepMatching(
    t: Torrent, disk: Disk, candidates: seq<Candidate>, history: seq<seq<PieceCheck>>, c: Candidate)
    requires DistinctFiles(t.files) && AlwaysMatches(t, disk, c) && OnlyHere(candidates, c)
    requires Retried(t, disk, candidates, history)
    ensures !FailedOn(Flat(history), c.path)
  {
    hide RoundRecord, AlwaysMatches, OnlyHere;
    if history != [] {
      RetriesKeepMatching(t, disk, candidates, Earlier(history), c);
      RoundKeepsMatching(t, disk, candidates, Flat(Earlier(history)), LastRound(history), c);
      FailedEarlier(history, c.path);
    }
  }

  /** A candidate that always matches is dropped by no run, over whatever candidates. */
  lemma MatchingIsNeverLost(
    t: Torrent, disk: Disk, candidates: seq<Candidate>, plan: MatchPlan, report: seq<PieceCheck>,
    history: seq<seq<PieceCheck>>, c: Candidate)
    requires DistinctFiles(t.files) && AlwaysMatches(t, disk, c) && OnlyHere(candidates, c)
    requires VerifiedBy(t, disk, candidates, plan, report, history)
    ensures !FailedOn(report, c.path)
  {
    hide RoundRecord, AlwaysMatches, OnlyHere, IsRaised;
    if !Skips(t) {
      RetriesKeepMatching(t, disk, candidates, Earlier(history), c);
      RoundKeepsMatching(t, disk, candidates, Flat(Earlier(history)), LastRound(history), c);
      FailedEarlier(history, c.path);
    }
  }

  /** Nothing speaks against the one candidate, and it fits the file: it is matched to it. */
  lemma {:induction false} OnlyCandidateIsChosen(files: seq<TorrentFile>, c: Candidate, j: nat) returns (e: nat)
    requires j < |files| && RightSize(files[j], c)
    ensures var matched := PlanFor(files, [c]).matched;
            e < |matched| && matched[e].torrentPath == files[j].path && matched[e].source == c.path
    decreases |files|
  {
    OneFits(files[|files| - 1], c);
    var rest := files[..|files| - 1];
    if j == |files| - 1 {
      e := |PlanFor(rest, [c]).matched|;
      VerdictIff(files[j], [c]);
      hide Judge;
    } else {
      e := OnlyCandidateIsChosen(rest, c, j);
      hide Judge;
    }
  }

  lemma OneFits(file: TorrentFile, c: Candidate)
    ensures RightSize(file, c) ==> |Fitting(file, [c])| == 1 && |FittingByName(file, [c])| <= 1
    ensures RightSize(file, c) ==> Judge(file, [c]).Chosen? && Judge(file, [c]).m.torrentPath == file.path
                                   && Judge(file, [c]).m.source == c.path
  {
    assert [c][1..] == [];
    assert Keep([c][1..], (x: Candidate) => RightSize(file, x)) == [];
    if RightSize(file, c) {
      assert Fitting(file, [c]) == [c];
      KeepShrinks([c], (x: Candidate) => RightName(file, x));
      VerdictIff(file, [c]);
    }
  }

  lemma {:induction false} FirstRoundRecord(
    t: Torrent, disk: Disk, candidates: seq<Candidate>, history: seq<seq<PieceCheck>>, path: LibraryPath)
    requires history != [] && Retried(t, disk, candidates, Earlier(history))
    requires RoundRecord(t, disk, PlanAfter(t, candidates, Earlier(history)).matched, LastRound(history))
    ensures RoundRecord(t, disk, PlanFor(t.files, candidates).matched, history[0])
    ensures FailedOn(history[0], path) ==> FailedOn(Flat(history), path)
  {
    hide RoundRecord;
    FailedEarlier(history, path);
    if |history| == 1 {
      assert Earlier(history) == [];
      KeepEverything(candidates, (c: Candidate) => !FailedOn([], c.path));
    } else {
      FirstRoundRecord(t, disk, candidates, Earlier(history), path);
    }
  }

  /** Always read, never as the torrent says: as file `j`, piece `p` of the candidate. */
  ghost predicate NeverMatches(t: Torrent, disk: Disk, j: nat, c: Candidate, p: nat)
    requires j < |t.files|
  {
    && p in ChosenAt(t, j)
    && (forall q, tick: nat :: q in ChosenAt(t, j) ==> ReadPiece(t, disk, tick, t.files[j].path, c.path, q).Some?)
    && forall tick: nat :: ReadPiece(t, disk, tick, t.files[j].path, c.path, p) != Some(t.Hash(p))
  }

  lemma FirstRoundFails(t: Torrent, disk: Disk, j: nat, c: Candidate, p: nat, checks: seq<PieceCheck>)
    requires DistinctFiles(t.files) && j < |t.files| && RightSize(t.files[j], c) && NeverMatches(t, disk, j, c, p)
    requires RoundRecord(t, disk, PlanFor(t.files, [c]).matched, checks)
    ensures FailedOn(checks, c.path)
  {
    var e := OnlyCandidateIsChosen(t.files, c, j);
    var m := PlanFor(t.files, [c]).matched[e];
    PositionIs(t, j);
    assert Judged(t, disk, m, checks);
    assert Readable(t, disk, m);
    ReadableIsDecided(t, disk, m, checks);
    forall k | 0 <= k < |checks| ensures checks[k] != Check(m, p, true) {
      assert Truthful(t, disk, checks[k]);
    }
    if !FullyChecked(t, m, checks) {
      var q :| q in ChosenFor(t, m.torrentPath) && Check(m, q, false) in checks;
      InReport(checks, Check(m, q, false));
    }
  }

  /** With one candidate that never matches as file `j`, every run loses it. */
  lemma EveryRunLosesIt(
    t: Torrent, disk: Disk, j: nat, c: Candidate, p: nat, plan: MatchPlan, report: seq<PieceCheck>,
    history: seq<seq<PieceCheck>>)
    requires DistinctFiles(t.files) && j < |t.files| && RightSize(t.files[j], c) && NeverMatches(t, disk, j, c, p)
    requires VerifiedBy(t, disk, [c], plan, report, history)
    ensures FailedOn(report, c.path)
  {
    PositionIs(t, j);
    ChosenNotSkipped(t, t.files[j].path);
    hide RoundRecord, NeverMatches;
    FirstRoundRecord(t, disk, [c], history, c.path);
    FirstRoundFails(t, disk, j, c, p, history[0]);
  }

  /** A torrent whose files all differ in length loses no genuine file, whatever else is read. */
  lemma DistinctLengthsLoseNothing(
    t: Torrent, disk: Disk, candidates: seq<Candidate>, plan: MatchPlan, report: seq<PieceCheck>,
    history: seq<seq<PieceCheck>>, i: nat, c: Candidate)
    requires DistinctFiles(t.files) && i < |t.files| && Genuine(t, disk, i, c) && OnlyHere(candidates, c)
    requires forall a, b :: 0 <= a < b < |t.files| ==> t.files[a].length != t.files[b].length
    requires VerifiedBy(t, disk, candidates, plan, report, history)
    ensures !FailedOn(report, c.path)
  {
    forall j, p, tick: nat | 0 <= j < |t.files| && RightSize(t.files[j], c) && p in ChosenAt(t, j)
      ensures ReadPiece(t, disk, tick, t.files[j].path, c.path, p) in {None, Some(t.Hash(p))}
    {
      assert j == i;
    }
    MatchingIsNeverLost(t, disk, candidates, plan, report, history, c);
  }

  // ---- Files of bytes ------------------------------------------------------------------------------

  type Hash = seq<Byte> -> Digest

  function Slice(content: seq<Byte>, range: Range): seq<Byte> {
    if range.start <= range.end <= |content| then content[range.start..range.end] else []
  }

  /** Whatever of these bytes can be read of the file hashes as they do. */
  ghost predicate Holds(disk: Disk, hash: Hash, path: LibraryPath, content: seq<Byte>) {
    forall tick, range: Range :: range.start <= range.end <= |content| ==>
      disk(tick, path, range) in {None, Some(hash(Slice(content, range)))}
  }

  /** And all of them can. */
  ghost predicate ReadableAs(disk: Disk, hash: Hash, path: LibraryPath, content: seq<Byte>) {
    forall tick, range: Range :: range.start <= range.end <= |content| ==>
      disk(tick, path, range) == Some(hash(Slice(content, range)))
  }

  /** Some piece these bytes are checked by, for a file of their size, is not what the torrent says. */
  ghost predicate Mismatched(t: Torrent, hash: Hash, content: seq<Byte>) {
    exists j, p :: 0 <= j < |t.files| && t.files[j].length == |content| && WrongAt(t, hash, content, j, p)
  }

  ghost predicate WrongAt(t: Torrent, hash: Hash, content: seq<Byte>, j: nat, p: nat)
    requires j < |t.files|
  {
    p in ChosenAt(t, j) && hash(Slice(content, Asked(t, t.files[j].path, p))) != t.Hash(p)
  }

  /** What is asked of a file by its pieces lies inside it. */
  lemma AskedInside(t: Torrent, j: nat, p: nat)
    requires DistinctFiles(t.files) && j < |t.files| && p in ChosenAt(t, j)
    requires Covers(|t.pieces|, t.pieceLength, t.Total())
    ensures p < |t.pieces| && t.Piece(p).start <= t.Piece(p).end && t.Piece(p).Within(FileByteRange(t.files, j))
    ensures var file, piece := FileByteRange(t.files, j), t.Piece(p);
            Asked(t, t.files[j].path, p) == Range(piece.start - file.start, piece.end - file.start)
    ensures Asked(t, t.files[j].path, p).start <= Asked(t, t.files[j].path, p).end <= t.files[j].length
  {
    PositionIs(t, j);
    ChosenFacts(t, j);
    PieceBounds(p, |t.pieces|, t.pieceLength, t.Total());
  }

  /** Bytes that are right wherever they are checked are dropped by no run, even if reads fail. */
  lemma RightBytesAreNeverLost(
    t: Torrent, hash: Hash, disk: Disk, candidates: seq<Candidate>, plan: MatchPlan, report: seq<PieceCheck>,
    history: seq<seq<PieceCheck>>, c: Candidate, content: seq<Byte>)
    requires DistinctFiles(t.files) && Covers(|t.pieces|, t.pieceLength, t.Total())
    requires c.sizeBytes == |content| && Holds(disk, hash, c.path, content) && OnlyHere(candidates, c)
    requires !Mismatched(t, hash, content)
    requires VerifiedBy(t, disk, candidates, plan, report, history)
    ensures !FailedOn(report, c.path)
  {
    forall j, p, tick: nat | 0 <= j < |t.files| && RightSize(t.files[j], c) && p in ChosenAt(t, j)
      ensures ReadPiece(t, disk, tick, t.files[j].path, c.path, p) in {None, Some(t.Hash(p))}
    {
      AskedInside(t, j, p);
      assert !WrongAt(t, hash, content, j, p);
    }
    MatchingIsNeverLost(t, disk, candidates, plan, report, history, c);
  }

  lemma ReadableHolds(disk: Disk, hash: Hash, path: LibraryPath, content: seq<Byte>)
    requires ReadableAs(disk, hash, path, content)
    ensures Holds(disk, hash, path, content)
  {
  }

  lemma WrongBytesNeverMatch(
    t: Torrent, hash: Hash, disk: Disk, c: Candidate, content: seq<Byte>, j: nat, p: nat)
    requires DistinctFiles(t.files) && Covers(|t.pieces|, t.pieceLength, t.Total())
    requires ReadableAs(disk, hash, c.path, content)
    requires j < |t.files| && t.files[j].length == |content| && WrongAt(t, hash, content, j, p)
    ensures NeverMatches(t, disk, j, c, p)
  {
    forall q, tick: nat | q in ChosenAt(t, j)
      ensures ReadPiece(t, disk, tick, t.files[j].path, c.path, q)
              == Some(hash(Slice(content, Asked(t, t.files[j].path, q))))
    {
      AskedInside(t, j, q);
    }
  }

  /** A file whose bytes can all be read is dropped by a run over it alone exactly when some are wrong. */
  lemma BytesAreLostIff(
    t: Torrent, hash: Hash, disk: Disk, plan: MatchPlan, report: seq<PieceCheck>, history: seq<seq<PieceCheck>>,
    c: Candidate, content: seq<Byte>)
    requires DistinctFiles(t.files) && Covers(|t.pieces|, t.pieceLength, t.Total())
    requires c.sizeBytes == |content| && ReadableAs(disk, hash, c.path, content)
    requires VerifiedBy(t, disk, [c], plan, report, history)
    ensures FailedOn(report, c.path) <==> Mismatched(t, hash, content)
  {
    hide VerifiedBy, NeverMatches, Holds;
    assert Holds(disk, hash, c.path, content) by { ReadableHolds(disk, hash, c.path, content); }
    if Mismatched(t, hash, content) {
      var j, p :| 0 <= j < |t.files| && t.files[j].length == |content| && WrongAt(t, hash, content, j, p);
      WrongBytesNeverMatch(t, hash, disk, c, content, j, p);
      EveryRunLosesIt(t, disk, j, c, p, plan, report, history);
    } else {
      hide ReadableAs, Mismatched;
      RightBytesAreNeverLost(t, hash, disk, [c], plan, report, history, c, content);
    }
  }

  /** The torrent of these bytes: as many pieces as it takes, each the hash of what it covers. */
  ghost predicate TorrentOf(t: Torrent, hash: Hash, stream: seq<Byte>) {
    && |stream| == t.Total() && Covers(|t.pieces|, t.pieceLength, t.Total())
    && forall p :: 0 <= p < |t.pieces| ==> t.pieces[p] == hash(Slice(stream, t.Piece(p)))
  }

  function FileBytes(t: Torrent, stream: seq<Byte>, i: nat): seq<Byte>
    requires i < |t.files|
  {
    Slice(stream, FileByteRange(t.files, i))
  }

  /** No two stretches of the stream hash alike unless they are alike. */
  ghost predicate CollisionFree(hash: Hash, stream: seq<Byte>) {
    forall a, b :: hash(Slice(stream, a)) == hash(Slice(stream, b)) ==> Slice(stream, a) == Slice(stream, b)
  }

  /**
   * Another file of the same length is checked by a piece whose bytes are not those file `i` has in
   * that place.
   */
  ghost predicate Mistakable(t: Torrent, stream: seq<Byte>, i: nat)
    requires i < |t.files|
  {
    exists j, p ::
      0 <= j < |t.files| && j != i && t.files[j].length == t.files[i].length && DiffersAt(t, stream, i, j, p)
  }

  ghost predicate DiffersAt(t: Torrent, stream: seq<Byte>, i: nat, j: nat, p: nat)
    requires i < |t.files| && j < |t.files|
  {
    && p in ChosenAt(t, j)
    && Slice(FileBytes(t, stream, i), Asked(t, t.files[j].path, p)) != Slice(stream, t.Piece(p))
  }

  /** The bytes of file `i` where piece `p` of file `j` asks for them, as a stretch of the stream. */
  lemma PlaceInStream(t: Torrent, hash: Hash, stream: seq<Byte>, i: nat, j: nat, p: nat) returns (place: Range)
    requires DistinctFiles(t.files) && i < |t.files| && j < |t.files| && t.files[j].length == t.files[i].length
    requires TorrentOf(t, hash, stream) && p in ChosenAt(t, j)
    ensures |FileBytes(t, stream, i)| == t.files[i].length
    ensures Slice(FileBytes(t, stream, i), Asked(t, t.files[j].path, p)) == Slice(stream, place)
    ensures i == j ==> Slice(stream, place) == Slice(stream, t.Piece(p))
    ensures p < |t.pieces| && t.Hash(p) == hash(Slice(stream, t.Piece(p)))
  {
    PieceIsHashed(t, hash, stream, j, p);
    FileInside(t, hash, stream, i);
    hide ChosenAt, Asked, Slice, FileStart, PieceByteRange, TorrentOf;
    AskedInside(t, j, p);
    hide DistinctFiles, Covers;
    var file, asked := FileByteRange(t.files, i), Asked(t, t.files[j].path, p);
    place := Range(file.start + asked.start, file.start + asked.end);
    SliceOfSlice(stream, file, asked);
  }

  lemma PieceIsHashed(t: Torrent, hash: Hash, stream: seq<Byte>, j: nat, p: nat)
    requires j < |t.files| && TorrentOf(t, hash, stream) && p in ChosenAt(t, j)
    ensures p < |t.pieces| && t.Hash(p) == hash(Slice(stream, t.Piece(p)))
    ensures Covers(|t.pieces|, t.pieceLength, t.Total())
  {
    ChosenFacts(t, j);
  }

  lemma FileInside(t: Torrent, hash: Hash, stream: seq<Byte>, i: nat)
    requires i < |t.files| && TorrentOf(t, hash, stream)
    ensures var file := FileByteRange(t.files, i);
            file.start <= file.end <= |stream| && file.end - file.start == t.files[i].length
    ensures |FileBytes(t, stream, i)| == t.files[i].length
  {
    StartsGrow(t.files, i, |t.files|);
  }

  lemma SliceOfSlice(stream: seq<Byte>, outer: Range, inner: Range)
    requires outer.start <= outer.end <= |stream| && inner.start <= inner.end <= outer.end - outer.start
    ensures Slice(Slice(stream, outer), inner)
            == Slice(stream, Range(outer.start + inner.start, outer.start + inner.end))
  {
    StretchOfStretch(stream, outer.start, outer.end, inner.start, inner.end);
  }

  lemma StretchOfStretch(s: seq<Byte>, a: nat, b: nat, c: nat, d: nat)
    requires a <= b <= |s| && c <= d <= b - a
    ensures s[a..b][c..d] == s[a + c..a + d]
  {
    var left, right := s[a..b][c..d], s[a + c..a + d];
    assert |left| == |right|;
    forall k | 0 <= k < |left| ensures left[k] == right[k] {
      assert s[a..b][c + k] == s[a + c + k];
    }
  }

  lemma MistakableIffMismatched(t: Torrent, hash: Hash, stream: seq<Byte>, i: nat)
    requires DistinctFiles(t.files) && i < |t.files| && TorrentOf(t, hash, stream)
    ensures Mismatched(t, hash, FileBytes(t, stream, i)) ==> Mistakable(t, stream, i)
    ensures CollisionFree(hash, stream) && Mistakable(t, stream, i) ==> Mismatched(t, hash, FileBytes(t, stream, i))
    ensures |FileBytes(t, stream, i)| == t.files[i].length
  {
    var content := FileBytes(t, stream, i);
    StartsGrow(t.files, i, |t.files|);
    hide ChosenAt, Asked, WrongAt, DiffersAt, FileBytes;
    assert |content| == t.files[i].length by { FileInside(t, hash, stream, i); }
    if Mismatched(t, hash, content) {
      var j, p :| 0 <= j < |t.files| && t.files[j].length == |content| && WrongAt(t, hash, content, j, p);
      WrongDiffers(t, hash, stream, i, j, p);
      assert Mistakable(t, stream, i);
    }
    if CollisionFree(hash, stream) && Mistakable(t, stream, i) {
      var j, p :| 0 <= j < |t.files| && t.files[j].length == t.files[i].length && DiffersAt(t, stream, i, j, p);
      WrongDiffers(t, hash, stream, i, j, p);
      assert Mismatched(t, hash, content);
    }
  }

  lemma WrongDiffers(t: Torrent, hash: Hash, stream: seq<Byte>, i: nat, j: nat, p: nat)
    requires DistinctFiles(t.files) && i < |t.files| && j < |t.files| && TorrentOf(t, hash, stream)
    requires t.files[j].length == t.files[i].length
    ensures WrongAt(t, hash, FileBytes(t, stream, i), j, p) ==> j != i && DiffersAt(t, stream, i, j, p)
    ensures CollisionFree(hash, stream) && DiffersAt(t, stream, i, j, p) ==>
              WrongAt(t, hash, FileBytes(t, stream, i), j, p)
  {
    if p in ChosenAt(t, j) {
      var place := PlaceInStream(t, hash, stream, i, j, p);
      hide ChosenAt, Asked, FileBytes, TorrentOf, Slice;
    }
  }

  /**
   * A rejection follows the library file, not the pairing, so a file tried for another of its length
   * may be lost though it is genuine: a run over it alone drops it exactly when another file of its
   * length is checked by a piece that differs from it there.
   */
  lemma GenuineIsLostIff(
    t: Torrent, hash: Hash, stream: seq<Byte>, disk: Disk, plan: MatchPlan, report: seq<PieceCheck>,
    history: seq<seq<PieceCheck>>, i: nat, c: Candidate)
    requires DistinctFiles(t.files) && i < |t.files| && TorrentOf(t, hash, stream) && CollisionFree(hash, stream)
    requires RightSize(t.files[i], c) && ReadableAs(disk, hash, c.path, FileBytes(t, stream, i))
    requires VerifiedBy(t, disk, [c], plan, report, history)
    ensures FailedOn(report, c.path) <==> Mistakable(t, stream, i)
  {
    MistakableIffMismatched(t, hash, stream, i);
    hide Mistakable, Mismatched, CollisionFree, ReadableAs, VerifiedBy, FileBytes;
    BytesAreLostIff(t, hash, disk, plan, report, history, c, FileBytes(t, stream, i));
  }

  /** Otherwise no run drops it, over whatever candidates, with whatever reads failing, and whatever collides. */
  lemma UnmistakableIsNeverLost(
    t: Torrent, hash: Hash, stream: seq<Byte>, disk: Disk, candidates: seq<Candidate>, plan: MatchPlan,
    report: seq<PieceCheck>, history: seq<seq<PieceCheck>>, i: nat, c: Candidate)
    requires DistinctFiles(t.files) && i < |t.files| && TorrentOf(t, hash, stream) && !Mistakable(t, stream, i)
    requires RightSize(t.files[i], c) && Holds(disk, hash, c.path, FileBytes(t, stream, i)) && OnlyHere(candidates, c)
    requires VerifiedBy(t, disk, candidates, plan, report, history)
    ensures !FailedOn(report, c.path)
  {
    MistakableIffMismatched(t, hash, stream, i);
    hide Mistakable, Mismatched, Holds, VerifiedBy, FileBytes, OnlyHere;
    RightBytesAreNeverLost(t, hash, disk, candidates, plan, report, history, c, FileBytes(t, stream, i));
  }

  /** A file holding file `i`'s bytes is genuine for it. */
  lemma BytesAreGenuine(t: Torrent, hash: Hash, stream: seq<Byte>, disk: Disk, i: nat, c: Candidate)
    requires DistinctFiles(t.files) && i < |t.files| && TorrentOf(t, hash, stream)
    requires RightSize(t.files[i], c) && ReadableAs(disk, hash, c.path, FileBytes(t, stream, i))
    ensures Genuine(t, disk, i, c)
  {
    forall p, tick: nat | p in ChosenAt(t, i)
      ensures ReadPiece(t, disk, tick, t.files[i].path, c.path, p) == Some(t.Hash(p))
    {
      AskedInside(t, i, p);
      var place := PlaceInStream(t, hash, stream, i, i, p);
    }
  }

  /** Two files of one length, each a piece of its own with its own hash: either is lost to the other. */
  lemma EqualFilesMayBeLost(
    hash: Hash, x: Byte, y: Byte, disk: Disk, plan: MatchPlan, report: seq<PieceCheck>,
    history: seq<seq<PieceCheck>>, c: Candidate)
    requires hash([x]) != hash([y]) && c.sizeBytes == 1 && ReadableAs(disk, hash, c.path, [x])
    requires VerifiedBy(TwoOfOne(hash, x, y), disk, [c], plan, report, history)
    ensures TorrentOf(TwoOfOne(hash, x, y), hash, [x, y]) && FileBytes(TwoOfOne(hash, x, y), [x, y], 0) == [x]
    ensures FailedOn(report, c.path)
  {
    TwoOfOneMismatch(hash, x, y);
    hide VerifiedBy, Mismatched, ReadableAs, TorrentOf, FileBytes;
    BytesAreLostIff(TwoOfOne(hash, x, y), hash, disk, plan, report, history, c, [x]);
  }

  function TwoOfOne(hash: Hash, x: Byte, y: Byte): Torrent {
    Torrent([TorrentFile("a", 1), TorrentFile("b", 1)], 1, [hash([x]), hash([y])], 1)
  }

  lemma TwoOfOneMismatch(hash: Hash, x: Byte, y: Byte)
    requires hash([x]) != hash([y])
    ensures var t := TwoOfOne(hash, x, y);
            && DistinctFiles(t.files) && Covers(|t.pieces|, t.pieceLength, t.Total()) && Mismatched(t, hash, [x])
            && TorrentOf(t, hash, [x, y]) && FileBytes(t, [x, y], 0) == [x]
  {
    var t := TwoOfOne(hash, x, y);
    assert t.files[0].path == "a" && t.files[1].path == "b";
    assert FileStart(t.files, 1) == 1 && t.Total() == 2;
    assert Slice([x, y], t.Piece(0)) == [x] && Slice([x, y], t.Piece(1)) == [y];
    OnePiece(Range(1, 2), 1);
    assert ChosenAt(t, 1) == [1];
    PositionIs(t, 1);
    assert Asked(t, "b", 1) == Range(0, 1) && Slice([x], Range(0, 1)) == [x];
    assert WrongAt(t, hash, [x], 1, 1);
  }

  /**
   * How a file comes to be tried for another: with one candidate of the right size for two files, it
   * is matched to both, to the one only by size, and once anything speaks against it to neither.
   */
  lemma RejectionIsGlobal(first: TorrentFile, second: TorrentFile, c: Candidate, report: seq<PieceCheck>)
    requires RightSize(first, c) && RightSize(second, c) && RightName(first, c) && !RightName(second, c)
    ensures var plan := PlanFor([first, second], [c]);
            |plan.matched| == 2 && plan.matched[0].source == plan.matched[1].source == c.path
            && plan.matched[0].confidence == Probable && plan.matched[1].confidence == Ambiguous
    ensures FailedOn(report, c.path) ==> PlanFor([first, second], Survivors([c], report)).matched == []
  {
    assert [c][1..] == [];
    forall file: TorrentFile | RightSize(file, c)
      ensures |Fitting(file, [c])| == 1 && |FittingByName(file, [c])| == if RightName(file, c) then 1 else 0
    {
      assert Keep([c][1..], (x: Candidate) => RightSize(file, x)) == [];
      assert Fitting(file, [c]) == [c];
      assert Keep([c][1..], (x: Candidate) => RightName(file, x)) == [];
    }
    VerdictIff(first, [c]);
    VerdictIff(second, [c]);
    TwoFiles(first, second, [c]);
    TwoFiles(first, second, []);
    VerdictIff(first, []);
    VerdictIff(second, []);
    assert Keep([c][1..], (x: Candidate) => !FailedOn(report, x.path)) == [];
  }

  lemma TwoFiles(first: TorrentFile, second: TorrentFile, candidates: seq<Candidate>)
    ensures PlanFor([first, second], candidates)
            == Extended(Extended(MatchPlan([], []), Judge(first, candidates)), Judge(second, candidates))
  {
    assert [first, second][..1] == [first] && [first][..0] == [];
    assert PlanFor([first], candidates) == Extended(MatchPlan([], []), Judge(first, candidates));
  }

  function Listing(hash: Hash, x: Byte, y: Byte, z: Byte): Torrent {
    Torrent([TorrentFile("b", 1), TorrentFile("a", 2)], 1, [hash([x]), hash([y]), hash([z])], 1)
  }

  /**
   * A torrent listing `b` before `a`, read back by path: the library file with the bytes of `a` is
   * checked against the piece hashed over `b`, and every run over it loses it.
   */
  lemma MisorderedTorrentLosesGenuine(
    hash: Hash, x: Byte, y: Byte, z: Byte, disk: Disk, plan: MatchPlan, report: seq<PieceCheck>,
    history: seq<seq<PieceCheck>>, c: Candidate)
    requires hash([x]) != hash([y]) && c.sizeBytes == 2 && ReadableAs(disk, hash, c.path, [y, z])
    requires var listed := Listing(hash, x, y, z);
             VerifiedBy(listed.(files := AsRead(listed.files)), disk, [c], plan, report, history)
    ensures var listed := Listing(hash, x, y, z);
            && TorrentOf(listed, hash, [x, y, z]) && FileBytes(listed, [x, y, z], 1) == [y, z]
            && Genuine(listed, disk, 1, c) && !Mistakable(listed, [x, y, z], 1)
    ensures FailedOn(report, c.path)
  {
    var listed := Listing(hash, x, y, z);
    SwappedByPath(listed.files[0], listed.files[1]);
    ListedBytes(hash, x, y, z);
    ReadMismatch(hash, x, y, z);
    hide VerifiedBy, Mismatched, ReadableAs, TorrentOf, FileBytes, Genuine;
    BytesAreGenuine(listed, hash, [x, y, z], disk, 1, c);
    var read := listed.(files := AsRead(listed.files));
    BytesAreLostIff(read, hash, disk, plan, report, history, c, [y, z]);
  }

  lemma ReadMismatch(hash: Hash, x: Byte, y: Byte, z: Byte)
    requires hash([x]) != hash([y])
    ensures var b, a := TorrentFile("b", 1), TorrentFile("a", 2);
            var read := Listing(hash, x, y, z).(files := [a, b]);
            && DistinctFiles(read.files) && Covers(3, 1, read.Total()) && Mismatched(read, hash, [y, z])
  {
    var b, a := TorrentFile("b", 1), TorrentFile("a", 2);
    var read := Listing(hash, x, y, z).(files := [a, b]);
    assert read.files[0].path == "a" && read.files[1].path == "b";
    assert FileStart(read.files, 1) == 2 && read.Total() == 3;
    TwoPieces(0);
    assert ChosenAt(read, 0) == [0] by { SingleCheckIsFirst([0, 1]); }
    PositionIs(read, 0);
    assert Asked(read, "a", 0) == Range(0, 1) && Slice([y, z], Range(0, 1)) == [y];
    assert WrongAt(read, hash, [y, z], 0, 0);
  }

  lemma ListedBytes(hash: Hash, x: Byte, y: Byte, z: Byte)
    ensures var t, stream := Listing(hash, x, y, z), [x, y, z];
            && DistinctFiles(t.files) && TorrentOf(t, hash, stream) && FileBytes(t, stream, 1) == [y, z]
            && !Mistakable(t, stream, 1)
  {
    var t := Listing(hash, x, y, z);
    assert t.files[0].path == "b" && t.files[1].path == "a";
    assert FileStart(t.files, 1) == 1 && t.Total() == 3;
    assert Slice([x, y, z], t.Piece(0)) == [x] && Slice([x, y, z], t.Piece(1)) == [y];
    assert Slice([x, y, z], t.Piece(2)) == [z];
    forall p | 0 <= p < |t.pieces| ensures t.pieces[p] == hash(Slice([x, y, z], t.Piece(p))) {
      assert p == 0 || p == 1 || p == 2;
    }
    assert FileByteRange(t.files, 1) == Range(1, 3) && Slice([x, y, z], Range(1, 3)) == [y, z];
    assert t.files[0].length != t.files[1].length;
  }

  lemma {:induction false} TwoPieces(at: nat)
    requires at < 2
    ensures PiecesWithinFile(Range(at, at + 2), 1, 3, 3) == [at, at + 1]
  {
    var file := Range(at, at + 2);
    assert PieceByteRange(0, 1, 3) == Range(0, 1) && PieceByteRange(1, 1, 3) == Range(1, 2)
        && PieceByteRange(2, 1, 3) == Range(2, 3);
    assert PiecesWithinFile(file, 1, 0, 3) == [];
    assert PiecesWithinFile(file, 1, 1, 3) == if at == 0 then [0] else [];
    assert PiecesWithinFile(file, 1, 2, 3) == if at == 0 then [0, 1] else [1];
  }

  /** A genuine file matched to its own place ends `Exact` whenever it has a piece to be checked by. */
  lemma GenuineMatchIsExact(
    t: Torrent, disk: Disk, candidates: seq<Candidate>, plan: MatchPlan, report: seq<PieceCheck>,
    history: seq<seq<PieceCheck>>, i: nat, k: nat, c: Candidate)
    requires VerifiedBy(t, disk, candidates, plan, report, history) && DistinctFiles(t.files)
    requires i < |t.files| && Genuine(t, disk, i, c) && ChosenAt(t, i) != []
    requires k < |plan.matched| && plan.matched[k].torrentPath == t.files[i].path && plan.matched[k].source == c.path
    ensures plan.matched[k].confidence == Exact
  {
    PositionIs(t, i);
    ReadableMatchIsExact(t, disk, candidates, plan, report, history, k);
  }
}
