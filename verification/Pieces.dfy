/** Pieces and files as intervals of one byte stream (src/library/verification.rs). */
module Pieces {
  import opened Prelude
  import opened MatchModel

  /** Half-open. */
  datatype Range = Range(start: nat, end: nat) {
    predicate Holds(b: nat) { start <= b < end }
    predicate Within(outer: Range) { start >= outer.start && end <= outer.end }
  }

  /** Bytes before `files[index]`, files being laid out back to back in the order given. */
  function FileStart(files: seq<TorrentFile>, index: nat): nat
    requires index <= |files|
  {
    if index == 0 then 0 else FileStart(files, index - 1) + files[index - 1].length
  }

  function TotalLength(files: seq<TorrentFile>): nat { FileStart(files, |files|) }

  function FileByteRange(files: seq<TorrentFile>, index: nat): Range
    requires index < |files|
  {
    Range(FileStart(files, index), FileStart(files, index) + files[index].length)
  }

  function PieceByteRange(piece: nat, pieceLength: nat, total: nat): Range {
    var start := piece * pieceLength;
    Range(start, Min(start + pieceLength, total))
  }

  function PiecesWithinFile(file: Range, pieceLength: nat, pieceCount: nat, total: nat): seq<nat> {
    if pieceCount == 0 then []
    else
      var earlier := PiecesWithinFile(file, pieceLength, pieceCount - 1, total);
      if PieceByteRange(pieceCount - 1, pieceLength, total).Within(file) then earlier + [pieceCount - 1]
      else earlier
  }

  /** `Vec::dedup`: of a run of equal neighbours, keep the first. */
  function Dedup(s: seq<nat>): seq<nat> {
    if |s| < 2 then s
    else if s[|s| - 1] == s[|s| - 2] then Dedup(s[..|s| - 1])
    else Dedup(s[..|s| - 1]) + [s[|s| - 1]]
  }

  /** Where the `k`-th choice falls among `n` available pieces, `count` being chosen. */
  function Spread(k: nat, n: nat, count: nat): nat
    requires n > 0
  {
    var divisor := if count > 2 then count - 1 else 1;
    k * (n - 1) / divisor
  }

  lemma SpreadInRange(k: nat, n: nat, count: nat)
    requires n > 0 && k < count
    ensures Spread(k, n, count) < n
  {
    var divisor := if count > 2 then count - 1 else 1;
    MulMonotone(n - 1, k, divisor);
    Commutes(n - 1, k);
    Commutes(n - 1, divisor);
    QuotientBound(k * (n - 1), divisor, n - 1);
  }

  lemma Commutes(a: nat, b: nat)
    ensures a * b == b * a
  {
  }

  lemma QuotientBound(x: nat, d: nat, q: nat)
    requires d > 0 && x <= d * q
    ensures x / d <= q
  {
    Division(x, d);
    MulMonotone(d, q + 1, x / d);
    assert d * (q + 1) == d * q + d;
  }

  lemma MulMonotone(c: nat, x: nat, y: nat)
    ensures x <= y ==> c * x <= c * y
  {
  }

  function SelectPieces(available: seq<nat>, count: nat): seq<nat> {
    if count == 0 || available == [] then []
    else if |available| <= count then available
    else
      Dedup(seq(count, k requires 0 <= k < count =>
        (SpreadInRange(k, |available|, count); available[Spread(k, |available|, count)])))
  }

  // ---- Files tile the stream, and so do pieces ---------------------------------------------

  lemma {:induction false} StartsGrow(files: seq<TorrentFile>, i: nat, j: nat)
    requires i <= j <= |files|
    ensures FileStart(files, i) <= FileStart(files, j)
    ensures i < j ==> FileStart(files, i) + files[i].length <= FileStart(files, j)
    decreases j
  {
    if i < j {
      StartsGrow(files, i, j - 1);
    }
  }

  lemma {:induction false} FileHolding(files: seq<TorrentFile>, n: nat, b: nat) returns (i: nat)
    requires n <= |files| && b < FileStart(files, n)
    ensures i < n && FileByteRange(files, i).Holds(b)
    decreases n
  {
    if FileStart(files, n - 1) <= b {
      i := n - 1;
    } else {
      i := FileHolding(files, n - 1, b);
    }
  }

  /** Each byte of the torrent lies in exactly one file. */
  lemma FilesTile(files: seq<TorrentFile>, b: nat)
    ensures b < TotalLength(files) <==> exists i :: 0 <= i < |files| && FileByteRange(files, i).Holds(b)
    ensures forall i, j :: 0 <= i < |files| && 0 <= j < |files|
              && FileByteRange(files, i).Holds(b) && FileByteRange(files, j).Holds(b)
              ==> i == j
  {
    if b < TotalLength(files) {
      var i := FileHolding(files, |files|, b);
    }
    forall i, j | 0 <= i < |files| && 0 <= j < |files|
      && FileByteRange(files, i).Holds(b) && FileByteRange(files, j).Holds(b)
      ensures i == j
    {
      if i < j { StartsGrow(files, i, j); }
      if j < i { StartsGrow(files, j, i); }
    }
    forall i | 0 <= i < |files| && FileByteRange(files, i).Holds(b) ensures b < TotalLength(files) {
      StartsGrow(files, i, |files|);
    }
  }

  /** As many pieces as it takes to cover the stream, and no more: `ceil(total / pieceLength)`. */
  predicate Covers(pieceCount: nat, pieceLength: nat, total: nat) {
    pieceLength > 0 && pieceCount * pieceLength < total + pieceLength && total <= pieceCount * pieceLength
  }

  lemma PieceBounds(piece: nat, pieceCount: nat, pieceLength: nat, total: nat)
    requires Covers(pieceCount, pieceLength, total) && piece < pieceCount
    ensures PieceByteRange(piece, pieceLength, total).start < PieceByteRange(piece, pieceLength, total).end <= total
    ensures piece + 1 < pieceCount ==>
              PieceByteRange(piece, pieceLength, total).end == PieceByteRange(piece + 1, pieceLength, total).start
    ensures piece + 1 == pieceCount ==> PieceByteRange(piece, pieceLength, total).end == total
  {
    MulMonotone(pieceLength, piece + 1, pieceCount);
    assert (piece + 1) * pieceLength == piece * pieceLength + pieceLength;
    if piece + 1 < pieceCount {
      MulMonotone(pieceLength, piece + 2, pieceCount);
      assert (piece + 2) * pieceLength == piece * pieceLength + pieceLength + pieceLength;
    }
  }

  lemma PieceHolding(pieceCount: nat, pieceLength: nat, total: nat, b: nat)
    requires Covers(pieceCount, pieceLength, total) && b < total
    ensures b / pieceLength < pieceCount
    ensures PieceByteRange(b / pieceLength, pieceLength, total).Holds(b)
  {
    var p := b / pieceLength;
    assert b == pieceLength * p + b % pieceLength;
    MulMonotone(pieceLength, pieceCount, p);
  }

  lemma HoldingPieceUnique(p: nat, q: nat, pieceLength: nat, total: nat, b: nat)
    requires PieceByteRange(p, pieceLength, total).Holds(b) && PieceByteRange(q, pieceLength, total).Holds(b)
    ensures p <= q
  {
    assert pieceLength * (q + 1) == q * pieceLength + pieceLength;
    MulMonotone(pieceLength, q + 1, p);
  }

  /** Each byte of the torrent lies in exactly one piece. */
  lemma PiecesTile(pieceCount: nat, pieceLength: nat, total: nat, b: nat)
    requires Covers(pieceCount, pieceLength, total)
    ensures b < total <==> exists p :: 0 <= p < pieceCount && PieceByteRange(p, pieceLength, total).Holds(b)
    ensures forall p, q :: 0 <= p < pieceCount && 0 <= q < pieceCount
              && PieceByteRange(p, pieceLength, total).Holds(b)
              && PieceByteRange(q, pieceLength, total).Holds(b)
              ==> p == q
  {
    if b < total { PieceHolding(pieceCount, pieceLength, total, b); }
    forall p, q | 0 <= p < pieceCount && 0 <= q < pieceCount
      && PieceByteRange(p, pieceLength, total).Holds(b)
      && PieceByteRange(q, pieceLength, total).Holds(b)
      ensures p == q
    {
      HoldingPieceUnique(p, q, pieceLength, total, b);
      HoldingPieceUnique(q, p, pieceLength, total, b);
    }
  }

  // ---- Which pieces a file can be checked by -------------------------------------------------

  predicate Ascending(s: seq<nat>) { forall i, j :: 0 <= i < j < |s| ==> s[i] < s[j] }

  /** Ascending, and exactly the pieces that lie inside the file. */
  lemma {:induction false} PiecesWithinExact(file: Range, pieceLength: nat, pieceCount: nat, total: nat)
    ensures Ascending(PiecesWithinFile(file, pieceLength, pieceCount, total))
    ensures forall p :: p in PiecesWithinFile(file, pieceLength, pieceCount, total)
              <==> 0 <= p < pieceCount && PieceByteRange(p, pieceLength, total).Within(file)
  {
    hide PieceByteRange;
    if pieceCount > 0 {
      PiecesWithinExact(file, pieceLength, pieceCount - 1, total);
      var earlier := PiecesWithinFile(file, pieceLength, pieceCount - 1, total);
      assert forall i :: 0 <= i < |earlier| ==> earlier[i] in earlier;
    }
  }

  /** A file starts strictly inside the piece. */
  predicate Straddles(files: seq<TorrentFile>, piece: Range) {
    exists k :: 0 < k < |files| && piece.start < FileStart(files, k) < piece.end
  }

  /**
   * No piece can be checked against two files; it can be checked against one exactly when no file
   * boundary cuts it.
   */
  lemma PieceBelongsToOneFile(files: seq<TorrentFile>, pieceLength: nat, pieceCount: nat, piece: nat)
    requires Covers(pieceCount, pieceLength, TotalLength(files)) && piece < pieceCount
    ensures forall i, j :: 0 <= i < |files| && 0 <= j < |files|
              && PieceByteRange(piece, pieceLength, TotalLength(files)).Within(FileByteRange(files, i))
              && PieceByteRange(piece, pieceLength, TotalLength(files)).Within(FileByteRange(files, j))
              ==> i == j
    ensures Straddles(files, PieceByteRange(piece, pieceLength, TotalLength(files)))
            <==> forall i :: 0 <= i < |files| ==>
                   !PieceByteRange(piece, pieceLength, TotalLength(files)).Within(FileByteRange(files, i))
  {
    var total := TotalLength(files);
    var range := PieceByteRange(piece, pieceLength, total);
    PieceBounds(piece, pieceCount, pieceLength, total);
    FilesTile(files, range.start);
    forall i | 0 <= i < |files| && range.Within(FileByteRange(files, i))
      ensures FileByteRange(files, i).Holds(range.start) && !Straddles(files, range)
    {
      if Straddles(files, range) {
        var k :| 0 < k < |files| && range.start < FileStart(files, k) < range.end;
        if k <= i { StartsGrow(files, k, i); } else { StartsGrow(files, i, k); }
      }
    }
    if !Straddles(files, range) {
      var i := FileHolding(files, |files|, range.start);
      assert FileStart(files, i + 1) == FileByteRange(files, i).end;
      assert range.Within(FileByteRange(files, i));
    }
  }

  /** Some piece starts within `pieceLength - 1` bytes of any place. */
  lemma PieceStartingSoon(start: nat, pieceLength: nat) returns (p: nat)
    requires pieceLength > 0
    ensures start <= p * pieceLength < start + pieceLength
  {
    p := (start + pieceLength - 1) / pieceLength;
    assert start + pieceLength - 1 == pieceLength * p + (start + pieceLength - 1) % pieceLength;
  }

  /** A file of at least `2 * pieceLength - 1` bytes always has a piece of its own. */
  lemma LongFileHasPiece(files: seq<TorrentFile>, index: nat, pieceLength: nat, pieceCount: nat)
    requires Covers(pieceCount, pieceLength, TotalLength(files))
    requires index < |files| && files[index].length >= 2 * pieceLength - 1
    ensures PiecesWithinFile(FileByteRange(files, index), pieceLength, pieceCount, TotalLength(files)) != []
  {
    var total := TotalLength(files);
    var file := FileByteRange(files, index);
    StartsGrow(files, index, |files|);
    var p := PieceStartingSoon(file.start, pieceLength);
    MulMonotone(pieceLength, pieceCount, p);
    assert PieceByteRange(p, pieceLength, total).Within(file);
    PiecesWithinExact(file, pieceLength, pieceCount, total);
    hide PieceByteRange;
    assert p in PiecesWithinFile(file, pieceLength, pieceCount, total);
  }

  /** One byte less is not enough, whatever the piece length. */
  lemma ShorterFileMayHaveNone(pieceLength: nat) returns (files: seq<TorrentFile>)
    requires pieceLength > 0
    ensures |files| == 3 && files[1].length == 2 * pieceLength - 2
    ensures Covers(2, pieceLength, TotalLength(files))
    ensures PiecesWithinFile(FileByteRange(files, 1), pieceLength, 2, TotalLength(files)) == []
  {
    files := [TorrentFile("a", 1), TorrentFile("b", 2 * pieceLength - 2), TorrentFile("c", 1)];
    assert FileStart(files, 1) == 1 && FileStart(files, 2) == 2 * pieceLength - 1;
    assert TotalLength(files) == FileStart(files, 2) + 1;
    var file := FileByteRange(files, 1);
    assert 1 * pieceLength == pieceLength;
    assert PieceByteRange(0, pieceLength, TotalLength(files)).start == 0;
    assert PieceByteRange(1, pieceLength, TotalLength(files)).end == 2 * pieceLength;
    assert PiecesWithinFile(file, pieceLength, 0, TotalLength(files)) == [];
    assert PiecesWithinFile(file, pieceLength, 1, TotalLength(files)) == [];
  }

  // ---- Which of them are checked ---------------------------------------------------------------

  /** Consecutive choices lie `floor` or `ceil` of `(n - 1) / (count - 1)` apart. */
  lemma SpreadGap(k: nat, n: nat, count: nat)
    requires n > count >= 2 && k + 1 < count
    ensures var step := (n - 1) / (count - 1);
            && step >= 1
            && Spread(k, n, count) + step <= Spread(k + 1, n, count) <= Spread(k, n, count) + step + 1
    ensures (n - 1) % (count - 1) == 0 ==>
              Spread(k + 1, n, count) == Spread(k, n, count) + (n - 1) / (count - 1)
  {
    var d := count - 1;
    var x, y := k * (n - 1), n - 1;
    assert (k + 1) * (n - 1) == x + y;
    QuotientSum(x, y, d);
    assert y == d * (y / d) + y % d;
    assert y / d >= 1;
  }

  lemma QuotientSum(x: nat, y: nat, d: nat)
    requires d > 0
    ensures x / d + y / d <= (x + y) / d <= x / d + y / d + 1
    ensures y % d == 0 ==> (x + y) / d == x / d + y / d
  {
    var a, u, b, v := x / d, x % d, y / d, y % d;
    Division(x, d);
    Division(y, d);
    assert x + y == d * a + u + (d * b + v);
    QuotientOfParts(d, a, u, b, v);
  }

  lemma Division(x: nat, d: nat)
    requires d > 0
    ensures x == d * (x / d) + x % d && 0 <= x % d < d && x / d >= 0
  {
  }

  lemma QuotientOfParts(d: nat, a: nat, u: nat, b: nat, v: nat)
    requires u < d && v < d
    ensures (d * a + u + (d * b + v)) / d == if u + v < d then a + b else a + b + 1
  {
    assert d * (a + b) == d * a + d * b;
    assert d * (a + b + 1) == d * (a + b) + d;
    var x := d * a + u + (d * b + v);
    if u + v < d { Quotient(x, d, a + b, u + v); } else { Quotient(x, d, a + b + 1, u + v - d); }
  }

  lemma Quotient(x: nat, d: nat, q: nat, r: nat)
    requires x == d * q + r && r < d
    ensures x / d == q
  {
    var p, s := x / d, x % d;
    assert d * p + s == d * q + r;
    MulMonotone(d, p + 1, q);
    MulMonotone(d, q + 1, p);
  }

  lemma {:induction false} SpreadGrows(j: nat, k: nat, n: nat, count: nat)
    requires n > count >= 2 && j < k < count
    ensures Spread(j, n, count) < Spread(k, n, count)
    decreases k
  {
    SpreadGap(k - 1, n, count);
    if j < k - 1 { SpreadGrows(j, k - 1, n, count); }
  }

  lemma {:induction false} DedupKeepsAscending(s: seq<nat>)
    requires Ascending(s)
    ensures Dedup(s) == s
  {
    if |s| >= 2 {
      DedupKeepsAscending(s[..|s| - 1]);
      assert s == s[..|s| - 1] + [s[|s| - 1]];
    }
  }

  lemma SpreadEnds(n: nat, count: nat)
    requires n > count >= 2
    ensures Spread(0, n, count) == 0 && Spread(count - 1, n, count) == n - 1
  {
    Quotient((count - 1) * (n - 1), count - 1, n - 1, 0);
    Quotient(0, count - 1, 0, 0);
  }

  /**
   * With more than `count >= 2` pieces to choose from: exactly `count` of them, ascending, the
   * first and the last included and the rest evenly spread, so nothing is ever deduplicated.
   */
  lemma SelectionIsSpread(available: seq<nat>, count: nat)
    requires Ascending(available) && |available| > count >= 2
    ensures |SelectPieces(available, count)| == count && Ascending(SelectPieces(available, count))
    ensures SelectPieces(available, count)[0] == available[0]
    ensures SelectPieces(available, count)[count - 1] == available[|available| - 1]
    ensures forall k :: 0 <= k < count ==>
              && 0 <= Spread(k, |available|, count) < |available|
              && SelectPieces(available, count)[k] == available[Spread(k, |available|, count)]
  {
    var n := |available|;
    forall k | 0 <= k < count ensures Spread(k, n, count) < n { SpreadInRange(k, n, count); }
    var chosen := seq(count, k requires 0 <= k < count =>
      (SpreadInRange(k, n, count); available[Spread(k, n, count)]));
    forall j, k | 0 <= j < k < count ensures chosen[j] < chosen[k] { SpreadGrows(j, k, n, count); }
    DedupKeepsAscending(chosen);
    SpreadEnds(n, count);
    assert SelectPieces(available, count) == Dedup(chosen);
  }

  /** A single check only ever looks at the first piece. */
  lemma SingleCheckIsFirst(available: seq<nat>)
    requires |available| > 1
    ensures SelectPieces(available, 1) == [available[0]]
  {
    assert Spread(0, |available|, 1) == 0;
  }

  /** Whatever the count, what is checked was available, and all of it is when the count allows. */
  lemma SelectionIsAvailable(available: seq<nat>, count: nat)
    ensures forall p :: p in SelectPieces(available, count) ==> p in available
    ensures SelectPieces(available, count) == [] <==> count == 0 || available == []
    ensures |available| <= count ==> forall p :: p in available ==> p in SelectPieces(available, count)
  {
    var n := |available|;
    if count > 0 && n > count {
      forall k | 0 <= k < count ensures Spread(k, n, count) < n { SpreadInRange(k, n, count); }
      var chosen := seq(count, k requires 0 <= k < count =>
        (SpreadInRange(k, n, count); available[Spread(k, n, count)]));
      DedupSubset(chosen);
      assert SelectPieces(available, count) == Dedup(chosen);
    }
  }

  lemma {:induction false} DedupSubset(s: seq<nat>)
    ensures forall p :: p in Dedup(s) ==> p in s
    ensures s != [] ==> Dedup(s) != []
  {
    if |s| >= 2 { DedupSubset(s[..|s| - 1]); }
  }

  /** Files lie one after another in listed order, from the first byte to the last. */
  lemma {:induction false} FilesAdjoin(files: seq<TorrentFile>, i: nat)
    requires i < |files|
    ensures FileByteRange(files, i).end == FileByteRange(files, i).start + files[i].length
    ensures i == 0 ==> FileByteRange(files, i).start == 0
    ensures i > 0 ==> FileByteRange(files, i).start == FileByteRange(files, i - 1).end
    ensures i == |files| - 1 ==> FileByteRange(files, i).end == TotalLength(files)
  {
  }

  /** As many pieces are checked as there are, or as are asked for. */
  lemma SelectionSize(available: seq<nat>, count: nat)
    requires Ascending(available)
    ensures |SelectPieces(available, count)| == Min(count, |available|)
  {
    if count >= 2 && |available| > count { SelectionIsSpread(available, count); }
    if count == 1 && |available| > 1 { SingleCheckIsFirst(available); }
  }
}
