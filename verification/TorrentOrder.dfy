/**
 * File ranges are defined for the order a torrent lists its files in, while the matching step reads
 * the plan back ordered by path (src/repair/adapters/sqlite.rs, src/repair/application/match_media.rs).
 */
module TorrentOrder {
  import opened Prelude
  import opened MatchModel
  import opened Sorting
  import opened Pieces

  predicate ByPath(a: TorrentFile, b: TorrentFile) { TextLeq(a.path, b.path) }

  /** The files as the matching step gets them. */
  function AsRead(files: seq<TorrentFile>): seq<TorrentFile> { Sort(files, ByPath) }

  ghost predicate DistinctFiles(files: seq<TorrentFile>) {
    forall i, j :: 0 <= i < j < |files| ==> files[i].path != files[j].path
  }

  /** Bytes of the files whose path comes before `path`. */
  function Weight(files: seq<TorrentFile>, path: string): nat {
    if files == [] then 0
    else
      Weight(files[1..], path)
      + if TextLeq(files[0].path, path) && files[0].path != path then files[0].length else 0
  }

  /** The files that hold any bytes are listed by path. */
  ghost predicate InPathOrder(files: seq<TorrentFile>) {
    forall i, j :: 0 <= i < j < |files| && files[i].length > 0 && files[j].length > 0
      ==> TextLeq(files[i].path, files[j].path)
  }

  lemma ByPathIsOrder()
    ensures IsOrder(ByPath)
  {
    forall x: TorrentFile, y: TorrentFile ensures ByPath(x, y) || ByPath(y, x) {
      TextLeqTotal(x.path, y.path);
    }
    forall x: TorrentFile, y: TorrentFile, z: TorrentFile | ByPath(x, y) && ByPath(y, z) ensures ByPath(x, z) {
      TextLeqTransitive(x.path, y.path, z.path);
    }
  }

  lemma {:induction false} WeightAppend(a: seq<TorrentFile>, b: seq<TorrentFile>, path: string)
    ensures Weight(a + b, path) == Weight(a, path) + Weight(b, path)
  {
    if a == [] {
      assert a + b == b;
    } else {
      assert (a + b)[1..] == a[1..] + b;
      WeightAppend(a[1..], b, path);
    }
  }

  lemma {:induction false} WeightInsert(x: TorrentFile, s: seq<TorrentFile>, path: string)
    ensures Weight(Insert(x, s, ByPath), path) == Weight([x] + s, path)
  {
    assert ([x] + s)[1..] == s;
    if s != [] && !ByPath(x, s[0]) {
      WeightInsert(x, s[1..], path);
      assert ([x] + s[1..])[1..] == s[1..];
      var r := Insert(x, s, ByPath);
      assert r[1..] == Insert(x, s[1..], ByPath);
    }
  }

  lemma {:induction false} WeightSort(s: seq<TorrentFile>, path: string)
    ensures Weight(AsRead(s), path) == Weight(s, path)
  {
    if s != [] {
      WeightSort(s[1..], path);
      WeightInsert(s[0], AsRead(s[1..]), path);
      assert ([s[0]] + AsRead(s[1..]))[1..] == AsRead(s[1..]);
    }
  }

  /** A stretch all of whose bytes come before `path` weighs its length, one all after it nothing. */
  lemma {:induction false} WeightAll(files: seq<TorrentFile>, path: string)
    requires forall i :: 0 <= i < |files| && files[i].length > 0
               ==> TextLeq(files[i].path, path) && files[i].path != path
    ensures Weight(files, path) == TotalLength(files)
  {
    if files != [] {
      WeightAll(files[1..], path);
      StartOfTail(files, |files|);
    }
  }

  lemma {:induction false} WeightNone(files: seq<TorrentFile>, path: string)
    requires forall i :: 0 <= i < |files| && files[i].length > 0 ==> TextLeq(path, files[i].path)
    ensures Weight(files, path) == 0
  {
    if files != [] {
      WeightNone(files[1..], path);
      TextLeqTotal(files[0].path, path);
    }
  }

  lemma {:induction false} StartOfTail(files: seq<TorrentFile>, k: nat)
    requires 0 < k <= |files|
    ensures FileStart(files, k) == files[0].length + FileStart(files[1..], k - 1)
    decreases k
  {
    if k > 1 { StartOfTail(files, k - 1); }
  }

  lemma {:induction false} StartOfPrefix(files: seq<TorrentFile>, k: nat, n: nat)
    requires k <= n <= |files|
    ensures FileStart(files[..n], k) == FileStart(files, k)
    decreases k
  {
    if k > 0 { StartOfPrefix(files, k - 1, n); }
  }

  /** When byte-holding files are in path order, a file starts where the lighter paths end. */
  lemma StartIsWeight(files: seq<TorrentFile>, i: nat)
    requires DistinctFiles(files) && InPathOrder(files) && i < |files| && files[i].length > 0
    ensures FileStart(files, i) == Weight(files, files[i].path)
  {
    var path := files[i].path;
    assert files == files[..i] + files[i..];
    WeightAppend(files[..i], files[i..], path);
    WeightAll(files[..i], path);
    TextLeqTotal(path, path);
    WeightNone(files[i..], path);
    StartOfPrefix(files, i, i);
  }

  lemma Rearranged(files: seq<TorrentFile>)
    requires DistinctFiles(files)
    ensures DistinctFiles(AsRead(files)) && InPathOrder(AsRead(files))
    ensures multiset(AsRead(files)) == multiset(files)
  {
    ByPathIsOrder();
    SortPermutes(files, ByPath);
    SortSorted(files, ByPath);
    var read := AsRead(files);
    forall i, j | 0 <= i < j < |read| ensures read[i].path != read[j].path {
      DistinctStays(files, read, i, j);
    }
  }

  lemma CountedOnce<T>(s: seq<T>, i: nat)
    requires i < |s| && forall k :: 0 <= k < |s| && k != i ==> s[k] != s[i]
    ensures multiset(s)[s[i]] == 1
  {
    assert s == s[..i] + [s[i]] + s[i + 1..];
    assert s[i] !in s[..i] && s[i] !in s[i + 1..];
  }

  lemma DistinctStays(files: seq<TorrentFile>, read: seq<TorrentFile>, i: nat, j: nat)
    requires DistinctFiles(files) && multiset(read) == multiset(files)
    requires i < j < |read|
    ensures read[i].path != read[j].path
  {
    assert read[i] in multiset(files) && read[j] in multiset(files);
    var a :| 0 <= a < |files| && files[a] == read[i];
    var b :| 0 <= b < |files| && files[b] == read[j];
    CountedOnce(files, a);
    CountedTwice(read, i, j);
  }

  /** A lighter path weighs less, by at least its own bytes. */
  lemma {:induction false} WeightGrows(files: seq<TorrentFile>, low: string, high: string)
    requires TextLeq(low, high) && low != high
    ensures Weight(files, low) <= Weight(files, high)
    ensures forall j :: 0 <= j < |files| && files[j].path == low
              ==> Weight(files, low) + files[j].length <= Weight(files, high)
  {
    if files != [] {
      WeightGrows(files[1..], low, high);
      var p := files[0].path;
      if TextLeq(p, low) && p != low {
        TextLeqTransitive(p, low, high);
        TextLeqTotal(low, high);
        TextLeqTotal(p, high);
        TextLeqTotal(p, low);
      }
      assert TextLeq(p, low) && p != low ==> TextLeq(p, high) && p != high;
      forall j | 0 <= j < |files| && files[j].path == low
        ensures Weight(files, low) + files[j].length <= Weight(files, high)
      {
        if j > 0 { assert files[1..][j - 1] == files[j]; }
      }
    }
  }

  ghost predicate RangesAgree(files: seq<TorrentFile>, read: seq<TorrentFile>) {
    forall i, k :: 0 <= i < |files| && 0 <= k < |read| && files[i] == read[k] && files[i].length > 0
      ==> FileByteRange(files, i) == FileByteRange(read, k)
  }

  /**
   * Reading the files back by path leaves every byte-holding file at its place in the stream
   * exactly when the torrent listed those files by path in the first place.
   */
  lemma RangesAgreeIffInPathOrder(files: seq<TorrentFile>)
    requires DistinctFiles(files)
    ensures RangesAgree(files, AsRead(files)) <==> InPathOrder(files)
  {
    var read := AsRead(files);
    Rearranged(files);
    if InPathOrder(files) {
      forall i, k | 0 <= i < |files| && 0 <= k < |read| && files[i] == read[k] && files[i].length > 0
        ensures FileByteRange(files, i) == FileByteRange(read, k)
      {
        StartIsWeight(files, i);
        StartIsWeight(read, k);
        WeightSort(files, files[i].path);
      }
    }
    if RangesAgree(files, read) {
      forall i, j | 0 <= i < j < |files| && files[i].length > 0 && files[j].length > 0
        ensures TextLeq(files[i].path, files[j].path)
      {
        OutOfOrderMoves(files, read, i, j);
      }
    }
  }

  lemma ReadStart(files: seq<TorrentFile>, read: seq<TorrentFile>, i: nat)
    requires DistinctFiles(files) && read == AsRead(files) && RangesAgree(files, read)
    requires i < |files| && files[i].length > 0
    ensures FileStart(files, i) == Weight(files, files[i].path)
  {
    Rearranged(files);
    assert files[i] in multiset(read);
    var k :| 0 <= k < |read| && read[k] == files[i];
    assert FileByteRange(files, i) == FileByteRange(read, k);
    StartIsWeight(read, k);
    WeightSort(files, files[i].path);
  }

  lemma OutOfOrderMoves(files: seq<TorrentFile>, read: seq<TorrentFile>, i: nat, j: nat)
    requires DistinctFiles(files) && read == AsRead(files) && RangesAgree(files, read)
    requires i < j < |files| && files[i].length > 0 && files[j].length > 0
    ensures TextLeq(files[i].path, files[j].path)
  {
    ReadStart(files, read, i);
    ReadStart(files, read, j);
    StartsGrow(files, i, j);
    TextLeqTotal(files[i].path, files[j].path);
    if !TextLeq(files[i].path, files[j].path) {
      WeightGrows(files, files[j].path, files[i].path);
    }
  }

  lemma SwappedByPath(b: TorrentFile, a: TorrentFile)
    requires b.path == "b" && a.path == "a"
    ensures AsRead([b, a]) == [a, b]
  {
    assert !TextLeq("b", "a") && TextLeq("a", "b");
    assert [b, a][1..] == [a] && [a][1..] == [];
    assert Sort([a], ByPath) == [a];
    assert [a] + Insert(b, [], ByPath) == [a, b];
    assert Insert(b, [a], ByPath) == [a, b];
  }

  /**
   * Two one-byte files listed as `b`, `a`: read back by path, `a` is checked against the piece that
   * was hashed over `b`, so the genuine library file for `a` hashes wrong.
   */
  lemma MisorderedTorrentMisjudges<D>(hash: seq<Byte> -> D, x: Byte, y: Byte)
    requires hash([x]) != hash([y])
    ensures var files := [TorrentFile("b", 1), TorrentFile("a", 1)];
            var pieces := [hash([x]), hash([y])];
            && !InPathOrder(files) && DistinctFiles(files)
            && PiecesWithinFile(FileByteRange(files, 1), 1, 2, 2) == [1] && hash([y]) == pieces[1]
            && AsRead(files) == [files[1], files[0]]
            && PiecesWithinFile(FileByteRange(AsRead(files), 0), 1, 2, 2) == [0] && hash([y]) != pieces[0]
  {
    var a, b := TorrentFile("a", 1), TorrentFile("b", 1);
    var files := [b, a];
    SwappedByPath(b, a);
    assert FileStart(files, 1) == 1 && FileStart([a, b], 0) == 0;
    assert files[0].path == "b" && files[1].path == "a";
    OnePiece(Range(1, 2), 1);
    OnePiece(Range(0, 1), 0);
  }

  lemma OnePiece(file: Range, at: nat)
    requires at < 2 && file == Range(at, at + 1)
    ensures PiecesWithinFile(file, 1, 2, 2) == [at]
  {
    assert PieceByteRange(0, 1, 2) == Range(0, 1) && PieceByteRange(1, 1, 2) == Range(1, 2);
    assert PiecesWithinFile(file, 1, 0, 2) == [];
    assert PiecesWithinFile(file, 1, 1, 2) == if at == 0 then [0] else [];
  }
}
