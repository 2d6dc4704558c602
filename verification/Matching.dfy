/** The order-independent planner pairing torrent files with library files (src/library/matching.rs). */
module Matching {
  import opened Prelude
  import opened JobModel
  import opened MatchModel
  import opened Sorting

  // ---- Names ---------------------------------------------------------------------------------

  function LastDot(name: string): (at: int)
    ensures -1 <= at < |name|
  {
    if name == "" then -1
    else if name[|name| - 1] == '.' then |name| - 1
    else LastDot(name[..|name| - 1])
  }

  /** A plain file name without its extension; a leading dot starts no extension. */
  function FileStem(name: string): string {
    if name == "." || name == ".." || LastDot(name) <= 0 then name else name[..LastDot(name)]
  }

  function Folded(c: char): char {
    if c == '.' || c == '_' then ' '
    else if 'A' <= c <= 'Z' then ((c as int) + 32) as char
    else c
  }

  function Fold(s: string): string { seq(|s|, i requires 0 <= i < |s| => Folded(s[i])) }

  /** Unicode `White_Space`. */
  predicate IsSpace(c: char) {
    var n := c as int;
    || 0x9 <= n <= 0xD || n == 0x20 || n == 0x85 || n == 0xA0 || n == 0x1680 || 0x2000 <= n <= 0x200A
    || n == 0x2028 || n == 0x2029 || n == 0x202F || n == 0x205F || n == 0x3000
  }

  function FirstWord(s: string): (w: string)
    ensures |w| <= |s| && w == s[..|w|]
    ensures s != "" && !IsSpace(s[0]) ==> w != ""
  {
    if s == "" || IsSpace(s[0]) then "" else [s[0]] + FirstWord(s[1..])
  }

  function Words(s: string): seq<string> {
    if s == "" then []
    else if IsSpace(s[0]) then Words(s[1..])
    else [FirstWord(s)] + Words(s[|FirstWord(s)|..])
  }

  function JoinWords(words: seq<string>): string {
    if words == [] then ""
    else if |words| == 1 then words[0]
    else words[0] + " " + JoinWords(words[1..])
  }

  function NormalizeName(name: string): string { JoinWords(Words(Fold(FileStem(name)))) }

  predicate NamesAgree(left: string, right: string) { NormalizeName(left) == NormalizeName(right) }

  predicate IsWord(w: string) { w != "" && forall i :: 0 <= i < |w| ==> !IsSpace(w[i]) }

  lemma {:induction false} FirstWordIsWord(s: string)
    ensures forall i :: 0 <= i < |FirstWord(s)| ==> !IsSpace(FirstWord(s)[i])
  {
    if s != "" && !IsSpace(s[0]) { FirstWordIsWord(s[1..]); }
  }

  lemma {:induction false} WordsAreWords(s: string)
    ensures forall k :: 0 <= k < |Words(s)| ==> IsWord(Words(s)[k])
    decreases |s|
  {
    if s != "" {
      if IsSpace(s[0]) {
        WordsAreWords(s[1..]);
      } else {
        FirstWordIsWord(s);
        WordsAreWords(s[|FirstWord(s)|..]);
      }
    }
  }

  lemma {:induction false} FirstWordStops(w: string, rest: string)
    requires IsWord(w) && (rest == "" || IsSpace(rest[0]))
    ensures FirstWord(w + rest) == w
  {
    assert (w + rest)[1..] == w[1..] + rest;
    if |w| > 1 {
      FirstWordStops(w[1..], rest);
      assert w == [w[0]] + w[1..];
    } else {
      assert w[1..] + rest == rest;
      assert w == [w[0]];
    }
  }

  lemma {:induction false} WordsOfJoined(words: seq<string>)
    requires forall k :: 0 <= k < |words| ==> IsWord(words[k])
    ensures Words(JoinWords(words)) == words
  {
    if |words| == 1 {
      assert IsWord(words[0]);
      FirstWordStops(words[0], "");
      assert words[0] + "" == words[0];
      assert words[0][|words[0]|..] == "";
    } else if |words| > 1 {
      var w, rest := words[0], " " + JoinWords(words[1..]);
      assert IsWord(w);
      WordsOfJoined(words[1..]);
      FirstWordStops(w, rest);
      assert JoinWords(words) == w + rest;
      assert (w + rest)[|w|..] == rest;
      assert rest[1..] == JoinWords(words[1..]);
      assert (w + rest)[0] == w[0];
    }
  }

  /** Names agree exactly when their stems spell the same words, case and separators aside. */
  lemma NamesAgreeIffSameWords(left: string, right: string)
    ensures NamesAgree(left, right) <==> Words(Fold(FileStem(left))) == Words(Fold(FileStem(right)))
  {
    WordsAreWords(Fold(FileStem(left)));
    WordsAreWords(Fold(FileStem(right)));
    WordsOfJoined(Words(Fold(FileStem(left))));
    WordsOfJoined(Words(Fold(FileStem(right))));
  }

  // ---- Judging one file ------------------------------------------------------------------------

  predicate CandidateLeq(a: Candidate, b: Candidate) { PathLeq(a.path, b.path) }

  /** What follows the last `/`. */
  function WantedName(path: string): string {
    if path == "" || path[|path| - 1] == '/' then ""
    else WantedName(path[..|path| - 1]) + [path[|path| - 1]]
  }

  predicate RightSize(file: TorrentFile, c: Candidate) { c.sizeBytes == file.length }

  predicate RightName(file: TorrentFile, c: Candidate) { NamesAgree(c.FileName(), WantedName(file.path)) }

  function Sized(file: TorrentFile, candidates: seq<Candidate>): seq<Candidate> {
    Sort(Keep(candidates, c => RightSize(file, c)), CandidateLeq)
  }

  function Named(file: TorrentFile, candidates: seq<Candidate>): seq<Candidate> {
    Keep(Sized(file, candidates), c => RightName(file, c))
  }

  datatype Verdict = Chosen(m: FileMatch) | Undecided(u: UnmatchedFile)

  function AsMatch(file: TorrentFile, c: Candidate, confidence: Confidence, sized: nat): FileMatch {
    FileMatch(file.path, file.length, c.path, c.origin, confidence,
              Evidence(true, RightName(file, c), sized, false))
  }

  function Judge(file: TorrentFile, candidates: seq<Candidate>): Verdict {
    var sized := Sized(file, candidates);
    var named := Named(file, candidates);
    if |sized| == 0 then Undecided(UnmatchedFile(file.path, file.length, NoCandidate))
    else if |sized| == 1 && |named| == 1 then Chosen(AsMatch(file, sized[0], Probable, |sized|))
    else if |named| == 1 then Chosen(AsMatch(file, named[0], Probable, |sized|))
    else if |sized| == 1 && |named| == 0 then Chosen(AsMatch(file, sized[0], Ambiguous, |sized|))
    else
      Undecided(UnmatchedFile(file.path, file.length,
        AmbiguousCandidates(seq(|sized|, i requires 0 <= i < |sized| => (sized[i].path, sized[i].origin)))))
  }

  function Extended(plan: MatchPlan, verdict: Verdict): MatchPlan {
    match verdict
    case Chosen(m) => plan.(matched := plan.matched + [m])
    case Undecided(u) => plan.(unmatched := plan.unmatched + [u])
  }

  function PlanFor(files: seq<TorrentFile>, candidates: seq<Candidate>): MatchPlan {
    if files == [] then MatchPlan([], [])
    else
      Extended(PlanFor(files[..|files| - 1], candidates), Judge(files[|files| - 1], candidates))
  }

  method PlanMatches(files: seq<TorrentFile>, candidates: seq<Candidate>) returns (plan: MatchPlan)
    ensures plan == PlanFor(files, candidates)
  {
    plan := MatchPlan([], []);
    var i := 0;
    while i < |files|
      invariant 0 <= i <= |files| && plan == PlanFor(files[..i], candidates)
    {
      var file := files[i];
      assert files[..i + 1][..i] == files[..i];
      var sized := Sort(Keep(candidates, c => RightSize(file, c)), CandidateLeq);
      var named := Keep(sized, c => RightName(file, c));
      if |sized| == 0 {
        plan := plan.(unmatched := plan.unmatched + [UnmatchedFile(file.path, file.length, NoCandidate)]);
      } else if |sized| == 1 && |named| == 1 {
        plan := plan.(matched := plan.matched + [AsMatch(file, sized[0], Probable, |sized|)]);
      } else if |named| == 1 {
        plan := plan.(matched := plan.matched + [AsMatch(file, named[0], Probable, |sized|)]);
      } else if |sized| == 1 && |named| == 0 {
        plan := plan.(matched := plan.matched + [AsMatch(file, sized[0], Ambiguous, |sized|)]);
      } else {
        var rejected := seq(|sized|, k requires 0 <= k < |sized| => (sized[k].path, sized[k].origin));
        plan := plan.(unmatched :=
          plan.unmatched + [UnmatchedFile(file.path, file.length, AmbiguousCandidates(rejected))]);
      }
      i := i + 1;
    }
    assert files[..|files|] == files;
  }

  lemma OneNamedIsSized<T>(s: seq<T>, p: T -> bool)
    ensures |s| == 1 && |Keep(s, p)| == 1 ==> Keep(s, p)[0] == s[0]
  {
    if |s| == 1 { assert Keep(s[1..], p) == []; }
  }

  // ---- What a verdict rests on -----------------------------------------------------------------

  /** The candidates of the right size, counted whatever their order. */
  function Fitting(file: TorrentFile, candidates: seq<Candidate>): seq<Candidate> {
    Keep(candidates, c => RightSize(file, c))
  }

  function FittingByName(file: TorrentFile, candidates: seq<Candidate>): seq<Candidate> {
    Keep(Fitting(file, candidates), c => RightName(file, c))
  }

  lemma SizedIsFitting(file: TorrentFile, candidates: seq<Candidate>)
    ensures multiset(Sized(file, candidates)) == multiset(Fitting(file, candidates))
    ensures multiset(Named(file, candidates)) == multiset(FittingByName(file, candidates))
    ensures |Sized(file, candidates)| == |Fitting(file, candidates)|
    ensures |Named(file, candidates)| == |FittingByName(file, candidates)|
  {
    SortPermutes(Fitting(file, candidates), CandidateLeq);
    KeepPermutes(Sized(file, candidates), Fitting(file, candidates), c => RightName(file, c));
    SameSize(Sized(file, candidates), Fitting(file, candidates));
    SameSize(Named(file, candidates), FittingByName(file, candidates));
  }

  /**
   * A file is matched exactly when one right-sized candidate alone has its name, or when there is
   * one right-sized candidate at all. The choice is a candidate of the right size, `Probable` for
   * the name and `Ambiguous` without it, never more.
   */
  lemma VerdictIff(file: TorrentFile, candidates: seq<Candidate>)
    ensures var fitting, byName := |Fitting(file, candidates)|, |FittingByName(file, candidates)|;
            Judge(file, candidates).Chosen? <==> byName == 1 || (fitting == 1 && byName == 0)
    ensures Judge(file, candidates).Chosen? ==>
              var m := Judge(file, candidates).m;
              && (exists c :: c in candidates && RightSize(file, c) && c.path == m.source && c.origin == m.origin
                              && m.evidence.nameMatches == RightName(file, c))
              && m.torrentPath == file.path && m.length == file.length && m.evidence.sizeMatches
              && !m.evidence.pieceVerified
              && m.evidence.nameMatches == (|FittingByName(file, candidates)| == 1)
              && m.confidence == (if m.evidence.nameMatches then Probable else Ambiguous)
              && m.evidence.candidatesWithMatchingSize == |Fitting(file, candidates)|
    ensures Judge(file, candidates).Undecided? ==>
              var u := Judge(file, candidates).u;
              && u.torrentPath == file.path && u.length == file.length
              && (u.reason.NoCandidate? <==> Fitting(file, candidates) == [])
  {
    SizedIsFitting(file, candidates);
    var sized, named := Sized(file, candidates), Named(file, candidates);
    if Judge(file, candidates).Chosen? {
      var c := if |named| == 1 then named[0] else sized[0];
      OneNamedIsSized(sized, c => RightName(file, c));
      KeepMember(sized, c => RightName(file, c), c);
      SameElements(sized, Fitting(file, candidates), c);
      KeepMember(candidates, c => RightSize(file, c), c);
      assert c in candidates && RightSize(file, c);
    }
  }

  // ---- Order does not matter ---------------------------------------------------------------------

  ghost predicate DistinctCandidates(candidates: seq<Candidate>) {
    forall c, d :: c in candidates && d in candidates && c.path == d.path ==> c == d
  }

  lemma CandidateLeqIsOrder()
    ensures IsOrder(CandidateLeq)
  {
    forall x: Candidate, y: Candidate ensures CandidateLeq(x, y) || CandidateLeq(y, x) {
      PathLeqTotal(x.path, y.path);
    }
    forall x: Candidate, y: Candidate, z: Candidate | CandidateLeq(x, y) && CandidateLeq(y, z)
      ensures CandidateLeq(x, z)
    {
      PathLeqTransitive(x.path, y.path, z.path);
    }
  }

  /** Whatever order candidates come in, the same files are matched to the same sources. */
  lemma ChoiceForgetsOrder(file: TorrentFile, a: seq<Candidate>, b: seq<Candidate>)
    requires multiset(a) == multiset(b)
    ensures Judge(file, a).Chosen? == Judge(file, b).Chosen?
    ensures Judge(file, a).Chosen? ==> Judge(file, a) == Judge(file, b)
  {
    var bySize := (c: Candidate) => RightSize(file, c);
    KeepPermutes(a, b, bySize);
    assert multiset(Fitting(file, a)) == multiset(Fitting(file, b));
    SizedIsFitting(file, a);
    SizedIsFitting(file, b);
    KeepPermutes(Sized(file, a), Sized(file, b), c => RightName(file, c));
    SameSize(Sized(file, a), Sized(file, b));
    SameSize(Named(file, a), Named(file, b));
  }

  lemma VerdictForgetsOrder(file: TorrentFile, a: seq<Candidate>, b: seq<Candidate>)
    requires multiset(a) == multiset(b) && DistinctCandidates(a)
    ensures Judge(file, a) == Judge(file, b)
  {
    CandidateLeqIsOrder();
    KeepPermutes(a, b, c => RightSize(file, c));
    forall x, y | x in Fitting(file, a) && y in Fitting(file, a) && CandidateLeq(x, y) && CandidateLeq(y, x)
      ensures x == y
    {
      KeepMember(a, c => RightSize(file, c), x);
      KeepMember(a, c => RightSize(file, c), y);
      PathLeqTotal(x.path, y.path);
    }
    SortForgetsOrder(Fitting(file, a), Fitting(file, b), CandidateLeq);
    assert Sized(file, a) == Sized(file, b);
  }

  /** The plan is the same for any order of candidates with distinct paths. */
  lemma {:induction false} PlanForgetsOrder(files: seq<TorrentFile>, a: seq<Candidate>, b: seq<Candidate>)
    requires multiset(a) == multiset(b)
    ensures PlanFor(files, a).matched == PlanFor(files, b).matched
    ensures DistinctCandidates(a) ==> PlanFor(files, a) == PlanFor(files, b)
  {
    if files != [] {
      PlanForgetsOrder(files[..|files| - 1], a, b);
      var last := files[|files| - 1];
      ChoiceForgetsOrder(last, a, b);
      if DistinctCandidates(a) { VerdictForgetsOrder(last, a, b); }
    }
  }

  /** The same library file found by two sources is two candidates, and so never a match. */
  lemma SameFileTwiceIsAmbiguous(file: TorrentFile, a: Candidate, b: Candidate)
    requires a.path == b.path && RightSize(file, a) && RightSize(file, b)
    ensures Judge(file, [a, b]).Undecided? && Judge(file, [a, b]).u.reason.AmbiguousCandidates?
    ensures RightName(file, a) ==> Judge(file, [a]).Chosen?
  {
    var bySize := (c: Candidate) => RightSize(file, c);
    var byName := (c: Candidate) => RightName(file, c);
    assert [a, b][1..] == [b] && [b][1..] == [] && [a][1..] == [];
    assert Keep([b], bySize) == [b] && Keep([a], bySize) == [a];
    assert Fitting(file, [a, b]) == [a, b] && Fitting(file, [a]) == [a];
    assert a.FileName() == b.FileName();
    assert Keep([], byName) == [];
    assert Keep([b], byName) == (if RightName(file, a) then [b] else []);
    assert Keep([a], byName) == (if RightName(file, a) then [a] else []);
    assert |FittingByName(file, [a, b])| == if RightName(file, a) then 2 else 0;
    VerdictIff(file, [a, b]);
    VerdictIff(file, [a]);
  }

  // ---- Every file is placed once -------------------------------------------------------------------

  /** `matched` and `unmatched` between them list every file once, each in the torrent's order. */
  ghost predicate Interleaves(files: seq<TorrentFile>, matched: seq<FileMatch>, unmatched: seq<UnmatchedFile>)
    decreases |files|
  {
    if files == [] then matched == [] && unmatched == []
    else
      var last, rest := files[|files| - 1], files[..|files| - 1];
      || (&& matched != []
          && matched[|matched| - 1].torrentPath == last.path && matched[|matched| - 1].length == last.length
          && Interleaves(rest, matched[..|matched| - 1], unmatched))
      || (&& unmatched != []
          && unmatched[|unmatched| - 1].torrentPath == last.path && unmatched[|unmatched| - 1].length == last.length
          && Interleaves(rest, matched, unmatched[..|unmatched| - 1]))
  }

  lemma {:induction false} PlanPlacesEveryFile(files: seq<TorrentFile>, candidates: seq<Candidate>)
    ensures Interleaves(files, PlanFor(files, candidates).matched, PlanFor(files, candidates).unmatched)
    ensures |PlanFor(files, candidates).matched| + |PlanFor(files, candidates).unmatched| == |files|
  {
    if files != [] {
      var last, rest := files[|files| - 1], files[..|files| - 1];
      PlanPlacesEveryFile(rest, candidates);
      VerdictIff(last, candidates);
      var before, after := PlanFor(rest, candidates), PlanFor(files, candidates);
      match Judge(last, candidates)
      case Chosen(m) => assert after.matched[..|after.matched| - 1] == before.matched;
      case Undecided(u) => assert after.unmatched[..|after.unmatched| - 1] == before.unmatched;
    }
  }

  /** Where a match comes from: its file's verdict, at a file no earlier than its place in the plan. */
  lemma {:induction false} MatchComesFrom(files: seq<TorrentFile>, candidates: seq<Candidate>, k: nat) returns (i: nat)
    requires k < |PlanFor(files, candidates).matched|
    ensures k <= i < |files| && Judge(files[i], candidates) == Chosen(PlanFor(files, candidates).matched[k])
  {
    hide Judge;
    assert files != [];
    var rest := files[..|files| - 1];
    if k < |PlanFor(rest, candidates).matched| {
      i := MatchComesFrom(rest, candidates, k);
    } else {
      PlanPlacesEveryFile(rest, candidates);
      i := |files| - 1;
    }
  }

  // ---- Names, spelled out ---------------------------------------------------------------------------

  predicate IsWordSeparator(c: char) { c == '.' || c == '_' || c == ' ' }

  /** Equal but for the case of an ASCII letter or the choice of separator. */
  predicate LooksAlike(a: char, b: char) {
    || a == b
    || (IsWordSeparator(a) && IsWordSeparator(b))
    || ('A' <= a <= 'Z' && b as int == a as int + 32)
    || ('A' <= b <= 'Z' && a as int == b as int + 32)
  }

  /** Two texts fold to one exactly when they look alike character by character. */
  lemma FoldsAlike(a: string, b: string)
    ensures Fold(a) == Fold(b) <==> |a| == |b| && forall i :: 0 <= i < |a| ==> LooksAlike(a[i], b[i])
  {
    forall i | 0 <= i < |a| && i < |b| ensures Fold(a)[i] == Fold(b)[i] <==> LooksAlike(a[i], b[i]) {
    }
    if |a| == |b| && forall i :: 0 <= i < |a| ==> LooksAlike(a[i], b[i]) {
      assert forall i :: 0 <= i < |a| ==> Fold(a)[i] == Fold(b)[i];
    }
  }

  lemma {:induction false} LastDotIs(name: string)
    ensures LastDot(name) >= 0 ==> name[LastDot(name)] == '.'
    ensures forall i :: LastDot(name) < i < |name| ==> name[i] != '.'
  {
    if name != "" && name[|name| - 1] != '.' { LastDotIs(name[..|name| - 1]); }
  }

  /** The stem is what comes before the last dot, unless that is the first character or there is none. */
  lemma StemIs(name: string, stem: string, extension: string)
    requires name == stem + "." + extension && '.' !in extension && stem != "" && name != ".."
    ensures FileStem(name) == stem
  {
    LastDotIs(name);
    assert name[|stem|] == '.';
    forall i | |stem| < i < |name| ensures name[i] != '.' { assert name[i] == extension[i - |stem| - 1]; }
  }

  lemma StemIsWhole(name: string)
    requires forall i :: 0 < i < |name| ==> name[i] != '.'
    ensures FileStem(name) == name
  {
    LastDotIs(name);
  }

  /** Library and torrent file names agree when they look alike but for their extensions. */
  lemma RenamedAgree(stem: string, other: string, extension: string, ending: string)
    requires |stem| == |other| && stem != "" && forall i :: 0 <= i < |stem| ==> LooksAlike(stem[i], other[i])
    requires '.' !in extension && '.' !in ending && stem + "." + extension != ".." && other + "." + ending != ".."
    ensures NamesAgree(stem + "." + extension, other + "." + ending)
  {
    StemIs(stem + "." + extension, stem, extension);
    StemIs(other + "." + ending, other, ending);
    FoldsAlike(stem, other);
  }

  /** The wanted name is the part of the torrent's path after its last separator. */
  lemma {:induction false} WantedIs(path: string, name: string)
    requires '/' !in name && (path == name || (|path| > |name| && path[|path| - |name| - 1] == '/'
                                               && path[|path| - |name|..] == name))
    ensures WantedName(path) == name
  {
    if name != "" {
      var front, last := name[..|name| - 1], name[|name| - 1];
      assert name == front + [last];
      assert path[|path| - 1] == last;
      var shorter := path[..|path| - 1];
      if path != name {
        assert shorter[|shorter| - |front|..] == front;
      } else {
        assert shorter == front;
      }
      WantedIs(shorter, front);
    }
  }

  /** What an undecided file leaves to choose from is every candidate of its size, ordered by path. */
  lemma RejectedAre(file: TorrentFile, candidates: seq<Candidate>)
    requires Judge(file, candidates).Undecided? && Judge(file, candidates).u.reason.AmbiguousCandidates?
    ensures var offered := Judge(file, candidates).u.reason.candidates;
            && |offered| == |Fitting(file, candidates)|
            && (forall c :: c in candidates && c.sizeBytes == file.length ==> (c.path, c.origin) in offered)
            && (forall i :: 0 <= i < |offered| ==>
                  exists c :: c in candidates && c.sizeBytes == file.length && offered[i] == (c.path, c.origin))
            && forall i, j :: 0 <= i < j < |offered| ==> PathLeq(offered[i].0, offered[j].0)
  {
    var sized, fitting := Sized(file, candidates), Fitting(file, candidates);
    var offered := Judge(file, candidates).u.reason.candidates;
    SizedIsFitting(file, candidates);
    CandidateLeqIsOrder();
    SortSorted(fitting, CandidateLeq);
    assert |offered| == |sized| && forall i :: 0 <= i < |sized| ==> offered[i] == (sized[i].path, sized[i].origin);
    hide Judge, Sized, Fitting, Sort, Keep, PathLeq;
    forall c | c in candidates && c.sizeBytes == file.length ensures (c.path, c.origin) in offered {
      KeepMember(candidates, x => RightSize(file, x), c);
      SameElements(sized, fitting, c);
      var i :| 0 <= i < |sized| && sized[i] == c;
      assert offered[i] == (c.path, c.origin);
    }
    forall i | 0 <= i < |offered|
      ensures exists c :: c in candidates && c.sizeBytes == file.length && offered[i] == (c.path, c.origin)
    {
      var c := sized[i];
      SameElements(sized, fitting, c);
      KeepMember(candidates, x => RightSize(file, x), c);
      assert c in candidates && c.sizeBytes == file.length && offered[i] == (c.path, c.origin);
    }
    forall i, j | 0 <= i < j < |offered| ensures PathLeq(offered[i].0, offered[j].0) {
      assert CandidateLeq(sized[i], sized[j]);
    }
  }
}
