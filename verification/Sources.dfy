/** Asking every candidate source and matching over what they found (src/repair/application/match_media.rs). */
module CandidateSources {
  import opened Prelude
  import opened MatchModel
  import opened TorrentOrder
  import opened Matching
  import opened Verification
  import opened Steps

  /** What all sources found between them, in the order they were asked. */
  function Union(sources: seq<Answer<seq<Candidate>>>): seq<Candidate> {
    if sources == [] then []
    else
      Union(sources[..|sources| - 1])
      + match sources[|sources| - 1] { case Answered(found) => found case NotImplemented => [] case CallFailed => [] }
  }

  predicate SomeUnanswered(sources: seq<Answer<seq<Candidate>>>) {
    exists i :: 0 <= i < |sources| && !sources[i].Answered?
  }

  predicate SomeStub(sources: seq<Answer<seq<Candidate>>>) {
    exists i :: 0 <= i < |sources| && sources[i].NotImplemented?
  }

  predicate NoneAnswered(sources: seq<Answer<seq<Candidate>>>) {
    forall i :: 0 <= i < |sources| ==> !sources[i].Answered?
  }

  /**
   * "Could not look" is never taken for "found nothing": with nothing found, a plan is only made when
   * every source answered. The plan is made over everything that was found.
   */
  method MatchOverSources(
    files: seq<TorrentFile>, sources: seq<Answer<seq<Candidate>>>, pieces: Option<(nat, seq<Digest>)>,
    count: nat, disk: Disk)
    returns (answer: Answer<MatchPlan>, report: seq<PieceCheck>, ghost history: seq<seq<PieceCheck>>)
    requires DistinctFiles(files)
    ensures answer.Answered? <==> Union(sources) != [] || !SomeUnanswered(sources)
    ensures answer.NotImplemented? <==>
              Union(sources) == [] && SomeUnanswered(sources) && SomeStub(sources) && NoneAnswered(sources)
    ensures answer.Answered? ==>
              if pieces.None? then answer.value == PlanFor(files, Union(sources)) && report == []
              else
                && VerifiedBy(Torrent(files, pieces.value.0, pieces.value.1, count), disk, Union(sources),
                              answer.value, report, history)
                && forall i :: 0 <= i < |answer.value.matched| ==> !FailedOn(report, answer.value.matched[i].source)
    ensures !answer.Answered? ==> report == []
  {
    var candidates: seq<Candidate> := [];
    var failures, stubbed := 0, false;
    report, history := [], [];
    var i := 0;
    while i < |sources|
      invariant 0 <= i <= |sources| && failures <= i
      invariant candidates == Union(sources[..i])
      invariant failures > 0 <==> SomeUnanswered(sources[..i])
      invariant failures == i <==> NoneAnswered(sources[..i])
      invariant stubbed <==> SomeStub(sources[..i])
    {
      assert sources[..i + 1][..i] == sources[..i];
      assert sources[..i + 1] == sources[..i] + [sources[i]];
      match sources[i] {
        case Answered(found) => candidates := candidates + found;
        case NotImplemented =>
          stubbed, failures := true, failures + 1;
          assert sources[..i + 1][i].NotImplemented?;
        case CallFailed =>
          failures := failures + 1;
          assert !sources[..i + 1][i].Answered?;
      }
      AskedOneMore(sources, i);
      i := i + 1;
    }
    assert sources[..|sources|] == sources;
    if candidates == [] && failures != 0 {
      answer := if stubbed && failures == |sources| then NotImplemented else CallFailed;
      return;
    }
    match pieces
    case None =>
      var plan := PlanMatches(files, candidates);
      answer := Answered(plan);
    case Some((pieceLength, hashes)) =>
      var plan, rounds;
      plan, report, rounds, history := VerifyMatches(Torrent(files, pieceLength, hashes, count), candidates, disk);
      answer := Answered(plan);
  }

  lemma AskedOneMore(sources: seq<Answer<seq<Candidate>>>, i: nat)
    requires i < |sources|
    ensures SomeUnanswered(sources[..i + 1]) <==> SomeUnanswered(sources[..i]) || !sources[i].Answered?
    ensures SomeStub(sources[..i + 1]) <==> SomeStub(sources[..i]) || sources[i].NotImplemented?
    ensures NoneAnswered(sources[..i + 1]) <==> NoneAnswered(sources[..i]) && !sources[i].Answered?
  {
    var before, after := sources[..i], sources[..i + 1];
    assert after[i] == sources[i] && forall k :: 0 <= k < i ==> after[k] == before[k];
  }

  /** Exactly what some source answered is in the union, as often as it was found. */
  lemma {:induction false} UnionHas(sources: seq<Answer<seq<Candidate>>>, c: Candidate)
    ensures c in Union(sources) <==>
              exists i :: 0 <= i < |sources| && sources[i].Answered? && c in sources[i].value
  {
    if sources != [] {
      var front, last := sources[..|sources| - 1], sources[|sources| - 1];
      UnionHas(front, c);
      if i :| 0 <= i < |sources| && sources[i].Answered? && c in sources[i].value {
        if i < |front| { assert front[i] == sources[i]; }
      }
      if i :| 0 <= i < |front| && front[i].Answered? && c in front[i].value { assert sources[i] == front[i]; }
    }
  }

  /** With one source the union is its answer, and each source asked later only adds behind. */
  lemma UnionGrows(sources: seq<Answer<seq<Candidate>>>, found: seq<Candidate>)
    ensures Union(sources + [Answered(found)]) == Union(sources) + found
  {
    assert (sources + [Answered(found)])[..|sources|] == sources;
  }
}
