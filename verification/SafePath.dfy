/** The path-traversal boundary (src/torrent/path.rs), on the UTF-8 bytes of a path. */
module SafePath {
  import opened Prelude
  import opened Splitting

  type Text = seq<Byte>

  datatype PathRejection =
    | NoComponents
    | EmptyComponent
    | Absolute
    | ParentTraversal
    | CurrentDirectory
    | SeparatorInComponent(component: Text)
    | ControlCharacter(component: Text)
    | ComponentTooLong(len: nat)

  const MAX_COMPONENT_BYTES := 255
  const SLASH: Byte := '/' as int
  const BACKSLASH: Byte := 0x5C
  const DOT: Byte := '.' as int

  predicate StartsWithSeparator(text: Text) {
    text != [] && (text[0] == SLASH || text[0] == BACKSLASH)
  }

  predicate HasSeparator(text: Text) {
    SLASH in text || BACKSLASH in text
  }

  /** A C0 control, DEL, or a C1 control, which UTF-8 spells C2 80 to C2 9F. */
  predicate HasControl(text: Text) {
    exists i :: 0 <= i < |text| && ControlAt(text, i)
  }

  predicate ControlAt(text: Text, i: nat)
    requires i < |text|
  {
    || text[i] < 0x20 || text[i] == 0x7F
    || (text[i] == 0xC2 && i + 1 < |text| && 0x80 <= text[i + 1] <= 0x9F)
  }

  function ValidateComponent(component: Text): Result<(), PathRejection> {
    if component == [] then Err(EmptyComponent)
    else if |component| > MAX_COMPONENT_BYTES then Err(ComponentTooLong(|component|))
    else if component == [DOT, DOT] then Err(ParentTraversal)
    else if component == [DOT] then Err(CurrentDirectory)
    else if StartsWithSeparator(component) then Err(Absolute)
    else if HasSeparator(component) then Err(SeparatorInComponent(component))
    else if HasControl(component) then Err(ControlCharacter(component))
    else Ok(())
  }

  predicate IsPlain(component: Text) { ValidateComponent(component).Ok? }

  function Join(parts: seq<Text>): Text { JoinWith(parts, SLASH) }

  /** `split('/')`: never empty, and the pieces hold no separator. */
  function Split(text: Text): (parts: seq<Text>)
    ensures parts != []
  {
    SplitOn(text, SLASH)
  }

  method FromComponents(components: seq<Text>) returns (r: Result<Text, PathRejection>)
    ensures r == Accepted(components)
  {
    var parts: seq<Text> := [];
    var i := 0;
    while i < |components|
      invariant 0 <= i <= |components| && parts == components[..i]
      invariant forall k :: 0 <= k < i ==> IsPlain(components[k])
    {
      var component := components[i];
      var verdict := ValidateComponent(component);
      if verdict.Err? {
        FirstRejected(components, i);
        return Err(verdict.error);
      }
      parts := parts + [component];
      i := i + 1;
    }
    AllPlain(components);
    assert parts == components;
    if parts == [] {
      return Err(NoComponents);
    }
    return Ok(Join(parts));
  }

  /** What building a path from components gives: the first rejection, else the joined path. */
  function Accepted(components: seq<Text>): Result<Text, PathRejection> {
    match FirstRejection(components)
    case Some(rejection) => Err(rejection)
    case None => if components == [] then Err(NoComponents) else Ok(Join(components))
  }

  function FirstRejection(components: seq<Text>): Option<PathRejection> {
    if components == [] then None
    else
      match ValidateComponent(components[0])
      case Err(rejection) => Some(rejection)
      case Ok(_) => FirstRejection(components[1..])
  }

  lemma {:induction false} FirstRejected(components: seq<Text>, i: nat)
    requires i < |components| && !IsPlain(components[i])
    requires forall k :: 0 <= k < i ==> IsPlain(components[k])
    ensures FirstRejection(components) == Some(ValidateComponent(components[i]).error)
  {
    if i > 0 {
      assert IsPlain(components[0]);
      FirstRejected(components[1..], i - 1);
    }
  }

  lemma {:induction false} AllPlain(components: seq<Text>)
    ensures FirstRejection(components).None? <==> forall k :: 0 <= k < |components| ==> IsPlain(components[k])
  {
    if components != [] { AllPlain(components[1..]); }
  }

  /** Parsing a joined path, as a deserialised value is. */
  method ParsePath(path: Text) returns (r: Result<Text, PathRejection>)
    ensures r == if StartsWithSeparator(path) then Err(Absolute) else Accepted(Split(path))
  {
    if StartsWithSeparator(path) {
      return Err(Absolute);
    }
    r := FromComponents(Split(path));
  }

  function Under(path: Text, prefix: Text): Text {
    prefix + [SLASH] + path
  }

  // ---- Splitting undoes joining --------------------------------------------------------------

  lemma {:induction false} SplitJoined(first: Text, rest: Text)
    requires SLASH !in first
    ensures Split(first + [SLASH] + rest) == [first] + Split(rest)
  {
    SplitAtFirst(first, rest, SLASH);
  }

  lemma {:induction false} SplitJoin(parts: seq<Text>)
    requires parts != [] && forall k :: 0 <= k < |parts| ==> SLASH !in parts[k]
    ensures Split(Join(parts)) == parts
  {
    SplitUndoesJoin(parts, SLASH);
  }

  lemma {:induction false} JoinSplit(text: Text)
    ensures Join(Split(text)) == text
  {
    JoinUndoesSplit(text, SLASH);
  }

  /** A path is accepted from components exactly when each is plain, and it remembers them. */
  lemma AcceptedSplits(components: seq<Text>)
    ensures Accepted(components).Ok?
            <==> components != [] && forall k :: 0 <= k < |components| ==> IsPlain(components[k])
    ensures Accepted(components).Ok? ==> Split(Accepted(components).value) == components
  {
    AllPlain(components);
    if Accepted(components).Ok? {
      forall k | 0 <= k < |components| ensures SLASH !in components[k] {
        assert IsPlain(components[k]);
      }
      SplitJoin(components);
    }
  }

  /** Two component lists giving the same path are the same list. */
  lemma DistinctListsDistinctPaths(a: seq<Text>, b: seq<Text>)
    requires Accepted(a).Ok? && Accepted(a) == Accepted(b)
    ensures a == b
  {
    AcceptedSplits(a);
    AcceptedSplits(b);
  }

  /** Whatever parses is stored as it came, and parses again to itself. */
  lemma ParseKeepsText(path: Text)
    requires Accepted(Split(path)).Ok?
    ensures Accepted(Split(path)).value == path && !StartsWithSeparator(path)
  {
    JoinSplit(path);
    AcceptedSplits(Split(path));
    assert IsPlain(Split(path)[0]);
    if StartsWithSeparator(path) { assert false; }
  }

  predicate IsSafe(path: Text) { Accepted(Split(path)).Ok? }

  /** Nesting one accepted path under another is total and stays accepted. */
  lemma NestingStaysSafe(path: Text, prefix: Text)
    requires IsSafe(path) && IsSafe(prefix)
    ensures Split(Under(path, prefix)) == Split(prefix) + Split(path)
    ensures IsSafe(Under(path, prefix))
  {
    AcceptedSplits(Split(path));
    AcceptedSplits(Split(prefix));
    forall k | 0 <= k < |Split(prefix)| ensures SLASH !in Split(prefix)[k] {
      assert IsPlain(Split(prefix)[k]);
    }
    JoinSplit(prefix);
    SplitUnder(Split(prefix), path);
    AcceptedSplits(Split(Under(path, prefix)));
  }

  lemma {:induction false} SplitUnder(parts: seq<Text>, path: Text)
    requires parts != [] && forall k :: 0 <= k < |parts| ==> SLASH !in parts[k]
    ensures Split(Join(parts) + [SLASH] + path) == parts + Split(path)
  {
    if |parts| == 1 {
      SplitJoined(parts[0], path);
    } else {
      var rest := Join(parts[1..]);
      assert Join(parts) == parts[0] + [SLASH] + rest;
      hide Join, Split, IsPlain;
      SplitUnder(parts[1..], path);
      var tail := rest + [SLASH] + path;
      SplitJoined(parts[0], tail);
      Regrouped(parts[0], rest, path);
      FirstOff(parts, Split(path));
    }
  }

  lemma FirstOff(parts: seq<Text>, more: seq<Text>)
    requires parts != []
    ensures [parts[0]] + (parts[1..] + more) == parts + more
  {
  }

  lemma Regrouped(first: Text, rest: Text, path: Text)
    ensures (first + [SLASH] + rest) + [SLASH] + path == first + [SLASH] + (rest + [SLASH] + path)
  {
  }

  // ---- Where an accepted path leads ------------------------------------------------------------

  /** How a filesystem walks components from a directory, given as the components leading to it. */
  function Walk(at: seq<Text>, components: seq<Text>): seq<Text>
    decreases |components|
  {
    if components == [] then at
    else
      var head := components[0];
      var next :=
        if head == [] || head == [DOT] then at
        else if head == [DOT, DOT] then (if at == [] then [] else at[..|at| - 1])
        else at + [head];
      Walk(next, components[1..])
  }

  lemma {:induction false} PlainWalkDescends(at: seq<Text>, components: seq<Text>)
    requires forall k :: 0 <= k < |components| ==> IsPlain(components[k])
    ensures Walk(at, components) == at + components
    decreases |components|
  {
    if components == [] {
      assert at + components == at;
    } else {
      assert IsPlain(components[0]);
      PlainWalkDescends(at + [components[0]], components[1..]);
      assert at + [components[0]] + components[1..] == at + components;
    }
  }

  /** From any root, an accepted path leads strictly below it, and distinct ones to distinct places. */
  lemma SafePathsStayBelow(root: seq<Text>, path: Text, other: Text)
    requires IsSafe(path) && IsSafe(other)
    ensures Walk(root, Split(path)) == root + Split(path) && |Walk(root, Split(path))| > |root|
    ensures Walk(root, Split(path)) == Walk(root, Split(other)) ==> path == other
  {
    AcceptedSplits(Split(path));
    AcceptedSplits(Split(other));
    PlainWalkDescends(root, Split(path));
    PlainWalkDescends(root, Split(other));
    JoinSplit(path);
    JoinSplit(other);
    if Walk(root, Split(path)) == Walk(root, Split(other)) {
      assert Split(path) == (root + Split(path))[|root|..] == (root + Split(other))[|root|..] == Split(other);
    }
  }

  // ---- Plainness and its reports, on the bytes -----------------------------------------------------

  predicate IsSeparatorByte(b: Byte) { b == 0x2F || b == 0x5C }

  /** What makes a component plain, byte by byte. */
  lemma {:induction false} PlainIs(component: Text)
    ensures IsPlain(component)
            <==> && 1 <= |component| <= 255 && component != [0x2E] && component != [0x2E, 0x2E]
                 && (forall i :: 0 <= i < |component| ==>
                      !IsSeparatorByte(component[i]) && component[i] >= 0x20 && component[i] != 0x7F)
                 && forall i :: 0 < i < |component| ==>
                      !(component[i - 1] == 0xC2 && 0x80 <= component[i] <= 0x9F)
  {
    var separated := exists i :: 0 <= i < |component| && IsSeparatorByte(component[i]);
    assert HasSeparator(component) <==> separated;
    if HasControl(component) {
      var i :| 0 <= i < |component| && ControlAt(component, i);
      if component[i] >= 0x20 && component[i] != 0x7F {
        assert component[(i + 1) - 1] == 0xC2 && 0x80 <= component[i + 1] <= 0x9F;
      }
    } else {
      forall i | 0 <= i < |component|
        ensures component[i] >= 0x20 && component[i] != 0x7F
        ensures i > 0 ==> !(component[i - 1] == 0xC2 && 0x80 <= component[i] <= 0x9F)
      {
        assert !ControlAt(component, i);
        if i > 0 { assert !ControlAt(component, i - 1); }
      }
    }
  }

  /** Which report a component that is not plain gets. */
  lemma {:induction false} RejectionIs(component: Text)
    requires !IsPlain(component)
    ensures ValidateComponent(component).error
            == if |component| == 0 then EmptyComponent
               else if |component| >= 256 then ComponentTooLong(|component|)
               else if component == [0x2E] then CurrentDirectory
               else if component == [0x2E, 0x2E] then ParentTraversal
               else if IsSeparatorByte(component[0]) then Absolute
               else if exists i :: 0 < i < |component| && IsSeparatorByte(component[i])
                 then SeparatorInComponent(component)
               else ControlCharacter(component)
  {
    if component != [] && !IsSeparatorByte(component[0]) {
      assert HasSeparator(component) <==> exists i :: 0 < i < |component| && IsSeparatorByte(component[i]);
    }
  }

  /** A list is refused for its first component that is not plain, and the empty one for being empty. */
  lemma {:induction false} RefusedForTheFirst(components: seq<Text>, i: nat)
    requires i < |components| && !IsPlain(components[i])
    requires forall k :: 0 <= k < i ==> IsPlain(components[k])
    ensures Accepted(components) == Err(ValidateComponent(components[i]).error)
    ensures Accepted([]) == Err(NoComponents)
  {
    FirstRejected(components, i);
  }
}
