/**
 * The recursive-descent reader of src/torrent/adapters/bencode.rs, which keeps the span of every
 * value it reads. It succeeds exactly where a fitting document starts, and each span is the print
 * of its value.
 */
module BencodeParser {
  import opened Prelude
  import opened Bencode

  datatype Node = Node(value: Value, start: nat, end: nat)

  datatype Value =
    | IntValue(n: int)
    | BytesValue(text: seq<Byte>)
    | ListValue(nodes: seq<Node>)
    | DictValue(fields: seq<Field>)

  datatype Field = Field(key: seq<Byte>, node: Node)

  /** The tree of a node, its spans forgotten. */
  function Erase(node: Node): Tree {
    match node.value
    case IntValue(n) => Int(n)
    case BytesValue(text) => Bytes(text)
    case ListValue(nodes) => List(EraseAll(nodes))
    case DictValue(fields) => Dict(EraseFields(fields))
  }

  function EraseAll(nodes: seq<Node>): seq<Tree> {
    if nodes == [] then [] else [Erase(nodes[0])] + EraseAll(nodes[1..])
  }

  function EraseFields(fields: seq<Field>): seq<Entry> {
    if fields == [] then []
    else [Entry(fields[0].key, Erase(fields[0].node))] + EraseFields(fields[1..])
  }

  lemma {:induction false} ErasedItem(nodes: seq<Node>)
    ensures |EraseAll(nodes)| == |nodes|
    ensures forall i :: 0 <= i < |nodes| ==> EraseAll(nodes)[i] == Erase(nodes[i])
  {
    hide Erase;
    if nodes != [] { ErasedItem(nodes[1..]); }
  }

  lemma {:induction false} ErasedField(fields: seq<Field>)
    ensures |EraseFields(fields)| == |fields|
    ensures forall i :: 0 <= i < |fields| ==>
              EraseFields(fields)[i] == Entry(fields[i].key, Erase(fields[i].node))
  {
    hide Erase;
    if fields != [] { ErasedField(fields[1..]); }
  }

  /** Every node below and including this one spans exactly the print of its value. */
  ghost predicate Spelled(bytes: seq<Byte>, node: Node) {
    && StartsAt(bytes, node.start, Print(Erase(node)))
    && node.end == node.start + |Print(Erase(node))|
    && match node.value
       case ListValue(nodes) => forall i :: 0 <= i < |nodes| ==> Spelled(bytes, nodes[i])
       case DictValue(fields) => forall i :: 0 <= i < |fields| ==> Spelled(bytes, fields[i].node)
       case _ => true
  }

  lemma {:induction false} SpanIsPrint(bytes: seq<Byte>, node: Node)
    requires Spelled(bytes, node)
    ensures node.start <= node.end <= |bytes| && bytes[node.start..node.end] == Print(Erase(node))
  {
  }

  lemma {:induction false} PrintAllSnoc(items: seq<Tree>, t: Tree)
    ensures PrintAll(items + [t]) == PrintAll(items) + Print(t)
  {
    hide Print;
    if items == [] {
      assert items + [t] == [t];
      assert PrintAll([t]) == Print(t) + PrintAll([]);
    } else {
      assert (items + [t])[1..] == items[1..] + [t];
      PrintAllSnoc(items[1..], t);
    }
  }

  lemma {:induction false} PrintEntriesSnoc(entries: seq<Entry>, e: Entry)
    ensures PrintEntries(entries + [e]) == PrintEntries(entries) + PrintBytes(e.key) + Print(e.value)
  {
    hide Print, PrintBytes;
    if entries == [] {
      assert entries + [e] == [e];
      assert PrintEntries([e]) == PrintBytes(e.key) + Print(e.value) + PrintEntries([]);
    } else {
      assert (entries + [e])[1..] == entries[1..] + [e];
      PrintEntriesSnoc(entries[1..], e);
    }
  }

  lemma {:induction false} StartsAtIndex(bytes: seq<Byte>, pos: nat, word: seq<Byte>, i: nat)
    requires StartsAt(bytes, pos, word) && i < |word|
    ensures pos + i < |bytes| && bytes[pos + i] == word[i]
  {
    assert bytes[pos..pos + |word|][i] == word[i];
  }

  // ---- One turn of the list loop and of the dictionary loop ---------------------------------

  ghost predicate DocumentAt(bytes: seq<Byte>, pos: nat, depth: nat, t: Tree) {
    Fits(t, depth) && StartsAt(bytes, pos, Print(t))
  }

  ghost predicate NoDocumentAt(bytes: seq<Byte>, pos: nat, depth: nat) {
    forall t :: !DocumentAt(bytes, pos, depth, t)
  }

  ghost predicate ItemsSpelled(bytes: seq<Byte>, nodes: seq<Node>) {
    forall i :: 0 <= i < |nodes| ==> Spelled(bytes, nodes[i])
  }

  ghost predicate FieldsSpelled(bytes: seq<Byte>, fields: seq<Field>) {
    forall i :: 0 <= i < |fields| ==> Spelled(bytes, fields[i].node)
  }

  ghost predicate ItemsFit(items: seq<Tree>, depth: nat) {
    forall i :: 0 <= i < |items| ==> Fits(items[i], depth)
  }

  ghost predicate EntriesFit(entries: seq<Entry>, depth: nat) {
    forall i :: 0 <= i < |entries| ==> Fits(entries[i].value, depth)
  }

  lemma {:induction false} FitsBelow(t: Tree, depth: nat)
    ensures t.List? ==> (Fits(t, depth) <==> depth <= MAX_DEPTH && ItemsFit(t.items, depth + 1))
    ensures t.Dict? ==> (Fits(t, depth) <==> depth <= MAX_DEPTH && EntriesFit(t.entries, depth + 1))
  {
  }

  /** The list opened at `start` has been read up to `pos` as `items`. */
  ghost predicate ListRead(bytes: seq<Byte>, start: nat, pos: nat, items: seq<Tree>) {
    && StartsAt(bytes, start, ['l' as int])
    && StartsAt(bytes, start + 1, PrintAll(items))
    && pos == start + 1 + |PrintAll(items)|
  }

  /** What remains of the list `goal` from `pos` on, `items` of it being read. */
  ghost predicate ListAhead(bytes: seq<Byte>, pos: nat, items: seq<Tree>, goal: seq<Tree>) {
    && |items| <= |goal| && goal[..|items|] == items
    && StartsAt(bytes, pos, PrintAll(goal[|items|..]) + [END])
  }

  lemma {:induction false} ListOpens(bytes: seq<Byte>, start: nat, depth: nat, goal: seq<Tree>)
    requires DocumentAt(bytes, start, depth, List(goal))
    ensures ListAhead(bytes, start + 1, [], goal) && ItemsFit(goal, depth + 1)
  {
    FitsBelow(List(goal), depth);
    Framed(bytes, start, 'l' as int, PrintAll(goal));
    assert goal[0..] == goal;
  }

  lemma {:induction false} ListExtends(bytes: seq<Byte>, start: nat, pos: nat, items: seq<Tree>, t: Tree)
    requires ListRead(bytes, start, pos, items) && StartsAt(bytes, pos, Print(t))
    ensures ListRead(bytes, start, pos + |Print(t)|, items + [t]) && |Print(t)| > 0
  {
    FirstByte(t);
    PrintAllSnoc(items, t);
    StartsAtConcat(bytes, start + 1, PrintAll(items), Print(t));
  }

  lemma {:induction false} ListCloses(bytes: seq<Byte>, start: nat, pos: nat, depth: nat, items: seq<Tree>)
    requires ListRead(bytes, start, pos, items) && pos < |bytes| && bytes[pos] == END
    requires depth <= MAX_DEPTH && ItemsFit(items, depth + 1)
    ensures DocumentAt(bytes, start, depth, List(items)) && pos + 1 == start + |Print(List(items))|
  {
    FitsBelow(List(items), depth);
    hide Fits, ItemsFit;
    StartsAtConcat(bytes, start + 1, PrintAll(items), [END]);
    Framed(bytes, start, 'l' as int, PrintAll(items));
  }

  /** An element of the goal is next, unless the end marker is. */
  lemma {:induction false} ListNext(bytes: seq<Byte>, pos: nat, items: seq<Tree>, goal: seq<Tree>, depth: nat)
    requires ListAhead(bytes, pos, items, goal) && ItemsFit(goal, depth)
    ensures pos < |bytes|
    ensures bytes[pos] != END ==> |items| < |goal| && DocumentAt(bytes, pos, depth, goal[|items|])
  {
    hide Fits;
    NotEmptyList(bytes, pos, goal[|items|..]);
    StartsAtFirst(bytes, pos, PrintAll(goal[|items|..]) + [END]);
  }

  lemma {:induction false} ListAdvances(bytes: seq<Byte>, pos: nat, items: seq<Tree>, goal: seq<Tree>, t: Tree)
    requires ListAhead(bytes, pos, items, goal)
    requires pos < |bytes| && bytes[pos] != END && StartsAt(bytes, pos, Print(t))
    ensures ListAhead(bytes, pos + |Print(t)|, items + [t], goal)
  {
    NotEmptyList(bytes, pos, goal[|items|..]);
    PrefixCode(bytes, pos, t, goal[|items|]);
    assert goal[|items|..][1..] == goal[|items + [t]|..];
  }

  ghost predicate DictRead(bytes: seq<Byte>, start: nat, pos: nat, entries: seq<Entry>) {
    && StartsAt(bytes, start, ['d' as int])
    && StartsAt(bytes, start + 1, PrintEntries(entries))
    && pos == start + 1 + |PrintEntries(entries)|
  }

  ghost predicate DictAhead(bytes: seq<Byte>, pos: nat, entries: seq<Entry>, goal: seq<Entry>) {
    && |entries| <= |goal| && goal[..|entries|] == entries
    && StartsAt(bytes, pos, PrintEntries(goal[|entries|..]) + [END])
  }

  lemma {:induction false} DictOpens(bytes: seq<Byte>, start: nat, depth: nat, goal: seq<Entry>)
    requires DocumentAt(bytes, start, depth, Dict(goal))
    ensures DictAhead(bytes, start + 1, [], goal) && EntriesFit(goal, depth + 1)
  {
    FitsBelow(Dict(goal), depth);
    Framed(bytes, start, 'd' as int, PrintEntries(goal));
    assert goal[0..] == goal;
  }

  lemma {:induction false} DictExtends(
    bytes: seq<Byte>, start: nat, pos: nat, entries: seq<Entry>, key: seq<Byte>, t: Tree)
    requires DictRead(bytes, start, pos, entries)
    requires StartsAt(bytes, pos, PrintBytes(key)) && StartsAt(bytes, pos + |PrintBytes(key)|, Print(t))
    ensures DictRead(bytes, start, pos + |PrintBytes(key)| + |Print(t)|, entries + [Entry(key, t)])
    ensures |Print(t)| > 0
  {
    FirstByte(t);
    hide Print, PrintBytes;
    PrintEntriesSnoc(entries, Entry(key, t));
    StartsAtConcat(bytes, start + 1, PrintEntries(entries), PrintBytes(key));
    StartsAtConcat(bytes, start + 1, PrintEntries(entries) + PrintBytes(key), Print(t));
  }

  lemma {:induction false} DictCloses(bytes: seq<Byte>, start: nat, pos: nat, depth: nat, entries: seq<Entry>)
    requires DictRead(bytes, start, pos, entries) && pos < |bytes| && bytes[pos] == END
    requires depth <= MAX_DEPTH && EntriesFit(entries, depth + 1)
    ensures DocumentAt(bytes, start, depth, Dict(entries)) && pos + 1 == start + |Print(Dict(entries))|
  {
    FitsBelow(Dict(entries), depth);
    hide Fits, EntriesFit;
    StartsAtConcat(bytes, start + 1, PrintEntries(entries), [END]);
    Framed(bytes, start, 'd' as int, PrintEntries(entries));
  }

  lemma {:induction false} DictNext(bytes: seq<Byte>, pos: nat, entries: seq<Entry>, goal: seq<Entry>, depth: nat)
    requires DictAhead(bytes, pos, entries, goal) && EntriesFit(goal, depth)
    ensures pos < |bytes|
    ensures bytes[pos] != END ==>
              && |entries| < |goal|
              && StartsAt(bytes, pos, PrintBytes(goal[|entries|].key))
              && DocumentAt(bytes, pos + |PrintBytes(goal[|entries|].key)|, depth, goal[|entries|].value)
  {
    hide Print, PrintBytes, Fits;
    NotEmptyDict(bytes, pos, goal[|entries|..]);
    StartsAtFirst(bytes, pos, PrintEntries(goal[|entries|..]) + [END]);
  }

  lemma {:induction false} DictAdvances(
    bytes: seq<Byte>, pos: nat, entries: seq<Entry>, goal: seq<Entry>, key: seq<Byte>, t: Tree)
    requires DictAhead(bytes, pos, entries, goal) && pos < |bytes| && bytes[pos] != END
    requires StartsAt(bytes, pos, PrintBytes(key)) && StartsAt(bytes, pos + |PrintBytes(key)|, Print(t))
    ensures DictAhead(
              bytes, pos + |PrintBytes(key)| + |Print(t)|, entries + [Entry(key, t)], goal)
  {
    hide Print, PrintBytes, PrintEntries;
    NotEmptyDict(bytes, pos, goal[|entries|..]);
    BytesPrefixCode(bytes, pos, key, goal[|entries|].key);
    PrefixCode(bytes, pos + |PrintBytes(key)|, t, goal[|entries|].value);
    assert goal[|entries|..][1..] == goal[|entries + [Entry(key, t)]|..];
  }

  // ---- The state of either loop ------------------------------------------------------------

  /** The list that starts at `start`, if one does. */
  ghost function ListGoal(bytes: seq<Byte>, start: nat, depth: nat): (goal: Option<seq<Tree>>)
    ensures goal.Some? ==> DocumentAt(bytes, start, depth, List(goal.value))
    ensures goal.None? ==> forall items :: !DocumentAt(bytes, start, depth, List(items))
  {
    if exists items :: DocumentAt(bytes, start, depth, List(items)) then
      var items :| DocumentAt(bytes, start, depth, List(items));
      Some(items)
    else None
  }

  ghost predicate InList(
    bytes: seq<Byte>, start: nat, pos: nat, depth: nat, nodes: seq<Node>, goal: Option<seq<Tree>>)
  {
    && ItemsSpelled(bytes, nodes) && ItemsFit(EraseAll(nodes), depth + 1)
    && ListRead(bytes, start, pos, EraseAll(nodes))
    && (goal.Some? ==> ListAhead(bytes, pos, EraseAll(nodes), goal.value) && ItemsFit(goal.value, depth + 1))
  }

  lemma {:induction false} InListBegins(bytes: seq<Byte>, start: nat, depth: nat)
    requires StartsAt(bytes, start, ['l' as int])
    ensures InList(bytes, start, start + 1, depth, [], ListGoal(bytes, start, depth))
  {
    assert EraseAll([]) == [];
    var goal := ListGoal(bytes, start, depth);
    if goal.Some? { ListOpens(bytes, start, depth, goal.value); }
  }

  lemma {:induction false} InListFails(bytes: seq<Byte>, start: nat, pos: nat, depth: nat, nodes: seq<Node>)
    requires InList(bytes, start, pos, depth, nodes, ListGoal(bytes, start, depth))
    requires pos < |bytes| ==> bytes[pos] != END && NoDocumentAt(bytes, pos, depth + 1)
    ensures forall items :: !DocumentAt(bytes, start, depth, List(items))
  {
    var goal := ListGoal(bytes, start, depth);
    hide ListGoal, DocumentAt;
    if goal.Some? { ListNext(bytes, pos, EraseAll(nodes), goal.value, depth + 1); }
  }

  lemma {:induction false} InListStep(
    bytes: seq<Byte>, start: nat, pos: nat, depth: nat, nodes: seq<Node>, goal: Option<seq<Tree>>, node: Node)
    requires InList(bytes, start, pos, depth, nodes, goal) && pos < |bytes| && bytes[pos] != END
    requires Spelled(bytes, node) && Fits(Erase(node), depth + 1) && node.start == pos
    ensures InList(bytes, start, node.end, depth, nodes + [node], goal) && node.end > pos
  {
    SpelledAt(bytes, node);
    if goal.Some? { ListAdvances(bytes, pos, EraseAll(nodes), goal.value, Erase(node)); }
    ListExtends(bytes, start, pos, EraseAll(nodes), Erase(node));
    ItemsExtend(bytes, nodes, node, depth + 1);
  }

  lemma {:induction false} InListEnds(
    bytes: seq<Byte>, start: nat, pos: nat, depth: nat, nodes: seq<Node>, goal: Option<seq<Tree>>)
    requires InList(bytes, start, pos, depth, nodes, goal) && pos < |bytes| && bytes[pos] == END
    requires depth <= MAX_DEPTH
    ensures ItemsSpelled(bytes, nodes) && DocumentAt(bytes, start, depth, List(EraseAll(nodes)))
    ensures pos + 1 == start + |Print(List(EraseAll(nodes)))|
  {
    ListCloses(bytes, start, pos, depth, EraseAll(nodes));
  }

  ghost function DictGoal(bytes: seq<Byte>, start: nat, depth: nat): (goal: Option<seq<Entry>>)
    ensures goal.Some? ==> DocumentAt(bytes, start, depth, Dict(goal.value))
    ensures goal.None? ==> forall entries :: !DocumentAt(bytes, start, depth, Dict(entries))
  {
    if exists entries :: DocumentAt(bytes, start, depth, Dict(entries)) then
      var entries :| DocumentAt(bytes, start, depth, Dict(entries));
      Some(entries)
    else None
  }

  ghost predicate InDict(
    bytes: seq<Byte>, start: nat, pos: nat, depth: nat, fields: seq<Field>, goal: Option<seq<Entry>>)
  {
    && FieldsSpelled(bytes, fields) && EntriesFit(EraseFields(fields), depth + 1)
    && DictRead(bytes, start, pos, EraseFields(fields))
    && (goal.Some? ==>
          && DictAhead(bytes, pos, EraseFields(fields), goal.value)
          && EntriesFit(goal.value, depth + 1))
  }

  lemma {:induction false} InDictBegins(bytes: seq<Byte>, start: nat, depth: nat)
    requires StartsAt(bytes, start, ['d' as int])
    ensures InDict(bytes, start, start + 1, depth, [], DictGoal(bytes, start, depth))
  {
    assert EraseFields([]) == [];
    var goal := DictGoal(bytes, start, depth);
    if goal.Some? { DictOpens(bytes, start, depth, goal.value); }
  }

  /** Neither the end marker nor a key is next, so no dictionary starts at `start`. */
  lemma {:induction false} InDictFails(bytes: seq<Byte>, start: nat, pos: nat, depth: nat, fields: seq<Field>)
    requires InDict(bytes, start, pos, depth, fields, DictGoal(bytes, start, depth))
    requires pos < |bytes| ==> bytes[pos] != END && forall text :: !StartsAt(bytes, pos, PrintBytes(text))
    ensures forall entries :: !DocumentAt(bytes, start, depth, Dict(entries))
  {
    var goal := DictGoal(bytes, start, depth);
    hide DictGoal, DocumentAt, StartsAt;
    if goal.Some? { DictNext(bytes, pos, EraseFields(fields), goal.value, depth + 1); }
  }

  /** A key is next, but no document after it. */
  lemma {:induction false} InDictValueFails(
    bytes: seq<Byte>, start: nat, pos: nat, depth: nat, fields: seq<Field>, key: seq<Byte>)
    requires InDict(bytes, start, pos, depth, fields, DictGoal(bytes, start, depth))
    requires pos < |bytes| && bytes[pos] != END && StartsAt(bytes, pos, PrintBytes(key))
    requires NoDocumentAt(bytes, pos + |PrintBytes(key)|, depth + 1)
    ensures forall entries :: !DocumentAt(bytes, start, depth, Dict(entries))
  {
    var goal := DictGoal(bytes, start, depth);
    hide DictGoal, DocumentAt, StartsAt;
    if goal.Some? {
      DictNext(bytes, pos, EraseFields(fields), goal.value, depth + 1);
      BytesPrefixCode(bytes, pos, key, goal.value[|EraseFields(fields)|].key);
    }
  }

  lemma {:induction false} InDictStep(
    bytes: seq<Byte>, start: nat, pos: nat, depth: nat, fields: seq<Field>, goal: Option<seq<Entry>>,
    field: Field)
    requires InDict(bytes, start, pos, depth, fields, goal) && pos < |bytes| && bytes[pos] != END
    requires StartsAt(bytes, pos, PrintBytes(field.key))
    requires field.node.start == pos + |PrintBytes(field.key)|
    requires Spelled(bytes, field.node) && Fits(Erase(field.node), depth + 1)
    ensures InDict(bytes, start, field.node.end, depth, fields + [field], goal) && field.node.end > pos
  {
    hide PrintBytes, Fits;
    SpelledAt(bytes, field.node);
    hide StartsAt, Print, PrintEntries, Spelled, Erase, EraseFields, FieldsSpelled, EntriesFit, DictRead, DictAhead;
    var t := Erase(field.node);
    if goal.Some? { DictAdvances(bytes, pos, EraseFields(fields), goal.value, field.key, t); }
    DictExtends(bytes, start, pos, EraseFields(fields), field.key, t);
    FieldsExtend(bytes, fields, field, depth + 1);
  }

  lemma {:induction false} InDictEnds(
    bytes: seq<Byte>, start: nat, pos: nat, depth: nat, fields: seq<Field>, goal: Option<seq<Entry>>)
    requires InDict(bytes, start, pos, depth, fields, goal) && pos < |bytes| && bytes[pos] == END
    requires depth <= MAX_DEPTH
    ensures FieldsSpelled(bytes, fields) && DocumentAt(bytes, start, depth, Dict(EraseFields(fields)))
    ensures pos + 1 == start + |Print(Dict(EraseFields(fields)))|
  {
    DictCloses(bytes, start, pos, depth, EraseFields(fields));
  }

  class Parser {
    const bytes: seq<Byte>
    var pos: nat

    ghost predicate Valid()
      reads this
    {
      pos <= |bytes| <= I64_MAX
    }

    constructor (input: seq<Byte>)
      requires |input| <= I64_MAX
      ensures Valid() && bytes == input && pos == 0
    {
      bytes := input;
      pos := 0;
    }

    function Peek(): Result<Byte, ParseError>
      reads this
    {
      if pos < |bytes| then Ok(bytes[pos]) else Err(UnexpectedEnd)
    }

    method Advance() returns (r: Result<Byte, ParseError>)
      requires Valid()
      modifies this
      ensures Valid()
      ensures r == old(Peek())
      ensures pos == old(pos) + if r.Ok? then 1 else 0
    {
      r := Peek();
      if r.Ok? { pos := pos + 1; }
    }

    method TakeUntil(delimiter: Byte) returns (r: Result<seq<Byte>, ParseError>)
      requires Valid() && !IsNumberByte(delimiter)
      modifies this
      ensures Valid()
      ensures r.Ok? ==>
                && IsNumberText(r.value)
                && StartsAt(bytes, old(pos), r.value + [delimiter])
                && pos == old(pos) + |r.value| + 1
      ensures r.Err? ==>
                forall text :: IsNumberText(text) ==> !StartsAt(bytes, old(pos), text + [delimiter])
    {
      var start := pos;
      while true
        invariant Valid() && start <= pos
        invariant IsNumberText(bytes[start..pos])
        decreases |bytes| - pos
      {
        var byte := Advance();
        if byte.Err? {
          forall text | IsNumberText(text) ensures !StartsAt(bytes, start, text + [delimiter]) {
            NoDelimiter(start, pos, text, delimiter);
          }
          return Err(byte.error);
        }
        if byte.value == delimiter {
          assert bytes[start..pos] == bytes[start..pos - 1] + [delimiter];
          return Ok(bytes[start..pos - 1]);
        }
        if !IsNumberByte(byte.value) {
          forall text | IsNumberText(text) ensures !StartsAt(bytes, start, text + [delimiter]) {
            NoDelimiter(start, pos - 1, text, delimiter);
          }
          return Err(UnexpectedByte);
        }
        assert bytes[start..pos] == bytes[start..pos - 1] + [byte.value];
      }
    }

    /** Number text running up to `stop` rules out a delimiter before it, and one at or after it. */
    lemma {:induction false} NoDelimiter(start: nat, stop: nat, text: seq<Byte>, delimiter: Byte)
      requires start <= stop <= |bytes| && !IsNumberByte(delimiter)
      requires IsNumberText(bytes[start..stop])
      requires stop == |bytes| || (bytes[stop] != delimiter && !IsNumberByte(bytes[stop]))
      requires IsNumberText(text)
      ensures !StartsAt(bytes, start, text + [delimiter])
    {
      var word := text + [delimiter];
      if StartsAt(bytes, start, word) {
        StartsAtIndex(bytes, start, word, |text|);
        assert word[|text|] == delimiter;
        if stop - start <= |text| {
          StartsAtIndex(bytes, start, word, stop - start);
        } else {
          NumberTextAt(bytes[start..stop], |text|);
        }
      }
    }

    method ParseInt() returns (r: Result<int, ParseError>)
      requires Valid() && StartsAt(bytes, pos, ['i' as int])
      modifies this
      ensures Valid()
      ensures r.Ok? ==>
                && I64_MIN <= r.value <= I64_MAX
                && StartsAt(bytes, old(pos), Print(Int(r.value)))
                && pos == old(pos) + |Print(Int(r.value))|
      ensures r.Err? ==>
                forall n :: I64_MIN <= n <= I64_MAX ==> !StartsAt(bytes, old(pos), Print(Int(n)))
    {
      ghost var start := pos;
      hide StartsAt, Print, PrintInt, DecodeInt;
      assert start < |bytes| by { StartsAtFirst(bytes, start, ['i' as int]); }
      var open := Advance();
      var digits := TakeUntil(END);
      if digits.Err? {
        NoTextNoInt(bytes, start);
        return Err(digits.error);
      }
      r := DecodeInt(digits.value);
      if r.Err? { BadTextNoInt(bytes, start, digits.value); }
      else { IntRead(bytes, start, digits.value, r.value); }
    }

    method ParseBytes() returns (r: Result<seq<Byte>, ParseError>)
      requires Valid()
      modifies this
      ensures Valid()
      ensures r.Ok? ==>
                && StartsAt(bytes, old(pos), PrintBytes(r.value))
                && pos == old(pos) + |PrintBytes(r.value)|
      ensures r.Err? ==> forall text :: !StartsAt(bytes, old(pos), PrintBytes(text))
    {
      ghost var start := pos;
      hide StartsAt, PrintBytes, DecodeLength, Digits;
      var digits := TakeUntil(COLON);
      if digits.Err? {
        NoLengthNoBytes(bytes, start);
        return Err(digits.error);
      }
      var length := DecodeLength(digits.value);
      if length.Err? {
        BadLengthNoBytes(bytes, start, digits.value);
        return Err(length.error);
      }
      var end := pos + length.value;
      if end > USIZE_MAX || end > |bytes| {
        PastEndNoBytes(bytes, start, digits.value, length.value);
        return Err(PastEnd);
      }
      var text := bytes[pos..end];
      assert StartsAt(bytes, pos, text) by { Slice(bytes, pos, end); }
      BytesRead(bytes, start, digits.value, text);
      pos := end;
      return Ok(text);
    }

    method ParseNode(depth: nat) returns (r: Result<Node, ParseError>)
      requires Valid() && depth <= MAX_DEPTH + 1
      modifies this
      ensures Valid()
      ensures r.Ok? ==>
                && Spelled(bytes, r.value) && Fits(Erase(r.value), depth)
                && r.value.start == old(pos) && r.value.end == pos
      ensures r.Err? ==> NoDocumentAt(bytes, old(pos), depth)
      decreases MAX_DEPTH + 1 - depth, 1
    {
      if depth > MAX_DEPTH {
        return Err(TooDeep);
      }
      var start := pos;
      forall t: Tree ensures !StartsAt(bytes, start, Print(t)) || (start < |bytes| && MatchesFirst(t, bytes[start])) {
        FirstByte(t);
        if StartsAt(bytes, start, Print(t)) { StartsAtFirst(bytes, start, Print(t)); }
      }
      var first :- Peek();
      var value: Value;
      if first == 'i' as int {
        assert StartsAt(bytes, pos, ['i' as int]);
        var n :- ParseInt();
        value := IntValue(n);
      } else if first == 'l' as int {
        assert StartsAt(bytes, pos, ['l' as int]);
        var nodes :- ParseList(depth);
        value := ListValue(nodes);
      } else if first == 'd' as int {
        assert StartsAt(bytes, pos, ['d' as int]);
        var fields :- ParseDict(depth);
        value := DictValue(fields);
      } else if IsDigit(first) {
        var text :- ParseBytes();
        value := BytesValue(text);
      } else {
        return Err(UnexpectedByte);
      }
      return Ok(Node(value, start, pos));
    }

    method ParseList(depth: nat) returns (r: Result<seq<Node>, ParseError>)
      requires Valid() && depth <= MAX_DEPTH && StartsAt(bytes, pos, ['l' as int])
      modifies this
      ensures Valid()
      ensures r.Ok? ==>
                && ItemsSpelled(bytes, r.value)
                && DocumentAt(bytes, old(pos), depth, List(EraseAll(r.value)))
                && pos == old(pos) + |Print(List(EraseAll(r.value)))|
      ensures r.Err? ==> forall items :: !DocumentAt(bytes, old(pos), depth, List(items))
      decreases MAX_DEPTH + 1 - depth, 0
    {
      ghost var start := pos;
      ghost var goal := ListGoal(bytes, start, depth);
      InListBegins(bytes, start, depth);
      var open := Advance();
      var nodes: seq<Node> := [];
      hide StartsAt, Print, Fits, Spelled, Erase, EraseAll, InList, ListGoal, DocumentAt, ItemsSpelled;
      while true
        invariant Valid() && InList(bytes, start, pos, depth, nodes, goal)
        decreases |bytes| - pos
      {
        var next := Peek();
        if next.Err? {
          InListFails(bytes, start, pos, depth, nodes);
          return Err(next.error);
        }
        if next.value == END {
          InListEnds(bytes, start, pos, depth, nodes, goal);
          var close := Advance();
          return Ok(nodes);
        }
        ghost var at := pos;
        var node := ParseNode(depth + 1);
        if node.Err? {
          InListFails(bytes, start, at, depth, nodes);
          return Err(node.error);
        }
        InListStep(bytes, start, at, depth, nodes, goal, node.value);
        nodes := nodes + [node.value];
      }
    }

    method ParseDict(depth: nat) returns (r: Result<seq<Field>, ParseError>)
      requires Valid() && depth <= MAX_DEPTH && StartsAt(bytes, pos, ['d' as int])
      modifies this
      ensures Valid()
      ensures r.Ok? ==>
                && FieldsSpelled(bytes, r.value)
                && DocumentAt(bytes, old(pos), depth, Dict(EraseFields(r.value)))
                && pos == old(pos) + |Print(Dict(EraseFields(r.value)))|
      ensures r.Err? ==> forall entries :: !DocumentAt(bytes, old(pos), depth, Dict(entries))
      decreases MAX_DEPTH + 1 - depth, 0
    {
      ghost var start := pos;
      ghost var goal := DictGoal(bytes, start, depth);
      InDictBegins(bytes, start, depth);
      var open := Advance();
      var fields: seq<Field> := [];
      hide StartsAt, Print, PrintBytes, Fits, Spelled, Erase, EraseFields, InDict, DictGoal, DocumentAt,
        FieldsSpelled;
      while true
        invariant Valid() && InDict(bytes, start, pos, depth, fields, goal)
        decreases |bytes| - pos
      {
        var next := Peek();
        if next.Err? {
          InDictFails(bytes, start, pos, depth, fields);
          return Err(next.error);
        }
        if next.value == END {
          InDictEnds(bytes, start, pos, depth, fields, goal);
          var close := Advance();
          return Ok(fields);
        }
        ghost var at := pos;
        var key := ParseBytes();
        if key.Err? {
          InDictFails(bytes, start, at, depth, fields);
          return Err(key.error);
        }
        var node := ParseNode(depth + 1);
        if node.Err? {
          InDictValueFails(bytes, start, at, depth, fields, key.value);
          return Err(node.error);
        }
        var field := Field(key.value, node.value);
        InDictStep(bytes, start, at, depth, fields, goal, field);
        fields := fields + [field];
      }
    }
  }

  lemma {:induction false} SpelledAt(bytes: seq<Byte>, node: Node)
    requires Spelled(bytes, node)
    ensures StartsAt(bytes, node.start, Print(Erase(node)))
    ensures node.end == node.start + |Print(Erase(node))|
  {
  }

  lemma {:induction false} ItemsExtend(bytes: seq<Byte>, nodes: seq<Node>, node: Node, depth: nat)
    requires ItemsSpelled(bytes, nodes) && ItemsFit(EraseAll(nodes), depth)
    requires Spelled(bytes, node) && Fits(Erase(node), depth)
    ensures EraseAll(nodes + [node]) == EraseAll(nodes) + [Erase(node)]
    ensures ItemsSpelled(bytes, nodes + [node]) && ItemsFit(EraseAll(nodes + [node]), depth)
  {
    hide Spelled, Fits, Erase, EraseAll;
    ErasedItem(nodes);
    ErasedItem(nodes + [node]);
    assert EraseAll(nodes + [node]) == EraseAll(nodes) + [Erase(node)];
  }

  lemma {:induction false} FieldsExtend(bytes: seq<Byte>, fields: seq<Field>, field: Field, depth: nat)
    requires FieldsSpelled(bytes, fields) && EntriesFit(EraseFields(fields), depth)
    requires Spelled(bytes, field.node) && Fits(Erase(field.node), depth)
    ensures EraseFields(fields + [field]) == EraseFields(fields) + [Entry(field.key, Erase(field.node))]
    ensures FieldsSpelled(bytes, fields + [field]) && EntriesFit(EraseFields(fields + [field]), depth)
  {
    hide Spelled, Fits, Erase, EraseFields;
    ErasedField(fields);
    ErasedField(fields + [field]);
    assert EraseFields(fields + [field]) == EraseFields(fields) + [Entry(field.key, Erase(field.node))];
  }

  lemma {:induction false} NumberTextAt(text: seq<Byte>, i: nat)
    requires IsNumberText(text) && i < |text|
    ensures IsNumberByte(text[i])
  {
  }

  // ---- Why an integer is not there --------------------------------------------------------------

  lemma {:induction false} PrintedInt(bytes: seq<Byte>, start: nat, n: int)
    ensures IsNumberText(PrintInt(n)) && |Print(Int(n))| == |PrintInt(n)| + 2
    ensures StartsAt(bytes, start, Print(Int(n)))
            <==> StartsAt(bytes, start, ['i' as int]) && StartsAt(bytes, start + 1, PrintInt(n) + [END])
  {
    PrintIntIsNumberText(n);
    Framed(bytes, start, 'i' as int, PrintInt(n));
  }

  lemma {:induction false} NoTextNoInt(bytes: seq<Byte>, start: nat)
    requires forall text :: IsNumberText(text) ==> !StartsAt(bytes, start + 1, text + [END])
    ensures forall n :: I64_MIN <= n <= I64_MAX ==> !StartsAt(bytes, start, Print(Int(n)))
  {
    hide StartsAt, Print, PrintInt;
    forall n: int ensures !StartsAt(bytes, start, Print(Int(n))) { PrintedInt(bytes, start, n); }
  }

  lemma {:induction false} BadTextNoInt(bytes: seq<Byte>, start: nat, digits: seq<Byte>)
    requires IsNumberText(digits) && StartsAt(bytes, start + 1, digits + [END]) && DecodeInt(digits).Err?
    ensures forall n :: I64_MIN <= n <= I64_MAX ==> !StartsAt(bytes, start, Print(Int(n)))
  {
    hide StartsAt, Print, PrintInt, DecodeInt;
    forall n: int | I64_MIN <= n <= I64_MAX ensures !StartsAt(bytes, start, Print(Int(n))) {
      PrintedInt(bytes, start, n);
      if StartsAt(bytes, start, Print(Int(n))) {
        DelimitedOnce(bytes, start + 1, digits, PrintInt(n), END);
        IntegersAreCanonical(digits, n);
      }
    }
  }

  lemma {:induction false} IntRead(bytes: seq<Byte>, start: nat, digits: seq<Byte>, n: int)
    requires StartsAt(bytes, start, ['i' as int]) && StartsAt(bytes, start + 1, digits + [END])
    requires DecodeInt(digits) == Ok(n)
    ensures I64_MIN <= n <= I64_MAX
    ensures StartsAt(bytes, start, Print(Int(n))) && |Print(Int(n))| == |digits| + 2
  {
    IntegersAreCanonical(digits, n);
    PrintedInt(bytes, start, n);
  }

  // ---- Why a byte string is not there -----------------------------------------------------------

  lemma {:induction false} Slice(bytes: seq<Byte>, from: nat, to: nat)
    requires from <= to <= |bytes|
    ensures StartsAt(bytes, from, bytes[from..to])
  {
  }

  lemma {:induction false} PrintedBytes(bytes: seq<Byte>, start: nat, text: seq<Byte>)
    ensures IsNumberText(Digits(|text|))
    ensures StartsAt(bytes, start, PrintBytes(text))
            <==> StartsAt(bytes, start, Digits(|text|) + [COLON])
                 && StartsAt(bytes, start + |Digits(|text|)| + 1, text)
  {
    DigitsRead(|text|);
    StartsAtConcat(bytes, start, Digits(|text|) + [COLON], text);
  }

  lemma {:induction false} NoLengthNoBytes(bytes: seq<Byte>, start: nat)
    requires forall digits :: IsNumberText(digits) ==> !StartsAt(bytes, start, digits + [COLON])
    ensures forall text :: !StartsAt(bytes, start, PrintBytes(text))
  {
    hide StartsAt, PrintBytes, Digits;
    forall text ensures !StartsAt(bytes, start, PrintBytes(text)) { PrintedBytes(bytes, start, text); }
  }

  /** The digits before the colon can only be the length of the string that starts here. */
  lemma {:induction false} LengthIsPrinted(bytes: seq<Byte>, start: nat, digits: seq<Byte>, text: seq<Byte>)
    requires IsNumberText(digits) && StartsAt(bytes, start, digits + [COLON])
    requires |bytes| <= I64_MAX && StartsAt(bytes, start, PrintBytes(text))
    ensures DecodeLength(digits) == Ok(|text|) && start + |digits| + 1 + |text| <= |bytes|
  {
    PrintedBytes(bytes, start, text);
    DelimitedOnce(bytes, start, digits, Digits(|text|), COLON);
    assert |text| <= |bytes|;
    LengthsAreCanonical(digits, |text|);
  }

  lemma {:induction false} BadLengthNoBytes(bytes: seq<Byte>, start: nat, digits: seq<Byte>)
    requires IsNumberText(digits) && StartsAt(bytes, start, digits + [COLON])
    requires |bytes| <= I64_MAX && DecodeLength(digits).Err?
    ensures forall text :: !StartsAt(bytes, start, PrintBytes(text))
  {
    hide StartsAt, PrintBytes, DecodeLength;
    forall text ensures !StartsAt(bytes, start, PrintBytes(text)) {
      if StartsAt(bytes, start, PrintBytes(text)) { LengthIsPrinted(bytes, start, digits, text); }
    }
  }

  lemma {:induction false} PastEndNoBytes(bytes: seq<Byte>, start: nat, digits: seq<Byte>, length: nat)
    requires IsNumberText(digits) && StartsAt(bytes, start, digits + [COLON])
    requires |bytes| <= I64_MAX && DecodeLength(digits) == Ok(length)
    requires start + |digits| + 1 + length > |bytes|
    ensures forall text :: !StartsAt(bytes, start, PrintBytes(text))
  {
    hide StartsAt, PrintBytes, DecodeLength;
    forall text ensures !StartsAt(bytes, start, PrintBytes(text)) {
      if StartsAt(bytes, start, PrintBytes(text)) { LengthIsPrinted(bytes, start, digits, text); }
    }
  }

  lemma {:induction false} BytesRead(bytes: seq<Byte>, start: nat, digits: seq<Byte>, text: seq<Byte>)
    requires StartsAt(bytes, start, digits + [COLON]) && DecodeLength(digits) == Ok(|text|)
    requires StartsAt(bytes, start + |digits| + 1, text)
    ensures StartsAt(bytes, start, PrintBytes(text)) && |PrintBytes(text)| == |digits| + 1 + |text|
  {
    LengthsAreCanonical(digits, |text|);
    PrintedBytes(bytes, start, text);
  }

  /** What the first byte of a document promises about it. */
  predicate MatchesFirst(t: Tree, first: Byte) {
    && (first == 'i' as int <==> t.Int?)
    && (first == 'l' as int <==> t.List?)
    && (first == 'd' as int <==> t.Dict?)
    && (IsDigit(first) <==> t.Bytes?)
  }

  /** Reading from the start: exactly the documents are accepted, whatever follows them. */
  method Parse(input: seq<Byte>) returns (r: Result<Node, ParseError>)
    requires |input| <= I64_MAX
    ensures r.Ok? <==> exists t :: DocumentAt(input, 0, 0, t)
    ensures forall t :: DocumentAt(input, 0, 0, t) ==> r.Ok? && Erase(r.value) == t
    ensures r.Ok? ==> Spelled(input, r.value) && r.value.start == 0 && Fits(Erase(r.value), 0)
  {
    var parser := new Parser(input);
    r := parser.ParseNode(0);
    if r.Ok? {
      SpelledAt(input, r.value);
      assert DocumentAt(input, 0, 0, Erase(r.value));
    }
    forall t | r.Ok? && Fits(t, 0) && StartsAt(input, 0, Print(t)) ensures Erase(r.value) == t {
      PrefixCode(input, 0, Erase(r.value), t);
    }
  }
}
