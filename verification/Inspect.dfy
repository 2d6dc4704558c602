/** What a .torrent document describes, and the inspector that reads it (src/torrent/adapters/bencode.rs). */
module Inspect {
  import opened Prelude
  import opened Bencode
  import opened BencodeParser
  import opened SafePath
  import Splitting

  const PIECE_HASH_BYTES := 20
  const MAX_TORRENT_BYTES := 10 * 1024 * 1024
  const MAX_FILES := 10_000

  function Ascii(s: string): Text {
    seq(|s|, i requires 0 <= i < |s| => (s[i] as int) % 256)
  }

  const INFO: Text := Ascii("info")
  const NAME: Text := Ascii("name")
  const PIECE_LENGTH: Text := Ascii("piece length")
  const LENGTH: Text := Ascii("length")
  const FILES: Text := Ascii("files")
  const PATH: Text := Ascii("path")
  const PIECES: Text := Ascii("pieces")

  datatype DataFile = DataFile(path: Text, length: nat)

  datatype TorrentMetadata = TorrentMetadata(
    infoHash: Text, name: Text, pieceLength: nat, files: seq<DataFile>, pieces: seq<Text>)

  datatype InspectError =
    | Malformed
    | UnsafePath(rejection: PathRejection)
    | MissingField(field: string)

  predicate Tail(b: Byte) { 0x80 <= b <= 0xBF }

  /** Well-formed UTF-8: no overlong form, no surrogate, nothing above U+10FFFF. */
  predicate IsUtf8(text: Text) {
    if text == [] then true
    else
      var b := text[0];
      if b < 0x80 then IsUtf8(text[1..])
      else if 0xC2 <= b <= 0xDF then |text| >= 2 && Tail(text[1]) && IsUtf8(text[2..])
      else if 0xE0 <= b <= 0xEF then
        && |text| >= 3 && Tail(text[1]) && Tail(text[2])
        && (b == 0xE0 ==> text[1] >= 0xA0) && (b == 0xED ==> text[1] <= 0x9F)
        && IsUtf8(text[3..])
      else
        && 0xF0 <= b <= 0xF4
        && |text| >= 4 && Tail(text[1]) && Tail(text[2]) && Tail(text[3])
        && (b == 0xF0 ==> text[1] >= 0x90) && (b == 0xF4 ==> text[1] <= 0x8F)
        && IsUtf8(text[4..])
  }

  // ---- The meaning of a document ---------------------------------------------------------------

  datatype ListedFile = ListedFile(components: seq<Text>, length: nat)

  datatype Layout = Single(length: nat) | Multi(files: seq<ListedFile>)

  /** What a metainfo document says, whatever else it carries. */
  datatype Metainfo = Metainfo(name: Text, pieceLength: nat, layout: Layout, pieces: seq<Text>)

  predicate IsName(component: Text) { IsUtf8(component) && IsPlain(component) }

  predicate WellFormed(m: Metainfo) {
    && IsName(m.name)
    && (forall i :: 0 <= i < |m.pieces| ==> |m.pieces[i]| == PIECE_HASH_BYTES)
    && (m.layout.Multi? ==>
          && |m.layout.files| <= MAX_FILES
          && forall i :: 0 <= i < |m.layout.files| ==> WellFormedFile(m.layout.files[i]))
  }

  predicate WellFormedFile(file: ListedFile) {
    file.components != [] && forall i :: 0 <= i < |file.components| ==> IsName(file.components[i])
  }

  /** The value of the first entry under `key`. */
  function First(entries: seq<Entry>, key: Text): Option<Tree> {
    if entries == [] then None
    else if entries[0].key == key then Some(entries[0].value)
    else First(entries[1..], key)
  }

  function Flatten(pieces: seq<Text>): Text {
    if pieces == [] then [] else pieces[0] + Flatten(pieces[1..])
  }

  /** `t` is a dictionary whose first `info` is a dictionary saying `m`. */
  predicate Describes(t: Tree, m: Metainfo) {
    && t.Dict?
    && First(t.entries, INFO).Some?
    && InfoDescribes(First(t.entries, INFO).value, m)
  }

  predicate InfoDescribes(info: Tree, m: Metainfo) {
    && info.Dict?
    && First(info.entries, NAME) == Some(Bytes(m.name))
    && First(info.entries, PIECE_LENGTH) == Some(Int(m.pieceLength))
    && LayoutDescribed(First(info.entries, LENGTH), First(info.entries, FILES), m.layout)
    && PiecesDescribed(First(info.entries, PIECES), m.pieces)
  }

  predicate LayoutDescribed(length: Option<Tree>, files: Option<Tree>, layout: Layout) {
    match layout
    case Single(n) => length == Some(Int(n)) && files == None
    case Multi(listed) =>
      && length == None && files.Some? && files.value.List?
      && |files.value.items| == |listed|
      && forall i :: 0 <= i < |listed| ==> FileDescribed(files.value.items[i], listed[i])
  }

  predicate FileDescribed(item: Tree, file: ListedFile) {
    && item.Dict?
    && First(item.entries, LENGTH) == Some(Int(file.length))
    && First(item.entries, PATH) == Some(List(AsBytes(file.components)))
  }

  function AsBytes(components: seq<Text>): seq<Tree> {
    if components == [] then [] else [Bytes(components[0])] + AsBytes(components[1..])
  }

  predicate PiecesDescribed(value: Option<Tree>, pieces: seq<Text>) {
    value == Some(Bytes(Flatten(pieces))) || (value == None && pieces == [])
  }

  /** The metadata a repair keeps of it. */
  function MetadataOf(m: Metainfo, infoHash: Text): TorrentMetadata {
    TorrentMetadata(infoHash, m.name, m.pieceLength,
      match m.layout
      case Single(length) => [DataFile(m.name, length)]
      case Multi(files) => Placed(files, m.name),
      m.pieces)
  }

  /** Files in listed order, each under the torrent's name. */
  function Placed(files: seq<ListedFile>, name: Text): seq<DataFile> {
    seq(|files|, i requires 0 <= i < |files| =>
      DataFile(Under(Join(files[i].components), name), files[i].length))
  }

  // ---- The decoder -----------------------------------------------------------------------------

  function Find(fields: seq<Field>, key: Text): Option<Node> {
    if fields == [] then None
    else if fields[0].key == key then Some(fields[0].node)
    else Find(fields[1..], key)
  }

  function AsDict(node: Node): Result<seq<Field>, InspectError> {
    if node.value.DictValue? then Ok(node.value.fields) else Err(Malformed)
  }

  function AsList(node: Node): Result<seq<Node>, InspectError> {
    if node.value.ListValue? then Ok(node.value.nodes) else Err(Malformed)
  }

  function AsText(node: Node): Result<Text, InspectError> {
    if node.value.BytesValue? then Ok(node.value.text) else Err(Malformed)
  }

  function AsLength(node: Node): Result<nat, InspectError> {
    if node.value.IntValue? && node.value.n >= 0 then Ok(node.value.n) else Err(Malformed)
  }

  function Require(fields: seq<Field>, key: Text, field: string): Result<Node, InspectError> {
    match Find(fields, key)
    case Some(node) => Ok(node)
    case None => Err(MissingField(field))
  }

  function DecodeComponent(node: Node): Result<Text, InspectError> {
    var text :- AsText(node);
    if IsUtf8(text) then Ok(text) else Err(Malformed)
  }

  function DecodeComponents(nodes: seq<Node>): Result<seq<Text>, InspectError> {
    if nodes == [] then Ok([])
    else
      var first :- DecodeComponent(nodes[0]);
      var rest :- DecodeComponents(nodes[1..]);
      Ok([first] + rest)
  }

  function SafeFrom(components: seq<Text>): Result<Text, InspectError> {
    match Accepted(components)
    case Ok(path) => Ok(path)
    case Err(rejection) => Err(UnsafePath(rejection))
  }

  function DecodeFile(node: Node, name: Text): Result<DataFile, InspectError> {
    var fields :- AsDict(node);
    var lengthNode :- Require(fields, LENGTH, "info.files[].length");
    var length :- AsLength(lengthNode);
    var pathNode :- Require(fields, PATH, "info.files[].path");
    var nodes :- AsList(pathNode);
    if nodes == [] then Err(MissingField("info.files[].path"))
    else
      var components :- DecodeComponents(nodes);
      var path :- SafeFrom(components);
      Ok(DataFile(Under(path, name), length))
  }

  function DecodeEach(nodes: seq<Node>, name: Text): Result<seq<DataFile>, InspectError> {
    if nodes == [] then Ok([])
    else
      var first :- DecodeFile(nodes[0], name);
      var rest :- DecodeEach(nodes[1..], name);
      Ok([first] + rest)
  }

  function DecodeFiles(node: Node, name: Text): Result<seq<DataFile>, InspectError> {
    var nodes :- AsList(node);
    if |nodes| > MAX_FILES then Err(Malformed) else DecodeEach(nodes, name)
  }

  function Chunks(text: Text): seq<Text>
    requires |text| % PIECE_HASH_BYTES == 0
  {
    if text == [] then []
    else [text[..PIECE_HASH_BYTES]] + Chunks(text[PIECE_HASH_BYTES..])
  }

  function DecodePieces(node: Node): Result<seq<Text>, InspectError> {
    var text :- AsText(node);
    if |text| % PIECE_HASH_BYTES != 0 then Err(Malformed) else Ok(Chunks(text))
  }

  function DecodeLayout(fields: seq<Field>, name: Text): Result<seq<DataFile>, InspectError> {
    match (Find(fields, LENGTH), Find(fields, FILES))
    case (Some(lengthNode), None) =>
      var length :- AsLength(lengthNode);
      Ok([DataFile(name, length)])
    case (None, Some(filesNode)) => DecodeFiles(filesNode, name)
    case (Some(_), Some(_)) => Err(Malformed)
    case (None, None) => Err(MissingField("info.length or info.files"))
  }

  function DecodeInfo(fields: seq<Field>, infoHash: Text): Result<TorrentMetadata, InspectError> {
    var nameNode :- Require(fields, NAME, "info.name");
    var component :- DecodeComponent(nameNode);
    var name :- SafeFrom([component]);
    var pieceLengthNode :- Require(fields, PIECE_LENGTH, "info.piece length");
    var pieceLength :- AsLength(pieceLengthNode);
    var files :- DecodeLayout(fields, name);
    var pieces :-
      match Find(fields, PIECES)
      case Some(node) => DecodePieces(node)
      case None => Ok([]);
    Ok(TorrentMetadata(infoHash, name, pieceLength, files, pieces))
  }

  // ---- Decoding finds what is described, and nothing else ----------------------------------------

  lemma {:induction false} FindErased(fields: seq<Field>, key: Text)
    ensures First(EraseFields(fields), key)
            == match Find(fields, key) { case Some(node) => Some(Erase(node)) case None => None }
    ensures Find(fields, key).Some? ==>
              exists i :: 0 <= i < |fields| && fields[i].node == Find(fields, key).value
  {
    hide Erase;
    if fields != [] && fields[0].key != key {
      FindErased(fields[1..], key);
      if Find(fields[1..], key).Some? {
        var i :| 0 <= i < |fields[1..]| && fields[1..][i].node == Find(fields, key).value;
        assert fields[i + 1].node == Find(fields, key).value;
      }
    } else if fields != [] {
      assert fields[0].node == Find(fields, key).value;
    }
  }

  lemma {:induction false} ComponentsRead(nodes: seq<Node>, components: seq<Text>)
    ensures DecodeComponents(nodes) == Ok(components)
            <==> EraseAll(nodes) == AsBytes(components)
                 && forall i :: 0 <= i < |components| ==> IsUtf8(components[i])
  {
    hide IsUtf8;
    if nodes == [] {
    } else if components == [] {
    } else {
      ComponentsRead(nodes[1..], components[1..]);
      assert components == [components[0]] + components[1..];
      var tree, text := Erase(nodes[0]), Bytes(components[0]);
      assert EraseAll(nodes) == [tree] + EraseAll(nodes[1..]);
      assert AsBytes(components) == [text] + AsBytes(components[1..]);
      assert EraseAll(nodes)[1..] == EraseAll(nodes[1..]);
      assert AsBytes(components)[1..] == AsBytes(components[1..]);
    }
  }

  function PlacedFile(file: ListedFile, name: Text): DataFile {
    DataFile(Under(Join(file.components), name), file.length)
  }

  lemma {:induction false} SafeFromIff(components: seq<Text>)
    ensures SafeFrom(components).Ok?
            <==> components != [] && forall i :: 0 <= i < |components| ==> IsPlain(components[i])
    ensures SafeFrom(components).Ok? ==> SafeFrom(components).value == Join(components)
  {
    AcceptedSplits(components);
  }

  lemma {:induction false} FileRead(node: Node, name: Text, file: ListedFile)
    requires FileDescribed(Erase(node), file) && WellFormedFile(file)
    ensures DecodeFile(node, name) == Ok(PlacedFile(file, name))
  {
    var fields := node.value.fields;
    FindErased(fields, LENGTH);
    FindErased(fields, PATH);
    var nodes := Find(fields, PATH).value.value.nodes;
    hide IsUtf8, ValidateComponent, Join, Under, First, Find;
    ComponentsRead(nodes, file.components);
    SafeFromIff(file.components);
  }

  lemma {:induction false} FileRecovered(node: Node, name: Text) returns (file: ListedFile)
    requires DecodeFile(node, name).Ok?
    ensures FileDescribed(Erase(node), file) && WellFormedFile(file)
    ensures DecodeFile(node, name) == Ok(PlacedFile(file, name))
  {
    var fields := node.value.fields;
    FindErased(fields, LENGTH);
    FindErased(fields, PATH);
    var nodes := Find(fields, PATH).value.value.nodes;
    hide IsUtf8, ValidateComponent, Join, Under, First, Find;
    var components := DecodeComponents(nodes).value;
    ComponentsRead(nodes, components);
    SafeFromIff(components);
    file := ListedFile(components, AsLength(Find(fields, LENGTH).value).value);
  }

  lemma {:induction false} EachRead(nodes: seq<Node>, name: Text, files: seq<ListedFile>)
    requires |nodes| == |files|
    requires forall i :: 0 <= i < |files| ==>
               FileDescribed(Erase(nodes[i]), files[i]) && WellFormedFile(files[i])
    ensures DecodeEach(nodes, name) == Ok(Placed(files, name))
  {
    hide FileDescribed, WellFormedFile, Erase, DecodeFile;
    if nodes != [] {
      FileRead(nodes[0], name, files[0]);
      EachRead(nodes[1..], name, files[1..]);
      assert Placed(files, name) == [PlacedFile(files[0], name)] + Placed(files[1..], name);
    } else {
      assert Placed(files, name) == [];
    }
  }

  lemma {:induction false} EachRecovered(nodes: seq<Node>, name: Text) returns (files: seq<ListedFile>)
    requires DecodeEach(nodes, name).Ok?
    ensures |nodes| == |files|
    ensures forall i :: 0 <= i < |files| ==>
              FileDescribed(Erase(nodes[i]), files[i]) && WellFormedFile(files[i])
    ensures DecodeEach(nodes, name) == Ok(Placed(files, name))
  {
    hide FileDescribed, WellFormedFile, Erase, DecodeFile;
    if nodes == [] {
      files := [];
    } else {
      var first := FileRecovered(nodes[0], name);
      var rest := EachRecovered(nodes[1..], name);
      files := [first] + rest;
      assert Placed(files, name) == [PlacedFile(first, name)] + Placed(rest, name);
    }
    EachRead(nodes, name, files);
  }

  lemma {:induction false} FlattenChunks(text: Text)
    requires |text| % PIECE_HASH_BYTES == 0
    ensures Flatten(Chunks(text)) == text
    ensures forall i :: 0 <= i < |Chunks(text)| ==> |Chunks(text)[i]| == PIECE_HASH_BYTES
  {
    if text != [] {
      FlattenChunks(text[PIECE_HASH_BYTES..]);
      assert text == text[..PIECE_HASH_BYTES] + text[PIECE_HASH_BYTES..];
    }
  }

  lemma {:induction false} ChunksFlatten(pieces: seq<Text>)
    requires forall i :: 0 <= i < |pieces| ==> |pieces[i]| == PIECE_HASH_BYTES
    ensures |Flatten(pieces)| % PIECE_HASH_BYTES == 0
    ensures Chunks(Flatten(pieces)) == pieces
  {
    if pieces != [] {
      ChunksFlatten(pieces[1..]);
      var text := Flatten(pieces);
      assert text[..PIECE_HASH_BYTES] == pieces[0] && text[PIECE_HASH_BYTES..] == Flatten(pieces[1..]);
      assert pieces == [pieces[0]] + pieces[1..];
    }
  }

  lemma {:induction false} LayoutRead(fields: seq<Field>, name: Text, layout: Layout)
    requires LayoutDescribed(First(EraseFields(fields), LENGTH), First(EraseFields(fields), FILES), layout)
    requires layout.Multi? ==>
               && |layout.files| <= MAX_FILES
               && forall i :: 0 <= i < |layout.files| ==> WellFormedFile(layout.files[i])
    ensures DecodeLayout(fields, name)
            == Ok(match layout { case Single(n) => [DataFile(name, n)] case Multi(files) => Placed(files, name) })
  {
    FindErased(fields, LENGTH);
    FindErased(fields, FILES);
    hide First, Find, FileDescribed, WellFormedFile, EraseFields;
    if layout.Multi? {
      var nodes := Find(fields, FILES).value.value.nodes;
      ErasedItem(nodes);
      EachRead(nodes, name, layout.files);
    }
  }

  lemma {:induction false} LayoutRecovered(fields: seq<Field>, name: Text) returns (layout: Layout)
    requires DecodeLayout(fields, name).Ok?
    ensures LayoutDescribed(First(EraseFields(fields), LENGTH), First(EraseFields(fields), FILES), layout)
    ensures layout.Multi? ==>
              && |layout.files| <= MAX_FILES
              && forall i :: 0 <= i < |layout.files| ==> WellFormedFile(layout.files[i])
  {
    FindErased(fields, LENGTH);
    FindErased(fields, FILES);
    hide First, Find, FileDescribed, WellFormedFile, EraseFields;
    if Find(fields, LENGTH).Some? {
      layout := Single(Find(fields, LENGTH).value.value.n);
    } else {
      var nodes := Find(fields, FILES).value.value.nodes;
      ErasedItem(nodes);
      var files := EachRecovered(nodes, name);
      layout := Multi(files);
    }
  }

  lemma {:induction false} InfoRead(info: Node, fields: seq<Field>, infoHash: Text, m: Metainfo)
    requires info.value == DictValue(fields) && InfoDescribes(Erase(info), m) && WellFormed(m)
    ensures DecodeInfo(fields, infoHash) == Ok(MetadataOf(m, infoHash))
  {
    assert Erase(info) == Dict(EraseFields(fields));
    FindErased(fields, NAME);
    FindErased(fields, PIECE_LENGTH);
    FindErased(fields, PIECES);
    SafeFromIff([m.name]);
    LayoutRead(fields, m.name, m.layout);
    ChunksFlatten(m.pieces);
    hide First, Find, IsUtf8, ValidateComponent, LayoutDescribed, DecodeLayout, EraseFields, SafeFrom, Chunks,
      Flatten, WellFormedFile, Placed;
    assert Chunks([]) == [] by { ChunksFlatten([]); hide *; }
  }

  lemma {:induction false} InfoRecovered(info: Node, fields: seq<Field>, infoHash: Text) returns (m: Metainfo)
    requires info.value == DictValue(fields) && DecodeInfo(fields, infoHash).Ok?
    ensures InfoDescribes(Erase(info), m) && WellFormed(m)
  {
    assert Erase(info) == Dict(EraseFields(fields));
    FindErased(fields, NAME);
    FindErased(fields, PIECE_LENGTH);
    FindErased(fields, PIECES);
    var name := DecodeComponent(Find(fields, NAME).value).value;
    SafeFromIff([name]);
    assert IsPlain([name][0]);
    assert SafeFrom([name]).value == Join([name]) == name;
    var layout := LayoutRecovered(fields, name);
    var pieces: seq<Text> := [];
    if Find(fields, PIECES).Some? {
      pieces := DecodePieces(Find(fields, PIECES).value).value;
      FlattenChunks(Find(fields, PIECES).value.value.text);
    }
    hide First, Find, IsUtf8, ValidateComponent, LayoutDescribed, DecodeLayout, EraseFields, SafeFrom, Chunks,
      Flatten, WellFormedFile, Placed;
    m := Metainfo(name, AsLength(Find(fields, PIECE_LENGTH).value).value, layout, pieces);
  }

  /** A path list's items are its components, one by one. */
  lemma {:induction false} AsBytesIs(components: seq<Text>, i: nat)
    requires i < |components|
    ensures |AsBytes(components)| == |components| && AsBytes(components)[i] == Bytes(components[i])
  {
    if i > 0 { AsBytesIs(components[1..], i - 1); }
    else if |components| > 1 { AsBytesIs(components[1..], 0); }
  }

  /** Piece `i` is the twenty bytes that start at byte `20 * i`. */
  lemma {:induction false} FlattenIs(pieces: seq<Text>, i: nat)
    requires i < |pieces| && forall k :: 0 <= k < |pieces| ==> |pieces[k]| == PIECE_HASH_BYTES
    ensures |Flatten(pieces)| == 20 * |pieces| && Flatten(pieces)[20 * i..20 * i + 20] == pieces[i]
  {
    var rest := Flatten(pieces[1..]);
    if i > 0 {
      FlattenIs(pieces[1..], i - 1);
      assert Flatten(pieces)[20 * i..20 * i + 20] == rest[20 * (i - 1)..20 * (i - 1) + 20];
    } else if |pieces| > 1 {
      FlattenIs(pieces[1..], 0);
    }
  }

  // ---- What the metadata tells, field by field ------------------------------------------------------

  /** The path spells out the torrent's name and then these components. */
  predicate SpellsOut(path: Text, name: Text, components: seq<Text>) { Split(path) == [name] + components }

  /** The metadata is what the document says: names, lengths, pieces, and the files in listed order. */
  ghost predicate Tells(metadata: TorrentMetadata, m: Metainfo) {
    && metadata.name == m.name && metadata.pieceLength == m.pieceLength && metadata.pieces == m.pieces
    && match m.layout
       case Single(length) =>
         |metadata.files| == 1 && metadata.files[0].path == m.name && metadata.files[0].length == length
       case Multi(listed) =>
         && |metadata.files| == |listed|
         && forall i :: 0 <= i < |listed| ==>
              && metadata.files[i].length == listed[i].length
              && SpellsOut(metadata.files[i].path, m.name, listed[i].components)
  }

  lemma {:induction false} PlacedSpellsOut(file: ListedFile, name: Text)
    requires WellFormedFile(file) && IsPlain(name)
    ensures SpellsOut(Under(Join(file.components), name), name, file.components)
  {
    AcceptedSplits(file.components);
    AcceptedSplits([name]);
    SplitJoined(name, Join(file.components));
    SplitJoin(file.components);
  }

  lemma {:induction false} MetadataTells(m: Metainfo, infoHash: Text)
    requires WellFormed(m)
    ensures Tells(MetadataOf(m, infoHash), m) && MetadataOf(m, infoHash).infoHash == infoHash
  {
    hide SpellsOut, WellFormedFile, Under, Join, IsPlain, IsUtf8;
    match m.layout
    case Single(_) =>
    case Multi(listed) =>
      forall i | 0 <= i < |listed|
        ensures SpellsOut(MetadataOf(m, infoHash).files[i].path, m.name, listed[i].components)
      {
        PlacedSpellsOut(listed[i], m.name);
      }
  }

  // ---- What is said of a torrent whose paths are unsafe ---------------------------------------------

  function ComponentsOf(files: seq<ListedFile>): seq<Text> {
    if files == [] then [] else files[0].components + ComponentsOf(files[1..])
  }

  /** Every component a torrent names, in the order they are read. */
  function Names(m: Metainfo): seq<Text> {
    [m.name] + match m.layout { case Single(_) => [] case Multi(files) => ComponentsOf(files) }
  }

  predicate Readable(file: ListedFile) {
    file.components != [] && forall i :: 0 <= i < |file.components| ==> IsUtf8(file.components[i])
  }

  /** Nothing but its paths, or the pieces read after them, can be wrong with the torrent. */
  predicate ReadableTorrent(m: Metainfo) {
    && IsUtf8(m.name)
    && (m.layout.Multi? ==>
          && |m.layout.files| <= MAX_FILES
          && forall i :: 0 <= i < |m.layout.files| ==> Readable(m.layout.files[i]))
  }

  lemma {:induction false} RejectionInTwo(a: seq<Text>, b: seq<Text>)
    ensures FirstRejection(a + b) == if FirstRejection(a).Some? then FirstRejection(a) else FirstRejection(b)
  {
    if a == [] {
      assert a + b == b;
    } else {
      assert (a + b)[1..] == a[1..] + b;
      RejectionInTwo(a[1..], b);
    }
  }

  lemma {:induction false} FileJudged(node: Node, name: Text, file: ListedFile)
    requires FileDescribed(Erase(node), file) && Readable(file)
    ensures DecodeFile(node, name)
            == match FirstRejection(file.components) {
                 case Some(e) => Err(UnsafePath(e))
                 case None => Ok(PlacedFile(file, name))
               }
  {
    var fields := node.value.fields;
    FindErased(fields, LENGTH);
    FindErased(fields, PATH);
    var nodes := Find(fields, PATH).value.value.nodes;
    hide IsUtf8, ValidateComponent, Join, Under, First, Find, FirstRejection;
    ComponentsRead(nodes, file.components);
  }

  lemma {:induction false} EachJudged(nodes: seq<Node>, name: Text, files: seq<ListedFile>)
    requires |nodes| == |files|
    requires forall i :: 0 <= i < |files| ==> FileDescribed(Erase(nodes[i]), files[i]) && Readable(files[i])
    ensures FirstRejection(ComponentsOf(files)).Some? ==>
              DecodeEach(nodes, name) == Err(UnsafePath(FirstRejection(ComponentsOf(files)).value))
  {
    hide FileDescribed, Readable, Erase, DecodeFile;
    if nodes != [] {
      FileJudged(nodes[0], name, files[0]);
      EachJudged(nodes[1..], name, files[1..]);
      RejectionInTwo(files[0].components, ComponentsOf(files[1..]));
    }
  }

  lemma {:induction false} InfoJudged(info: Node, fields: seq<Field>, infoHash: Text, m: Metainfo)
    requires info.value == DictValue(fields) && InfoDescribes(Erase(info), m) && ReadableTorrent(m)
    ensures FirstRejection(Names(m)).Some? ==>
              DecodeInfo(fields, infoHash) == Err(UnsafePath(FirstRejection(Names(m)).value))
  {
    assert Erase(info) == Dict(EraseFields(fields));
    FindErased(fields, NAME);
    FindErased(fields, PIECE_LENGTH);
    FindErased(fields, LENGTH);
    FindErased(fields, FILES);
    RejectionInTwo([m.name], Names(m)[1..]);
    assert FirstRejection([m.name]).None? ==> SafeFrom([m.name]) == Ok(m.name);
    assert SafeFrom([m.name]).Err? ==> SafeFrom([m.name]) == Err(UnsafePath(FirstRejection([m.name]).value));
    assert FirstRejection([]) == None;
    hide First, Find, FileDescribed, Readable, EraseFields, IsUtf8, ValidateComponent, FirstRejection, SafeFrom;
    if m.layout.Multi? {
      var nodes := Find(fields, FILES).value.value.nodes;
      ErasedItem(nodes);
      EachJudged(nodes, m.name, m.layout.files);
    }
  }

  // ---- The inspector -----------------------------------------------------------------------------

  /** `bytes` starts with the document `t`, which describes `m`; anything may follow. */
  ghost predicate IsTorrent(bytes: Text, t: Tree, m: Metainfo) {
    DocumentAt(bytes, 0, 0, t) && Describes(t, m) && WellFormed(m)
  }

  /** The value of the first `info` entry. */
  function InfoOf(t: Tree): Tree {
    if t.Dict? && First(t.entries, INFO).Some? then First(t.entries, INFO).value else t
  }

  lemma {:induction false} InfoSpelled(bytes: Text, root: Node, fields: seq<Field>)
    requires root.value == DictValue(fields) && Spelled(bytes, root) && Find(fields, INFO).Some?
    ensures InfoOf(Erase(root)) == Erase(Find(fields, INFO).value)
    ensures var info := Find(fields, INFO).value;
            && info.start <= info.end <= |bytes|
            && bytes[info.start..info.end] == Print(InfoOf(Erase(root)))
  {
    FindErased(fields, INFO);
    var i :| 0 <= i < |fields| && fields[i].node == Find(fields, INFO).value;
    SpanIsPrint(bytes, fields[i].node);
  }

  function DecodeRoot(root: Node, bytes: Text, sha1: Text -> Text): Result<TorrentMetadata, InspectError>
    requires Spelled(bytes, root)
  {
    var entries :- AsDict(root);
    var info :- Require(entries, INFO, "info");
    var fields :- AsDict(info);
    InfoSpelled(bytes, root, entries);
    DecodeInfo(fields, sha1(bytes[info.start..info.end]))
  }

  lemma {:induction false} RootRead(root: Node, bytes: Text, sha1: Text -> Text, m: Metainfo)
    requires Spelled(bytes, root) && Describes(Erase(root), m) && WellFormed(m)
    ensures DecodeRoot(root, bytes, sha1) == Ok(MetadataOf(m, sha1(Print(InfoOf(Erase(root))))))
  {
    var entries := root.value.fields;
    assert Erase(root) == Dict(EraseFields(entries));
    FindErased(entries, INFO);
    InfoSpelled(bytes, root, entries);
    var info := Find(entries, INFO).value;
    InfoRead(info, info.value.fields, sha1(bytes[info.start..info.end]), m);
  }

  lemma {:induction false} RootRecovered(root: Node, bytes: Text, sha1: Text -> Text) returns (m: Metainfo)
    requires Spelled(bytes, root) && DecodeRoot(root, bytes, sha1).Ok?
    ensures Describes(Erase(root), m) && WellFormed(m)
  {
    var entries := root.value.fields;
    assert Erase(root) == Dict(EraseFields(entries));
    FindErased(entries, INFO);
    InfoSpelled(bytes, root, entries);
    var info := Find(entries, INFO).value;
    m := InfoRecovered(info, info.value.fields, sha1(bytes[info.start..info.end]));
  }

  /** `bytes` starts with a torrent whose first unsafe path component is refused for this. */
  ghost predicate IsUnsafeTorrent(bytes: Text, t: Tree, m: Metainfo, e: PathRejection) {
    DocumentAt(bytes, 0, 0, t) && Describes(t, m) && ReadableTorrent(m) && FirstRejection(Names(m)) == Some(e)
  }

  lemma {:induction false} RootJudged(root: Node, bytes: Text, sha1: Text -> Text, m: Metainfo)
    requires Spelled(bytes, root) && Describes(Erase(root), m) && ReadableTorrent(m)
    ensures FirstRejection(Names(m)).Some? ==>
              DecodeRoot(root, bytes, sha1) == Err(UnsafePath(FirstRejection(Names(m)).value))
  {
    var entries := root.value.fields;
    assert Erase(root) == Dict(EraseFields(entries));
    FindErased(entries, INFO);
    InfoSpelled(bytes, root, entries);
    var info := Find(entries, INFO).value;
    InfoJudged(info, info.value.fields, sha1(bytes[info.start..info.end]), m);
  }

  method InspectTorrent(bytes: Text, sha1: Text -> Text) returns (r: Result<TorrentMetadata, InspectError>)
    requires |bytes| <= I64_MAX
    ensures r.Ok? <==> |bytes| <= MAX_TORRENT_BYTES && exists t, m :: IsTorrent(bytes, t, m)
    ensures |bytes| <= MAX_TORRENT_BYTES ==>
              forall t, m :: IsTorrent(bytes, t, m) ==>
                r.Ok? && Tells(r.value, m) && r.value.infoHash == sha1(Print(InfoOf(t)))
    ensures |bytes| <= MAX_TORRENT_BYTES ==>
              forall t, m, e :: IsUnsafeTorrent(bytes, t, m, e) ==> r == Err(UnsafePath(e))
    ensures |bytes| > MAX_TORRENT_BYTES || NoDocumentAt(bytes, 0, 0) ==> r == Err(Malformed)
  {
    if |bytes| > MAX_TORRENT_BYTES {
      return Err(Malformed);
    }
    var parsed := Parse(bytes);
    if parsed.Err? {
      return Err(Malformed);
    }
    var root := parsed.value;
    ghost var tree := Erase(root);
    assert DocumentAt(bytes, 0, 0, tree) by { SpelledAt(bytes, root); }
    hide DocumentAt, Spelled, Erase, Describes, WellFormed, DecodeRoot, InfoOf, MetadataOf, Print, Tells,
      ReadableTorrent, FirstRejection, Names;
    r := DecodeRoot(root, bytes, sha1);
    forall t, m | IsTorrent(bytes, t, m)
      ensures r.Ok? && Tells(r.value, m) && r.value.infoHash == sha1(Print(InfoOf(t)))
    {
      assert t == tree;
      RootRead(root, bytes, sha1, m);
      MetadataTells(m, sha1(Print(InfoOf(t))));
    }
    forall t, m, e | IsUnsafeTorrent(bytes, t, m, e) ensures r == Err(UnsafePath(e)) {
      assert t == tree;
      RootJudged(root, bytes, sha1, m);
    }
    if r.Ok? {
      ghost var m := RootRecovered(root, bytes, sha1);
      assert IsTorrent(bytes, tree, m);
    }
  }

  // ---- Writing a document and reading it back ------------------------------------------------------

  function FileEntry(file: ListedFile): Tree {
    Dict([Entry(LENGTH, Int(file.length)), Entry(PATH, List(AsBytes(file.components)))])
  }

  /** The keys a reader looks at, in the sorted order the format asks for. */
  function InfoEntries(m: Metainfo): seq<Entry> {
    (match m.layout
     case Single(_) => []
     case Multi(files) =>
       [Entry(FILES, List(seq(|files|, i requires 0 <= i < |files| => FileEntry(files[i]))))])
    + (match m.layout case Single(n) => [Entry(LENGTH, Int(n))] case Multi(_) => [])
    + [Entry(NAME, Bytes(m.name)), Entry(PIECE_LENGTH, Int(m.pieceLength)),
       Entry(PIECES, Bytes(Flatten(m.pieces)))]
  }

  predicate Silent(extra: seq<Entry>, key: Text) {
    forall i :: 0 <= i < |extra| ==> extra[i].key != key
  }

  predicate IsRead(key: Text) {
    key == NAME || key == PIECE_LENGTH || key == LENGTH || key == FILES || key == PIECES
  }

  /** The entries a reader of the info dictionary looks for, wherever others stand between them. */
  function Heard(entries: seq<Entry>): seq<Entry> {
    if entries == [] then []
    else (if IsRead(entries[0].key) then [entries[0]] else []) + Heard(entries[1..])
  }

  lemma {:induction false} FirstHeard(entries: seq<Entry>, key: Text)
    requires IsRead(key)
    ensures First(entries, key) == First(Heard(entries), key)
  {
    if entries != [] {
      FirstHeard(entries[1..], key);
      if IsRead(entries[0].key) {
        assert Heard(entries)[0] == entries[0] && Heard(entries)[1..] == Heard(entries[1..]);
      } else {
        assert Heard(entries) == Heard(entries[1..]);
      }
    }
  }

  lemma {:induction false} FirstAfter(extra: seq<Entry>, entries: seq<Entry>, key: Text)
    requires Silent(extra, key)
    ensures First(extra + entries, key) == First(entries, key)
  {
    if extra == [] {
      assert extra + entries == entries;
    } else {
      assert (extra + entries)[1..] == extra[1..] + entries;
      FirstAfter(extra[1..], entries, key);
    }
  }

  lemma {:induction false} KeysDiffer()
    ensures LENGTH != PATH && FILES != NAME && FILES != PIECE_LENGTH && FILES != PIECES && FILES != LENGTH
    ensures LENGTH != NAME && LENGTH != PIECE_LENGTH && LENGTH != PIECES
    ensures NAME != PIECE_LENGTH && NAME != PIECES && PIECE_LENGTH != PIECES
  {
    assert |LENGTH| == |PIECES| == 6 && |FILES| == 5 && |NAME| == |PATH| == 4 && |PIECE_LENGTH| == 12;
    assert LENGTH[0] != PIECES[0];
  }

  lemma {:induction false} FileEntryDescribes(file: ListedFile)
    ensures FileDescribed(FileEntry(file), file)
  {
    KeysDiffer();
    var entries := FileEntry(file).entries;
    assert First(entries, LENGTH) == Some(entries[0].value);
    assert First(entries, PATH) == First(entries[1..], PATH) == Some(entries[1].value);
  }

  lemma {:induction false} FoundAt(entries: seq<Entry>, key: Text, i: nat)
    requires i < |entries| && entries[i].key == key && forall k :: 0 <= k < i ==> entries[k].key != key
    ensures First(entries, key) == Some(entries[i].value)
  {
    if i > 0 { FoundAt(entries[1..], key, i - 1); }
  }

  lemma {:induction false} NotFound(entries: seq<Entry>, key: Text)
    requires Silent(entries, key)
    ensures First(entries, key) == None
  {
    if entries != [] { NotFound(entries[1..], key); }
  }

  lemma {:induction false} InfoEntriesDescribe(m: Metainfo, all: seq<Entry>)
    requires Heard(all) == InfoEntries(m)
    ensures InfoDescribes(Dict(all), m)
  {
    KeysDiffer();
    var entries := InfoEntries(m);
    FirstHeard(all, NAME);
    FirstHeard(all, PIECE_LENGTH);
    FirstHeard(all, LENGTH);
    FirstHeard(all, FILES);
    FirstHeard(all, PIECES);
    hide Heard;
    FoundAt(entries, NAME, 1);
    FoundAt(entries, PIECE_LENGTH, 2);
    FoundAt(entries, PIECES, 3);
    if m.layout.Multi? {
      FoundAt(entries, FILES, 0);
      NotFound(entries, LENGTH);
    } else {
      FoundAt(entries, LENGTH, 0);
      NotFound(entries, FILES);
    }
    if m.layout.Multi? {
      forall i | 0 <= i < |m.layout.files|
        ensures FileDescribed(First(entries, FILES).value.items[i], m.layout.files[i])
      {
        FileEntryDescribes(m.layout.files[i]);
      }
    }
  }

  /**
   * A written document is the torrent it says, whatever keys surround its info dictionary or stand
   * between the ones read in it, and whatever bytes follow it.
   */
  lemma {:induction false} WrittenIsRead(
    m: Metainfo, entries: seq<Entry>, before: seq<Entry>, after: seq<Entry>, suffix: Text, document: Tree)
    requires WellFormed(m) && Heard(entries) == InfoEntries(m) && Silent(before, INFO)
    requires document == Dict(before + [Entry(INFO, Dict(entries))] + after)
    requires Fits(document, 0)
    ensures IsTorrent(Print(document) + suffix, document, m)
    ensures InfoOf(document) == Dict(entries)
  {
    var info := Entry(INFO, Dict(entries));
    assert document.entries == before + ([info] + after);
    FirstAfter(before, [info] + after, INFO);
    InfoEntriesDescribe(m, entries);
    hide Print, Fits, InfoDescribes, WellFormed;
    assert (Print(document) + suffix)[0..|Print(document)|] == Print(document);
  }

  // ---- A document as text ----------------------------------------------------------------------------

  /** Numbers are spelled in decimal. */
  lemma {:induction false} DigitsAreAscii(n: nat)
    ensures Digits(n) == Ascii(Splitting.Digits(n))
  {
    if n >= 10 {
      DigitsAreAscii(n / 10);
      AsciiInTwo(Splitting.Digits(n / 10), ["0123456789"[n % 10]]);
    }
  }

  lemma AsciiInTwo(a: string, b: string)
    ensures Ascii(a + b) == Ascii(a) + Ascii(b)
  {
  }

  /** One value of each kind: negative, empty and nested. */
  lemma {:induction false} ValuesAsText()
    ensures Print(Int(-42)) == Ascii("i-42e") && Print(Int(0)) == Ascii("i0e")
    ensures Print(Bytes(Ascii("spam"))) == Ascii("4:spam") && Print(Bytes([])) == Ascii("0:")
    ensures Print(List([Int(0), Bytes([])])) == Ascii("li0e0:e")
  {
    assert Digits(42) == Digits(4) + [ZERO + 2];
    assert [Int(0), Bytes([])][1..] == [Bytes([])];
    assert PrintAll([Bytes([])]) == Print(Bytes([])) + PrintAll([]);
  }

  lemma {:induction false} EntriesOneByOne(entries: seq<Entry>)
    requires entries != []
    ensures PrintEntries(entries)
            == PrintBytes(entries[0].key) + Print(entries[0].value) + PrintEntries(entries[1..])
  {
  }

  lemma {:induction false} KeysAsText()
    ensures PrintBytes(LENGTH) == Ascii("6:length") && PrintBytes(PATH) == Ascii("4:path")
    ensures PrintBytes(FILES) == Ascii("5:files") && PrintBytes(NAME) == Ascii("4:name")
    ensures PrintBytes(PIECES) == Ascii("6:pieces") && PrintBytes(INFO) == Ascii("4:info")
    ensures PrintBytes(PIECE_LENGTH) == Ascii("12:piece length")
  {
    assert Digits(12) == [ZERO + 1, ZERO + 2];
  }

  /** A listed file, written out: its length and then its path. */
  lemma {:induction false} FileAsText(component: char, length: nat)
    requires length < 10
    ensures Print(FileEntry(ListedFile([Ascii([component])], length)))
            == ['d' as int] + (Ascii("6:length") + (['i' as int] + [ZERO + length] + [END])
               + (Ascii("4:path") + (['l' as int] + (Ascii("1:") + Ascii([component])) + [END]) + [])) + [END]
  {
    var text := Ascii([component]);
    var length', path := Entry(LENGTH, Int(length)), Entry(PATH, List(AsBytes([text])));
    assert AsBytes([text]) == [Bytes(text)];
    assert PrintBytes(text) == Ascii("1:") + text;
    assert PrintAll([Bytes(text)]) == Print(Bytes(text)) + PrintAll([]);
    assert Print(path.value) == ['l' as int] + PrintBytes(text) + [END];
    assert Print(length'.value) == ['i' as int] + [ZERO + length] + [END];
    assert PrintEntries([]) == [];
    assert Print(Dict([length', path])) == ['d' as int] + PrintEntries([length', path]) + [END];
    KeysAsText();
    EntriesOneByOne([length', path]);
    EntriesOneByOne([path]);
    assert [length', path][1..] == [path];
  }
}
