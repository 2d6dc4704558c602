/** Editing the configuration document by dotted key (src/config/write.rs). */
module ConfigTree {
  import opened Prelude
  import opened Splitting

  /** A field, a table of fields, or a repeated section of tables. */
  datatype Item = Leaf(value: string) | Table(fields: map<string, Item>) | Rows(tables: seq<map<string, Item>>)

  type Fields = map<string, Item>

  datatype Segment = Name(name: string) | Index(row: nat)

  type Key = seq<Segment>

  // ---- Dotted keys -----------------------------------------------------------------------------

  /** `usize::from_str`: a leading plus is allowed, and so are leading zeros. */
  function ParseIndex(part: string): Option<nat> {
    match Numeral(if part != "" && part[0] == '+' then part[1..] else part)
    case Some(n) => if n <= 0xFFFF_FFFF_FFFF_FFFF then Some(n) else None
    case None => None
  }

  function AsSegment(part: string): Segment {
    match ParseIndex(part)
    case Some(n) => Index(n)
    case None => Name(part)
  }

  function Segments(key: string): (segments: Key)
    ensures segments != []
  {
    var parts := SplitOn(key, '.');
    seq(|parts|, i requires 0 <= i < |parts| => AsSegment(parts[i]))
  }

  // ---- Walking and editing ------------------------------------------------------------------------

  predicate Indexed(path: Key) { |path| > 1 && path[1].Index? }

  /** The table a path leads to, nothing being created on the way. */
  function Existing(t: Fields, path: Key): Option<Fields>
    decreases |path|
  {
    if path == [] then Some(t)
    else if path[0].Index? || path[0].name !in t then None
    else
      var item := t[path[0].name];
      if Indexed(path) then
        if item.Rows? && path[1].row < |item.tables| then Existing(item.tables[path[1].row], path[2..]) else None
      else if item.Table? then Existing(item.fields, path[1..])
      else None
  }

  function Get(t: Fields, key: Key): Option<Item> {
    if key == [] || key[|key| - 1].Index? then None
    else
      match Existing(t, key[..|key| - 1])
      case None => None
      case Some(table) =>
        var name := key[|key| - 1].name;
        if name in table then Some(table[name]) else None
  }

  function Padded(tables: seq<Fields>, length: nat): (r: seq<Fields>) {
    if |tables| >= length then tables else tables + seq(length - |tables|, _ => map[])
  }

  /** Creating on the way whatever is missing; nothing when that panics on an item of another kind. */
  function SetIn(t: Fields, path: Key, name: string, value: string): Option<Fields>
    decreases |path|
  {
    if path == [] then Some(t[name := Leaf(value)])
    else if path[0].Index? then None
    else
      var field := path[0].name;
      if Indexed(path) then
        var row := path[1].row;
        var item := if field in t then t[field] else Rows([]);
        if !item.Rows? then None
        else
          var tables := Padded(item.tables, row + 1);
          match SetIn(tables[row], path[2..], name, value)
          case None => None
          case Some(table) => Some(t[field := Rows(tables[row := table])])
      else
        var item := if field in t then t[field] else Table(map[]);
        if !item.Table? then None
        else
          match SetIn(item.fields, path[1..], name, value)
          case None => None
          case Some(table) => Some(t[field := Table(table)])
  }

  function Set(t: Fields, key: Key, value: string): Option<Fields> {
    if key == [] || key[|key| - 1].Index? then None
    else SetIn(t, key[..|key| - 1], key[|key| - 1].name, value)
  }

  function RemoveIn(t: Fields, path: Key, name: string): Fields
    decreases |path|
  {
    if path == [] then t - {name}
    else if path[0].Index? || path[0].name !in t then t
    else
      var field := path[0].name;
      var item := t[field];
      if Indexed(path) then
        if item.Rows? && path[1].row < |item.tables| then
          var row := path[1].row;
          t[field := Rows(item.tables[row := RemoveIn(item.tables[row], path[2..], name)])]
        else t
      else if item.Table? then t[field := Table(RemoveIn(item.fields, path[1..], name))]
      else t
  }

  function Remove(t: Fields, key: Key): Fields {
    if key == [] || key[|key| - 1].Index? then t
    else RemoveIn(t, key[..|key| - 1], key[|key| - 1].name)
  }

  /** A table left on the way down: the name followed, and the row when it leads to repeated tables. */
  datatype Frame = Frame(table: Fields, name: string, tables: seq<Fields>, row: Option<nat>) {
    predicate Valid() { row.Some? ==> row.value < |tables| }

    /** The table with what is below it replaced. */
    function Around(below: Fields): Fields
      requires Valid()
    {
      table[name := if row.Some? then Rows(tables[row.value := below]) else Table(below)]
    }
  }

  predicate AllValid(frames: seq<Frame>) { forall i :: 0 <= i < |frames| ==> frames[i].Valid() }

  /** The whole document around a table reached by a walk. */
  function Around(frames: seq<Frame>, below: Fields): Fields
    requires AllValid(frames)
  {
    if frames == [] then below else Around(frames[..|frames| - 1], frames[|frames| - 1].Around(below))
  }

  function AroundSome(frames: seq<Frame>, below: Option<Fields>): Option<Fields>
    requires AllValid(frames)
  {
    if below.Some? then Some(Around(frames, below.value)) else None
  }

  /** One frame more is one table further out. */
  lemma AroundSnoc(frames: seq<Frame>, frame: Frame, below: Option<Fields>)
    requires AllValid(frames) && frame.Valid()
    ensures AllValid(frames + [frame])
    ensures AroundSome(frames + [frame], below)
            == AroundSome(frames, if below.Some? then Some(frame.Around(below.value)) else None)
  {
    assert (frames + [frame])[..|frames|] == frames;
  }

  // ---- Lens laws -------------------------------------------------------------------------------------

  /** Neither key is a prefix of the other. */
  predicate Diverge(a: Key, b: Key) {
    exists i :: 0 <= i < |a| && i < |b| && a[i] != b[i]
  }

  /** Looking a name up below a path, as one recursion. */
  function Lookup(t: Fields, path: Key, name: string): Option<Item> {
    match Existing(t, path)
    case None => None
    case Some(table) => if name in table then Some(table[name]) else None
  }

  lemma {:induction false} LookupAfterSet(t: Fields, path: Key, name: string, value: string)
    requires SetIn(t, path, name, value).Some?
    ensures Lookup(SetIn(t, path, name, value).value, path, name) == Some(Leaf(value))
    decreases |path|
  {
    if path != [] {
      var field := path[0].name;
      if Indexed(path) {
        var item := if field in t then t[field] else Rows([]);
        LookupAfterSet(Padded(item.tables, path[1].row + 1)[path[1].row], path[2..], name, value);
      } else {
        var item := if field in t then t[field] else Table(map[]);
        LookupAfterSet(item.fields, path[1..], name, value);
      }
    }
  }

  /** What was set is what is read. */
  lemma GetAfterSet(t: Fields, key: Key, value: string)
    requires Set(t, key, value).Some?
    ensures Get(Set(t, key, value).value, key) == Some(Leaf(value))
  {
    LookupAfterSet(t, key[..|key| - 1], key[|key| - 1].name, value);
  }

  lemma DivergeTail(a: Key, b: Key)
    requires a != [] && b != [] && a[0] == b[0] && Diverge(a, b)
    ensures Diverge(a[1..], b[1..])
  {
    var i :| 0 <= i < |a| && i < |b| && a[i] != b[i];
    assert a[1..][i - 1] == a[i] && b[1..][i - 1] == b[i];
  }

  lemma {:induction false} LookupNothing(path: Key, name: string)
    ensures Lookup(map[], path, name) == None
  {
  }

  /** One step down a path, spelled out. */
  function Below(t: Fields, path: Key): Fields
    requires path != [] && path[0].Name?
  {
    var field := path[0].name;
    if field !in t then map[]
    else if Indexed(path) then
      if t[field].Rows? && path[1].row < |t[field].tables| then t[field].tables[path[1].row] else map[]
    else if t[field].Table? then t[field].fields
    else map[]
  }

  function Rest(path: Key): Key
    requires path != []
  {
    if Indexed(path) then path[2..] else path[1..]
  }

  lemma LookupBelow(t: Fields, path: Key, name: string)
    requires path != [] && path[0].Name?
    ensures Lookup(t, path, name) == Lookup(Below(t, path), Rest(path), name)
  {
    LookupNothing(Rest(path), name);
  }

  lemma DivergeBelow(p: Key, n: string, q: Key, m: string)
    requires p != [] && q != [] && p[0] == q[0] && Indexed(p) == Indexed(q)
    requires Indexed(p) ==> p[1] == q[1]
    requires Diverge(p + [Name(n)], q + [Name(m)])
    ensures Diverge(Rest(p) + [Name(n)], Rest(q) + [Name(m)])
  {
    var a, b := p + [Name(n)], q + [Name(m)];
    DivergeTail(a, b);
    assert a[1..] == p[1..] + [Name(n)] && b[1..] == q[1..] + [Name(m)];
    if Indexed(p) {
      DivergeTail(a[1..], b[1..]);
      assert a[1..][1..] == p[2..] + [Name(n)] && b[1..][1..] == q[2..] + [Name(m)];
    }
  }

  lemma {:induction false} LookupElsewhereAfterSet(
    t: Fields, p: Key, n: string, value: string, q: Key, m: string)
    requires SetIn(t, p, n, value).Some? && Diverge(p + [Name(n)], q + [Name(m)])
    ensures Lookup(SetIn(t, p, n, value).value, q, m) == Lookup(t, q, m)
    decreases |p|
  {
    var u := SetIn(t, p, n, value).value;
    var a, b := p + [Name(n)], q + [Name(m)];
    if q != [] && q[0].Name? {
      LookupBelow(t, q, m);
      LookupBelow(u, q, m);
    }
    if p != [] && q != [] && p[0] == q[0] {
      if Indexed(p) == Indexed(q) && (Indexed(p) ==> p[1] == q[1]) {
        SetBelow(t, p, n, value);
        DivergeBelow(p, n, q, m);
        LookupElsewhereAfterSet(Below(t, p), Rest(p), n, value, Rest(q), m);
      } else {
        LookupNothing(Rest(q), m);
      }
    } else {
      assert a[0] != b[0] by { DivergeAtHead(p, n, q, m); }
    }
  }

  /** Keys that part, but not at a shared head, part at the head. */
  lemma DivergeAtHead(p: Key, n: string, q: Key, m: string)
    requires Diverge(p + [Name(n)], q + [Name(m)])
    requires !(p != [] && q != [] && p[0] == q[0])
    ensures (p + [Name(n)])[0] != (q + [Name(m)])[0]
  {
    var a, b := p + [Name(n)], q + [Name(m)];
    var i :| 0 <= i < |a| && i < |b| && a[i] != b[i];
  }

  lemma SetBelow(t: Fields, p: Key, n: string, value: string)
    requires p != [] && SetIn(t, p, n, value).Some?
    ensures p[0].Name? && SetIn(Below(t, p), Rest(p), n, value).Some?
    ensures Below(SetIn(t, p, n, value).value, p) == SetIn(Below(t, p), Rest(p), n, value).value
  {
  }

  /** Keys that are neither prefix nor extension of the one set read as before, whatever was created. */
  lemma GetElsewhereAfterSet(t: Fields, key: Key, value: string, other: Key)
    requires Set(t, key, value).Some? && Diverge(key, other)
    ensures Get(Set(t, key, value).value, other) == Get(t, other)
  {
    if other != [] && other[|other| - 1].Name? {
      var p, q := key[..|key| - 1], other[..|other| - 1];
      assert key == p + [Name(key[|key| - 1].name)] && other == q + [Name(other[|other| - 1].name)];
      hide Diverge, SetIn, Existing;
      LookupElsewhereAfterSet(t, p, key[|key| - 1].name, value, q, other[|other| - 1].name);
    }
  }

  /** One step of a set through a row of a repeated section, and through a table. */
  lemma SetInRow(t: Fields, p: Key, n: string, v: string, tables: seq<Fields>)
    requires p != [] && p[0].Name? && Indexed(p) && (p[0].name in t ==> t[p[0].name].Rows?)
    requires tables == Padded((if p[0].name in t then t[p[0].name] else Rows([])).tables, p[1].row + 1)
    ensures var below := SetIn(tables[p[1].row], p[2..], n, v);
            SetIn(t, p, n, v)
            == if below.Some? then Some(t[p[0].name := Rows(tables[p[1].row := below.value])]) else None
  {
  }

  lemma SetInTable(t: Fields, p: Key, n: string, v: string, fields: Fields)
    requires p != [] && p[0].Name? && !Indexed(p) && (p[0].name in t ==> t[p[0].name].Table?)
    requires fields == (if p[0].name in t then t[p[0].name] else Table(map[])).fields
    ensures var below := SetIn(fields, p[1..], n, v);
            SetIn(t, p, n, v) == if below.Some? then Some(t[p[0].name := Table(below.value)]) else None
  {
  }

  lemma {:induction false} SetInTwice(t: Fields, p: Key, n: string, v: string, w: string)
    requires SetIn(t, p, n, v).Some?
    ensures SetIn(SetIn(t, p, n, v).value, p, n, w) == SetIn(t, p, n, w)
    decreases |p|
  {
    if p == [] {
      assert t[n := Leaf(v)][n := Leaf(w)] == t[n := Leaf(w)];
    } else {
      var field := p[0].name;
      assert field in t ==> if Indexed(p) then t[field].Rows? else t[field].Table?;
      hide SetIn;
      if Indexed(p) {
        var row := p[1].row;
        var tables := Padded((if field in t then t[field] else Rows([])).tables, row + 1);
        SetInRow(t, p, n, v, tables);
        SetInRow(t, p, n, w, tables);
        SetInTwice(tables[row], p[2..], n, v, w);
        var first := SetIn(tables[row], p[2..], n, v).value;
        var once := tables[row := first];
        SetInRow(t[field := Rows(once)], p, n, w, once);
        var second := SetIn(first, p[2..], n, w);
        if second.Some? {
          assert once[row := second.value] == tables[row := second.value];
          assert t[field := Rows(once)][field := Rows(tables[row := second.value])]
              == t[field := Rows(tables[row := second.value])];
        }
      } else {
        var fields := (if field in t then t[field] else Table(map[])).fields;
        SetInTable(t, p, n, v, fields);
        SetInTable(t, p, n, w, fields);
        SetInTwice(fields, p[1..], n, v, w);
        var first := SetIn(fields, p[1..], n, v).value;
        SetInTable(t[field := Table(first)], p, n, w, first);
        var second := SetIn(first, p[1..], n, w);
        if second.Some? {
          assert t[field := Table(first)][field := Table(second.value)] == t[field := Table(second.value)];
        }
      }
    }
  }

  lemma {:induction false} SetInSame(t: Fields, p: Key, n: string, v: string)
    requires Lookup(t, p, n) == Some(Leaf(v))
    ensures SetIn(t, p, n, v) == Some(t)
    decreases |p|
  {
    if p == [] {
      assert t[n := Leaf(v)] == t;
    } else {
      LookupBelow(t, p, n);
      var field := p[0].name;
      if Indexed(p) {
        SetInSame(t[field].tables[p[1].row], p[2..], n, v);
        assert t[field].tables[p[1].row := t[field].tables[p[1].row]] == t[field].tables;
      } else {
        SetInSame(t[field].fields, p[1..], n, v);
      }
      assert t[field := t[field]] == t;
    }
  }

  /** The last value set wins, and setting what is there already changes nothing. */
  lemma SettingAgain(t: Fields, key: Key, v: string, w: string)
    ensures Set(t, key, v).Some? ==> Set(Set(t, key, v).value, key, w) == Set(t, key, w)
    ensures Get(t, key) == Some(Leaf(v)) ==> Set(t, key, v) == Some(t)
  {
    if key != [] && key[|key| - 1].Name? {
      var p, n := key[..|key| - 1], key[|key| - 1].name;
      if Set(t, key, v).Some? { SetInTwice(t, p, n, v, w); }
      if Get(t, key) == Some(Leaf(v)) { SetInSame(t, p, n, v); }
    }
  }

  // ---- Removing ------------------------------------------------------------------------------------

  lemma RemoveBelow(t: Fields, p: Key, n: string)
    requires p != [] && p[0].Name?
    ensures Below(RemoveIn(t, p, n), p) == RemoveIn(Below(t, p), Rest(p), n)
  {
    RemoveFromNothing(Rest(p), n);
  }

  lemma RemoveFromNothing(p: Key, n: string)
    ensures RemoveIn(map[], p, n) == map[]
  {
  }

  lemma {:induction false} LookupAfterRemove(t: Fields, p: Key, n: string)
    ensures Lookup(RemoveIn(t, p, n), p, n) == None
    decreases |p|
  {
    if p != [] && p[0].Name? {
      LookupBelow(RemoveIn(t, p, n), p, n);
      RemoveBelow(t, p, n);
      LookupAfterRemove(Below(t, p), Rest(p), n);
    }
  }

  lemma {:induction false} LookupElsewhereAfterRemove(t: Fields, p: Key, n: string, q: Key, m: string)
    requires Diverge(p + [Name(n)], q + [Name(m)])
    ensures Lookup(RemoveIn(t, p, n), q, m) == Lookup(t, q, m)
    decreases |p|
  {
    var u := RemoveIn(t, p, n);
    if q != [] && q[0].Name? {
      LookupBelow(t, q, m);
      LookupBelow(u, q, m);
    }
    if p != [] && q != [] && p[0] == q[0] {
      if Indexed(p) == Indexed(q) && (Indexed(p) ==> p[1] == q[1]) {
        if p[0].Name? {
          RemoveBelow(t, p, n);
          DivergeBelow(p, n, q, m);
          LookupElsewhereAfterRemove(Below(t, p), Rest(p), n, Rest(q), m);
        }
      }
    } else {
      DivergeAtHead(p, n, q, m);
    }
  }

  lemma {:induction false} RemoveAbsent(t: Fields, p: Key, n: string)
    requires Lookup(t, p, n) == None
    ensures RemoveIn(t, p, n) == t
    decreases |p|
  {
    if p == [] {
      assert t - {n} == t;
    } else if p[0].Name? && p[0].name in t {
      LookupBelow(t, p, n);
      var field := p[0].name;
      RemoveAbsent(Below(t, p), Rest(p), n);
      if Indexed(p) && t[field].Rows? && p[1].row < |t[field].tables| {
        assert t[field].tables[p[1].row := t[field].tables[p[1].row]] == t[field].tables;
      }
      assert t[field := t[field]] == t;
    }
  }

  /** A removed key is absent, diverging keys read as before, and removing an absent key does nothing. */
  lemma RemoveLaws(t: Fields, key: Key, other: Key)
    ensures Get(Remove(t, key), key) == None
    ensures Diverge(key, other) ==> Get(Remove(t, key), other) == Get(t, other)
    ensures Get(t, key) == None ==> Remove(t, key) == t
  {
    if key != [] && key[|key| - 1].Name? {
      var p, n := key[..|key| - 1], key[|key| - 1].name;
      assert key == p + [Name(n)];
      LookupAfterRemove(t, p, n);
      if Get(t, key) == None { RemoveAbsent(t, p, n); }
      if Diverge(key, other) && other[|other| - 1].Name? {
        var q, m := other[..|other| - 1], other[|other| - 1].name;
        assert other == q + [Name(m)];
        LookupElsewhereAfterRemove(t, p, n, q, m);
      }
    }
  }

  // ---- Repeated sections ------------------------------------------------------------------------------

  function RowCount(t: Fields, section: string): nat {
    if section in t && t[section].Rows? then |t[section].tables| else 0
  }

  /** Nothing when the section is there and is not a repeated one: that panics. */
  function PushRow(t: Fields, section: string): Option<Fields> {
    var item := if section in t then t[section] else Rows([]);
    if item.Rows? then Some(t[section := Rows(item.tables + [map[]])]) else None
  }

  /** Nothing when there is no such row: that panics. */
  function RemoveRow(t: Fields, section: string, index: nat): Option<Fields> {
    if section !in t || !t[section].Rows? then Some(t)
    else
      var tables := t[section].tables;
      if index >= |tables| then None
      else Some(t[section := Rows(tables[..index] + tables[index + 1..])])
  }

  function RowKey(section: string, row: nat, rest: Key): Key { [Name(section), Index(row)] + rest }

  lemma LookupRow(t: Fields, section: string, row: nat, path: Key, name: string)
    ensures Lookup(t, RowKey(section, row, path), name)
            == if row < RowCount(t, section) then Lookup(t[section].tables[row], path, name) else None
  {
    var key := RowKey(section, row, path);
    assert key[2..] == path;
    LookupBelow(t, key, name);
    LookupNothing(path, name);
  }

  /** A pushed row is the next one and blank; every other row reads as before. */
  lemma PushedRow(t: Fields, section: string, row: nat, path: Key, name: string)
    requires PushRow(t, section).Some?
    ensures RowCount(PushRow(t, section).value, section) == RowCount(t, section) + 1
    ensures Lookup(PushRow(t, section).value, RowKey(section, row, path), name)
            == Lookup(t, RowKey(section, row, path), name)
    ensures row == RowCount(t, section) ==>
              Lookup(PushRow(t, section).value, RowKey(section, row, path), name) == None
  {
    LookupRow(t, section, row, path, name);
    LookupRow(PushRow(t, section).value, section, row, path, name);
    LookupNothing(path, name);
  }

  /** Rows after the removed one move down by one; rows before it stay. */
  lemma RemovedRow(t: Fields, section: string, index: nat, row: nat, path: Key, name: string)
    requires index < RowCount(t, section)
    ensures RemoveRow(t, section, index).Some?
    ensures RowCount(RemoveRow(t, section, index).value, section) == RowCount(t, section) - 1
    ensures Lookup(RemoveRow(t, section, index).value, RowKey(section, row, path), name)
            == Lookup(t, RowKey(section, if row < index then row else row + 1, path), name)
  {
    LookupRow(t, section, row, path, name);
    LookupRow(t, section, row + 1, path, name);
    LookupRow(RemoveRow(t, section, index).value, section, row, path, name);
  }

  /** Pushing a row and removing it again gives back a document that had the section. */
  lemma PushThenRemove(t: Fields, section: string)
    requires section in t && t[section].Rows?
    ensures PushRow(t, section).Some?
    ensures RemoveRow(PushRow(t, section).value, section, RowCount(t, section)) == Some(t)
  {
    var tables := t[section].tables;
    assert (tables + [map[]])[..|tables|] + (tables + [map[]])[|tables| + 1..] == tables;
    assert t[section := Rows(tables + [map[]])][section := Rows(tables)] == t;
  }

  // ---- The document -----------------------------------------------------------------------------------

  class ConfigDocument {
    var doc: Fields

    constructor (doc: Fields)
      ensures this.doc == doc
    {
      this.doc := doc;
    }

    /** Walks down, stopping the moment a segment is missing. */
    method NavigateExisting(path: Key) returns (table: Option<Fields>)
      ensures table == Existing(doc, path)
    {
      var at := doc;
      var index := 0;
      while index < |path|
        invariant 0 <= index <= |path| && Existing(doc, path) == Existing(at, path[index..])
      {
        var rest := path[index..];
        if path[index].Index? || path[index].name !in at {
          return None;
        }
        var item := at[path[index].name];
        if index + 1 < |path| && path[index + 1].Index? {
          var row := path[index + 1].row;
          if !item.Rows? || row >= |item.tables| {
            return None;
          }
          assert rest[2..] == path[index + 2..];
          at := item.tables[row];
          index := index + 2;
        } else {
          if !item.Table? {
            return None;
          }
          assert rest[1..] == path[index + 1..];
          at := item.fields;
          index := index + 1;
        }
      }
      assert path[|path|..] == [];
      table := Some(at);
    }

    method GetItem(key: string) returns (item: Option<Item>)
      ensures item == Get(doc, Segments(key))
    {
      var segments := Segments(key);
      var last := segments[|segments| - 1];
      var table := NavigateExisting(segments[..|segments| - 1]);
      if table.None? || last.Index? {
        return None;
      }
      item := if last.name in table.value then Some(table.value[last.name]) else None;
    }

    /**
     * Walks down, creating the tables and padding the rows that are missing; nothing when an index
     * stands where a name should, or an item of another kind is in the way.
     */
    method NavigateCreate(path: Key) returns (table: Option<Fields>, frames: seq<Frame>)
      ensures AllValid(frames)
      ensures forall name, value :: SetIn(doc, path, name, value)
                == AroundSome(frames, if table.Some? then Some(table.value[name := Leaf(value)]) else None)
    {
      var at := doc;
      frames := [];
      var index := 0;
      while index < |path|
        invariant 0 <= index <= |path| && AllValid(frames)
        invariant forall name, value ::
          SetIn(doc, path, name, value) == AroundSome(frames, SetIn(at, path[index..], name, value))
      {
        ghost var rest, had, was := path[index..], frames, at;
        if path[index].Index? {
          return None, frames;
        }
        var name := path[index].name;
        var frame;
        if index + 1 < |path| && path[index + 1].Index? {
          var row := path[index + 1].row;
          var item := if name in at then at[name] else Rows([]);
          if !item.Rows? {
            return None, frames;
          }
          var tables := item.tables;
          while |tables| <= row
            invariant Padded(tables, row + 1) == Padded(item.tables, row + 1)
            decreases row + 1 - |tables|
          {
            tables := tables + [map[]];
          }
          assert rest[2..] == path[index + 2..];
          frame := Frame(at, name, tables, Some(row));
          at := tables[row];
          index := index + 2;
        } else {
          var item := if name in at then at[name] else Table(map[]);
          if !item.Table? {
            return None, frames;
          }
          assert rest[1..] == path[index + 1..];
          frame := Frame(at, name, [], None);
          at := item.fields;
          index := index + 1;
        }
        frames := frames + [frame];
        forall n, v ensures SetIn(doc, path, n, v) == AroundSome(frames, SetIn(at, path[index..], n, v)) {
          AroundSnoc(had, frame, SetIn(at, path[index..], n, v));
          assert SetIn(doc, path, n, v) == AroundSome(had, SetIn(was, rest, n, v));
        }
      }
      assert path[|path|..] == [];
      table := Some(at);
    }

    /** The same walk, creating nothing. */
    method NavigateExistingMut(path: Key) returns (table: Option<Fields>, frames: seq<Frame>)
      ensures AllValid(frames) && table == Existing(doc, path)
      ensures forall name :: RemoveIn(doc, path, name)
                == if table.Some? then Around(frames, table.value - {name}) else doc
    {
      var at := doc;
      frames := [];
      var index := 0;
      while index < |path|
        invariant 0 <= index <= |path| && AllValid(frames) && Around(frames, at) == doc
        invariant Existing(doc, path) == Existing(at, path[index..])
        invariant forall name :: RemoveIn(doc, path, name) == Around(frames, RemoveIn(at, path[index..], name))
      {
        ghost var rest, had, was := path[index..], frames, at;
        if path[index].Index? || path[index].name !in at {
          return None, frames;
        }
        var name := path[index].name;
        var item := at[name];
        var frame;
        if index + 1 < |path| && path[index + 1].Index? {
          var row := path[index + 1].row;
          if !item.Rows? || row >= |item.tables| {
            return None, frames;
          }
          assert rest[2..] == path[index + 2..] && item.tables[row := item.tables[row]] == item.tables;
          frame := Frame(at, name, item.tables, Some(row));
          at := item.tables[row];
          index := index + 2;
        } else {
          if !item.Table? {
            return None, frames;
          }
          assert rest[1..] == path[index + 1..];
          frame := Frame(at, name, [], None);
          at := item.fields;
          index := index + 1;
        }
        frames := frames + [frame];
        AroundSnoc(had, frame, Some(at));
        assert was[name := item] == was;
        forall n ensures RemoveIn(doc, path, n) == Around(frames, RemoveIn(at, path[index..], n)) {
          AroundSnoc(had, frame, Some(RemoveIn(at, path[index..], n)));
          assert RemoveIn(doc, path, n) == Around(had, RemoveIn(was, rest, n));
        }
      }
      assert path[|path|..] == [];
      table := Some(at);
    }

    /** Puts the tables left on the way down back around the one reached. */
    method Rebuild(frames: seq<Frame>, below: Fields)
      requires AllValid(frames)
      modifies this
      ensures doc == Around(frames, below)
    {
      var at := below;
      var n := |frames|;
      assert frames[..n] == frames;
      while n > 0
        invariant 0 <= n <= |frames| && Around(frames, below) == Around(frames[..n], at)
      {
        n := n - 1;
        assert frames[..n + 1][..n] == frames[..n];
        at := frames[n].Around(at);
      }
      doc := at;
    }

    /** False when the original panics on a key that ends in an index or clashes with what is there. */
    method SetValue(key: string, value: string) returns (done: bool)
      modifies this
      ensures done <==> Set(old(doc), Segments(key), value).Some?
      ensures doc == Set(old(doc), Segments(key), value).GetOr(old(doc))
    {
      var segments := Segments(key);
      var last := segments[|segments| - 1];
      if last.Index? {
        return false;
      }
      var table, frames := NavigateCreate(segments[..|segments| - 1]);
      assert Set(doc, segments, value) == SetIn(doc, segments[..|segments| - 1], last.name, value);
      if table.None? {
        return false;
      }
      Rebuild(frames, table.value[last.name := Leaf(value)]);
      done := true;
    }

    method RemoveKey(key: string)
      modifies this
      ensures doc == Remove(old(doc), Segments(key))
    {
      var segments := Segments(key);
      var last := segments[|segments| - 1];
      if last.Index? {
        return;
      }
      var table, frames := NavigateExistingMut(segments[..|segments| - 1]);
      assert Remove(doc, segments) == RemoveIn(doc, segments[..|segments| - 1], last.name);
      if table.None? {
        return;
      }
      Rebuild(frames, table.value - {last.name});
    }

    method AddRow(section: string) returns (index: Option<nat>)
      modifies this
      ensures index.Some? <==> PushRow(old(doc), section).Some?
      ensures index.Some? ==> index.value == RowCount(old(doc), section)
      ensures doc == PushRow(old(doc), section).GetOr(old(doc))
    {
      var item := if section in doc then doc[section] else Rows([]);
      if !item.Rows? {
        return None;
      }
      index := Some(|item.tables|);
      doc := doc[section := Rows(item.tables + [map[]])];
    }

    method DropRow(section: string, index: nat) returns (done: bool)
      modifies this
      ensures done <==> RemoveRow(old(doc), section, index).Some?
      ensures doc == RemoveRow(old(doc), section, index).GetOr(old(doc))
    {
      done := true;
      if section in doc && doc[section].Rows? {
        var tables := doc[section].tables;
        if index >= |tables| {
          return false;
        }
        doc := doc[section := Rows(tables[..index] + tables[index + 1..])];
      }
    }
  }
}
