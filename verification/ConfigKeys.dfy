/** What a dotted key says, and what a set does to a repeated section (src/config/write.rs). */
module ConfigKeys {
  import opened Prelude
  import opened Splitting
  import opened ConfigTree

  /** The digits of a part, after the plus it may open with. */
  function Unsigned(part: string): string {
    if part != "" && part[0] == '+' then part[1..] else part
  }

  /** A part is a row number exactly when it is all digits, a plus allowed, within a 64-bit word. */
  lemma {:induction false} IndexIs(part: string, n: nat)
    ensures AsSegment(part) == Index(n)
            <==> && Unsigned(part) != "" && AllDigits(Unsigned(part))
                 && Worth(Unsigned(part)) == n && n < 0x1_0000_0000_0000_0000
    ensures AsSegment(part).Name? ==> AsSegment(part) == Name(part)
  {
    NumeralIs(Unsigned(part));
  }

  /** How a key is written: row numbers in decimal, names as they are. */
  function Written(segment: Segment): string {
    match segment
    case Index(n) => Digits(n)
    case Name(name) => name
  }

  predicate Writable(segment: Segment) {
    match segment
    case Index(n) => n < 0x1_0000_0000_0000_0000
    case Name(name) => '.' !in name && (Unsigned(name) == "" || !AllDigits(Unsigned(name))
                                        || Worth(Unsigned(name)) >= 0x1_0000_0000_0000_0000)
  }

  lemma {:induction false} WrittenSegment(segment: Segment)
    requires Writable(segment)
    ensures AsSegment(Written(segment)) == segment && '.' !in Written(segment)
  {
    match segment
    case Index(n) =>
      DigitsAreRead(n);
      NumeralIs(Digits(n));
      IndexIs(Digits(n), n);
    case Name(name) =>
      if AsSegment(name).Index? { IndexIs(name, AsSegment(name).row); }
      IndexIs(name, 0);
  }

  /** A key written with dots between its segments comes apart into them. */
  lemma {:induction false} SegmentsOfWritten(key: Key)
    requires key != [] && forall i :: 0 <= i < |key| ==> Writable(key[i])
    ensures Segments(JoinWith(seq(|key|, i requires 0 <= i < |key| => Written(key[i])), '.')) == key
  {
    var parts := seq(|key|, i requires 0 <= i < |key| => Written(key[i]));
    forall i | 0 <= i < |key| ensures AsSegment(parts[i]) == key[i] && '.' !in parts[i] {
      WrittenSegment(key[i]);
    }
    SplitUndoesJoin(parts, '.');
  }

  /** Any key is its segments' texts with dots between them, and no text holds a dot. */
  lemma {:induction false} SegmentsSpell(key: string) returns (parts: seq<string>)
    ensures key == JoinWith(parts, '.') && |parts| == |Segments(key)|
    ensures forall i :: 0 <= i < |parts| ==> '.' !in parts[i] && Segments(key)[i] == AsSegment(parts[i])
  {
    parts := SplitOn(key, '.');
    JoinUndoesSplit(key, '.');
  }

  /** Setting a key in a row grows the section exactly as far as that row, and touches no other section. */
  lemma {:induction false} SetGrowsRows(t: Fields, section: string, row: nat, rest: Key, value: string, other: string)
    requires rest != [] && Set(t, RowKey(section, row, rest), value).Some?
    ensures var u := Set(t, RowKey(section, row, rest), value).value;
            && RowCount(u, section) == Max(RowCount(t, section), row + 1)
            && (other != section ==>
                  && (other in u <==> other in t)
                  && (other in t ==> u[other] == t[other]))
  {
    var key := RowKey(section, row, rest);
    var path := key[..|key| - 1];
    assert path[0] == Name(section) && path[1] == Index(row);
  }
}
