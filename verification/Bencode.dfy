/** The bencode reader and the printer it inverts (src/torrent/adapters/bencode.rs). */
module Bencode {
  import opened Prelude

  // ---- What a document means ---------------------------------------------------------------

  datatype Tree =
    | Int(n: int)
    | Bytes(text: seq<Byte>)
    | List(items: seq<Tree>)
    | Dict(entries: seq<Entry>)

  datatype Entry = Entry(key: seq<Byte>, value: Tree)

  const MAX_DEPTH := 32
  const I64_MIN: int := -0x8000_0000_0000_0000
  const I64_MAX: int := 0x7FFF_FFFF_FFFF_FFFF
  const USIZE_MAX: int := 0xFFFF_FFFF_FFFF_FFFF

  const END: Byte := 'e' as int
  const COLON: Byte := ':' as int
  const MINUS: Byte := '-' as int
  const ZERO: Byte := '0' as int

  predicate IsDigit(b: Byte) { '0' as int <= b <= '9' as int }

  function Digits(n: nat): (r: seq<Byte>)
    ensures r != []
  {
    if n < 10 then [ZERO + n] else Digits(n / 10) + [ZERO + n % 10]
  }

  function PrintInt(n: int): seq<Byte> {
    if n < 0 then [MINUS] + Digits(-n) else Digits(n)
  }

  function PrintBytes(text: seq<Byte>): seq<Byte> {
    Digits(|text|) + [COLON] + text
  }

  /** The one spelling the format gives a tree, keys in the order the tree lists them. */
  function Print(t: Tree): seq<Byte> {
    match t
    case Int(n) => ['i' as int] + PrintInt(n) + [END]
    case Bytes(text) => PrintBytes(text)
    case List(items) => ['l' as int] + PrintAll(items) + [END]
    case Dict(entries) => ['d' as int] + PrintEntries(entries) + [END]
  }

  function PrintAll(items: seq<Tree>): seq<Byte> {
    if items == [] then [] else Print(items[0]) + PrintAll(items[1..])
  }

  function PrintEntries(entries: seq<Entry>): seq<Byte> {
    if entries == [] then []
    else PrintBytes(entries[0].key) + Print(entries[0].value) + PrintEntries(entries[1..])
  }

  /** 64-bit integers, and no more than MAX_DEPTH levels below the root. */
  predicate Fits(t: Tree, depth: nat) {
    && depth <= MAX_DEPTH
    && match t
       case Int(n) => I64_MIN <= n <= I64_MAX
       case Bytes(_) => true
       case List(items) => forall i :: 0 <= i < |items| ==> Fits(items[i], depth + 1)
       case Dict(entries) => forall i :: 0 <= i < |entries| ==> Fits(entries[i].value, depth + 1)
  }

  /** `word` is what `bytes` holds from `pos` on. */
  predicate StartsAt(bytes: seq<Byte>, pos: nat, word: seq<Byte>) {
    pos + |word| <= |bytes| && bytes[pos..pos + |word|] == word
  }

  lemma {:induction false} StartsAtConcat(bytes: seq<Byte>, pos: nat, a: seq<Byte>, b: seq<Byte>)
    ensures StartsAt(bytes, pos, a + b)
            <==> StartsAt(bytes, pos, a) && StartsAt(bytes, pos + |a|, b)
  {
    if pos + |a| + |b| <= |bytes| {
      var whole := bytes[pos..pos + |a| + |b|];
      assert whole == bytes[pos..pos + |a|] + bytes[pos + |a|..pos + |a| + |b|];
      assert whole[..|a|] == bytes[pos..pos + |a|];
      assert (a + b)[..|a|] == a && (a + b)[|a|..] == b;
    }
  }

  lemma {:induction false} StartsAtFirst(bytes: seq<Byte>, pos: nat, word: seq<Byte>)
    requires word != [] && StartsAt(bytes, pos, word)
    ensures pos < |bytes| && bytes[pos] == word[0]
  {
    assert bytes[pos..pos + |word|][0] == word[0];
  }

  // ---- Decimal text ------------------------------------------------------------------------

  /** Unsigned decimal text as the standard library reads it, leading zeros included. */
  function Numeral(text: seq<Byte>): Option<nat> {
    if text == [] then None
    else
      var last := text[|text| - 1];
      if !IsDigit(last) then None
      else if |text| == 1 then Some(last - ZERO)
      else
        match Numeral(text[..|text| - 1])
        case None => None
        case Some(n) => Some(10 * n + (last - ZERO))
  }

  lemma {:induction false} DigitsRead(n: nat)
    ensures Numeral(Digits(n)) == Some(n)
    ensures forall i :: 0 <= i < |Digits(n)| ==> IsDigit(Digits(n)[i])
    ensures Digits(n)[0] == ZERO ==> n == 0
  {
    if n >= 10 {
      DigitsRead(n / 10);
      assert Digits(n)[..|Digits(n)| - 1] == Digits(n / 10);
    }
  }

  lemma {:induction false} ReadsAsDigits(text: seq<Byte>)
    requires Numeral(text).Some? && (|text| > 1 ==> text[0] != ZERO)
    ensures Digits(Numeral(text).value) == text
  {
    if |text| > 1 {
      var front := text[..|text| - 1];
      assert text == front + [text[|text| - 1]];
      ReadsAsDigits(front);
      assert Digits(0) == [ZERO];
    } else {
      assert text == [text[0]];
    }
  }

  datatype ParseError =
    | UnexpectedEnd
    | UnexpectedByte
    | TooDeep
    | MalformedInteger
    | LeadingZero
    | MalformedLength
    | PastEnd

  function DecodeInt(text: seq<Byte>): Result<int, ParseError> {
    if text == [] || text == [MINUS] || StartsAt(text, 0, [MINUS, ZERO])
       || (|text| > 1 && text[0] == ZERO) then Err(MalformedInteger)
    else if text[0] == MINUS then
      match Numeral(text[1..])
      case Some(n) => if I64_MIN <= 0 - n then Ok(0 - n) else Err(MalformedInteger)
      case None => Err(MalformedInteger)
    else
      match Numeral(text)
      case Some(n) => if n <= I64_MAX then Ok(n) else Err(MalformedInteger)
      case None => Err(MalformedInteger)
  }

  function DecodeLength(text: seq<Byte>): Result<nat, ParseError> {
    if |text| > 1 && text[0] == ZERO then Err(LeadingZero)
    else
      match Numeral(text)
      case Some(n) => if n <= USIZE_MAX then Ok(n) else Err(MalformedLength)
      case None => Err(MalformedLength)
  }

  /** Exactly one spelling of each 64-bit integer is read. */
  lemma {:induction false} IntegersAreCanonical(text: seq<Byte>, n: int)
    ensures DecodeInt(text) == Ok(n) <==> I64_MIN <= n <= I64_MAX && text == PrintInt(n)
  {
    if DecodeInt(text) == Ok(n) {
      if text[0] == MINUS {
        assert text == [MINUS] + text[1..];
        assert text[0..2] == [MINUS, text[1]];
        ReadsAsDigits(text[1..]);
        assert Digits(0) == [ZERO];
      } else {
        ReadsAsDigits(text);
      }
    }
    if I64_MIN <= n <= I64_MAX && text == PrintInt(n) {
      DigitsRead(if n < 0 then -n else n);
      if n < 0 {
        assert text[1..] == Digits(-n);
        assert text[1] != ZERO;
      } else {
        assert IsDigit(text[0]);
        assert Digits(0) == [ZERO];
      }
    }
  }

  lemma {:induction false} LengthsAreCanonical(text: seq<Byte>, n: nat)
    ensures DecodeLength(text) == Ok(n) <==> n <= USIZE_MAX && text == Digits(n)
  {
    if DecodeLength(text) == Ok(n) { ReadsAsDigits(text); }
    if text == Digits(n) {
      DigitsRead(n);
      assert Digits(0) == [ZERO];
    }
  }

  // ---- The format is a prefix code ---------------------------------------------------------

  predicate IsNumberByte(b: Byte) { b == MINUS || IsDigit(b) }

  predicate IsNumberText(text: seq<Byte>) {
    forall i :: 0 <= i < |text| ==> IsNumberByte(text[i])
  }

  lemma {:induction false} PrintIntIsNumberText(n: int)
    ensures IsNumberText(PrintInt(n))
  {
    DigitsRead(if n < 0 then -n else n);
  }

  /** Number text ends at the first delimiter, so it is determined by where it starts. */
  lemma {:induction false} DelimitedOnce(bytes: seq<Byte>, pos: nat, a: seq<Byte>, b: seq<Byte>, delimiter: Byte)
    requires IsNumberText(a) && IsNumberText(b) && !IsNumberByte(delimiter)
    requires StartsAt(bytes, pos, a + [delimiter]) && StartsAt(bytes, pos, b + [delimiter])
    ensures a == b
  {
    var s, t := a + [delimiter], b + [delimiter];
    assert forall i :: 0 <= i < |s| ==> bytes[pos + i] == bytes[pos..pos + |s|][i] == s[i];
    assert forall i :: 0 <= i < |t| ==> bytes[pos + i] == bytes[pos..pos + |t|][i] == t[i];
    assert s[|a|] == delimiter && t[|b|] == delimiter;
    assert forall i :: 0 <= i < |a| ==> s[i] == a[i];
    assert forall i :: 0 <= i < |b| ==> t[i] == b[i];
    var k := if |a| < |b| then |a| else |b|;
    assert bytes[pos + k] == s[k] == t[k];
    assert forall i :: 0 <= i < |a| ==> a[i] == s[i] && b[i] == t[i];
  }

  lemma {:induction false} PrintIntInjective(n: int, m: int)
    requires PrintInt(n) == PrintInt(m)
    ensures n == m
  {
    DigitsRead(if n < 0 then -n else n);
    DigitsRead(if m < 0 then -m else m);
    assert PrintInt(n)[0] == MINUS <==> n < 0;
    assert PrintInt(m)[0] == MINUS <==> m < 0;
    if n < 0 {
      assert Digits(-n) == PrintInt(n)[1..] == PrintInt(m)[1..] == Digits(-m);
    }
  }

  lemma {:induction false} BytesPrefixCode(bytes: seq<Byte>, pos: nat, a: seq<Byte>, b: seq<Byte>)
    requires StartsAt(bytes, pos, PrintBytes(a)) && StartsAt(bytes, pos, PrintBytes(b))
    ensures a == b
  {
    DigitsRead(|a|);
    DigitsRead(|b|);
    StartsAtConcat(bytes, pos, Digits(|a|) + [COLON], a);
    StartsAtConcat(bytes, pos, Digits(|b|) + [COLON], b);
    DelimitedOnce(bytes, pos, Digits(|a|), Digits(|b|), COLON);
  }

  lemma {:induction false} IntPrefixCode(bytes: seq<Byte>, pos: nat, n: int, m: int)
    requires StartsAt(bytes, pos, Print(Int(n))) && StartsAt(bytes, pos, Print(Int(m)))
    ensures n == m
  {
    PrintIntIsNumberText(n);
    PrintIntIsNumberText(m);
    assert Print(Int(n)) == ['i' as int] + (PrintInt(n) + [END]);
    assert Print(Int(m)) == ['i' as int] + (PrintInt(m) + [END]);
    StartsAtConcat(bytes, pos, ['i' as int], PrintInt(n) + [END]);
    StartsAtConcat(bytes, pos, ['i' as int], PrintInt(m) + [END]);
    DelimitedOnce(bytes, pos + 1, PrintInt(n), PrintInt(m), END);
    PrintIntInjective(n, m);
  }

  /** The first byte tells the kind of the value, and is never the end marker. */
  lemma {:induction false} FirstByte(t: Tree)
    ensures |Print(t)| > 0
    ensures Print(t)[0] == 'i' as int <==> t.Int?
    ensures Print(t)[0] == 'l' as int <==> t.List?
    ensures Print(t)[0] == 'd' as int <==> t.Dict?
    ensures IsDigit(Print(t)[0]) <==> t.Bytes?
    ensures Print(t)[0] != END
  {
    if t.Bytes? {
      DigitsRead(|t.text|);
      assert Print(t)[0] == Digits(|t.text|)[0];
    }
  }

  lemma {:induction false} KeyFirstByte(key: seq<Byte>)
    ensures |PrintBytes(key)| > 0 && IsDigit(PrintBytes(key)[0]) && PrintBytes(key)[0] != END
  {
    FirstByte(Bytes(key));
  }

  /** No document is a proper prefix of another: where one starts, no other does. */
  lemma {:induction false} PrefixCode(bytes: seq<Byte>, pos: nat, t: Tree, u: Tree)
    requires StartsAt(bytes, pos, Print(t)) && StartsAt(bytes, pos, Print(u))
    ensures t == u
    decreases t
  {
    FirstByte(t);
    FirstByte(u);
    StartsAtFirst(bytes, pos, Print(t));
    StartsAtFirst(bytes, pos, Print(u));
    hide StartsAt, IsDigit;
    match t
    case Int(n) => IntPrefixCode(bytes, pos, n, u.n);
    case Bytes(text) => BytesPrefixCode(bytes, pos, text, u.text);
    case List(items) =>
      Framed(bytes, pos, 'l' as int, PrintAll(items));
      Framed(bytes, pos, 'l' as int, PrintAll(u.items));
      AllPrefixCode(bytes, pos + 1, items, u.items);
    case Dict(entries) =>
      Framed(bytes, pos, 'd' as int, PrintEntries(entries));
      Framed(bytes, pos, 'd' as int, PrintEntries(u.entries));
      EntriesPrefixCode(bytes, pos + 1, entries, u.entries);
  }

  lemma {:induction false} Framed(bytes: seq<Byte>, pos: nat, open: Byte, body: seq<Byte>)
    ensures StartsAt(bytes, pos, [open] + body + [END])
            <==> StartsAt(bytes, pos, [open]) && StartsAt(bytes, pos + 1, body + [END])
  {
    assert [open] + body + [END] == [open] + (body + [END]);
    StartsAtConcat(bytes, pos, [open], body + [END]);
  }

  lemma {:induction false} NotEmptyList(bytes: seq<Byte>, pos: nat, items: seq<Tree>)
    requires StartsAt(bytes, pos, PrintAll(items) + [END])
    ensures items == [] <==> (pos < |bytes| && bytes[pos] == END)
    ensures items != [] ==>
              StartsAt(bytes, pos, Print(items[0]))
              && StartsAt(bytes, pos + |Print(items[0])|, PrintAll(items[1..]) + [END])
  {
    if items == [] {
      StartsAtFirst(bytes, pos, PrintAll(items) + [END]);
    } else {
      assert PrintAll(items) + [END] == Print(items[0]) + (PrintAll(items[1..]) + [END]);
      StartsAtConcat(bytes, pos, Print(items[0]), PrintAll(items[1..]) + [END]);
      FirstByte(items[0]);
      StartsAtFirst(bytes, pos, Print(items[0]));
    }
  }

  lemma {:induction false} EntriesSplit(entries: seq<Entry>)
    requires entries != []
    ensures PrintEntries(entries) + [END]
            == PrintBytes(entries[0].key)
               + (Print(entries[0].value) + (PrintEntries(entries[1..]) + [END]))
  {
    var key, value, rest := PrintBytes(entries[0].key), Print(entries[0].value), PrintEntries(entries[1..]);
    assert PrintEntries(entries) == key + value + rest;
    hide Print, PrintBytes, PrintEntries;
  }

  lemma {:induction false} NotEmptyDict(bytes: seq<Byte>, pos: nat, entries: seq<Entry>)
    requires StartsAt(bytes, pos, PrintEntries(entries) + [END])
    ensures entries == [] <==> (pos < |bytes| && bytes[pos] == END)
    ensures entries != [] ==>
              var key, value := PrintBytes(entries[0].key), Print(entries[0].value);
              StartsAt(bytes, pos, key)
              && StartsAt(bytes, pos + |key|, value)
              && StartsAt(bytes, pos + |key| + |value|, PrintEntries(entries[1..]) + [END])
  {
    if entries == [] {
      StartsAtFirst(bytes, pos, PrintEntries(entries) + [END]);
    } else {
      KeyFirstByte(entries[0].key);
      EntriesSplit(entries);
      hide StartsAt, Print, PrintBytes, PrintEntries, IsDigit;
      var key, value := PrintBytes(entries[0].key), Print(entries[0].value);
      var rest := PrintEntries(entries[1..]) + [END];
      StartsAtConcat(bytes, pos, key, value + rest);
      StartsAtConcat(bytes, pos + |key|, value, rest);
      StartsAtFirst(bytes, pos, key);
    }
  }

  lemma {:induction false} AllPrefixCode(bytes: seq<Byte>, pos: nat, s: seq<Tree>, u: seq<Tree>)
    requires StartsAt(bytes, pos, PrintAll(s) + [END]) && StartsAt(bytes, pos, PrintAll(u) + [END])
    ensures s == u
    decreases s
  {
    hide StartsAt, Print;
    NotEmptyList(bytes, pos, s);
    NotEmptyList(bytes, pos, u);
    if s != [] {
      PrefixCode(bytes, pos, s[0], u[0]);
      AllPrefixCode(bytes, pos + |Print(s[0])|, s[1..], u[1..]);
      assert s == [s[0]] + s[1..] && u == [u[0]] + u[1..];
    }
  }

  lemma {:induction false} EntriesPrefixCode(bytes: seq<Byte>, pos: nat, s: seq<Entry>, u: seq<Entry>)
    requires StartsAt(bytes, pos, PrintEntries(s) + [END])
    requires StartsAt(bytes, pos, PrintEntries(u) + [END])
    ensures s == u
    decreases s
  {
    hide StartsAt, Print, PrintBytes;
    NotEmptyDict(bytes, pos, s);
    NotEmptyDict(bytes, pos, u);
    if s != [] {
      BytesPrefixCode(bytes, pos, s[0].key, u[0].key);
      var next := pos + |PrintBytes(s[0].key)|;
      PrefixCode(bytes, next, s[0].value, u[0].value);
      EntriesPrefixCode(bytes, next + |Print(s[0].value)|, s[1..], u[1..]);
      assert s == [s[0]] + s[1..] && u == [u[0]] + u[1..];
    }
  }
}
