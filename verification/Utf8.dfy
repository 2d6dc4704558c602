/** The characters behind the bytes a torrent's names are spelled in (src/torrent/adapters/bencode.rs). */
module Utf8 {
  import opened Prelude
  import opened SafePath
  import opened Inspect

  /** A Unicode scalar value: a code point that is no surrogate. */
  type Scalar = c: int | 0 <= c < 0xD800 || 0xE000 <= c < 0x11_0000

  function Encoded(c: Scalar): (r: Text)
    ensures r != []
  {
    var n: int := c;
    if n < 0x80 then [n]
    else if n < 0x800 then [0xC0 + n / 64, 0x80 + n % 64]
    else if n < 0x1_0000 then [0xE0 + n / 4096, 0x80 + n / 64 % 64, 0x80 + n % 64]
    else [0xF0 + n / 262144, 0x80 + n / 4096 % 64, 0x80 + n / 64 % 64, 0x80 + n % 64]
  }

  function EncodedAll(cs: seq<Scalar>): Text {
    if cs == [] then [] else Encoded(cs[0]) + EncodedAll(cs[1..])
  }

  /** Text is read on from behind one encoded character. */
  lemma {:induction false} EncodedFirst(c: Scalar, rest: Text)
    ensures IsUtf8(Encoded(c) + rest) <==> IsUtf8(rest)
  {
    var text, n: int := Encoded(c) + rest, c;
    assert text[|Encoded(c)|..] == rest;
    if n < 0x800 {
      assert n / 64 < 32;
    } else if n < 0x1_0000 {
      assert n / 4096 == 0 ==> n / 64 % 64 >= 32;
      assert n / 4096 == 13 ==> n / 64 % 64 < 32;
    } else {
      assert n / 262144 == 0 ==> n / 4096 % 64 >= 16;
      assert n / 262144 == 4 ==> n / 4096 % 64 < 16;
    }
  }

  lemma {:induction false} EncodedIsUtf8(cs: seq<Scalar>)
    ensures IsUtf8(EncodedAll(cs))
  {
    if cs != [] {
      EncodedIsUtf8(cs[1..]);
      EncodedFirst(cs[0], EncodedAll(cs[1..]));
    }
  }

  lemma Sextet(high: nat, low: nat)
    requires low < 64
    ensures (high * 64 + low) / 64 == high && (high * 64 + low) % 64 == low
  {
  }

  lemma {:induction false} TwoBytes(b: int, x: int)
    requires 0xC2 <= b <= 0xDF && 0x80 <= x <= 0xBF
    ensures var c := (b - 0xC0) * 64 + (x - 0x80); 0x80 <= c < 0x800 && Encoded(c) == [b, x]
  {
    Sextet(b - 0xC0, x - 0x80);
  }

  lemma {:induction false} ThreeBytes(b: int, x: int, y: int)
    requires 0xE0 <= b <= 0xEF && 0x80 <= x <= 0xBF && 0x80 <= y <= 0xBF
    requires (b == 0xE0 ==> x >= 0xA0) && (b == 0xED ==> x <= 0x9F)
    ensures var c := ((b - 0xE0) * 64 + (x - 0x80)) * 64 + (y - 0x80);
            && 0x800 <= c < 0x1_0000 && (c < 0xD800 || 0xE000 <= c)
            && Encoded(c) == [b, x, y]
  {
    var high := (b - 0xE0) * 64 + (x - 0x80);
    Sextet(b - 0xE0, x - 0x80);
    Sextet(high, y - 0x80);
    assert (high * 64 + (y - 0x80)) / 4096 == high / 64;
  }

  lemma {:induction false} FourBytes(b: int, x: int, y: int, z: int)
    requires 0xF0 <= b <= 0xF4 && 0x80 <= x <= 0xBF && 0x80 <= y <= 0xBF && 0x80 <= z <= 0xBF
    requires (b == 0xF0 ==> x >= 0x90) && (b == 0xF4 ==> x <= 0x8F)
    ensures var c := (((b - 0xF0) * 64 + (x - 0x80)) * 64 + (y - 0x80)) * 64 + (z - 0x80);
            0x1_0000 <= c < 0x11_0000 && Encoded(c) == [b, x, y, z]
  {
    var high := (b - 0xF0) * 64 + (x - 0x80);
    var mid := high * 64 + (y - 0x80);
    Sextet(b - 0xF0, x - 0x80);
    Sextet(high, y - 0x80);
    Sextet(mid, z - 0x80);
    assert (mid * 64 + (z - 0x80)) / 4096 == mid / 64;
    assert (mid * 64 + (z - 0x80)) / 262144 == high / 64;
  }

  /** The first character of well-formed text. */
  lemma {:induction false} FirstCharacter(text: Text) returns (c: Scalar)
    requires text != [] && IsUtf8(text)
    ensures |Encoded(c)| <= |text| && text == Encoded(c) + text[|Encoded(c)|..]
    ensures IsUtf8(text[|Encoded(c)|..])
  {
    var b: int := text[0];
    if b < 0x80 {
      c := b;
      assert Encoded(c) == text[..1];
    } else if b <= 0xDF {
      var x: int := text[1];
      hide Encoded;
      TwoBytes(b, x);
      c := (b - 0xC0) * 64 + (x - 0x80);
      assert Encoded(c) == text[..2];
    } else if b <= 0xEF {
      var x: int, y: int := text[1], text[2];
      hide Encoded;
      ThreeBytes(b, x, y);
      c := ((b - 0xE0) * 64 + (x - 0x80)) * 64 + (y - 0x80);
      assert Encoded(c) == text[..3];
    } else {
      var x: int, y: int, z: int := text[1], text[2], text[3];
      hide Encoded;
      FourBytes(b, x, y, z);
      c := (((b - 0xF0) * 64 + (x - 0x80)) * 64 + (y - 0x80)) * 64 + (z - 0x80);
      assert Encoded(c) == text[..4];
    }
  }

  /** Bytes are well-formed exactly when they encode some characters. */
  lemma {:induction false} Utf8IsEncoded(text: Text)
    ensures IsUtf8(text) <==> exists cs: seq<Scalar> :: text == EncodedAll(cs)
  {
    if IsUtf8(text) {
      var cs := Characters(text);
      assert text == EncodedAll(cs);
    }
    forall cs: seq<Scalar> | text == EncodedAll(cs) ensures IsUtf8(text) { EncodedIsUtf8(cs); }
  }

  lemma {:induction false} Characters(text: Text) returns (cs: seq<Scalar>)
    requires IsUtf8(text)
    ensures text == EncodedAll(cs)
  {
    if text == [] {
      cs := [];
    } else {
      var c := FirstCharacter(text);
      var rest := Characters(text[|Encoded(c)|..]);
      cs := [c] + rest;
    }
  }

  predicate IsControl(c: Scalar) { c < 0x20 || 0x7F <= c <= 0x9F }

  lemma {:induction false} ControlFirst(c: Scalar, rest: Text)
    ensures HasControl(Encoded(c) + rest) <==> IsControl(c) || HasControl(rest)
  {
    var text, n := Encoded(c) + rest, |Encoded(c)|;
    forall i: nat | i < |rest| ensures ControlAt(text, n + i) <==> ControlAt(rest, i) {
    }
    assert ControlAt(text, 0) <==> IsControl(c);
    assert forall i :: 0 < i < n ==> !ControlAt(text, i);
    if HasControl(rest) {
      var i :| 0 <= i < |rest| && ControlAt(rest, i);
      assert ControlAt(text, n + i);
    }
    if HasControl(text) {
      var i :| 0 <= i < |text| && ControlAt(text, i);
      if i >= n { assert ControlAt(rest, i - n); }
    }
  }

  /** The control bytes looked for are the control characters, wherever they stand. */
  lemma {:induction false} ControlsAreCharacters(cs: seq<Scalar>)
    ensures HasControl(EncodedAll(cs)) <==> exists i :: 0 <= i < |cs| && IsControl(cs[i])
  {
    if cs != [] {
      ControlFirst(cs[0], EncodedAll(cs[1..]));
      ControlsAreCharacters(cs[1..]);
      assert forall i :: 1 <= i < |cs| ==> cs[i] == cs[1..][i - 1];
      if exists i :: 0 <= i < |cs| && IsControl(cs[i]) {
        var i :| 0 <= i < |cs| && IsControl(cs[i]);
        if i > 0 { assert IsControl(cs[1..][i - 1]); }
      }
    }
  }

  /** A byte below 0x80 stands for itself: it is there exactly when that character is. */
  lemma {:induction false} AsciiIsItself(cs: seq<Scalar>, b: Byte)
    requires b < 0x80
    ensures b in EncodedAll(cs) <==> b in cs
  {
    if cs != [] {
      AsciiIsItself(cs[1..], b);
      assert b in Encoded(cs[0]) <==> b == cs[0];
    }
  }
}
