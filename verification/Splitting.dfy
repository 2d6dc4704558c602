/** Splitting text at a separator, joining the parts again, and decimal numerals. */
module Splitting {
  import opened Prelude

  function JoinWith<T>(parts: seq<seq<T>>, at: T): seq<T> {
    if parts == [] then []
    else if |parts| == 1 then parts[0]
    else parts[0] + [at] + JoinWith(parts[1..], at)
  }

  /** Never empty, and no part holds the separator. */
  function SplitOn<T(==)>(text: seq<T>, at: T): (parts: seq<seq<T>>)
    ensures parts != []
  {
    if text == [] then [[]]
    else if text[0] == at then [[]] + SplitOn(text[1..], at)
    else
      var rest := SplitOn(text[1..], at);
      [[text[0]] + rest[0]] + rest[1..]
  }

  lemma {:induction false} SplitAtFirst<T>(first: seq<T>, rest: seq<T>, at: T)
    requires at !in first
    ensures SplitOn(first + [at] + rest, at) == [first] + SplitOn(rest, at)
  {
    var whole := first + [at] + rest;
    if first == [] {
      assert whole[1..] == rest;
    } else {
      assert whole[1..] == first[1..] + [at] + rest;
      SplitAtFirst(first[1..], rest, at);
      assert [first[0]] + first[1..] == first;
    }
  }

  lemma {:induction false} SplitWhole<T>(part: seq<T>, at: T)
    requires at !in part
    ensures SplitOn(part, at) == [part]
  {
    if part != [] {
      SplitWhole(part[1..], at);
      assert [part[0]] + part[1..] == part;
    }
  }

  /** Splitting undoes joining. */
  lemma {:induction false} SplitUndoesJoin<T>(parts: seq<seq<T>>, at: T)
    requires parts != [] && forall k :: 0 <= k < |parts| ==> at !in parts[k]
    ensures SplitOn(JoinWith(parts, at), at) == parts
  {
    if |parts| == 1 {
      SplitWhole(parts[0], at);
    } else {
      SplitUndoesJoin(parts[1..], at);
      SplitAtFirst(parts[0], JoinWith(parts[1..], at), at);
    }
  }

  /** Joining undoes splitting, and the parts hold no separator. */
  lemma {:induction false} JoinUndoesSplit<T>(text: seq<T>, at: T)
    ensures JoinWith(SplitOn(text, at), at) == text
    ensures forall k :: 0 <= k < |SplitOn(text, at)| ==> at !in SplitOn(text, at)[k]
  {
    if text != [] {
      JoinUndoesSplit(text[1..], at);
      var rest := SplitOn(text[1..], at);
      assert text == [text[0]] + text[1..];
      if text[0] != at { JoinHeaded(text[0], rest, at); } else { assert ([[]] + rest)[1..] == rest; }
    }
  }

  lemma JoinHeaded<T>(c: T, rest: seq<seq<T>>, at: T)
    requires rest != []
    ensures JoinWith([[c] + rest[0]] + rest[1..], at) == [c] + JoinWith(rest, at)
  {
    assert ([[c] + rest[0]] + rest[1..])[1..] == rest[1..];
  }

  // ---- Decimal numerals --------------------------------------------------------------------------

  predicate IsDigit(c: char) { '0' <= c <= '9' }

  predicate AllDigits(text: string) { forall i :: 0 <= i < |text| ==> IsDigit(text[i]) }

  /** The shortest decimal spelling. */
  function Digits(n: nat): (r: string)
    ensures r != []
  {
    if n < 10 then ["0123456789"[n]] else Digits(n / 10) + ["0123456789"[n % 10]]
  }

  /** Unsigned decimal text, leading zeros included. */
  function Numeral(text: string): Option<nat> {
    if text == "" then None
    else
      var last := text[|text| - 1];
      if !IsDigit(last) then None
      else
        var digit := last as int - '0' as int;
        if |text| == 1 then Some(digit)
        else
          match Numeral(text[..|text| - 1])
          case None => None
          case Some(n) => Some(10 * n + digit)
  }

  function PowerOfTen(n: nat): nat { if n == 0 then 1 else 10 * PowerOfTen(n - 1) }

  /** What the digits are worth at their places, the first weighing most. */
  function Worth(text: string): nat
    requires AllDigits(text)
  {
    if text == "" then 0
    else (text[0] as int - '0' as int) * PowerOfTen(|text| - 1) + Worth(text[1..])
  }

  lemma {:induction false} WorthSnoc(front: string, last: char)
    requires AllDigits(front + [last]) && AllDigits(front)
    ensures Worth(front + [last]) == 10 * Worth(front) + (last as int - '0' as int)
  {
    var text := front + [last];
    if front == "" {
      assert text == [last];
    } else {
      assert text[1..] == front[1..] + [last];
      WorthSnoc(front[1..], last);
      TimesTen(front[0] as int - '0' as int, |front| - 1);
    }
  }

  lemma TimesTen(d: nat, n: nat)
    ensures d * PowerOfTen(n + 1) == 10 * (d * PowerOfTen(n))
  {
    assert PowerOfTen(n + 1) == 10 * PowerOfTen(n);
  }

  /** A numeral is read exactly where all of a text is digits, as what they are worth. */
  lemma {:induction false} NumeralIs(text: string)
    ensures Numeral(text).Some? <==> text != "" && AllDigits(text)
    ensures text != "" && AllDigits(text) ==> Numeral(text) == Some(Worth(text))
  {
    if text != "" {
      var front, last := text[..|text| - 1], text[|text| - 1];
      assert text == front + [last];
      if |text| > 1 { NumeralIs(front); }
      if AllDigits(text) {
        assert AllDigits(front);
        WorthSnoc(front, last);
      }
    }
  }

  /** What is spelled is read back, so distinct numbers are spelled differently. */
  lemma {:induction false} DigitsAreRead(n: nat)
    ensures Numeral(Digits(n)) == Some(n) && AllDigits(Digits(n))
    ensures n > 0 ==> Digits(n)[0] != '0'
  {
    if n >= 10 {
      DigitsAreRead(n / 10);
      assert Digits(n)[..|Digits(n)| - 1] == Digits(n / 10);
    }
  }
}
