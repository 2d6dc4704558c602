/** Stable sorting by a total preorder, and why its result does not depend on the input order. */
module Sorting {

  ghost predicate IsOrder<T(!new)>(leq: (T, T) -> bool) {
    && (forall x, y :: leq(x, y) || leq(y, x))
    && (forall x, y, z :: leq(x, y) && leq(y, z) ==> leq(x, z))
  }

  /** `x` goes in front of the first element it is not after, so equal elements keep their order. */
  function Insert<T>(x: T, s: seq<T>, leq: (T, T) -> bool): (r: seq<T>)
    ensures |r| == |s| + 1
  {
    if s == [] then [x]
    else if leq(x, s[0]) then [x] + s
    else [s[0]] + Insert(x, s[1..], leq)
  }

  function Sort<T>(s: seq<T>, leq: (T, T) -> bool): (r: seq<T>)
    ensures |r| == |s|
  {
    if s == [] then [] else Insert(s[0], Sort(s[1..], leq), leq)
  }

  ghost predicate Sorted<T>(s: seq<T>, leq: (T, T) -> bool) {
    forall i, j :: 0 <= i < j < |s| ==> leq(s[i], s[j])
  }

  lemma {:induction false} InsertPermutes<T>(x: T, s: seq<T>, leq: (T, T) -> bool)
    ensures multiset(Insert(x, s, leq)) == multiset(s) + multiset{x}
  {
    if s != [] {
      assert s == [s[0]] + s[1..];
      InsertPermutes(x, s[1..], leq);
    }
  }

  lemma {:induction false} SortPermutes<T>(s: seq<T>, leq: (T, T) -> bool)
    ensures multiset(Sort(s, leq)) == multiset(s)
  {
    if s != [] {
      assert s == [s[0]] + s[1..];
      SortPermutes(s[1..], leq);
      InsertPermutes(s[0], Sort(s[1..], leq), leq);
    }
  }

  lemma SameElements<T>(s: seq<T>, t: seq<T>, x: T)
    requires multiset(s) == multiset(t)
    ensures x in s <==> x in t
  {
    assert x in s <==> x in multiset(s);
    assert x in t <==> x in multiset(t);
  }

  lemma {:induction false} InsertSorted<T(!new)>(x: T, s: seq<T>, leq: (T, T) -> bool)
    requires IsOrder(leq) && Sorted(s, leq)
    ensures Sorted(Insert(x, s, leq), leq)
  {
    if s != [] && !leq(x, s[0]) {
      InsertSorted(x, s[1..], leq);
      var rest := Insert(x, s[1..], leq);
      forall j | 0 <= j < |rest| ensures leq(s[0], rest[j]) {
        InsertPermutes(x, s[1..], leq);
        assert rest[j] in multiset(rest);
        assert rest[j] in multiset(s[1..]) || rest[j] == x;
      }
    }
  }

  lemma {:induction false} SortSorted<T(!new)>(s: seq<T>, leq: (T, T) -> bool)
    requires IsOrder(leq)
    ensures Sorted(Sort(s, leq), leq)
  {
    if s != [] {
      SortSorted(s[1..], leq);
      InsertSorted(s[0], Sort(s[1..], leq), leq);
    }
  }

  lemma LeastComesFirst<T(!new)>(s: seq<T>, x: T, leq: (T, T) -> bool)
    requires Sorted(s, leq) && x in s
    ensures leq(s[0], x) || s[0] == x
  {
    var i :| 0 <= i < |s| && s[i] == x;
  }

  lemma WithoutHead<T>(s: seq<T>, t: seq<T>)
    requires s != [] && t != [] && s[0] == t[0] && multiset(s) == multiset(t)
    ensures multiset(s[1..]) == multiset(t[1..])
  {
    assert s == [s[0]] + s[1..] && t == [t[0]] + t[1..];
    assert multiset(s[1..]) == multiset(s) - multiset{s[0]};
    assert multiset(t[1..]) == multiset(t) - multiset{s[0]};
  }

  /** Two sorted arrangements of the same elements agree once equal keys mean equal elements. */
  lemma {:induction false} SortedUnique<T(!new)>(s: seq<T>, t: seq<T>, leq: (T, T) -> bool)
    requires Sorted(s, leq) && Sorted(t, leq) && multiset(s) == multiset(t)
    requires forall x, y :: x in s && y in s && leq(x, y) && leq(y, x) ==> x == y
    ensures s == t
  {
    assert |s| == |multiset(s)| == |multiset(t)| == |t|;
    if s != [] {
      SameElements(s, t, s[0]);
      SameElements(s, t, t[0]);
      LeastComesFirst(s, t[0], leq);
      LeastComesFirst(t, s[0], leq);
      WithoutHead(s, t);
      SortedUnique(s[1..], t[1..], leq);
      assert s == [s[0]] + s[1..] && t == [t[0]] + t[1..];
    }
  }

  /** Sorting forgets the order the elements came in. */
  lemma SortForgetsOrder<T(!new)>(s: seq<T>, t: seq<T>, leq: (T, T) -> bool)
    requires IsOrder(leq) && multiset(s) == multiset(t)
    requires forall x, y :: x in s && y in s && leq(x, y) && leq(y, x) ==> x == y
    ensures Sort(s, leq) == Sort(t, leq)
  {
    SortSorted(s, leq);
    SortSorted(t, leq);
    SortPermutes(s, leq);
    SortPermutes(t, leq);
    forall x, y | x in Sort(s, leq) && y in Sort(s, leq) && leq(x, y) && leq(y, x) ensures x == y {
      SameElements(s, Sort(s, leq), x);
      SameElements(s, Sort(s, leq), y);
    }
    SortedUnique(Sort(s, leq), Sort(t, leq), leq);
  }

  // ---- Lexicographic order on text and on paths ------------------------------------------

  /** Byte order of UTF-8 text is code point order. */
  predicate TextLeq(a: string, b: string) {
    a == [] || (b != [] && (a[0] < b[0] || (a[0] == b[0] && TextLeq(a[1..], b[1..]))))
  }

  lemma {:induction false} TextLeqTotal(a: string, b: string)
    ensures TextLeq(a, b) || TextLeq(b, a)
    ensures TextLeq(a, b) && TextLeq(b, a) ==> a == b
  {
    if a != [] && b != [] && a[0] == b[0] {
      TextLeqTotal(a[1..], b[1..]);
      assert a == [a[0]] + a[1..] && b == [b[0]] + b[1..];
    }
  }

  lemma {:induction false} TextLeqTransitive(a: string, b: string, c: string)
    requires TextLeq(a, b) && TextLeq(b, c)
    ensures TextLeq(a, c)
  {
    if a != [] && b != [] && c != [] && a[0] == b[0] == c[0] {
      TextLeqTransitive(a[1..], b[1..], c[1..]);
    }
  }

  /** Component by component. */
  predicate PathLeq(a: seq<string>, b: seq<string>) {
    a == [] || (b != [] && ((TextLeq(a[0], b[0]) && a[0] != b[0])
                            || (a[0] == b[0] && PathLeq(a[1..], b[1..]))))
  }

  lemma {:induction false} PathLeqTotal(a: seq<string>, b: seq<string>)
    ensures PathLeq(a, b) || PathLeq(b, a)
    ensures PathLeq(a, b) && PathLeq(b, a) ==> a == b
  {
    if a != [] && b != [] {
      TextLeqTotal(a[0], b[0]);
      if a[0] == b[0] {
        PathLeqTotal(a[1..], b[1..]);
        assert a == [a[0]] + a[1..] && b == [b[0]] + b[1..];
      }
    }
  }

  lemma {:induction false} PathLeqTransitive(a: seq<string>, b: seq<string>, c: seq<string>)
    requires PathLeq(a, b) && PathLeq(b, c)
    ensures PathLeq(a, c)
  {
    if a != [] && b != [] && c != [] {
      if a[0] == b[0] == c[0] {
        PathLeqTransitive(a[1..], b[1..], c[1..]);
      } else {
        TextLeqTotal(a[0], b[0]);
        TextLeqTotal(b[0], c[0]);
        if a[0] != b[0] && b[0] != c[0] {
          TextLeqTransitive(a[0], b[0], c[0]);
          TextLeqTotal(a[0], c[0]);
        }
      }
    }
  }

  /** One text comes before another as a prefix of it, or by a lesser character where they first part. */
  lemma {:induction false} TextLeqIs(a: string, b: string)
    ensures TextLeq(a, b) <==> a <= b || exists i :: PartsBelow(a, b, i)
  {
    if a != [] && b != [] && a[0] == b[0] {
      TextLeqIs(a[1..], b[1..]);
      forall i: nat ensures PartsBelow(a[1..], b[1..], i) <==> PartsBelow(a, b, i + 1) {
        assert i < |a[1..]| && i < |b[1..]| ==>
            (a[..i + 1] == [a[0]] + a[1..][..i] && b[..i + 1] == [b[0]] + b[1..][..i]);
      }
      if i: nat :| PartsBelow(a, b, i) { assert i > 0 && PartsBelow(a[1..], b[1..], i - 1); }
      if i: nat :| PartsBelow(a[1..], b[1..], i) { assert PartsBelow(a, b, i + 1); }
    } else if a != [] && b != [] {
      if a[0] < b[0] { assert a[..0] == b[..0] && PartsBelow(a, b, 0); }
      if i: nat :| PartsBelow(a, b, i) { assert i > 0 ==> a[..i][0] == b[..i][0]; }
    }
  }

  predicate PartsBelow(a: string, b: string, i: nat) {
    i < |a| && i < |b| && a[..i] == b[..i] && a[i] < b[i]
  }

  /** One path comes before another as its ancestor, or by a lesser component where they first part. */
  lemma {:induction false} PathLeqIs(a: seq<string>, b: seq<string>)
    ensures PathLeq(a, b) <==> a <= b || exists i :: BranchesBelow(a, b, i)
  {
    if a != [] && b != [] && a[0] == b[0] {
      PathLeqIs(a[1..], b[1..]);
      if i: nat :| BranchesBelow(a, b, i) {
        assert i > 0;
        assert a[..i] == [a[0]] + a[1..][..i - 1] && b[..i] == [b[0]] + b[1..][..i - 1];
        assert a[..i][1..] == b[..i][1..];
        assert BranchesBelow(a[1..], b[1..], i - 1);
      }
      if i: nat :| BranchesBelow(a[1..], b[1..], i) {
        assert a[..i + 1] == [a[0]] + a[1..][..i] && b[..i + 1] == [b[0]] + b[1..][..i];
        assert BranchesBelow(a, b, i + 1);
      }
    } else if a != [] && b != [] {
      if TextLeq(a[0], b[0]) { assert a[..0] == b[..0] && BranchesBelow(a, b, 0); }
      if i: nat :| BranchesBelow(a, b, i) { assert i > 0 ==> a[..i][0] == b[..i][0]; }
    }
  }

  predicate BranchesBelow(a: seq<string>, b: seq<string>, i: nat) {
    i < |a| && i < |b| && a[..i] == b[..i] && a[i] != b[i] && TextLeq(a[i], b[i])
  }
}
