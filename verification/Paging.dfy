/** Keyset paging over the job table (src/repair/adapters/sqlite.rs, src/web/api/jobs.rs). */
module Paging {
  import opened Prelude
  import opened JobModel
  import opened Sorting
  import opened Table

  datatype JobSort = UpdatedAt | CreatedAt

  /** Where a page resumes: the sort column's value, and the id that breaks ties on it. */
  datatype Cursor = Cursor(value: Time, id: JobId)

  datatype Query = Query(matches: Row -> bool, sort: JobSort, descending: bool, limit: nat) {

    function Place(j: Job): Cursor {
      Cursor(if sort.UpdatedAt? then j.row.updatedAt else j.row.createdAt, j.id)
    }

    /** Strictly earlier in the direction of the scan: one row-value comparison. */
    predicate Precedes(a: Cursor, b: Cursor) {
      if descending then b.value < a.value || (b.value == a.value && b.id < a.id)
      else a.value < b.value || (a.value == b.value && a.id < b.id)
    }

    predicate Wanted(j: Job, after: Option<Cursor>) {
      matches(j.row) && (after.Some? ==> Precedes(after.value, Place(j)))
    }

    predicate Leq(a: Job, b: Job) { !Precedes(Place(b), Place(a)) }
  }

  function Take<T>(s: seq<T>, n: nat): seq<T> { if |s| <= n then s else s[..n] }

  /** All rows wanted after the cursor, in scan order; a page is the first `limit` of them. */
  function Ordered(table: seq<Job>, q: Query, after: Option<Cursor>): seq<Job> {
    Sort(Keep(table, (j: Job) => q.Wanted(j, after)), (a: Job, b: Job) => q.Leq(a, b))
  }

  function FindJobs(table: seq<Job>, q: Query, after: Option<Cursor>): seq<Job> {
    Take(Ordered(table, q, after), q.limit)
  }

  ghost predicate DistinctIds(table: seq<Job>) {
    forall i, j :: 0 <= i < j < |table| ==> table[i].id != table[j].id
  }

  /** Each element comes strictly before the next in scan order. */
  ghost predicate InScanOrder(s: seq<Job>, q: Query) {
    forall i, j :: 0 <= i < j < |s| ==> q.Precedes(q.Place(s[i]), q.Place(s[j]))
  }

  lemma {:induction false} LeqIsOrder(q: Query)
    ensures IsOrder((a: Job, b: Job) => q.Leq(a, b))
  {
  }

  lemma {:induction false} DistinctIdsCount(table: seq<Job>, x: Job)
    requires DistinctIds(table)
    ensures multiset(table)[x] <= 1
  {
    if table != [] {
      DistinctIdsCount(table[1..], x);
      assert table == [table[0]] + table[1..];
      if table[0] == x { assert x !in table[1..]; }
    }
  }

  /** What the ordered rows are: exactly those wanted, strictly in scan order. */
  lemma {:induction false} OrderedRows(table: seq<Job>, q: Query, after: Option<Cursor>)
    requires DistinctIds(table)
    ensures forall x :: x in Ordered(table, q, after) <==> x in table && q.Wanted(x, after)
    ensures InScanOrder(Ordered(table, q, after), q)
    ensures forall x :: multiset(Ordered(table, q, after))[x] == if x in table && q.Wanted(x, after) then 1 else 0
  {
    var kept, leq := Keep(table, (j: Job) => q.Wanted(j, after)), (a: Job, b: Job) => q.Leq(a, b);
    var all := Ordered(table, q, after);
    LeqIsOrder(q);
    SortPermutes(kept, leq);
    SortSorted(kept, leq);
    forall x
      ensures x in all <==> x in table && q.Wanted(x, after)
      ensures multiset(all)[x] == if x in table && q.Wanted(x, after) then 1 else 0
    {
      SameElements(all, kept, x);
      KeepMember(table, (j: Job) => q.Wanted(j, after), x);
      KeepCounts(table, (j: Job) => q.Wanted(j, after), x);
      DistinctIdsCount(table, x);
      assert x in table <==> multiset(table)[x] > 0;
    }
    forall i, j | 0 <= i < j < |all| ensures q.Precedes(q.Place(all[i]), q.Place(all[j])) {
      assert leq(all[i], all[j]);
      assert all[i] in table && all[j] in table;
      CountedTwice(all, i, j);
      assert multiset(all)[all[i]] <= 1;
      DistinctJobs(table, all[i], all[j]);
    }
  }

  lemma {:induction false} DistinctJobs(table: seq<Job>, a: Job, b: Job)
    requires DistinctIds(table) && a in table && b in table
    ensures a.id == b.id ==> a == b
  {
  }

  // ---- On a fixed table, pages are slices of the one-shot query -------------------------------------

  /** Rows strictly in scan order are determined by which rows they are. */
  lemma {:induction false} ScanOrderUnique(s: seq<Job>, t: seq<Job>, q: Query)
    requires InScanOrder(s, q) && InScanOrder(t, q)
    requires forall x :: x in s <==> x in t
    ensures s == t
  {
    if t != [] { assert t[0] in s; }
    if s != [] {
      assert s[0] in t;
      assert s[0] == t[0];
      forall x ensures x in s[1..] <==> x in t[1..] {
        assert x in s <==> x == s[0] || x in s[1..];
        assert x in t <==> x == t[0] || x in t[1..];
      }
      ScanOrderUnique(s[1..], t[1..], q);
      assert s == [s[0]] + s[1..] && t == [t[0]] + t[1..];
    }
  }

  /** What follows the `n`-th row in scan order is what comes after its place. */
  lemma {:induction false} FollowersComeAfter(all: seq<Job>, q: Query, n: nat)
    requires InScanOrder(all, q) && 0 < n <= |all|
    ensures InScanOrder(all[n..], q)
    ensures forall x :: x in all[n..] <==> x in all && q.Precedes(q.Place(all[n - 1]), q.Place(x))
  {
    forall x ensures x in all[n..] <==> x in all && q.Precedes(q.Place(all[n - 1]), q.Place(x)) {
      if x in all {
        var i :| 0 <= i < |all| && all[i] == x;
        if i >= n { assert all[n..][i - n] == x; }
      }
    }
  }

  /** Resuming after the `n`-th row gives what follows it. */
  lemma {:induction false} ResumesWhereItLeft(table: seq<Job>, q: Query, n: nat)
    requires DistinctIds(table) && 0 < n <= |Ordered(table, q, None)|
    ensures Ordered(table, q, Some(q.Place(Ordered(table, q, None)[n - 1]))) == Ordered(table, q, None)[n..]
  {
    var all := Ordered(table, q, None);
    var cursor := q.Place(all[n - 1]);
    OrderedRows(table, q, None);
    OrderedRows(table, q, Some(cursor));
    FollowersComeAfter(all, q, n);
    hide Ordered, InScanOrder;
    ScanOrderUnique(Ordered(table, q, Some(cursor)), all[n..], q);
  }

  /** A client following cursors until a page comes back short. */
  method FetchAll(table: seq<Job>, q: Query) returns (jobs: seq<Job>)
    requires DistinctIds(table) && q.limit >= 1
    ensures jobs == Sort(Keep(table, (j: Job) => q.Wanted(j, None)), (a: Job, b: Job) => q.Leq(a, b))
  {
    ghost var all := Ordered(table, q, None);
    var cursor: Option<Cursor> := None;
    jobs := [];
    while true
      invariant |jobs| <= |all| && jobs == all[..|jobs|]
      invariant Ordered(table, q, cursor) == all[|jobs|..]
      decreases |all| - |jobs|
    {
      var page := FindJobs(table, q, cursor);
      assert all[..|jobs|] + page == all[..|jobs| + |page|];
      jobs := jobs + page;
      if |page| < q.limit {
        return;
      }
      cursor := Some(q.Place(page[|page| - 1]));
      assert page[|page| - 1] == all[|jobs| - 1];
      ResumesWhereItLeft(table, q, |jobs|);
    }
  }

  // ---- A page on the columns themselves ------------------------------------------------------------------

  /** The scan order of two rows, column by column and direction by direction. */
  lemma {:induction false} PrecedesIs(q: Query, a: Job, b: Job)
    ensures q.sort.UpdatedAt? && q.descending ==>
              (q.Precedes(q.Place(a), q.Place(b))
               <==> a.row.updatedAt > b.row.updatedAt || (a.row.updatedAt == b.row.updatedAt && a.id > b.id))
    ensures q.sort.UpdatedAt? && !q.descending ==>
              (q.Precedes(q.Place(a), q.Place(b))
               <==> a.row.updatedAt < b.row.updatedAt || (a.row.updatedAt == b.row.updatedAt && a.id < b.id))
    ensures q.sort.CreatedAt? && q.descending ==>
              (q.Precedes(q.Place(a), q.Place(b))
               <==> a.row.createdAt > b.row.createdAt || (a.row.createdAt == b.row.createdAt && a.id > b.id))
    ensures q.sort.CreatedAt? && !q.descending ==>
              (q.Precedes(q.Place(a), q.Place(b))
               <==> a.row.createdAt < b.row.createdAt || (a.row.createdAt == b.row.createdAt && a.id < b.id))
  {
  }

  /**
   * A page that resumes after a row: matching rows behind that one, in order, no more than asked for,
   * and fewer only when nothing is left out.
   */
  lemma {:induction false} PageIs(table: seq<Job>, q: Query, last: Job)
    requires DistinctIds(table)
    ensures var page := FindJobs(table, q, Some(q.Place(last)));
            && |page| <= q.limit && InScanOrder(page, q)
            && (forall x :: x in page ==>
                  x in table && q.matches(x.row) && q.Precedes(q.Place(last), q.Place(x)))
            && forall x :: x in table && q.matches(x.row) && q.Precedes(q.Place(last), q.Place(x)) && x !in page ==>
                 |page| == q.limit && forall y :: y in page ==> q.Precedes(q.Place(y), q.Place(x))
  {
    var after := Some(q.Place(last));
    var page := FindJobs(table, q, after);
    FirstPageIs(table, q, after);
    hide FindJobs, Query.Place, Query.Precedes, InScanOrder;
  }

  lemma {:induction false} FirstPageIs(table: seq<Job>, q: Query, after: Option<Cursor>)
    requires DistinctIds(table)
    ensures var page := FindJobs(table, q, after);
            && |page| <= q.limit && InScanOrder(page, q)
            && (forall x :: x in page ==> x in table && q.Wanted(x, after))
            && forall x :: x in table && q.Wanted(x, after) && x !in page ==>
                 |page| == q.limit && forall y :: y in page ==> q.Precedes(q.Place(y), q.Place(x))
  {
    var all, page := Ordered(table, q, after), FindJobs(table, q, after);
    OrderedRows(table, q, after);
    assert page == all[..|page|] && (|page| == q.limit || page == all);
    hide Ordered, FindJobs;
    PrefixInOrder(all, q, |page|);
    hide Query.Wanted, Query.Precedes, Query.Place;
    forall x, y | x in table && q.Wanted(x, after) && x !in page && y in page
      ensures q.Precedes(q.Place(y), q.Place(x))
    {
      var i :| 0 <= i < |page| && page[i] == y;
      var j :| 0 <= j < |all| && all[j] == x;
      assert all[..|page|][i] == all[i];
    }
  }

  // ---- Writes between pages ----------------------------------------------------------------------------

  function CursorAt(pages: seq<seq<Job>>, q: Query, i: nat): Option<Cursor>
    requires i <= |pages|
  {
    if i == 0 || pages[i - 1] == [] then None else Some(q.Place(pages[i - 1][|pages[i - 1]| - 1]))
  }

  /**
   * Page `i` was read off the table as it was then. Every page but the last came back full; the scan
   * may go on after it, or have been given up.
   */
  ghost predicate PagedRun(tables: seq<seq<Job>>, pages: seq<seq<Job>>, q: Query) {
    && |tables| == |pages| > 0 && q.limit >= 1
    && (forall i :: 0 <= i < |pages| ==> DistinctIds(tables[i]))
    && (forall i :: 0 <= i < |pages| - 1 ==> |pages[i]| == q.limit)
    && forall i :: 0 <= i < |pages| ==> pages[i] == FindJobs(tables[i], q, CursorAt(pages, q, i))
  }

  /** The scan has come to its end: the last page came back short. */
  predicate Ended(pages: seq<seq<Job>>, q: Query) { pages != [] && |pages[|pages| - 1]| < q.limit }

  /** No write moves a row to a place the scan has yet to reach. */
  ghost predicate NeverMovesAhead(tables: seq<seq<Job>>, q: Query) {
    forall i, j, x, y :: 0 <= i <= j < |tables| && x in tables[i] && y in tables[j] && x.id == y.id
      ==> !q.Precedes(q.Place(x), q.Place(y))
  }

  /** In scan order, wanted rows only, and whatever is left out comes after a full page's last row. */
  ghost predicate IsPage(table: seq<Job>, q: Query, after: Option<Cursor>, page: seq<Job>) {
    && InScanOrder(page, q)
    && (forall x :: x in page ==> x in table && q.Wanted(x, after))
    && forall x :: x in table && q.Wanted(x, after) && x !in page ==>
         |page| == q.limit && page != [] && q.Precedes(q.Place(page[|page| - 1]), q.Place(x))
  }

  lemma {:induction false} PageRows(table: seq<Job>, q: Query, after: Option<Cursor>)
    requires DistinctIds(table) && q.limit >= 1
    ensures IsPage(table, q, after, FindJobs(table, q, after))
  {
    var all, page := Ordered(table, q, after), FindJobs(table, q, after);
    OrderedRows(table, q, after);
    assert page == all[..|page|] && (|page| == q.limit || page == all);
    hide Ordered, FindJobs;
    PrefixIsPage(table, q, after, all, |page|);
  }

  lemma {:induction false} PrefixIsPage(table: seq<Job>, q: Query, after: Option<Cursor>, all: seq<Job>, n: nat)
    requires InScanOrder(all, q) && forall x :: x in all <==> x in table && q.Wanted(x, after)
    requires n <= |all| && q.limit >= 1 && (n == q.limit || n == |all|)
    ensures IsPage(table, q, after, all[..n])
  {
    PrefixInOrder(all, q, n);
    hide InScanOrder, Query.Wanted, Query.Precedes, Query.Place;
  }

  lemma {:induction false} PrefixInOrder(all: seq<Job>, q: Query, n: nat)
    requires InScanOrder(all, q) && n <= |all|
    ensures InScanOrder(all[..n], q)
    ensures forall x :: x in all[..n] ==> x in all
    ensures forall x :: x in all && x !in all[..n] && n > 0 ==> q.Precedes(q.Place(all[n - 1]), q.Place(x))
    ensures n == |all| ==> all[..n] == all
  {
    forall x | x in all && x !in all[..n] && n > 0 ensures q.Precedes(q.Place(all[n - 1]), q.Place(x)) {
      var i :| 0 <= i < |all| && all[i] == x;
      assert forall k :: 0 <= k < n ==> all[..n][k] == all[k];
    }
  }

  lemma {:induction false} LastComesLast(page: seq<Job>, q: Query, a: Job)
    requires InScanOrder(page, q) && a in page
    ensures a == page[|page| - 1] || q.Precedes(q.Place(a), q.Place(page[|page| - 1]))
  {
    var k :| 0 <= k < |page| && page[k] == a;
  }

  lemma {:induction false} Follows(q: Query, a: Cursor, b: Cursor, c: Cursor)
    requires q.Precedes(a, b) && q.Precedes(b, c)
    ensures q.Precedes(a, c)
  {
  }

  lemma {:induction false} PageOf(tables: seq<seq<Job>>, pages: seq<seq<Job>>, q: Query, i: nat)
    requires PagedRun(tables, pages, q) && i < |pages|
    ensures IsPage(tables[i], q, CursorAt(pages, q, i), pages[i])
    ensures InScanOrder(pages[i], q)
    ensures i < |pages| - 1 ==> pages[i] != []
  {
    hide FindJobs, CursorAt;
    PageRows(tables[i], q, CursorAt(pages, q, i));
  }

  lemma {:induction false} PageHolds(table: seq<Job>, q: Query, last: Cursor, page: seq<Job>, x: Job)
    requires IsPage(table, q, Some(last), page) && x in page
    ensures q.Precedes(last, q.Place(x))
  {
    assert q.Wanted(x, Some(last));
  }

  /** Whatever a page holds comes after the last row of the page before. */
  lemma {:induction false} AfterPageBefore(tables: seq<seq<Job>>, pages: seq<seq<Job>>, q: Query, j: nat, b: Job)
    requires PagedRun(tables, pages, q) && 0 < j < |pages| && b in pages[j]
    ensures pages[j - 1] != [] && InScanOrder(pages[j - 1], q)
    ensures q.Precedes(q.Place(pages[j - 1][|pages[j - 1]| - 1]), q.Place(b))
  {
    hide IsPage, InScanOrder, FindJobs;
    PageOf(tables, pages, q, j);
    PageOf(tables, pages, q, j - 1);
    var last := q.Place(pages[j - 1][|pages[j - 1]| - 1]);
    assert CursorAt(pages, q, j) == Some(last);
    var table, page := tables[j], pages[j];
    hide PagedRun, CursorAt, Query.Precedes, Query.Place;
    PageHolds(table, q, last, page, b);
  }

  /** Whatever a page holds comes after everything an earlier page held. */
  lemma {:induction false} PagesAdvance(
    tables: seq<seq<Job>>, pages: seq<seq<Job>>, q: Query, i: nat, j: nat, a: Job, b: Job)
    requires PagedRun(tables, pages, q) && i < j < |pages| && a in pages[i] && b in pages[j]
    ensures q.Precedes(q.Place(a), q.Place(b))
    decreases j
  {
    hide PagedRun, InScanOrder;
    AfterPageBefore(tables, pages, q, j, b);
    var last := pages[j - 1][|pages[j - 1]| - 1];
    if i < j - 1 {
      PagesAdvance(tables, pages, q, i, j - 1, a, last);
      Follows(q, q.Place(a), q.Place(last), q.Place(b));
    } else {
      LastComesLast(pages[i], q, a);
      if a != last { Follows(q, q.Place(a), q.Place(last), q.Place(b)); }
    }
  }

  /** No row is served twice, whatever is written meanwhile, as long as no write moves one ahead. */
  lemma {:induction false} NoRowTwice(
    tables: seq<seq<Job>>, pages: seq<seq<Job>>, q: Query, i: nat, j: nat, a: Job, b: Job)
    requires PagedRun(tables, pages, q) && NeverMovesAhead(tables, q)
    requires i < j < |pages| && a in pages[i] && b in pages[j]
    ensures a.id != b.id
  {
    PagesAdvance(tables, pages, q, i, j, a, b);
    PageOf(tables, pages, q, i);
    PageOf(tables, pages, q, j);
    assert |tables| == |pages|;
    hide PagedRun;
    assert a in tables[i] && b in tables[j];
  }

  lemma {:induction false} PageMisses(table: seq<Job>, q: Query, after: Option<Cursor>, page: seq<Job>, x: Job)
    requires IsPage(table, q, after, page) && x in table && q.Wanted(x, after) && x !in page
    ensures |page| == q.limit && page != [] && q.Precedes(q.Place(page[|page| - 1]), q.Place(x))
  {
  }

  lemma NextCursor(pages: seq<seq<Job>>, q: Query, i: nat)
    requires i < |pages| && pages[i] != []
    ensures CursorAt(pages, q, i + 1) == Some(q.Place(pages[i][|pages[i]| - 1]))
  {
  }

  /** A row a page leaves out is wanted after that page, which was full. */
  lemma {:induction false} StillWanted(tables: seq<seq<Job>>, pages: seq<seq<Job>>, q: Query, x: Job, i: nat)
    requires PagedRun(tables, pages, q) && Ended(pages, q) && i < |pages| == |tables|
    requires x in tables[i] && x !in pages[i] && q.Wanted(x, CursorAt(pages, q, i))
    ensures i + 1 < |pages| && q.Wanted(x, CursorAt(pages, q, i + 1))
  {
    PageOf(tables, pages, q, i);
    var page, cursor := pages[i], CursorAt(pages, q, i);
    hide PagedRun, IsPage, InScanOrder, CursorAt, Query.Precedes, Query.Place;
    PageMisses(tables[i], q, cursor, page, x);
    NextCursor(pages, q, i);
  }

  lemma {:induction false} ServedBy(
    tables: seq<seq<Job>>, pages: seq<seq<Job>>, q: Query, x: Job, from: nat) returns (i: nat)
    requires PagedRun(tables, pages, q) && Ended(pages, q) && from < |pages|
    requires forall k :: 0 <= k < |tables| ==> x in tables[k]
    requires q.Wanted(x, CursorAt(pages, q, from))
    ensures from <= i < |pages| && x in pages[i]
    decreases |pages| - from
  {
    assert |tables| == |pages|;
    hide PagedRun, CursorAt, Query.Wanted;
    if x in pages[from] {
      i := from;
    } else {
      assert x in tables[from];
      StillWanted(tables, pages, q, x, from);
      i := ServedBy(tables, pages, q, x, from + 1);
    }
  }

  /** A matching row nothing touches is served by exactly one page of a scan that ends. */
  lemma {:induction false} UntouchedRowOnce(
    tables: seq<seq<Job>>, pages: seq<seq<Job>>, q: Query, x: Job) returns (i: nat)
    requires PagedRun(tables, pages, q) && Ended(pages, q)
    requires q.matches(x.row) && forall k :: 0 <= k < |tables| ==> x in tables[k]
    ensures i < |pages| && x in pages[i]
    ensures forall k :: 0 <= k < |pages| && x in pages[k] ==> k == i
  {
    i := ServedBy(tables, pages, q, x, 0);
    forall k | 0 <= k < |pages| && x in pages[k] ensures k == i {
      if k < i { PagesAdvance(tables, pages, q, k, i, x, x); }
      if i < k { PagesAdvance(tables, pages, q, i, k, x, x); }
    }
  }

  /** Descending by update time, it is enough that update times are never lowered. */
  lemma {:induction false} DescendingNeedsNoLowering(tables: seq<seq<Job>>, q: Query)
    requires q.descending
    requires forall i, j, x, y :: 0 <= i <= j < |tables| && x in tables[i] && y in tables[j] && x.id == y.id
               ==> q.Place(x).value <= q.Place(y).value
    ensures NeverMovesAhead(tables, q)
  {
  }

  /** Ascending by update time, a row touched between pages is served again. */
  lemma {:induction false} AscendingServesTwice(row: Row, q: Query)
    requires q.limit == 1 && q.sort.UpdatedAt? && !q.descending && forall r :: q.matches(r)
    ensures var first, other := Job(1, row.(updatedAt := 1)), Job(2, row.(updatedAt := 2));
            var touched := Job(1, row.(updatedAt := 3));
            && FindJobs([first, other], q, None) == [first]
            && FindJobs([touched, other], q, Some(q.Place(first))) == [other]
            && FindJobs([touched, other], q, Some(q.Place(other))) == [touched]
  {
    var first, other := Job(1, row.(updatedAt := 1)), Job(2, row.(updatedAt := 2));
    var touched := Job(1, row.(updatedAt := 3));
    OnlyPage([first, other], q, None, first);
    OnlyPage([touched, other], q, Some(q.Place(first)), other);
    OnlyPage([touched, other], q, Some(q.Place(other)), touched);
  }

  /** With one row a page, the page is the wanted row no other precedes. */
  lemma {:induction false} OnlyPage(table: seq<Job>, q: Query, after: Option<Cursor>, x: Job)
    requires DistinctIds(table) && q.limit == 1 && x in table && q.Wanted(x, after)
    requires forall y :: y in table && q.Wanted(y, after) ==> !q.Precedes(q.Place(y), q.Place(x))
    ensures FindJobs(table, q, after) == [x]
  {
    PageRows(table, q, after);
    var page := FindJobs(table, q, after);
    assert |page| <= 1;
    hide FindJobs;
    assert page != [] ==> page[0] in page;
    assert x in page;
  }

  /** Writes between pages leave a row's creation time alone and never lower its update time. */
  ghost predicate HonestWrites(tables: seq<seq<Job>>) {
    forall i, j, x, y :: 0 <= i <= j < |tables| && x in tables[i] && y in tables[j] && x.id == y.id
      ==> x.row.createdAt == y.row.createdAt && x.row.updatedAt <= y.row.updatedAt
  }

  /** Scans by this column in this direction never serve a row twice. */
  ghost predicate NeverRepeats(sort: JobSort, descending: bool) {
    forall q: Query, tables, pages, i: nat, j: nat, a: Job, b: Job ::
      q.sort == sort && q.descending == descending && HonestWrites(tables) && PagedRun(tables, pages, q)
      && i < j < |pages| && a in pages[i] && b in pages[j]
      ==> a.id != b.id
  }

  lemma {:induction false} HonestNeverMovesAhead(tables: seq<seq<Job>>, q: Query)
    requires HonestWrites(tables) && (q.descending || q.sort.CreatedAt?)
    ensures NeverMovesAhead(tables, q)
  {
  }

  function Listed(id: JobId, updatedAt: Time): Job {
    Job(id, NewRow(HitAndRun("", "", "", None, None, None), 0).(updatedAt := updatedAt))
  }

  /** A row touched while the second page was being read is served again on the third. */
  lemma {:induction false} TouchedBetweenPages() returns (tables: seq<seq<Job>>, pages: seq<seq<Job>>, q: Query)
    ensures q.sort.UpdatedAt? && !q.descending && HonestWrites(tables) && PagedRun(tables, pages, q)
    ensures |pages| == 3 && Listed(1, 1) in pages[0] && Listed(1, 3) in pages[2]
  {
    q := Query(_ => true, UpdatedAt, false, 1);
    var first, other, touched := Listed(1, 1), Listed(2, 2), Listed(1, 3);
    var was, now := [first, other], [touched, other];
    tables, pages := [was, now, now], [[first], [other], [touched]];
    AscendingServesTwice(first.row, q);
    TouchIsHonest(tables, was, now);
    hide FindJobs, HonestWrites;
    ThreePages(was, now, first, other, touched, q);
  }

  lemma {:induction false} ThreePages(
    was: seq<Job>, now: seq<Job>, first: Job, other: Job, touched: Job, q: Query)
    requires q.limit == 1 && DistinctIds(was) && DistinctIds(now)
    requires FindJobs(was, q, None) == [first] && FindJobs(now, q, Some(q.Place(first))) == [other]
    requires FindJobs(now, q, Some(q.Place(other))) == [touched]
    ensures PagedRun([was, now, now], [[first], [other], [touched]], q)
  {
    hide FindJobs, DistinctIds;
    var tables, pages := [was, now, now], [[first], [other], [touched]];
    forall k | 0 <= k < 3 ensures pages[k] == FindJobs(tables[k], q, CursorAt(pages, q, k)) {
      assert k == 0 || k == 1 || k == 2;
    }
  }

  lemma {:induction false} TouchIsHonest(tables: seq<seq<Job>>, was: seq<Job>, now: seq<Job>)
    requires was == [Listed(1, 1), Listed(2, 2)] && now == [Listed(1, 3), Listed(2, 2)]
    requires |tables| > 0 && tables[0] == was && forall i :: 0 < i < |tables| ==> tables[i] == now
    ensures HonestWrites(tables)
  {
    forall i, j, x, y | 0 <= i <= j < |tables| && x in tables[i] && y in tables[j] && x.id == y.id
      ensures x.row.createdAt == y.row.createdAt && x.row.updatedAt <= y.row.updatedAt
    {
      assert x in was || x in now;
      assert j == 0 ==> i == 0;
    }
  }

  /** No row is served twice exactly when the scan is descending or goes by creation time. */
  lemma {:induction false} NeverRepeatsIff(sort: JobSort, descending: bool)
    ensures NeverRepeats(sort, descending) <==> descending || sort.CreatedAt?
  {
    if descending || sort.CreatedAt? {
      forall q: Query, tables, pages, i: nat, j: nat, a: Job, b: Job |
        q.sort == sort && q.descending == descending && HonestWrites(tables) && PagedRun(tables, pages, q)
        && i < j < |pages| && a in pages[i] && b in pages[j]
        ensures a.id != b.id
      {
        HonestNeverMovesAhead(tables, q);
        NoRowTwice(tables, pages, q, i, j, a, b);
      }
    } else {
      var tables, pages, q := TouchedBetweenPages();
      hide PagedRun, HonestWrites;
      var i: nat, j: nat := 0, 2;
      assert Listed(1, 1) in pages[i] && Listed(1, 3) in pages[j];
    }
  }

  // ---- What the store writes is honest --------------------------------------------------------------------

  /** When a write stamps the rows it touches; lease bookkeeping stamps none. */
  function StampOf(w: Write): Option<Time> {
    match w
    case Discovering(_, at) => Some(at)
    case Swap(_, _, _, at) => Some(at)
    case ResumePoint(_, _, at) => Some(at)
    case Telemetry(_, _, at) => Some(at)
    case Releasing(_, _, _, at) => Some(at)
    case _ => None
  }

  /** The clock never goes back from one write to the next. */
  ghost predicate InOrder(ws: seq<Write>) {
    forall i, j :: 0 <= i < j < |ws| && StampOf(ws[i]).Some? && StampOf(ws[j]).Some? ==>
      StampOf(ws[i]).value <= StampOf(ws[j]).value
  }

  /** No row is stamped later than any write from the `n`-th on, and new ids are new. */
  ghost predicate Behind(t: Tables, ws: seq<Write>, n: nat) {
    && (forall id :: id in t.rows ==> id < t.nextId)
    && forall id, j :: id in t.rows && n <= j < |ws| && StampOf(ws[j]).Some? ==>
         t.rows[id].updatedAt <= StampOf(ws[j]).value
  }

  /** Rows stay, keep their creation time and are never stamped earlier. */
  ghost predicate StampsKept(t: Tables, u: Tables) {
    forall id :: id in t.rows ==>
      id in u.rows && u.rows[id].createdAt == t.rows[id].createdAt && t.rows[id].updatedAt <= u.rows[id].updatedAt
  }

  /** What a write does to stamps: those of rows that were there, and of the one it adds. */
  lemma WriteStamps(t: Tables, w: Write)
    requires forall id :: id in t.rows ==> id < t.nextId
    ensures var u := Do(t, w);
            && (forall id :: id in u.rows ==> id < u.nextId)
            && (forall id :: id in t.rows ==> id in u.rows && u.rows[id].createdAt == t.rows[id].createdAt)
            && forall id :: id in u.rows ==>
                 || (id in t.rows && u.rows[id].updatedAt == t.rows[id].updatedAt)
                 || Some(u.rows[id].updatedAt) == StampOf(w)
  {
    hide PatchAll, PatchScalars, Admissible, IsStaleLease;
  }

  lemma WriteKeepsBehind(t: Tables, ws: seq<Write>, n: nat)
    requires n < |ws| && InOrder(ws) && Behind(t, ws, n)
    ensures Behind(Do(t, ws[n]), ws, n + 1) && StampsKept(t, Do(t, ws[n]))
  {
    WriteStamps(t, ws[n]);
    hide Do, StampOf;
  }

  lemma {:induction false} RunKeepsBehind(t: Tables, ws: seq<Write>, m: nat, n: nat)
    requires m <= n <= |ws| && InOrder(ws) && Behind(t, ws, 0)
    ensures Behind(Run(t, ws[..n]), ws, n) && StampsKept(Run(t, ws[..m]), Run(t, ws[..n]))
    decreases n
  {
    hide Do, StampOf, InOrder;
    if n > 0 {
      RunKeepsBehind(t, ws, if m < n then m else n - 1, n - 1);
      assert ws[..n] == ws[..n - 1] + [ws[n - 1]];
      RunSnoc(t, ws[..n - 1], ws[n - 1]);
      WriteKeepsBehind(Run(t, ws[..n - 1]), ws, n - 1);
      hide Run;
    } else {
      assert ws[..0] == [];
    }
  }

  /** Listings of the table taken one after another, the `i`-th after `cuts[i]` of the writes. */
  ghost predicate ReadDuring(tables: seq<seq<Job>>, t: Tables, ws: seq<Write>, cuts: seq<nat>) {
    && |cuts| == |tables| && (forall i :: 0 <= i < |cuts| ==> cuts[i] <= |ws|)
    && (forall i, j :: 0 <= i < j < |cuts| ==> cuts[i] <= cuts[j])
    && forall i, x :: 0 <= i < |tables| && x in tables[i] ==>
         x.id in Run(t, ws[..cuts[i]]).rows && Run(t, ws[..cuts[i]]).rows[x.id] == x.row
  }

  /** Whatever writes the store executes between pages, they are honest as long as the clock never goes back. */
  lemma {:induction false} StoreWritesAreHonest(tables: seq<seq<Job>>, t: Tables, ws: seq<Write>, cuts: seq<nat>)
    requires ReadDuring(tables, t, ws, cuts) && InOrder(ws) && Behind(t, ws, 0)
    ensures HonestWrites(tables)
  {
    forall i, j, x, y | 0 <= i <= j < |tables| && x in tables[i] && y in tables[j] && x.id == y.id
      ensures x.row.createdAt == y.row.createdAt && x.row.updatedAt <= y.row.updatedAt
    {
      RunKeepsBehind(t, ws, cuts[i], cuts[j]);
      hide Run, Behind, InOrder;
    }
  }
}
