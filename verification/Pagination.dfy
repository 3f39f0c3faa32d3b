/** `GET /logs`: an offset page for the first request and for the footer, keyset pages after a
    cursor. A table is the set of the ids that match the (fixed) filters; ids are
    primary keys, rows are never deleted or changed, so a table only grows. */
module Pagination {
  import opened Basics

  const MAX_PAGE_SIZE := 100

  /** What `list_logs` returns, with each item standing for its id. */
  datatype Page = Page(items: seq<nat>, total: nat, nextCursor: Option<int>, pageSize: nat, page: int)

  // ----- newest first -----

  ghost predicate IsMax(m: nat, s: set<nat>) {
    m in s && forall x :: x in s ==> x <= m
  }

  lemma {:induction false} MaxExists(s: set<nat>)
    requires s != {}
    ensures exists m :: IsMax(m, s)
    decreases s
  {
    var x :| x in s;
    if s == {x} {
      assert IsMax(x, s);
    } else {
      MaxExists(s - {x});
      var y :| IsMax(y, s - {x});
      assert forall z :: z in s ==> z == x || z in s - {x};
      if x < y { assert IsMax(y, s); } else { assert IsMax(x, s); }
    }
  }

  lemma MaxUnique(a: nat, b: nat, s: set<nat>)
    requires IsMax(a, s) && IsMax(b, s)
    ensures a == b
  {
  }

  ghost function Max(s: set<nat>): (m: nat)
    requires s != {}
    ensures IsMax(m, s)
  {
    MaxExists(s);
    var m :| IsMax(m, s);
    m
  }

  /** ORDER BY id DESC. */
  ghost function Newest(s: set<nat>): (r: seq<nat>)
    decreases s
  {
    if s == {} then [] else [Max(s)] + Newest(s - {Max(s)})
  }

  ghost predicate Decreasing(xs: seq<nat>) {
    forall i, j :: 0 <= i < j < |xs| ==> xs[i] > xs[j]
  }

  /** The ids below a cursor. */
  ghost function Below(s: set<nat>, c: int): set<nat> {
    set x | x in s && x < c
  }

  lemma {:induction false} NewestIsSorted(s: set<nat>)
    ensures Decreasing(Newest(s)) && |Newest(s)| == |s|
    ensures forall x :: x in Newest(s) <==> x in s
    decreases s
  {
    if s != {} {
      var rest := s - {Max(s)};
      NewestIsSorted(rest);
      assert Newest(s) == [Max(s)] + Newest(rest);
      forall i, j | 0 <= i < j < |Newest(s)| ensures Newest(s)[i] > Newest(s)[j] {
        assert Newest(s)[j] == Newest(rest)[j - 1] && Newest(rest)[j - 1] in Newest(rest);
        assert Newest(s)[j] in rest;
      }
    }
  }

  ghost predicate ListsDown(xs: seq<nat>, s: set<nat>) {
    Decreasing(xs) && forall x :: x in xs <==> x in s
  }

  lemma HeadIsMax(xs: seq<nat>, s: set<nat>)
    requires ListsDown(xs, s) && xs != []
    ensures s != {} && Max(s) == xs[0]
  {
    assert xs[0] in s;
    forall x | x in s ensures x <= xs[0] {
      var i :| 0 <= i < |xs| && xs[i] == x;
    }
    MaxUnique(xs[0], Max(s), s);
  }

  lemma TailListsDown(xs: seq<nat>, s: set<nat>)
    requires ListsDown(xs, s) && xs != []
    ensures ListsDown(xs[1..], s - {xs[0]})
  {
    forall x ensures x in xs[1..] <==> x in s - {xs[0]} {
      if x in s - {xs[0]} {
        var i :| 0 <= i < |xs| && xs[i] == x;
        assert xs[1..][i - 1] == x;
      }
    }
  }

  /** A decreasing listing of a set is its newest-first listing. */
  lemma {:induction false} SortedIsNewest(xs: seq<nat>, s: set<nat>)
    requires ListsDown(xs, s)
    ensures xs == Newest(s)
    decreases |xs|
  {
    if xs == [] {
      assert s == {};
    } else {
      HeadIsMax(xs, s);
      TailListsDown(xs, s);
      SortedIsNewest(xs[1..], s - {xs[0]});
    }
  }

  lemma NewestSize(s: set<nat>)
    ensures |Newest(s)| == |s|
  {
    NewestIsSorted(s);
  }

  /** In a decreasing listing, what is less than the i-th element is what follows it. */
  lemma SuffixIsBelow(xs: seq<nat>, i: nat, x: nat)
    requires Decreasing(xs) && i < |xs|
    ensures x in xs[i + 1..] <==> x in xs && x < xs[i]
  {
    if x in xs && x < xs[i] {
      var j :| 0 <= j < |xs| && xs[j] == x;
      assert xs[i + 1..][j - (i + 1)] == x;
    }
    if x in xs[i + 1..] {
      var j :| 0 <= j < |xs| - (i + 1) && xs[i + 1..][j] == x;
      assert xs[i + 1 + j] == x;
    }
  }

  lemma SuffixDecreasing(xs: seq<nat>, i: nat)
    requires Decreasing(xs) && i <= |xs|
    ensures Decreasing(xs[i..])
  {
  }

  /** What lies below the i-th row of a listing is the rest of the listing. */
  lemma NewestBelow(s: set<nat>, i: nat)
    requires i < |s|
    ensures |Newest(s)| == |s| && Newest(Below(s, Newest(s)[i])) == Newest(s)[i + 1..]
  {
    NewestIsSorted(s);
    SuffixDecreasing(Newest(s), i + 1);
    forall x ensures x in Newest(s)[i + 1..] <==> x in Below(s, Newest(s)[i]) {
      SuffixIsBelow(Newest(s), i, x);
    }
    SortedIsNewest(Newest(s)[i + 1..], Below(s, Newest(s)[i]));
  }

  // ----- list_logs -----

  function ClampSize(pageSize: int): (n: nat)
    ensures 1 <= n <= MAX_PAGE_SIZE && (1 <= pageSize <= MAX_PAGE_SIZE ==> n == pageSize)
    ensures (pageSize < 1 ==> n == 1) && (pageSize > MAX_PAGE_SIZE ==> n == MAX_PAGE_SIZE)
  {
    var atLeast := if pageSize < 1 then 1 else pageSize;
    if atLeast > MAX_PAGE_SIZE then MAX_PAGE_SIZE else atLeast
  }

  function Take(xs: seq<nat>, n: nat): seq<nat> {
    if n <= |xs| then xs[..n] else xs
  }

  function Drop(xs: seq<nat>, n: nat): seq<nat> {
    if n <= |xs| then xs[n..] else []
  }

  /** Whenever the offset path announces a next page, its page is full: `items[-1]` is never
      taken on an empty list, even when rows are inserted between the two statements. */
  lemma OffsetPageIsFull(counted: set<nat>, read: set<nat>, number: int, size: nat)
    requires counted <= read && number >= 1 && size >= 1
    ensures (number - 1) * size >= 0
    ensures number * size < |counted| ==> |Take(Drop(Newest(read), (number - 1) * size), size)| == size
  {
    SubsetSize(counted, read);
    NewestIsSorted(read);
    assert number * size == (number - 1) * size + size;
  }

  /** `list_logs`. The count and the rows are two statements, so they may see two tables; that
      the second contains the first is what makes `items[-1]` safe. */
  ghost function ListLogs(counted: set<nat>, read: set<nat>, cursor: Option<int>, page: int, pageSize: int): Page
    requires counted <= read
  {
    var size := ClampSize(pageSize);
    var total := |counted|;
    if cursor.Some? then
      var rows := Take(Newest(Below(read, cursor.value)), size + 1);
      var items := Take(rows, size);
      Page(items, total, if |rows| > size then Some(items[|items| - 1]) else None, size, page)
    else
      var number := if page < 1 then 1 else page;
      var items := Take(Drop(Newest(read), (number - 1) * size), size);
      OffsetPageIsFull(counted, read, number, size);
      Page(items, total, if number * size < total then Some(items[|items| - 1]) else None, size, number)
  }

  // ----- the keyset page -----

  /** What lies below the last row of a full page is the listing after the page. */
  lemma RestAfterPage(read: set<nat>, cursor: int, size: nat)
    requires size >= 1 && |Below(read, cursor)| > size
    ensures var rest := Newest(Below(read, cursor));
      && |rest| > size && Take(rest, size)[size - 1] == rest[size - 1]
      && 0 <= rest[size - 1] < cursor && rest[size - 1] in read
      && Newest(Below(read, rest[size - 1])) == Drop(rest, size)
  {
    var below := Below(read, cursor);
    NewestIsSorted(below);
    NewestBelow(below, size - 1);
    assert Newest(below)[size - 1] in Newest(below);
    assert Below(read, Newest(below)[size - 1]) == Below(below, Newest(below)[size - 1]);
  }

  /** A keyset page is the newest `size` rows below its cursor, and it names its last row as the next
      cursor exactly when rows remain below it. */
  lemma KeysetPage(counted: set<nat>, read: set<nat>, cursor: int, pageSize: int)
    requires counted <= read
    ensures var p := ListLogs(counted, read, Some(cursor), 1, pageSize); var rest := Newest(Below(read, cursor));
      && p.items == Take(rest, p.pageSize) && p.pageSize == ClampSize(pageSize) && p.total == |counted|
      && (p.nextCursor.Some? <==> |rest| > p.pageSize)
      && (p.nextCursor.Some? ==> p.items != [] && p.nextCursor.value == p.items[|p.items| - 1]
                                 && 0 <= p.nextCursor.value < cursor && p.nextCursor.value in read
                                 && Newest(Below(read, p.nextCursor.value)) == Drop(rest, p.pageSize))
  {
    var size := ClampSize(pageSize);
    var rest := Newest(Below(read, cursor));
    NewestSize(Below(read, cursor));
    assert Take(Take(rest, size + 1), size) == Take(rest, size);
    if |rest| > size { RestAfterPage(read, cursor, size); }
  }

  /** What every answer says about itself: the total is the count of the whole filtered table, with a cursor as
      without one; the page size is the clamped one; and a page below 1 is page 1. */
  lemma PageHeader(counted: set<nat>, read: set<nat>, cursor: Option<int>, page: int, pageSize: int)
    requires counted <= read
    ensures var p := ListLogs(counted, read, cursor, page, pageSize);
      && p.total == |counted| && p.pageSize == ClampSize(pageSize)
      && (cursor.None? && page < 1 ==> p == ListLogs(counted, read, None, 1, pageSize))
      && (cursor.None? && page >= 1 ==> p.page == page)
      && (cursor.Some? ==> p.page == page && p == ListLogs(counted, read, cursor, 1, pageSize).(page := page))
  {
  }

  /** The page that starts at row `start` of a listing. */
  ghost function PageAt(table: set<nat>, start: nat, size: nat): seq<nat> {
    Take(Drop(Newest(table), start), size)
  }

  /** The cursor to the rows from `end` on: the row before them, when there are any. */
  ghost function CursorTo(table: set<nat>, end: nat): Option<int>
    requires end >= 1
  {
    NewestSize(table);
    if end < |table| then Some(Newest(table)[end - 1]) else None
  }

  lemma NextStart(page: int, size: nat, start: nat)
    requires start == (page - 1) * size
    ensures page * size == start + size
  {
  }

  lemma LastOfPage(table: set<nat>, start: nat, size: nat)
    requires size >= 1 && start + size < |table|
    ensures |PageAt(table, start, size)| == size && |Newest(table)| == |table|
    ensures PageAt(table, start, size)[size - 1] == Newest(table)[start + size - 1]
  {
    NewestSize(table);
  }

  /** An offset page starts at row `start`, and its cursor leads to the row after it. */
  lemma OffsetPage(table: set<nat>, page: int, pageSize: int, start: nat)
    requires page >= 1 && start == (page - 1) * ClampSize(pageSize)
    ensures var p := ListLogs(table, table, None, page, pageSize);
      && p.items == PageAt(table, start, p.pageSize) && p.pageSize == ClampSize(pageSize)
      && p.nextCursor == CursorTo(table, start + p.pageSize)
  {
    var size := ClampSize(pageSize);
    NextStart(page, size, start);
    OffsetPageIsFull(table, table, page, size);
    if start + size < |table| { LastOfPage(table, start, size); }
  }

  lemma RestBelowCursor(table: set<nat>, start: nat)
    requires 1 <= start < |table|
    ensures |Newest(table)| == |table| && Newest(Below(table, Newest(table)[start - 1])) == Drop(Newest(table), start)
  {
    NewestBelow(table, start - 1);
  }

  lemma KeysetFromRow(table: set<nat>, start: nat, pageSize: int)
    requires 1 <= start < |table|
    ensures var q := ListLogs(table, table, CursorTo(table, start), 1, pageSize);
      q.items == PageAt(table, start, q.pageSize) && q.nextCursor == CursorTo(table, start + q.pageSize)
  {
    NewestSize(table);
    RestBelowCursor(table, start);
    KeysetPage(table, table, Newest(table)[start - 1], pageSize);
    if start + ClampSize(pageSize) < |table| { LastOfPage(table, start, ClampSize(pageSize)); }
  }

  /** The keyset page at a row where an offset page starts is that offset page. */
  lemma KeysetIsOffsetPage(table: set<nat>, page: int, pageSize: int, start: nat)
    requires page >= 1 && start == (page - 1) * ClampSize(pageSize) && 1 <= start < |table|
    ensures var q := ListLogs(table, table, CursorTo(table, start), 1, pageSize);
      var next := ListLogs(table, table, None, page, pageSize);
      q.items == next.items && q.nextCursor == next.nextCursor
  {
    OffsetPage(table, page, pageSize, start);
    KeysetFromRow(table, start, pageSize);
  }

  lemma PageStart(page: int, size: nat)
    requires page >= 1 && size >= 1
    ensures (page - 1) * size == page * size - size && page * size >= size && (page + 1 - 1) * size == page * size
  {
  }

  /** On one table the two kinds of page agree: an offset page k returns a cursor unless it is the
      last, and the keyset page of that cursor is offset page k + 1, next cursor included. */
  lemma OffsetMeetsKeyset(table: set<nat>, page: int, pageSize: int)
    requires page >= 1
    ensures var p := ListLogs(table, table, None, page, pageSize);
      && (p.nextCursor.Some? <==> page * ClampSize(pageSize) < |table|)
      && (p.nextCursor.Some? ==>
            var q := ListLogs(table, table, p.nextCursor, 1, pageSize);
            var next := ListLogs(table, table, None, page + 1, pageSize);
            q.items == next.items && q.nextCursor == next.nextCursor)
  {
    var size := ClampSize(pageSize);
    PageStart(page, size);
    OffsetPage(table, page, pageSize, page * size - size);
    var next := page * size;
    if next < |table| { KeysetIsOffsetPage(table, page + 1, pageSize, next); }
  }

  /** The k-th request of a client that follows `next_cursor` over a fixed table; behind the last page it gets
      nothing. */
  ghost function WalkPage(table: set<nat>, k: nat, pageSize: int): Page
    requires k >= 1
  {
    if k == 1 then ListLogs(table, table, None, 1, pageSize)
    else
      var before := WalkPage(table, k - 1, pageSize).nextCursor;
      if before.None? then Page([], |table|, None, ClampSize(pageSize), k)
      else ListLogs(table, table, before, 1, pageSize)
  }

  lemma PastTheEnd(table: set<nat>, page: int, pageSize: int)
    requires page >= 1 && page * ClampSize(pageSize) >= |table|
    ensures var next := ListLogs(table, table, None, page + 1, pageSize); next.items == [] && next.nextCursor == None
  {
    PageStart(page, ClampSize(pageSize));
    NewestSize(table);
    OffsetPage(table, page + 1, pageSize, page * ClampSize(pageSize));
  }

  /** The k-th page of the cursor walk is offset page k, for every k, and it shows the length of the
      table as the total. */
  lemma {:induction false} WalkPageIsOffsetPage(table: set<nat>, k: nat, pageSize: int)
    requires k >= 1
    ensures var p, q := WalkPage(table, k, pageSize), ListLogs(table, table, None, k, pageSize);
      && p.items == q.items && p.nextCursor == q.nextCursor && p.pageSize == q.pageSize
      && p.total == q.total == |Newest(table)|
    decreases k
  {
    NewestSize(table);
    if k > 1 {
      WalkPageIsOffsetPage(table, k - 1, pageSize);
      OffsetMeetsKeyset(table, k - 1, pageSize);
      if (k - 1) * ClampSize(pageSize) >= |table| { PastTheEnd(table, k - 1, pageSize); }
    }
  }

  // ----- the walk -----

  /** What the other requests insert between the requests of a walk: the table grows. */
  ghost predicate Growing(tables: nat -> set<nat>) {
    forall i, j :: i <= j ==> tables(i) <= tables(j)
  }

  /** How many requests a cursor can still lead to, at most: cursors are positive ids and decrease. */
  ghost function Remaining(cursor: Option<int>): nat {
    match cursor
    case None => 0
    case Some(c) => if c < 0 then 1 else c + 2
  }

  /** A client that follows `next_cursor` from request `k` on; request k reads `tables(k)`. */
  ghost function KeysetWalk(tables: nat -> set<nat>, k: nat, cursor: Option<int>, pageSize: int): seq<nat>
    decreases Remaining(cursor)
  {
    match cursor
    case None => []
    case Some(c) =>
      var p := ListLogs(tables(k), tables(k), Some(c), 1, pageSize);
      KeysetPage(tables(k), tables(k), c, pageSize);
      assert Remaining(p.nextCursor) < Remaining(cursor);
      p.items + KeysetWalk(tables, k + 1, p.nextCursor, pageSize)
  }

  /** A walk that ends with this page returns all that was left. */
  lemma LastPage(tables: nat -> set<nat>, k: nat, cursor: int, pageSize: int)
    requires ListLogs(tables(k), tables(k), Some(cursor), 1, pageSize).nextCursor.None?
    ensures var ids := KeysetWalk(tables, k, Some(cursor), pageSize);
      Decreasing(ids) && forall x :: x in ids <==> x in tables(k) && x < cursor
  {
    var below := Newest(Below(tables(k), cursor));
    KeysetPage(tables(k), tables(k), cursor, pageSize);
    NewestIsSorted(Below(tables(k), cursor));
    assert KeysetWalk(tables, k, Some(cursor), pageSize) == below + [] == below;
  }

  /** The first rows below a cursor, and what the others are. */
  lemma PrefixOfBelow(read: set<nat>, cursor: int, items: seq<nat>)
    requires items != [] && items == Take(Newest(Below(read, cursor)), |items|)
    ensures Decreasing(items)
    ensures forall x :: x in items ==> x >= items[|items| - 1] && x in read && x < cursor
    ensures forall x :: x in read && x < cursor && x >= items[|items| - 1] ==> x in items
  {
    var below := Newest(Below(read, cursor));
    NewestIsSorted(Below(read, cursor));
    assert items == below[..|items|];
    forall x | x in items ensures x >= items[|items| - 1] && x in read && x < cursor { assert x in below; }
    forall x | x in read && x < cursor && x >= items[|items| - 1] ensures x in items {
      assert x in below;
      var j :| 0 <= j < |below| && below[j] == x;
      if j < |items| { assert items[j] == x; }
    }
  }

  lemma DecreasingJoins(items: seq<nat>, later: seq<nat>)
    requires items != [] && Decreasing(items) && Decreasing(later)
    requires forall x :: x in later ==> x < items[|items| - 1]
    ensures Decreasing(items + later)
  {
    forall i, j | 0 <= i < j < |items + later| ensures (items + later)[i] > (items + later)[j] {
      if j >= |items| { assert (items + later)[j] in later; }
    }
  }

  /** A page and the walk that goes on below its last row fit together. */
  lemma WalkJoins(tables: nat -> set<nat>, k: nat, cursor: int, pageSize: int, items: seq<nat>, later: seq<nat>)
    requires Growing(tables)
    requires items != [] && items == Take(Newest(Below(tables(k), cursor)), |items|)
    requires Decreasing(later)
    requires forall x :: x in later ==> x < items[|items| - 1] && exists i :: i >= k + 1 && x in tables(i)
    requires forall x :: x in tables(k + 1) && x < items[|items| - 1] ==> x in later
    ensures Decreasing(items + later)
    ensures forall x :: x in items + later ==> x < cursor && exists i :: i >= k && x in tables(i)
    ensures forall x :: x in tables(k) && x < cursor ==> x in items + later
  {
    PrefixOfBelow(tables(k), cursor, items);
    DecreasingJoins(items, later);
    assert items[|items| - 1] in items && tables(k) <= tables(k + 1);
  }

  /** Every id a walk returns from a cursor on is below it, they strictly decrease, they come from the
      tables read, and no row that was below the cursor when the walk got there is missed. */
  lemma {:induction false} KeysetWalkIsComplete(tables: nat -> set<nat>, k: nat, cursor: int, pageSize: int)
    requires Growing(tables)
    ensures var ids := KeysetWalk(tables, k, Some(cursor), pageSize);
      && Decreasing(ids)
      && (forall x :: x in ids ==> x < cursor && exists i :: i >= k && x in tables(i))
      && (forall x :: x in tables(k) && x < cursor ==> x in ids)
    decreases Remaining(Some(cursor))
  {
    var p := ListLogs(tables(k), tables(k), Some(cursor), 1, pageSize);
    KeysetPage(tables(k), tables(k), cursor, pageSize);
    if p.nextCursor.None? {
      LastPage(tables, k, cursor, pageSize);
    } else {
      var later := KeysetWalk(tables, k + 1, p.nextCursor, pageSize);
      KeysetWalkIsComplete(tables, k + 1, p.nextCursor.value, pageSize);
      NewestSize(Below(tables(k), cursor));
      WalkJoins(tables, k, cursor, pageSize, p.items, later);
      assert KeysetWalk(tables, k, Some(cursor), pageSize) == p.items + later;
    }
  }

  /** The walk of a client that starts without a cursor: the first request counts one table and reads
      another, the rest follow cursors. */
  ghost function FullWalk(counted: set<nat>, tables: nat -> set<nat>, pageSize: int): seq<nat>
    requires counted <= tables(0)
  {
    var p := ListLogs(counted, tables(0), None, 1, pageSize);
    p.items + KeysetWalk(tables, 1, p.nextCursor, pageSize)
  }

  lemma FirstPage(counted: set<nat>, read: set<nat>, pageSize: int)
    requires counted <= read
    ensures var p := ListLogs(counted, read, None, 1, pageSize);
      && p.items == Take(Newest(read), p.pageSize)
      && (p.nextCursor.Some? <==> |counted| > p.pageSize)
      && (p.nextCursor.Some? ==> p.items != [] && p.nextCursor.value == p.items[|p.items| - 1])
  {
    var size := ClampSize(pageSize);
    SubsetSize(counted, read);
    NewestIsSorted(read);
    assert (1 - 1) * size == 0 && 1 * size == size;
    assert Drop(Newest(read), 0) == Newest(read);
  }

  /** A set no larger than its bound is all below it. */
  lemma BelowBound(s: set<nat>) returns (c: int)
    ensures Below(s, c) == s && c >= 0
  {
    if s == {} {
      c := 0;
    } else {
      c := Max(s) + 1;
    }
  }

  lemma ShortWalk(counted: set<nat>, tables: nat -> set<nat>, pageSize: int)
    requires counted <= tables(0) && |counted| <= ClampSize(pageSize)
    ensures var ids := FullWalk(counted, tables, pageSize);
      && ids == Take(Newest(tables(0)), ClampSize(pageSize)) && Decreasing(ids)
      && forall x :: x in ids ==> x in tables(0)
  {
    FirstPage(counted, tables(0), pageSize);
    NewestIsSorted(tables(0));
    var ids := Take(Newest(tables(0)), ClampSize(pageSize));
    assert ids + [] == ids;
    forall x | x in ids ensures x in tables(0) { assert x in Newest(tables(0)); }
  }

  lemma LongWalk(counted: set<nat>, tables: nat -> set<nat>, pageSize: int)
    requires Growing(tables) && counted <= tables(0) && |counted| > ClampSize(pageSize)
    ensures var ids := FullWalk(counted, tables, pageSize);
      && Decreasing(ids)
      && (forall x :: x in ids ==> exists i :: x in tables(i))
      && (forall x :: x in tables(0) ==> x in ids)
  {
    var p := ListLogs(counted, tables(0), None, 1, pageSize);
    FirstPage(counted, tables(0), pageSize);
    NewestSize(tables(0));
    SubsetSize(counted, tables(0));
    var c := BelowBound(tables(0));
    var later := KeysetWalk(tables, 1, p.nextCursor, pageSize);
    KeysetWalkIsComplete(tables, 1, p.nextCursor.value, pageSize);
    WalkJoins(tables, 0, c, pageSize, p.items, later);
    forall x | x in tables(0) ensures x in p.items + later { assert x in Below(tables(0), c); }
  }

  /** The ids a walk returns strictly decrease, so no row comes twice, and they all exist. */
  lemma WalkIsDecreasing(counted: set<nat>, tables: nat -> set<nat>, pageSize: int)
    requires Growing(tables) && counted <= tables(0)
    ensures Decreasing(FullWalk(counted, tables, pageSize))
    ensures forall x :: x in FullWalk(counted, tables, pageSize) ==> exists i :: x in tables(i)
    ensures |counted| > ClampSize(pageSize) ==>
      forall x :: x in tables(0) ==> x in FullWalk(counted, tables, pageSize)
  {
    FirstPage(counted, tables(0), pageSize);
    if |counted| > ClampSize(pageSize) {
      LongWalk(counted, tables, pageSize);
    } else {
      ShortWalk(counted, tables, pageSize);
    }
  }

  /** The walk over tables that grow while it runs: with the first count and the first rows
      taken from one table, every row present from the start comes exactly once. */
  lemma WalkEnumeratesOnce(tables: nat -> set<nat>, pageSize: int)
    requires Growing(tables)
    ensures var ids := FullWalk(tables(0), tables, pageSize);
      && (forall x :: x in tables(0) ==> x in ids)
      && (forall i, j :: 0 <= i < j < |ids| ==> ids[i] != ids[j])
  {
    var p := ListLogs(tables(0), tables(0), None, 1, pageSize);
    WalkIsDecreasing(tables(0), tables, pageSize);
    FirstPage(tables(0), tables(0), pageSize);
    NewestIsSorted(tables(0));
    if p.nextCursor.None? { assert p.items == Newest(tables(0)) && p.items + [] == p.items; }
  }

  /** On a fixed table the walk is the whole filtered table, newest first, and its length is the total. */
  lemma WalkOfFixedTable(table: set<nat>, pageSize: int)
    ensures var ids := FullWalk(table, _ => table, pageSize);
      ids == Newest(table) && |ids| == ListLogs(table, table, None, 1, pageSize).total
  {
    var tables: nat -> set<nat> := _ => table;
    var ids := FullWalk(table, tables, pageSize);
    WalkEnumeratesOnce(tables, pageSize);
    WalkIsDecreasing(table, tables, pageSize);
    assert forall i :: tables(i) == table;
    SortedIsNewest(ids, table);
    NewestIsSorted(table);
  }

  /** The rows of `read` at or above the oldest counted row. */
  ghost function FromOldest(counted: set<nat>, read: set<nat>): set<nat> {
    set x | x in read && exists y :: y in counted && y <= x
  }

  /** In the first `n` of a decreasing listing, nothing up to the last of them comes earlier. */
  lemma NotBefore(xs: seq<nat>, n: nat, y: nat, size: nat)
    requires Decreasing(xs) && size < n <= |xs| && y in xs[..n] && y <= xs[n - 1]
    ensures y !in Take(xs, size)
  {
    forall j | 0 <= j < size ensures Take(xs, size)[j] > xs[n - 1] {
      assert xs[j] > xs[n - 1];
    }
  }

  /** A set of larger ids is listed before a set of smaller ones. */
  lemma ListingSplits(top: set<nat>, rest: set<nat>)
    requires forall x, y :: x in top && y in rest ==> x > y
    ensures Newest(top + rest) == Newest(top) + Newest(rest)
  {
    NewestIsSorted(top);
    NewestIsSorted(rest);
    var xs := Newest(top) + Newest(rest);
    forall i, j | 0 <= i < j < |xs| ensures xs[i] > xs[j] {
      if i < |Newest(top)| { assert xs[i] in Newest(top); }
      if j >= |Newest(top)| { assert xs[j] in Newest(rest); }
    }
    SortedIsNewest(xs, top + rest);
  }

  lemma FromOldestIsPrefix(counted: set<nat>, read: set<nat>)
    requires counted <= read
    ensures var n := |FromOldest(counted, read)|;
      n <= |Newest(read)| && forall x :: x in Newest(read)[..n] <==> x in FromOldest(counted, read)
  {
    var top := FromOldest(counted, read);
    var rest := read - top;
    NewestSize(top);
    ListingSplits(top, rest);
    assert top + rest == read;
    NewestIsSorted(top);
    assert (Newest(top) + Newest(rest))[..|top|] == Newest(top);
  }

  lemma OldestIsPushedOut(counted: set<nat>, read: set<nat>, size: nat)
    requires counted <= read && |FromOldest(counted, read)| > size
    ensures exists y :: y in counted && y !in Take(Newest(read), size)
  {
    var n := |FromOldest(counted, read)|;
    NewestIsSorted(read);
    FromOldestIsPrefix(counted, read);
    assert Newest(read)[n - 1] in Newest(read)[..n];
    var y :| y in counted && y <= Newest(read)[n - 1];
    assert y in FromOldest(counted, read);
    NotBefore(Newest(read), n, y, size);
  }

  /** The newest `size` rows contain all counted ones exactly when the rows from the oldest counted
      one on are no more than `size`. */
  lemma FirstPageCovers(counted: set<nat>, read: set<nat>, size: nat)
    requires counted <= read
    ensures (forall x :: x in counted ==> x in Take(Newest(read), size)) <==> |FromOldest(counted, read)| <= size
  {
    var n := |FromOldest(counted, read)|;
    FromOldestIsPrefix(counted, read);
    if n <= size {
      forall x | x in counted ensures x in Take(Newest(read), size) {
        assert x in FromOldest(counted, read);
        assert x in Newest(read)[..n];
      }
    } else {
      OldestIsPushedOut(counted, read, size);
    }
  }

  /** When rows are inserted between the count and the rows of the first request: the walk returns every
      counted row exactly when the count announces a second page or the counted rows, together
      with the rows inserted among and above them, still fit on the first. (Otherwise it stops
      after a page that pushed a counted row out.) */
  lemma WalkEnumeratesExactly(counted: set<nat>, tables: nat -> set<nat>, pageSize: int)
    requires Growing(tables) && counted <= tables(0)
    ensures (forall x :: x in counted ==> x in FullWalk(counted, tables, pageSize))
      <==> |counted| > ClampSize(pageSize) || |FromOldest(counted, tables(0))| <= ClampSize(pageSize)
  {
    var size := ClampSize(pageSize);
    var read := tables(0);
    var p := ListLogs(counted, read, None, 1, pageSize);
    FirstPage(counted, read, pageSize);
    if |counted| > size {
      WalkIsDecreasing(counted, tables, pageSize);
    } else {
      assert FullWalk(counted, tables, pageSize) == p.items;
      FirstPageCovers(counted, read, size);
    }
  }
}
