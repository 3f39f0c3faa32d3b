/** The footer of the log list: `from`–`to` of `total`, and one button per page. */
module Footer {
  import opened Basics
  import opened Pagination

  lemma DivBounds(a: nat, b: nat)
    requires b >= 1
    ensures b * (a / b) <= a < b * (a / b + 1)
  {
  }

  function CeilDiv(a: nat, b: nat): (q: nat)
    requires b >= 1
    ensures b * q >= a && (q >= 1 ==> b * (q - 1) < a)
  {
    if a == 0 then 0 else
      DivBounds(a - 1, b);
      (a - 1) / b + 1
  }

  function Pages(total: nat, pageSize: nat): nat
    requires pageSize >= 1
  {
    if CeilDiv(total, pageSize) < 1 then 1 else CeilDiv(total, pageSize)
  }

  function From(total: nat, page: int, pageSize: nat): int {
    if total == 0 then 0 else (page - 1) * pageSize + 1
  }

  function To(total: nat, page: int, pageSize: nat): int {
    if total < page * pageSize then total else page * pageSize
  }

  lemma TimesMonotone(a: int, b: int, c: nat)
    requires a <= b
    ensures a * c <= b * c
  {
  }

  predicate OnPage(total: nat, page: int, pageSize: nat, row: int) {
    From(total, page, pageSize) <= row <= To(total, page, pageSize)
  }

  /** The buttons split the rows: every row number is on exactly one page, and on one of 1..pages. */
  lemma PagesPartitionRows(total: nat, pageSize: nat, row: int)
    requires pageSize >= 1 && 1 <= row <= total
    ensures exists p :: 1 <= p <= Pages(total, pageSize) && OnPage(total, p, pageSize, row)
    ensures forall p, q :: OnPage(total, p, pageSize, row) && OnPage(total, q, pageSize, row) ==> p == q
  {
    var p := CeilDiv(row, pageSize);
    if p > CeilDiv(total, pageSize) { TimesMonotone(CeilDiv(total, pageSize), p - 1, pageSize); }
    assert OnPage(total, p, pageSize, row);
    forall p, q | OnPage(total, p, pageSize, row) && OnPage(total, q, pageSize, row)
      ensures p == q
    {
      if p < q { TimesMonotone(p, q - 1, pageSize); }
      if q < p { TimesMonotone(q, p - 1, pageSize); }
    }
  }

  lemma PageStartsInside(total: nat, page: int, pageSize: nat)
    requires pageSize >= 1 && total >= 1 && 1 <= page <= Pages(total, pageSize)
    ensures 0 <= (page - 1) * pageSize < total && page * pageSize == (page - 1) * pageSize + pageSize
  {
    TimesMonotone(0, page - 1, pageSize);
    TimesMonotone(page - 1, Pages(total, pageSize) - 1, pageSize);
  }

  lemma FooterOf(total: nat, page: int, pageSize: nat, start: int)
    requires total >= 1 && start == (page - 1) * pageSize && page * pageSize == start + pageSize
    ensures From(total, page, pageSize) == start + 1
    ensures To(total, page, pageSize) == if total < start + pageSize then total else start + pageSize
  {
  }

  lemma SliceOf(xs: seq<nat>, start: nat, size: nat)
    requires start < |xs| && size >= 1
    ensures Take(Drop(xs, start), size) == xs[start..if |xs| < start + size then |xs| else start + size]
  {
  }

  /** What the footer announces for a page is what the backend's offset slice of it holds. */
  lemma FooterMatchesOffsetPage(table: set<nat>, page: int, pageSize: nat)
    requires 1 <= pageSize <= MAX_PAGE_SIZE && |table| >= 1 && 1 <= page <= Pages(|table|, pageSize)
    ensures var p := ListLogs(table, table, None, page, pageSize);
      var from, to := From(p.total, page, pageSize), To(p.total, page, pageSize);
      1 <= from <= to <= |Newest(table)| && p.items == Newest(table)[from - 1..to] && |p.items| == to - from + 1
  {
    var start := (page - 1) * pageSize;
    PageStartsInside(|table|, page, pageSize);
    NewestSize(table);
    OffsetPage(table, page, pageSize, start);
    FooterOf(|table|, page, pageSize, start);
    SliceOf(Newest(table), start, pageSize);
    assert ListLogs(table, table, None, page, pageSize).items == PageAt(table, start, pageSize);
  }

  /** An empty list has one page, and shows 0–0 on it. */
  lemma EmptyFooter(page: int, pageSize: nat)
    requires pageSize >= 1 && page >= 1
    ensures Pages(0, pageSize) == 1 && From(0, page, pageSize) == 0 && To(0, page, pageSize) == 0
  {
    TimesMonotone(1, page, pageSize);
  }
}
