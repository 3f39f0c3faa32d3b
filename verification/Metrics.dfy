/** The dashboard aggregates: files per day and syncs per estado. Days are day numbers. */
module Metrics {
  import opened Tables

  /** A row of the join of files and syncs. */
  datatype FileRow = FileRow(fecha: int, estado: ArchivoEstado)

  datatype Day = Day(fecha: int, aceptados: nat, rechazados: nat)

  function ClampDays(days: int): (n: nat)
    ensures 1 <= n <= 30 && (1 <= days <= 30 ==> n == days)
    ensures (days < 1 ==> n == 1) && (days > 30 ==> n == 30)
  {
    var atLeast := if days < 1 then 1 else days;
    if atLeast > 30 then 30 else atLeast
  }

  datatype Counts = Counts(aceptados: nat, rechazados: nat)

  function CountsAt(groups: map<int, Counts>, fecha: int): Counts {
    if fecha in groups then groups[fecha] else Counts(0, 0)
  }

  function Add(c: Counts, estado: ArchivoEstado): Counts {
    if estado == Accepted then c.(aceptados := c.aceptados + 1) else c.(rechazados := c.rechazados + 1)
  }

  /** WHERE fecha >= start GROUP BY fecha. */
  function GroupByDay(rows: seq<FileRow>, start: int): map<int, Counts> {
    if rows == [] then map[]
    else
      var before := GroupByDay(rows[..|rows| - 1], start);
      var row := rows[|rows| - 1];
      if row.fecha >= start then before[row.fecha := Add(CountsAt(before, row.fecha), row.estado)] else before
  }

  /** `throughput`: one entry per day, oldest first, zero where no group exists. */
  function Throughput(rows: seq<FileRow>, days: int, today: int): seq<Day> {
    var n := ClampDays(days);
    var start := today - (n - 1);
    var groups := GroupByDay(rows, start);
    seq(n, i requires 0 <= i < n =>
      Day(start + i, CountsAt(groups, start + i).aceptados, CountsAt(groups, start + i).rechazados))
  }

  /** The files with the given estado whose sync ran between two days, counted directly. */
  function FilesBetween(rows: seq<FileRow>, from: int, to: int, estado: ArchivoEstado): nat {
    if rows == [] then 0
    else
      var row := rows[|rows| - 1];
      FilesBetween(rows[..|rows| - 1], from, to, estado)
        + (if from <= row.fecha <= to && row.estado == estado then 1 else 0)
  }

  function Shown(d: Day, estado: ArchivoEstado): nat {
    if estado == Accepted then d.aceptados else d.rechazados
  }

  function SumShown(days: seq<Day>, estado: ArchivoEstado): nat {
    if days == [] then 0 else SumShown(days[..|days| - 1], estado) + Shown(days[|days| - 1], estado)
  }

  lemma {:induction false} GroupCountsDay(rows: seq<FileRow>, start: int, fecha: int)
    requires fecha >= start
    ensures CountsAt(GroupByDay(rows, start), fecha)
      == Counts(FilesBetween(rows, fecha, fecha, Accepted), FilesBetween(rows, fecha, fecha, FileRejected))
    decreases |rows|
  {
    if rows != [] {
      GroupCountsDay(rows[..|rows| - 1], start, fecha);
    }
  }

  lemma {:induction false} BetweenSplits(rows: seq<FileRow>, from: int, to: int, estado: ArchivoEstado)
    requires from <= to
    ensures FilesBetween(rows, from, to, estado)
      == FilesBetween(rows, from, to - 1, estado) + FilesBetween(rows, to, to, estado)
    decreases |rows|
  {
    if rows != [] {
      BetweenSplits(rows[..|rows| - 1], from, to, estado);
    }
  }

  lemma {:induction false} BetweenNothing(rows: seq<FileRow>, from: int, estado: ArchivoEstado)
    ensures FilesBetween(rows, from, from - 1, estado) == 0
    decreases |rows|
  {
    if rows != [] {
      BetweenNothing(rows[..|rows| - 1], from, estado);
    }
  }

  lemma {:induction false} FirstDaysSum(rows: seq<FileRow>, days: int, today: int, m: nat, estado: ArchivoEstado)
    requires m <= ClampDays(days)
    ensures |Throughput(rows, days, today)| == ClampDays(days)
    ensures var start := today - (ClampDays(days) - 1);
      SumShown(Throughput(rows, days, today)[..m], estado) == FilesBetween(rows, start, start + m - 1, estado)
    decreases m
  {
    var result := Throughput(rows, days, today);
    var start := today - (ClampDays(days) - 1);
    if m == 0 {
      BetweenNothing(rows, start, estado);
    } else {
      FirstDaysSum(rows, days, today, m - 1, estado);
      assert result[..m][..m - 1] == result[..m - 1];
      GroupCountsDay(rows, start, start + m - 1);
      BetweenSplits(rows, start, start + m - 1, estado);
    }
  }

  /** The result is exactly clamp(days, 1, 30) consecutive days ending today, each with the number of
      its files, and over it the accepted (and the rejected) add up to the files whose sync ran in
      that range: grouping and zero-filling lose none and count none twice. */
  lemma ThroughputConserves(rows: seq<FileRow>, days: int, today: int, estado: ArchivoEstado)
    ensures var result := Throughput(rows, days, today); var n := ClampDays(days);
      && |result| == n && result[n - 1].fecha == today
      && (forall i :: 0 <= i < n ==> result[i].fecha == today - (n - 1) + i)
      && (forall i :: 0 <= i < n ==>
            Shown(result[i], estado) == FilesBetween(rows, result[i].fecha, result[i].fecha, estado))
      && SumShown(result, estado) == FilesBetween(rows, today - (n - 1), today, estado)
  {
    var result := Throughput(rows, days, today);
    var n := ClampDays(days);
    FirstDaysSum(rows, days, today, n, estado);
    assert result[..n] == result;
    forall i | 0 <= i < n
      ensures Shown(result[i], estado) == FilesBetween(rows, result[i].fecha, result[i].fecha, estado)
    {
      GroupCountsDay(rows, today - (n - 1), result[i].fecha);
    }
  }

  // ----- status_distribution -----

  const SYNC_ESTADOS: seq<SyncEstado> := [Pending, Running, Completed, Failed, Rejected]

  datatype Item = Item(estado: SyncEstado, count: nat)

  function CountEstado(syncs: seq<SyncEstado>, e: SyncEstado): nat {
    if syncs == [] then 0
    else CountEstado(syncs[..|syncs| - 1], e) + (if syncs[|syncs| - 1] == e then 1 else 0)
  }

  /** GROUP BY estado. */
  function GroupByEstado(syncs: seq<SyncEstado>): map<SyncEstado, nat> {
    if syncs == [] then map[]
    else
      var before := GroupByEstado(syncs[..|syncs| - 1]);
      var e := syncs[|syncs| - 1];
      before[e := (if e in before then before[e] else 0) + 1]
  }

  function CountAt(groups: map<SyncEstado, nat>, e: SyncEstado): nat {
    if e in groups then groups[e] else 0
  }

  function Unsorted(syncs: seq<SyncEstado>): seq<Item> {
    var groups := GroupByEstado(syncs);
    seq(|SYNC_ESTADOS|, i requires 0 <= i < |SYNC_ESTADOS| => Item(SYNC_ESTADOS[i], CountAt(groups, SYNC_ESTADOS[i])))
  }

  /** Insert before the first item with a smaller count, so behind all equal ones. */
  function Insert(items: seq<Item>, x: Item): seq<Item> {
    if items == [] then [x]
    else if items[|items| - 1].count < x.count then Insert(items[..|items| - 1], x) + [items[|items| - 1]]
    else items + [x]
  }

  /** A stable sort by count, largest first. */
  function SortByCount(items: seq<Item>): seq<Item> {
    if items == [] then [] else Insert(SortByCount(items[..|items| - 1]), items[|items| - 1])
  }

  function StatusDistribution(syncs: seq<SyncEstado>): seq<Item> {
    SortByCount(Unsorted(syncs))
  }

  predicate Descending(items: seq<Item>) {
    forall i, j :: 0 <= i < j < |items| ==> items[i].count >= items[j].count
  }

  /** The item alone if it has the given count. */
  function OfCount(x: Item, c: nat): seq<Item> {
    if x.count == c then [x] else []
  }

  /** The items with a given count, in order. */
  function WithCount(items: seq<Item>, c: nat): seq<Item> {
    if items == [] then [] else WithCount(items[..|items| - 1], c) + OfCount(items[|items| - 1], c)
  }

  lemma WithCountAppend(items: seq<Item>, x: Item, c: nat)
    ensures WithCount(items + [x], c) == WithCount(items, c) + OfCount(x, c)
  {
    assert (items + [x])[..|items|] == items;
  }

  lemma {:induction false} InsertKeepsItems(items: seq<Item>, x: Item)
    ensures multiset(Insert(items, x)) == multiset(items) + multiset{x}
    decreases |items|
  {
    if items != [] && items[|items| - 1].count < x.count {
      InsertKeepsItems(items[..|items| - 1], x);
      assert items == items[..|items| - 1] + [items[|items| - 1]];
    }
  }

  /** Inserting puts the new item behind all those with its count. */
  lemma {:induction false} InsertIsStable(items: seq<Item>, x: Item, c: nat)
    ensures WithCount(Insert(items, x), c) == WithCount(items, c) + OfCount(x, c)
    decreases |items|
  {
    if items == [] || items[|items| - 1].count >= x.count {
      WithCountAppend(items, x, c);
      if items == [] { assert items + [x] == [x]; }
    } else {
      var init, last := items[..|items| - 1], items[|items| - 1];
      InsertIsStable(init, x, c);
      WithCountAppend(Insert(init, x), last, c);
      assert Insert(items, x) == Insert(init, x) + [last];
      assert WithCount(items, c) == WithCount(init, c) + OfCount(last, c);
      assert OfCount(x, c) == [] || OfCount(last, c) == [];
    }
  }

  lemma {:induction false} InsertSorts(items: seq<Item>, x: Item)
    requires Descending(items)
    ensures Descending(Insert(items, x))
    ensures forall k :: 0 <= k < |Insert(items, x)| ==> Insert(items, x)[k] == x || Insert(items, x)[k] in items
    decreases |items|
  {
    if items != [] && items[|items| - 1].count < x.count {
      var n := |items| - 1;
      var before := Insert(items[..n], x);
      InsertSorts(items[..n], x);
      forall k | 0 <= k < |before|
        ensures before[k].count >= items[n].count && (before[k] == x || before[k] in items)
      {
        if before[k] != x {
          var j :| 0 <= j < n && items[..n][j] == before[k];
          assert items[j].count >= items[n].count;
        }
      }
    }
  }

  lemma {:induction false} SortSorts(items: seq<Item>)
    ensures Descending(SortByCount(items)) && multiset(SortByCount(items)) == multiset(items)
    decreases |items|
  {
    if items != [] {
      var n := |items| - 1;
      SortSorts(items[..n]);
      InsertSorts(SortByCount(items[..n]), items[n]);
      InsertKeepsItems(SortByCount(items[..n]), items[n]);
      assert items == items[..n] + [items[n]];
    }
  }

  lemma {:induction false} SortIsStable(items: seq<Item>, c: nat)
    ensures WithCount(SortByCount(items), c) == WithCount(items, c)
    decreases |items|
  {
    if items != [] {
      var n := |items| - 1;
      SortIsStable(items[..n], c);
      InsertIsStable(SortByCount(items[..n]), items[n], c);
    }
  }

  lemma {:induction false} GroupCounts(syncs: seq<SyncEstado>, e: SyncEstado)
    ensures CountAt(GroupByEstado(syncs), e) == CountEstado(syncs, e)
    decreases |syncs|
  {
    if syncs != [] { GroupCounts(syncs[..|syncs| - 1], e); }
  }

  lemma {:induction false} EstadosCoverAll(syncs: seq<SyncEstado>)
    ensures CountEstado(syncs, Pending) + CountEstado(syncs, Running) + CountEstado(syncs, Completed)
          + CountEstado(syncs, Failed) + CountEstado(syncs, Rejected) == |syncs|
    decreases |syncs|
  {
    if syncs != [] { EstadosCoverAll(syncs[..|syncs| - 1]); }
  }

  function ItemOf(syncs: seq<SyncEstado>, e: SyncEstado): Item {
    Item(e, CountEstado(syncs, e))
  }

  /** Before the sort the items are the five estados in declaration order, each with its count. */
  lemma UnsortedIs(syncs: seq<SyncEstado>)
    ensures Unsorted(syncs) == [ItemOf(syncs, Pending), ItemOf(syncs, Running), ItemOf(syncs, Completed),
                                ItemOf(syncs, Failed), ItemOf(syncs, Rejected)]
  {
    forall e ensures CountAt(GroupByEstado(syncs), e) == CountEstado(syncs, e) { GroupCounts(syncs, e); }
  }

  /** For any syncs: the five estados appear once each, with the number of syncs in it, sorted by
      count with the largest first and ties in declaration order; the counts add up to the total. */
  lemma DistributionIsExact(syncs: seq<SyncEstado>)
    ensures var items := StatusDistribution(syncs);
      var declared := [ItemOf(syncs, Pending), ItemOf(syncs, Running), ItemOf(syncs, Completed),
                       ItemOf(syncs, Failed), ItemOf(syncs, Rejected)];
      && multiset(items) == multiset(declared) && Descending(items)
      && (forall c :: WithCount(items, c) == WithCount(declared, c))
    ensures CountEstado(syncs, Pending) + CountEstado(syncs, Running) + CountEstado(syncs, Completed)
          + CountEstado(syncs, Failed) + CountEstado(syncs, Rejected) == |syncs|
  {
    SortSorts(Unsorted(syncs));
    forall c { SortIsStable(Unsorted(syncs), c); }
    UnsortedIs(syncs);
    EstadosCoverAll(syncs);
  }

  /** 100 * count / total, exactly. */
  function Percent(count: nat, total: nat): real
    requires total > 0
  {
    100.0 * count as real / total as real
  }

  /** `tenths` is shown for `count` out of `total`: the code's quotient `computed` rounded to one decimal, ties
      either way. All that is asked of the arithmetic is that it is less than 0.01 off, which
      double precision keeps with a margin of many orders of magnitude. Without syncs it is 0.0. */
  predicate Shows(tenths: int, computed: real, count: nat, total: nat) {
    if total == 0 then tenths == 0
    else
      && Percent(count, total) - 0.01 < computed < Percent(count, total) + 0.01
      && 10.0 * computed - 0.5 <= tenths as real <= 10.0 * computed + 0.5
  }

  predicate Near(tenths: int, percent: real) {
    percent - 0.06 < tenths as real / 10.0 < percent + 0.06
  }

  function Times(x: real, y: real): real {
    x * y
  }

  lemma PercentTimes(count: nat, total: nat) returns (p: real)
    requires total > 0
    ensures p == Percent(count, total) && Times(p, total as real) == 100.0 * count as real
  {
    p := Percent(count, total);
  }

  lemma TimesSum(p: real, q: real, r: real, u: real, v: real, t: real)
    ensures Times(p + q + r + u + v, t) == Times(p, t) + Times(q, t) + Times(r, t) + Times(u, t) + Times(v, t)
  {
  }

  lemma CancelFactor(s: real, t: real)
    requires Times(s, t) == 100.0 * t && t > 0.0
    ensures s == 100.0
  {
    assert (s - 100.0) * t == 0.0;
  }

  lemma PercentsAddUp(a: nat, b: nat, c: nat, d: nat, e: nat, total: nat)
    requires total > 0 && a + b + c + d + e == total
    ensures Percent(a, total) + Percent(b, total) + Percent(c, total) + Percent(d, total) + Percent(e, total) == 100.0
  {
    var p := PercentTimes(a, total);
    var q := PercentTimes(b, total);
    var r := PercentTimes(c, total);
    var u := PercentTimes(d, total);
    var v := PercentTimes(e, total);
    TimesSum(p, q, r, u, v, total as real);
    CancelFactor(p + q + r + u + v, total as real);
  }

  /** The percentages shown are 0.0 without syncs. Otherwise each is within 0.06 of the exact one, and though
      they need not add up to 100.0 they never miss it by more than 0.2. */
  lemma PercentagesNearlyAddUp(syncs: seq<SyncEstado>, tenths: seq<int>, computed: seq<real>)
    requires |tenths| == |computed| == |SYNC_ESTADOS|
    requires forall i :: 0 <= i < |SYNC_ESTADOS| ==>
      Shows(tenths[i], computed[i], CountEstado(syncs, SYNC_ESTADOS[i]), |syncs|)
    ensures syncs == [] ==> forall i :: 0 <= i < |SYNC_ESTADOS| ==> tenths[i] == 0
    ensures syncs != [] ==> forall i :: 0 <= i < |SYNC_ESTADOS| ==>
      Near(tenths[i], Percent(CountEstado(syncs, SYNC_ESTADOS[i]), |syncs|))
    ensures syncs != [] ==> 998 <= tenths[0] + tenths[1] + tenths[2] + tenths[3] + tenths[4] <= 1002
  {
    assert forall i :: 0 <= i < 5 ==> Shows(tenths[i], computed[i], CountEstado(syncs, SYNC_ESTADOS[i]), |syncs|);
    if syncs != [] {
      var n := |syncs|;
      var a, b, c, d, e := CountEstado(syncs, Pending), CountEstado(syncs, Running), CountEstado(syncs, Completed),
                           CountEstado(syncs, Failed), CountEstado(syncs, Rejected);
      EstadosCoverAll(syncs);
      assert Shows(tenths[0], computed[0], a, n) && Shows(tenths[1], computed[1], b, n)
          && Shows(tenths[2], computed[2], c, n) && Shows(tenths[3], computed[3], d, n)
          && Shows(tenths[4], computed[4], e, n);
      PercentsAddUp(a, b, c, d, e, n);
      var sum := tenths[0] + tenths[1] + tenths[2] + tenths[3] + tenths[4];
      assert 997.0 < sum as real < 1003.0;
    }
  }
}
