/** The rows a virtual list keeps in the DOM for a scroll position (a real number of pixels). */
module VirtualWindow {

  const ROW_H := 56
  const VIEWPORT_H := 480
  const OVERSCAN := 4

  datatype Window = Window(start: int, end: int)

  function VisibleCount(): int {
    (VIEWPORT_H + ROW_H - 1) / ROW_H
  }

  function FirstRow(scrollTop: real): int {
    (scrollTop / (ROW_H as real)).Floor
  }

  function GetWindow(scrollTop: real, total: nat): Window {
    if total == 0 then Window(0, -1)
    else
      var first := FirstRow(scrollTop);
      if first >= total then
        var start := total - VisibleCount() - OVERSCAN;
        Window(if start < 0 then 0 else start, total - 1)
      else
        Window(if first - OVERSCAN < 0 then 0 else first - OVERSCAN,
               if first + VisibleCount() < total - 1 then first + VisibleCount() else total - 1)
  }

  function SpacerHeight(total: nat): int {
    total * ROW_H
  }

  /** Some pixel of row `i` is inside the viewport. */
  predicate Intersects(i: int, scrollTop: real) {
    (i * ROW_H) as real < scrollTop + VIEWPORT_H as real && ((i + 1) * ROW_H) as real > scrollTop
  }

  /** `first` is the row under the top edge. */
  lemma FirstRowBounds(scrollTop: real)
    ensures var f := FirstRow(scrollTop);
      (f * ROW_H) as real <= scrollTop < ((f + 1) * ROW_H) as real
  {
    var q := scrollTop / (ROW_H as real);
    assert q.Floor as real <= q < (q.Floor + 1) as real;
    assert scrollTop == q * 56.0;
  }

  /** Every row of the list that shows in the viewport is kept, for every scroll position. */
  lemma WindowCoversViewport(scrollTop: real, total: nat, i: int)
    requires 0 <= i < total && Intersects(i, scrollTop)
    ensures GetWindow(scrollTop, total).start <= i <= GetWindow(scrollTop, total).end
  {
    FirstRowBounds(scrollTop);
    var f := FirstRow(scrollTop);
    assert ((i + 1) * ROW_H) as real > (f * ROW_H) as real;
    assert (i * ROW_H) as real < ((f + 1) * ROW_H + VIEWPORT_H) as real;
    assert i + 1 > f && i * 56 < (f + 1) * 56 + 480;
  }

  /** The DOM holds rows of the list only, and never more than a screenful and the overscan. It holds
      none exactly for an empty list and when the list is pulled down (a negative position, as in an
      elastic overscroll) by more than a whole screenful. */
  lemma WindowIsBounded(scrollTop: real, total: nat)
    ensures var w := GetWindow(scrollTop, total);
      && 0 <= w.start && w.end <= total - 1 && w.end - w.start + 1 <= VisibleCount() + OVERSCAN + 1
      && (w.start <= w.end <==> total > 0 && scrollTop >= (-VisibleCount() * ROW_H) as real)
  {
    FirstRowBounds(scrollTop);
    var f := FirstRow(scrollTop);
    if f >= -9 { assert (f * ROW_H) as real >= (-9 * ROW_H) as real; }
    else { assert ((f + 1) * ROW_H) as real <= (-9 * ROW_H) as real; }
  }

  /** The clamp for deep offsets fires exactly when the scroll position is past the whole list, which no
      scroll bar over a spacer of that height can reach. */
  lemma DeepOffsetExactly(scrollTop: real, total: nat)
    ensures FirstRow(scrollTop) >= total <==> scrollTop >= SpacerHeight(total) as real
    ensures total > 0 && (scrollTop <= (SpacerHeight(total) - VIEWPORT_H) as real || scrollTop <= 0.0)
      ==> FirstRow(scrollTop) < total
  {
    FirstRowBounds(scrollTop);
    var f := FirstRow(scrollTop);
    if f >= total { assert (f * ROW_H) as real >= (total * ROW_H) as real; }
    else { assert ((f + 1) * ROW_H) as real <= (total * ROW_H) as real; }
  }

  /** The rows that fit the viewport, the last one possibly in part. */
  lemma VisibleCountFills()
    ensures (VisibleCount() - 1) * ROW_H < VIEWPORT_H <= VisibleCount() * ROW_H
  {
  }

  /** Exactly which rows are kept. Within the list: OVERSCAN rows above the one under the top edge, and from
      it as many below as are visible. Past its end: the last screenful and OVERSCAN rows. */
  lemma WindowExactly(scrollTop: real, total: nat, i: int)
    requires 0 <= i < total
    ensures var w, first := GetWindow(scrollTop, total), FirstRow(scrollTop);
      w.start <= i <= w.end <==>
        if scrollTop < SpacerHeight(total) as real then first - OVERSCAN <= i <= first + VisibleCount()
        else total - VisibleCount() - OVERSCAN <= i
  {
    DeepOffsetExactly(scrollTop, total);
  }
}
