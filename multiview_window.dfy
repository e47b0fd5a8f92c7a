/**
 * The multiview window (src/ui/multiview-window.cpp): the integer grid metrics
 * that fit a rows x cols grid of 16:9 cells into the window, the pixel rectangle
 * of every cell surface, and the separator lines that paintEvent draws only where
 * the cells on the two sides of a grid line differ.
 *
 * The source computes the aspect ratios in `float`; here the comparison is done
 * by cross-multiplication and the `(int)` casts by truncating division, which is
 * exact and may differ from the float result only at an exact tie.
 */
module WindowLayout {
  import opened Wrappers
  import opened CppInt
  import opened ConfigTypes
  import opened GridModel
  import opened Ownership
  import GridEditing
  import opened ConfigManagement

  // ---------------------------------------------------------------------------
  // calculateGridMetrics
  // ---------------------------------------------------------------------------

  /** The metrics calculateGridMetrics hands back (cellW/cellH hold whole numbers). */
  datatype Metrics = Metrics(gridW: int, gridH: int, offsetX: int, offsetY: int, cellW: int, cellH: int)

  /**
   * availableAspect > gridAspect, i.e. aW / aH > (cols * 16) / (rows * 9), decided
   * exactly. A zero height gives +inf for a positive width and NaN (never greater)
   * otherwise; a negative height flips the cross-multiplied comparison.
   */
  predicate WiderThanGrid(aW: int, aH: int, rows: int, cols: int)
    requires rows >= 1 && cols >= 1
  {
    if aH > 0 then aW * (rows * 9) > (cols * 16) * aH
    else if aH < 0 then aW * (rows * 9) < (cols * 16) * aH
    else aW > 0
  }

  /**
   * The grid size before rounding to whole cells: the height binds when the
   * available area is wider than the grid, the width binds otherwise; the other
   * side is the bound side scaled by the grid aspect and truncated.
   */
  function PreGrid(aW: int, aH: int, rows: int, cols: int): (int, int)
    requires rows >= 1 && cols >= 1
  {
    if WiderThanGrid(aW, aH, rows, cols) then (TruncDiv(aH * (cols * 16), rows * 9), aH)
    else (aW, TruncDiv(aW * (rows * 9), cols * 16))
  }

  /** The pre-rounding grid fits the available area. */
  lemma PreGridFits(aW: int, aH: int, rows: int, cols: int)
    requires rows >= 1 && cols >= 1 && aW >= 0 && aH >= 0
    ensures var (w, h) := PreGrid(aW, aH, rows, cols); 0 <= w <= aW && 0 <= h <= aH
  {
    if WiderThanGrid(aW, aH, rows, cols) {
      PreGridWidthFits(aW, aH, rows, cols, TruncDiv(aH * (cols * 16), rows * 9));
    } else {
      PreGridHeightFits(aW, aH, rows, cols, TruncDiv(aW * (rows * 9), cols * 16));
    }
  }

  lemma MulMono(a: int, b: int, c: int)
    requires a <= b && c >= 0
    ensures a * c <= b * c
  {
    assert b * c - a * c == (b - a) * c;
  }

  lemma MulCancelLess(q: int, a: int, b: int)
    requires b > 0 && q * b < a * b
    ensures q < a
  {
    if q >= a {
      MulMono(a, q, b);
    }
  }

  lemma PreGridWidthFits(aW: int, aH: int, rows: int, cols: int, w: int)
    requires rows >= 1 && cols >= 1 && aW >= 0 && aH >= 0
    requires WiderThanGrid(aW, aH, rows, cols)
    requires w == TruncDiv(aH * (cols * 16), rows * 9)
    ensures 0 <= w <= aW
  {
    var b := rows * 9;
    var a := aH * (cols * 16);
    assert a >= 0;
    assert 0 <= a - w * b < b;
    if aH > 0 {
      assert w * b <= a < aW * b;
      MulCancelLess(w, aW, b);
    } else {
      assert a == 0;
      if w < 0 { MulMono(w, -1, b); }
      if w > 0 { MulMono(1, w, b); }
    }
  }

  lemma PreGridHeightFits(aW: int, aH: int, rows: int, cols: int, h: int)
    requires rows >= 1 && cols >= 1 && aW >= 0 && aH >= 0
    requires !WiderThanGrid(aW, aH, rows, cols)
    requires h == TruncDiv(aW * (rows * 9), cols * 16)
    ensures 0 <= h <= aH
  {
    var b := cols * 16;
    var a := aW * (rows * 9);
    assert 0 <= a - h * b < b;
    if h < 0 { MulMono(h, -1, b); }
    if aH > 0 {
      assert h * b <= a <= b * aH;
      if h > aH {
        MulMono(aH + 1, h, b);
      }
    } else {
      assert aW == 0;
      if h > 0 { MulMono(1, h, b); }
    }
  }

  /**
   * The aspect branch: when the available area is wider than the grid the
   * pre-rounding height is the available height, otherwise the pre-rounding width
   * is the available width; in both cases the other side is the largest whole
   * number that keeps the grid at (or, by truncation, just under) cols*16 : rows*9.
   */
  lemma PreGridAspect(aW: int, aH: int, rows: int, cols: int)
    requires rows >= 1 && cols >= 1 && aW >= 0 && aH >= 0
    ensures var (w, h) := PreGrid(aW, aH, rows, cols);
      WiderThanGrid(aW, aH, rows, cols) ==>
        h == aH && w * (rows * 9) <= h * (cols * 16) < (w + 1) * (rows * 9)
    ensures var (w, h) := PreGrid(aW, aH, rows, cols);
      !WiderThanGrid(aW, aH, rows, cols) ==>
        w == aW && h * (cols * 16) <= w * (rows * 9) < (h + 1) * (cols * 16)
  {
    var (w, h) := PreGrid(aW, aH, rows, cols);
    if WiderThanGrid(aW, aH, rows, cols) {
      assert 0 <= aH * (cols * 16) - w * (rows * 9) < rows * 9;
      assert (w + 1) * (rows * 9) == w * (rows * 9) + rows * 9;
    } else {
      assert 0 <= aW * (rows * 9) - h * (cols * 16) < cols * 16;
      assert (h + 1) * (cols * 16) == h * (cols * 16) + cols * 16;
    }
  }

  /**
   * calculateGridMetrics for a totalW x totalH window: a 1-pixel margin is
   * reserved on every edge, whole cell sizes are taken from the pre-rounding grid,
   * the grid is shrunk to an exact multiple of them and centred.
   */
  function CalculateGridMetrics(totalW: int, totalH: int, rows: int, cols: int): (m: Metrics)
    requires rows >= 1 && cols >= 1
  {
    var (w, h) := PreGrid(totalW - 2, totalH - 2, rows, cols);
    var cw := TruncDiv(w, cols);
    var ch := TruncDiv(h, rows);
    var gw := cw * cols;
    var gh := ch * rows;
    Metrics(gw, gh, TruncDiv(totalW - gw, 2), TruncDiv(totalH - gh, 2), cw, ch)
  }

  /**
   * The grid is an exact multiple of the whole cell size, fits inside the 1-pixel
   * margin, and is the largest such grid inside the pre-rounding one.
   */
  lemma MetricsFit(totalW: int, totalH: int, rows: int, cols: int)
    requires rows >= 1 && cols >= 1
    ensures var m := CalculateGridMetrics(totalW, totalH, rows, cols);
      m.gridW == m.cellW * cols && m.gridH == m.cellH * rows
    ensures var m := CalculateGridMetrics(totalW, totalH, rows, cols);
      totalW >= 2 && totalH >= 2 ==>
        0 <= m.cellW && 0 <= m.cellH && m.gridW <= totalW - 2 && m.gridH <= totalH - 2
    ensures var m := CalculateGridMetrics(totalW, totalH, rows, cols);
      var (w, h) := PreGrid(totalW - 2, totalH - 2, rows, cols);
      totalW >= 2 && totalH >= 2 ==> m.gridW <= w < m.gridW + cols && m.gridH <= h < m.gridH + rows
  {
    if totalW >= 2 && totalH >= 2 {
      PreGridFits(totalW - 2, totalH - 2, rows, cols);
      var (w, h) := PreGrid(totalW - 2, totalH - 2, rows, cols);
      AxisFit(w, cols);
      AxisFit(h, rows);
    }
  }

  lemma AxisFit(pre: int, n: int)
    requires n >= 1 && pre >= 0
    ensures 0 <= TruncDiv(pre, n) && TruncDiv(pre, n) * n <= pre < TruncDiv(pre, n) * n + n
  {
    var q := pre / n;
    assert TruncDiv(pre, n) == q;
    assert pre == q * n + pre % n && 0 <= pre % n < n;
    if q < 0 {
      MulMono(q, -1, n);
    }
  }

  /**
   * The grid is centred inside the margin: each offset is at least 1, the grid
   * ends at least 1 pixel before the far edge, and the two sides differ by at most
   * one pixel.
   */
  lemma MetricsCentred(totalW: int, totalH: int, rows: int, cols: int)
    requires rows >= 1 && cols >= 1 && totalW >= 2 && totalH >= 2
    ensures var m := CalculateGridMetrics(totalW, totalH, rows, cols);
      1 <= m.offsetX && m.offsetX + m.gridW <= totalW - 1 &&
      0 <= (totalW - m.gridW - m.offsetX) - m.offsetX <= 1
    ensures var m := CalculateGridMetrics(totalW, totalH, rows, cols);
      1 <= m.offsetY && m.offsetY + m.gridH <= totalH - 1 &&
      0 <= (totalH - m.gridH - m.offsetY) - m.offsetY <= 1
  {
    MetricsFit(totalW, totalH, rows, cols);
  }

  // ---------------------------------------------------------------------------
  // updateLayout: the cell rectangles
  // ---------------------------------------------------------------------------

  /**
   * The geometry updateLayout gives the surface of `cell`: its span box moved in
   * by the 1-pixel border on every side, width and height at least 1.
   */
  function CellRect(cell: CellConfig, m: Metrics): (r: Rect)
    ensures r.width >= 1 && r.height >= 1
    ensures cell.colSpan * m.cellW - 2 >= 1 ==> r.width == cell.colSpan * m.cellW - 2
    ensures cell.rowSpan * m.cellH - 2 >= 1 ==> r.height == cell.rowSpan * m.cellH - 2
  {
    var w := cell.colSpan * m.cellW - 2;
    var h := cell.rowSpan * m.cellH - 2;
    Rect(m.offsetX + cell.col * m.cellW + 1, m.offsetY + cell.row * m.cellH + 1,
         if w < 1 then 1 else w, if h < 1 then 1 else h)
  }

  /** The pixels the span of `cell` occupies in the grid. */
  function SpanBox(cell: CellConfig, m: Metrics): Rect {
    Rect(m.offsetX + cell.col * m.cellW, m.offsetY + cell.row * m.cellH,
         cell.colSpan * m.cellW, cell.rowSpan * m.cellH)
  }

  predicate RectInside(inner: Rect, outer: Rect) {
    outer.x <= inner.x && inner.x + inner.width <= outer.x + outer.width &&
    outer.y <= inner.y && inner.y + inner.height <= outer.y + outer.height
  }

  predicate RectsDisjoint(a: Rect, b: Rect) {
    a.x + a.width <= b.x || b.x + b.width <= a.x ||
    a.y + a.height <= b.y || b.y + b.height <= a.y
  }

  /** With cells at least 2 pixels wide and high, each surface lies inside its span box. */
  lemma CellRectInsideSpanBox(cell: CellConfig, m: Metrics)
    requires m.cellW >= 2 && m.cellH >= 2 && cell.rowSpan >= 1 && cell.colSpan >= 1
    ensures RectInside(CellRect(cell, m), SpanBox(cell, m))
  {
    MulMono(1, cell.colSpan, m.cellW);
    MulMono(1, cell.rowSpan, m.cellH);
  }

  /** Cells whose spans do not overlap get disjoint surfaces. */
  lemma CellRectsDisjoint(a: CellConfig, b: CellConfig, m: Metrics)
    requires m.cellW >= 2 && m.cellH >= 2
    requires a.rowSpan >= 1 && a.colSpan >= 1 && b.rowSpan >= 1 && b.colSpan >= 1
    requires !Overlap(a, b)
    ensures RectsDisjoint(CellRect(a, m), CellRect(b, m))
  {
    var ra, rb := CellRect(a, m), CellRect(b, m);
    if a.col + a.colSpan <= b.col {
      AxisApart(a.col, a.colSpan, b.col, m.cellW, m.offsetX);
      assert ra.x + ra.width <= rb.x;
    } else if b.col + b.colSpan <= a.col {
      AxisApart(b.col, b.colSpan, a.col, m.cellW, m.offsetX);
      assert rb.x + rb.width <= ra.x;
    } else if a.row + a.rowSpan <= b.row {
      AxisApart(a.row, a.rowSpan, b.row, m.cellH, m.offsetY);
      assert ra.y + ra.height <= rb.y;
    } else {
      AxisApart(b.row, b.rowSpan, a.row, m.cellH, m.offsetY);
      assert rb.y + rb.height <= ra.y;
    }
  }

  /** Along one axis: a span ending at or before `next` leaves its surface before the next one starts. */
  lemma AxisApart(start: int, span: int, next: int, size: int, off: int)
    requires span >= 1 && size >= 2 && start + span <= next
    ensures var w := span * size - 2;
      off + start * size + 1 + (if w < 1 then 1 else w) <= off + next * size + 1
  {
    MulMono(start + span, next, size);
    MulMono(1, span, size);
    assert (start + span) * size == start * size + span * size;
  }

  /** In a tiled grid with cells of at least 2x2 pixels, distinct cells get disjoint surfaces inside their span boxes. */
  lemma TiledLayout(rows: int, cols: int, cells: seq<CellConfig>, m: Metrics)
    requires Tiled(rows, cols, cells) && m.cellW >= 2 && m.cellH >= 2
    ensures forall i :: 0 <= i < |cells| ==> RectInside(CellRect(cells[i], m), SpanBox(cells[i], m))
    ensures forall i, j :: 0 <= i < |cells| && 0 <= j < |cells| && i != j ==>
      RectsDisjoint(CellRect(cells[i], m), CellRect(cells[j], m))
  {
    forall i | 0 <= i < |cells|
      ensures RectInside(CellRect(cells[i], m), SpanBox(cells[i], m))
    {
      assert InBounds(cells[i], rows, cols);
      CellRectInsideSpanBox(cells[i], m);
    }
    forall i, j | 0 <= i < |cells| && 0 <= j < |cells| && i != j
      ensures RectsDisjoint(CellRect(cells[i], m), CellRect(cells[j], m))
    {
      assert InBounds(cells[i], rows, cols) && InBounds(cells[j], rows, cols);
      if i < j {
        CellRectsDisjoint(cells[i], cells[j], m);
      } else {
        CellRectsDisjoint(cells[j], cells[i], m);
        assert !Overlap(cells[i], cells[j]);
        CellRectsDisjoint(cells[i], cells[j], m);
      }
    }
  }

  /**
   * The layout loop: surface i of the first min(|cells|, |surfaces|) gets the
   * rectangle of cell i; surfaces without a cell keep their geometry.
   */
  method LayoutSurfaces(cells: seq<CellConfig>, surfaces: seq<Rect>, m: Metrics) returns (out: seq<Rect>)
    ensures |out| == |surfaces|
    ensures forall i :: 0 <= i < |out| ==>
      out[i] == (if i < |cells| then CellRect(cells[i], m) else surfaces[i])
  {
    out := surfaces;
    var i := 0;
    while i < |cells| && i < |out|
      invariant 0 <= i <= |out| == |surfaces|
      invariant forall j :: 0 <= j < |out| ==>
        out[j] == (if j < i && j < |cells| then CellRect(cells[j], m) else surfaces[j])
    {
      out := out[i := CellRect(cells[i], m)];
      i := i + 1;
    }
  }

  // ---------------------------------------------------------------------------
  // paintEvent: the separator segments
  // ---------------------------------------------------------------------------

  /** A drawLine call from (x1, y1) to (x2, y2). */
  datatype Line = Line(x1: int, y1: int, x2: int, y2: int)

  /** A run [s, e) of a line: every position needs a line, and neither neighbour does. */
  predicate MaximalRun(need: seq<bool>, s: int, e: int) {
    0 <= s < e <= |need| &&
    (forall j :: s <= j < e ==> need[j]) &&
    (s == 0 || !need[s - 1]) && (e == |need| || !need[e])
  }

  /** `runs` lists exactly the maximal runs of `need`, left to right and separated by gaps. */
  ghost predicate ExactRuns(need: seq<bool>, runs: seq<(int, int)>) {
    (forall t :: 0 <= t < |runs| ==> MaximalRun(need, runs[t].0, runs[t].1)) &&
    (forall t, u :: 0 <= t < u < |runs| ==> runs[t].1 < runs[u].0) &&
    (forall s, e :: MaximalRun(need, s, e) ==> (s, e) in runs)
  }

  /**
   * The segments the scan loop emits from position i on, with a segment open
   * since `start` (or none when start < 0): a segment opens at the first position
   * that needs a line, closes at the next that does not, and a segment still open
   * at the end runs to the end.
   */
  function ScanFrom(need: seq<bool>, i: int, start: int): seq<(int, int)>
    requires 0 <= i <= |need|
    decreases |need| - i
  {
    if i == |need| then (if start >= 0 then [(start, |need|)] else [])
    else if need[i] && start < 0 then ScanFrom(need, i + 1, i)
    else if !need[i] && start >= 0 then [(start, i)] + ScanFrom(need, i + 1, -1)
    else ScanFrom(need, i + 1, start)
  }

  function Segments(need: seq<bool>): seq<(int, int)> {
    ScanFrom(need, 0, -1)
  }

  /** The scan state the loop keeps: an open segment is all-needing and maximal on the left. */
  predicate ScanState(need: seq<bool>, i: int, start: int) {
    0 <= i <= |need| &&
    (start < 0 ==> start == -1 && (i == 0 || !need[i - 1])) &&
    (start >= 0 ==> start < i && (forall j :: start <= j < i ==> need[j]) &&
                    (start == 0 || !need[start - 1]))
  }

  /** Maximal runs starting at `lo` or later, left to right and separated by gaps. */
  ghost predicate RunsFrom(need: seq<bool>, rs: seq<(int, int)>, lo: int) {
    (forall t :: 0 <= t < |rs| ==> MaximalRun(need, rs[t].0, rs[t].1) && rs[t].0 >= lo) &&
    (forall t, u :: 0 <= t < u < |rs| ==> rs[t].1 < rs[u].0)
  }

  /** Every segment the scan emits from a valid state is a maximal run, left to right. */
  lemma {:induction false} ScanSound(need: seq<bool>, i: int, start: int)
    requires ScanState(need, i, start)
    decreases |need| - i
    ensures RunsFrom(need, ScanFrom(need, i, start), if start >= 0 then start else i)
  {
    if i == |need| {
    } else if need[i] && start < 0 {
      ScanSound(need, i + 1, i);
    } else if !need[i] && start >= 0 {
      ScanSound(need, i + 1, -1);
      var rest := ScanFrom(need, i + 1, -1);
      var rs := ScanFrom(need, i, start);
      assert rs == [(start, i)] + rest;
      assert MaximalRun(need, start, i);
      forall t | 0 <= t < |rs|
        ensures MaximalRun(need, rs[t].0, rs[t].1) && rs[t].0 >= start
      {
        if t > 0 {
          assert rs[t] == rest[t - 1];
        }
      }
      forall t, u | 0 <= t < u < |rs|
        ensures rs[t].1 < rs[u].0
      {
        assert rs[u] == rest[u - 1];
        if t > 0 { assert rs[t] == rest[t - 1]; }
      }
    } else {
      ScanSound(need, i + 1, start);
    }
  }

  /** Every maximal run not yet passed by the scan is emitted from a valid state. */
  lemma {:induction false} ScanComplete(need: seq<bool>, i: int, start: int, s: int, e: int)
    requires ScanState(need, i, start)
    requires MaximalRun(need, s, e) && (e > i || (start >= 0 && s == start))
    decreases |need| - i
    ensures (s, e) in ScanFrom(need, i, start)
  {
    if i == |need| {
      if e < |need| { assert false; }
    } else if need[i] && start < 0 {
      if s < i || s == i + 1 { assert false; }
      ScanComplete(need, i + 1, i, s, e);
    } else if !need[i] && start >= 0 {
      if e > i + 1 {
        if s <= i { assert false; }
        ScanComplete(need, i + 1, -1, s, e);
      } else if e == i + 1 {
        assert false;
      } else {
        if s != start || e < i { assert false; }
      }
      assert ScanFrom(need, i, start) == [(start, i)] + ScanFrom(need, i + 1, -1);
    } else if need[i] {
      if s < start || start < s <= i + 1 { assert false; }
      ScanComplete(need, i + 1, start, s, e);
    } else {
      if e == i + 1 { assert false; }
      ScanComplete(need, i + 1, start, s, e);
    }
  }

  /** The scan emits exactly the maximal runs of positions that need a line. */
  lemma SegmentsExact(need: seq<bool>)
    ensures ExactRuns(need, Segments(need))
  {
    ScanSound(need, 0, -1);
    assert Segments(need) == ScanFrom(need, 0, -1);
    forall s, e | MaximalRun(need, s, e)
      ensures (s, e) in Segments(need)
    {
      ScanComplete(need, 0, -1, s, e);
    }
  }

  /** A line nothing needs gets no segment. */
  lemma NoNeedNoSegments(need: seq<bool>)
    requires forall j :: 0 <= j < |need| ==> !need[j]
    ensures Segments(need) == []
  {
    SegmentsExact(need);
    var rs := Segments(need);
    if rs != [] {
      RunNeedsLine(need, rs, 0);
      assert false;
    }
  }

  lemma RunNeedsLine(need: seq<bool>, rs: seq<(int, int)>, t: int)
    requires ExactRuns(need, rs) && 0 <= t < |rs|
    ensures 0 <= rs[t].0 < |need| && need[rs[t].0]
  {
    assert MaximalRun(need, rs[t].0, rs[t].1);
  }

  /** Vertical line `col`: row r needs a line when its left and right owners differ. */
  function VNeed(cells: seq<CellConfig>, rows: nat, col: int): seq<bool> {
    seq(rows, r => Owner(cells, r, col - 1) != Owner(cells, r, col))
  }

  /** Horizontal line `row`: column k needs a line when its upper and lower owners differ. */
  function HNeed(cells: seq<CellConfig>, cols: nat, row: int): seq<bool> {
    seq(cols, k => Owner(cells, row - 1, k) != Owner(cells, row, k))
  }

  /**
   * The interior scan of vertical line `col` over the ownership map, with the
   * source's `segmentStart` (-1 while no segment is open).
   */
  method ScanVertical(own: seq<seq<int>>, cols: int, col: int, ghost need: seq<bool>) returns (runs: seq<(int, int)>)
    requires Shaped(own, |own|, cols) && 1 <= col < cols
    requires |need| == |own|
    requires forall r :: 0 <= r < |own| ==> need[r] == (own[r][col - 1] != own[r][col])
    ensures runs == Segments(need)
  {
    runs := [];
    var segmentStart := -1;
    for row := 0 to |own|
      invariant runs + ScanFrom(need, row, segmentStart) == Segments(need)
    {
      var needLine := own[row][col - 1] != own[row][col];
      if needLine && segmentStart < 0 {
        segmentStart := row;
      } else if !needLine && segmentStart >= 0 {
        runs := runs + [(segmentStart, row)];
        segmentStart := -1;
      }
    }
    if segmentStart >= 0 {
      runs := runs + [(segmentStart, |own|)];
    }
  }

  /** The interior scan of horizontal line `row`. */
  method ScanHorizontal(own: seq<seq<int>>, cols: int, row: int, ghost need: seq<bool>) returns (runs: seq<(int, int)>)
    requires Shaped(own, |own|, cols) && 1 <= row < |own|
    requires |need| == cols
    requires forall k :: 0 <= k < cols ==> need[k] == (own[row - 1][k] != own[row][k])
    ensures runs == Segments(need)
  {
    runs := [];
    var segmentStart := -1;
    for col := 0 to cols
      invariant runs + ScanFrom(need, col, segmentStart) == Segments(need)
    {
      var needLine := own[row - 1][col] != own[row][col];
      if needLine && segmentStart < 0 {
        segmentStart := col;
      } else if !needLine && segmentStart >= 0 {
        runs := runs + [(segmentStart, col)];
        segmentStart := -1;
      }
    }
    if segmentStart >= 0 {
      runs := runs + [(segmentStart, cols)];
    }
  }

  /**
   * The segments of interior vertical line `col`: a run [s, e) is drawn from row s
   * to row e, a run reaching the last row to the bottom edge of the grid.
   */
  function VRunLines(x: int, runs: seq<(int, int)>, rows: int, m: Metrics): (ls: seq<Line>)
    ensures |ls| == |runs|
  {
    seq(|runs|, t requires 0 <= t < |runs| =>
      Line(x, m.offsetY + runs[t].0 * m.cellH,
           x, if runs[t].1 == rows then m.offsetY + m.gridH else m.offsetY + runs[t].1 * m.cellH))
  }

  /** The segments of interior horizontal line `row`. */
  function HRunLines(y: int, runs: seq<(int, int)>, cols: int, m: Metrics): (ls: seq<Line>)
    ensures |ls| == |runs|
  {
    seq(|runs|, t requires 0 <= t < |runs| =>
      Line(m.offsetX + runs[t].0 * m.cellW, y,
           if runs[t].1 == cols then m.offsetX + m.gridW else m.offsetX + runs[t].1 * m.cellW, y))
  }

  /** With whole cells, a segment ending on the last row ends exactly at the bottom edge. */
  lemma VRunLineAt(x: int, runs: seq<(int, int)>, rows: int, m: Metrics, t: int)
    requires 0 <= t < |runs| && m.gridH == m.cellH * rows
    ensures VRunLines(x, runs, rows, m)[t] == Line(x, m.offsetY + runs[t].0 * m.cellH, x, m.offsetY + runs[t].1 * m.cellH)
  {
    var e := runs[t].1;
    if e == rows {
      assert e * m.cellH == m.cellH * rows;
    }
  }

  /** With whole cells, a segment ending on the last column ends exactly at the right edge. */
  lemma HRunLineAt(y: int, runs: seq<(int, int)>, cols: int, m: Metrics, t: int)
    requires 0 <= t < |runs| && m.gridW == m.cellW * cols
    ensures HRunLines(y, runs, cols, m)[t] == Line(m.offsetX + runs[t].0 * m.cellW, y, m.offsetX + runs[t].1 * m.cellW, y)
  {
    var e := runs[t].1;
    if e == cols {
      assert e * m.cellW == m.cellW * cols;
    }
  }

  /** What paintEvent draws for vertical line `col`: the full edge line, or the interior segments. */
  function ColumnLines(cells: seq<CellConfig>, rows: nat, cols: nat, m: Metrics, col: int): seq<Line> {
    var x := m.offsetX + col * m.cellW;
    if col == 0 || col == cols then [Line(x, m.offsetY, x, m.offsetY + m.gridH)]
    else VRunLines(x, Segments(VNeed(cells, rows, col)), rows, m)
  }

  /** What paintEvent draws for horizontal line `row`. */
  function RowLines(cells: seq<CellConfig>, rows: nat, cols: nat, m: Metrics, row: int): seq<Line> {
    var y := m.offsetY + row * m.cellH;
    if row == 0 || row == rows then [Line(m.offsetX, y, m.offsetX + m.gridW, y)]
    else HRunLines(y, Segments(HNeed(cells, cols, row)), cols, m)
  }

  /** The vertical lines 0 .. k-1 in drawing order. */
  function VerticalLines(cells: seq<CellConfig>, rows: nat, cols: nat, m: Metrics, k: nat): seq<Line> {
    if k == 0 then [] else VerticalLines(cells, rows, cols, m, k - 1) + ColumnLines(cells, rows, cols, m, k - 1)
  }

  /** The horizontal lines 0 .. k-1 in drawing order. */
  function HorizontalLines(cells: seq<CellConfig>, rows: nat, cols: nat, m: Metrics, k: nat): seq<Line> {
    if k == 0 then [] else HorizontalLines(cells, rows, cols, m, k - 1) + RowLines(cells, rows, cols, m, k - 1)
  }

  /** Everything paintEvent draws on top of the background: vertical lines, then horizontal ones. */
  function GridLines(cells: seq<CellConfig>, rows: int, cols: int, m: Metrics): seq<Line> {
    if rows <= 0 || cols <= 0 then []
    else VerticalLines(cells, rows, cols, m, cols + 1) + HorizontalLines(cells, rows, cols, m, rows + 1)
  }

  /** The outer lines are always drawn, each as one line along the whole grid edge. */
  lemma OuterLinesFull(cells: seq<CellConfig>, rows: nat, cols: nat, m: Metrics)
    requires rows >= 1 && cols >= 1 && m.gridW == m.cellW * cols && m.gridH == m.cellH * rows
    ensures ColumnLines(cells, rows, cols, m, 0) == [Line(m.offsetX, m.offsetY, m.offsetX, m.offsetY + rows * m.cellH)]
    ensures ColumnLines(cells, rows, cols, m, cols) ==
      [Line(m.offsetX + m.gridW, m.offsetY, m.offsetX + m.gridW, m.offsetY + m.gridH)]
    ensures RowLines(cells, rows, cols, m, 0) == [Line(m.offsetX, m.offsetY, m.offsetX + cols * m.cellW, m.offsetY)]
    ensures RowLines(cells, rows, cols, m, rows) ==
      [Line(m.offsetX, m.offsetY + m.gridH, m.offsetX + m.gridW, m.offsetY + m.gridH)]
  {
    assert cols * m.cellW == m.cellW * cols;
    assert rows * m.cellH == m.cellH * rows;
  }

  /**
   * On an interior vertical line the segments are exactly the maximal runs of rows
   * whose left and right owners differ, each drawn from its first row to the row
   * after its last (the bottom edge for a run reaching the last row).
   */
  lemma InteriorColumnExact(cells: seq<CellConfig>, rows: nat, cols: nat, m: Metrics, col: int)
    requires 0 < col < cols && m.gridH == m.cellH * rows
    ensures var runs := Segments(VNeed(cells, rows, col));
      var ls := ColumnLines(cells, rows, cols, m, col);
      var x := m.offsetX + col * m.cellW;
      ExactRuns(VNeed(cells, rows, col), runs) && |ls| == |runs| &&
      forall t :: 0 <= t < |ls| ==>
        ls[t] == Line(x, m.offsetY + runs[t].0 * m.cellH, x, m.offsetY + runs[t].1 * m.cellH)
  {
    var need := VNeed(cells, rows, col);
    SegmentsExact(need);
    var runs := Segments(need);
    var ls := ColumnLines(cells, rows, cols, m, col);
    var x := m.offsetX + col * m.cellW;
    assert ls == VRunLines(x, runs, rows, m);
    forall t | 0 <= t < |ls|
      ensures ls[t] == Line(x, m.offsetY + runs[t].0 * m.cellH, x, m.offsetY + runs[t].1 * m.cellH)
    {
      VRunLineAt(x, runs, rows, m, t);
    }
  }

  /** On an interior horizontal line the segments are exactly the maximal runs of columns whose owners above and below differ. */
  lemma InteriorRowExact(cells: seq<CellConfig>, rows: nat, cols: nat, m: Metrics, row: int)
    requires 0 < row < rows && m.gridW == m.cellW * cols
    ensures var runs := Segments(HNeed(cells, cols, row));
      var ls := RowLines(cells, rows, cols, m, row);
      var y := m.offsetY + row * m.cellH;
      ExactRuns(HNeed(cells, cols, row), runs) && |ls| == |runs| &&
      forall t :: 0 <= t < |ls| ==>
        ls[t] == Line(m.offsetX + runs[t].0 * m.cellW, y, m.offsetX + runs[t].1 * m.cellW, y)
  {
    var need := HNeed(cells, cols, row);
    SegmentsExact(need);
    var runs := Segments(need);
    var ls := RowLines(cells, rows, cols, m, row);
    var y := m.offsetY + row * m.cellH;
    assert ls == HRunLines(y, runs, cols, m);
    forall t | 0 <= t < |ls|
      ensures ls[t] == Line(m.offsetX + runs[t].0 * m.cellW, y, m.offsetX + runs[t].1 * m.cellW, y)
    {
      HRunLineAt(y, runs, cols, m, t);
    }
  }

  /** A single cell covering the whole grid leaves every interior line undrawn. */
  lemma SingleCellNoInteriorLines(c: CellConfig, rows: nat, cols: nat, m: Metrics)
    requires c.row <= 0 && c.col <= 0 && rows <= c.row + c.rowSpan && cols <= c.col + c.colSpan
    ensures forall col :: 0 < col < cols ==> ColumnLines([c], rows, cols, m, col) == []
    ensures forall row :: 0 < row < rows ==> RowLines([c], rows, cols, m, row) == []
  {
    forall col | 0 < col < cols
      ensures ColumnLines([c], rows, cols, m, col) == []
    {
      var need := VNeed([c], rows, col);
      forall j | 0 <= j < |need|
        ensures !need[j]
      {
        assert Covers([c][0], j, col - 1) && Covers([c][0], j, col);
      }
      NoNeedNoSegments(need);
    }
    forall row | 0 < row < rows
      ensures RowLines([c], rows, cols, m, row) == []
    {
      var need := HNeed([c], cols, row);
      forall j | 0 <= j < |need|
        ensures !need[j]
      {
        assert Covers([c][0], row - 1, j) && Covers([c][0], row, j);
      }
      NoNeedNoSegments(need);
    }
  }

  /** `own` is the ownership map of `cells` over a rows x cols grid. */
  ghost predicate OwnershipOf(own: seq<seq<int>>, cells: seq<CellConfig>, rows: int, cols: int) {
    Shaped(own, rows, cols) &&
    forall r, k :: 0 <= r < rows && 0 <= k < cols ==> own[r][k] == Owner(cells, r, k)
  }

  /** `own` has `rows` rows of `cols` entries each. */
  predicate Shaped(own: seq<seq<int>>, rows: int, cols: int) {
    |own| == rows && forall r :: 0 <= r < |own| ==> |own[r]| == cols
  }

  /**
   * The ownership map paintEvent builds: every position starts at -1, then every
   * cell in list order overwrites the positions of its span inside the grid.
   */
  method BuildOwnershipGrid(rows: nat, cols: nat, cells: seq<CellConfig>) returns (own: seq<seq<int>>)
    requires GridEditing.NonNegOrigins(cells)
    ensures OwnershipOf(own, cells, rows, cols)
  {
    own := seq(rows, _ => seq(cols, _ => -1));
    for i := 0 to |cells|
      invariant Shaped(own, rows, cols)
      invariant forall r, k :: 0 <= r < rows && 0 <= k < cols ==> own[r][k] == Owner(cells[..i], r, k)
    {
      var cell := cells[i];
      var r := cell.row;
      while r < cell.row + cell.rowSpan && r < rows
        invariant cell.row <= r
        invariant r == cell.row || (r <= rows && r <= cell.row + cell.rowSpan)
        invariant Shaped(own, rows, cols)
        invariant forall rr, kk :: 0 <= rr < rows && 0 <= kk < cols ==>
          own[rr][kk] == (if Painted(cell, r, cell.col, rr, kk) then i else Owner(cells[..i], rr, kk))
        decreases rows - r
      {
        var k := cell.col;
        while k < cell.col + cell.colSpan && k < cols
          invariant cell.col <= k
          invariant k == cell.col || (k <= cols && k <= cell.col + cell.colSpan)
          invariant Shaped(own, rows, cols)
          invariant forall rr, kk :: 0 <= rr < rows && 0 <= kk < cols ==>
            own[rr][kk] == (if Painted(cell, r, k, rr, kk) then i else Owner(cells[..i], rr, kk))
          decreases cols - k
        {
          own := own[r := own[r][k := i]];
          k := k + 1;
        }
        r := r + 1;
      }
      assert cells[..i + 1][..i] == cells[..i];
      assert forall rr, kk :: 0 <= rr < rows && 0 <= kk < cols ==>
        (Painted(cell, r, cell.col, rr, kk) <==> Covers(cell, rr, kk));
    }
    assert cells[..|cells|] == cells;
  }

  /** paintEvent's line drawing: the ownership map, then the vertical and the horizontal lines. */
  method PaintLines(cells: seq<CellConfig>, rows: int, cols: int, m: Metrics) returns (lines: seq<Line>)
    requires GridEditing.NonNegOrigins(cells)
    ensures lines == GridLines(cells, rows, cols, m)
  {
    if rows <= 0 || cols <= 0 {
      return [];
    }
    var own := BuildOwnershipGrid(rows, cols, cells);
    var vertical := PaintVertical(own, cells, rows, cols, m);
    var horizontal := PaintHorizontal(own, cells, rows, cols, m);
    lines := vertical + horizontal;
  }

  /** The vertical-line loop of paintEvent. */
  method PaintVertical(own: seq<seq<int>>, cells: seq<CellConfig>, rows: nat, cols: nat, m: Metrics)
    returns (lines: seq<Line>)
    requires OwnershipOf(own, cells, rows, cols)
    ensures lines == VerticalLines(cells, rows, cols, m, cols + 1)
  {
    lines := [];
    for col := 0 to cols + 1
      invariant lines == VerticalLines(cells, rows, cols, m, col)
    {
      var ls := PaintColumn(own, cells, rows, cols, m, col);
      lines := lines + ls;
    }
  }

  /** One vertical line: the full edge line, or the scanned interior segments. */
  method PaintColumn(own: seq<seq<int>>, cells: seq<CellConfig>, rows: nat, cols: nat, m: Metrics, col: int)
    returns (ls: seq<Line>)
    requires OwnershipOf(own, cells, rows, cols) && 0 <= col <= cols
    ensures ls == ColumnLines(cells, rows, cols, m, col)
  {
    var x := m.offsetX + col * m.cellW;
    if col == 0 || col == cols {
      ls := [Line(x, m.offsetY, x, m.offsetY + m.gridH)];
    } else {
      var runs := ScanVertical(own, cols, col, VNeed(cells, rows, col));
      ls := VRunLines(x, runs, rows, m);
    }
  }

  /** The horizontal-line loop of paintEvent. */
  method PaintHorizontal(own: seq<seq<int>>, cells: seq<CellConfig>, rows: nat, cols: nat, m: Metrics)
    returns (lines: seq<Line>)
    requires OwnershipOf(own, cells, rows, cols)
    ensures lines == HorizontalLines(cells, rows, cols, m, rows + 1)
  {
    lines := [];
    for row := 0 to rows + 1
      invariant lines == HorizontalLines(cells, rows, cols, m, row)
    {
      var ls := PaintRow(own, cells, rows, cols, m, row);
      lines := lines + ls;
    }
  }

  /** One horizontal line: the full edge line, or the scanned interior segments. */
  method PaintRow(own: seq<seq<int>>, cells: seq<CellConfig>, rows: nat, cols: nat, m: Metrics, row: int)
    returns (ls: seq<Line>)
    requires OwnershipOf(own, cells, rows, cols) && 0 <= row <= rows
    ensures ls == RowLines(cells, rows, cols, m, row)
  {
    var y := m.offsetY + row * m.cellH;
    if row == 0 || row == rows {
      ls := [Line(m.offsetX, y, m.offsetX + m.gridW, y)];
    } else {
      var runs := ScanHorizontal(own, cols, row, HNeed(cells, cols, row));
      ls := HRunLines(y, runs, cols, m);
    }
  }

  /**
   * The default 4 x 4 grid in a 1280 x 720 window: a 1276 x 716 grid at (2, 2)
   * with 319 x 179 cells, and the top-left cell's surface at (3, 3), 317 x 177.
   */
  lemma DefaultWindowLayout()
    ensures CalculateGridMetrics(1280, 720, 4, 4) == Metrics(1276, 716, 2, 2, 319, 179)
    ensures CellRect(UnitCell(0, 0), Metrics(1276, 716, 2, 2, 319, 179)) == Rect(3, 3, 317, 177)
  {
    assert PreGrid(1278, 718, 4, 4) == (1276, 718);
  }

  // ---------------------------------------------------------------------------
  // The window
  // ---------------------------------------------------------------------------

  /** QRect::isValid. */
  predicate ValidRect(r: Rect) {
    r.width > 0 && r.height > 0
  }

  /**
   * A multiview window: its configuration, its geometry on screen, the metrics
   * updateLayout caches for paintEvent, and the geometry of each cell surface.
   */
  class MultiviewWindow {
    var config: MultiviewConfig
    var geometry: Rect
    var fullscreen: bool
    var gridWidth: int
    var gridHeight: int
    var gridOffsetX: int
    var gridOffsetY: int
    var cellWidth: int
    var cellHeight: int
    var surfaces: seq<Rect>

    /**
     * A window for `cfg` with one surface per cell; a stored geometry that is not
     * valid is replaced by 1280 x 720 at the window's current position `at`.
     * buildGrid then runs updateLayout: for a non-empty grid the metrics of the
     * window size are cached and every surface gets its cell's rectangle; for an
     * empty grid the cache keeps its zero initial values.
     */
    constructor (cfg: MultiviewConfig, at: Rect)
      ensures config == cfg && !fullscreen
      ensures geometry == if ValidRect(cfg.geometry) then cfg.geometry else Rect(at.x, at.y, 1280, 720)
      ensures |surfaces| == |cfg.cells|
      ensures cfg.gridRows <= 0 || cfg.gridCols <= 0 ==>
        Cached() == Metrics(0, 0, 0, 0, 0, 0) &&
        forall i :: 0 <= i < |surfaces| ==> surfaces[i] == Rect(0, 0, 0, 0)
      ensures cfg.gridRows > 0 && cfg.gridCols > 0 ==>
        Cached() == CalculateGridMetrics(geometry.width, geometry.height, cfg.gridRows, cfg.gridCols) &&
        forall i :: 0 <= i < |surfaces| ==> surfaces[i] == CellRect(cfg.cells[i], Cached())
    {
      config := cfg;
      geometry := if ValidRect(cfg.geometry) then cfg.geometry else Rect(at.x, at.y, 1280, 720);
      fullscreen := false;
      gridWidth, gridHeight, gridOffsetX, gridOffsetY := 0, 0, 0, 0;
      cellWidth, cellHeight := 0, 0;
      surfaces := seq(|cfg.cells|, i => Rect(0, 0, 0, 0));
      new;
      UpdateLayout();
    }

    /** The metrics paintEvent reads back from the cache. */
    function Cached(): Metrics
      reads this
    {
      Metrics(gridWidth, gridHeight, gridOffsetX, gridOffsetY, cellWidth, cellHeight)
    }

    /**
     * updateLayout: nothing for an empty grid; otherwise the metrics of the current
     * size are cached and every surface that has a cell gets that cell's rectangle.
     */
    method UpdateLayout()
      modifies this
      ensures config == old(config) && geometry == old(geometry) && fullscreen == old(fullscreen)
      ensures config.gridRows <= 0 || config.gridCols <= 0 ==>
        Cached() == old(Cached()) && surfaces == old(surfaces)
      ensures config.gridRows > 0 && config.gridCols > 0 ==>
        Cached() == CalculateGridMetrics(geometry.width, geometry.height, config.gridRows, config.gridCols) &&
        |surfaces| == |old(surfaces)| &&
        forall i :: 0 <= i < |surfaces| ==>
          surfaces[i] == (if i < |config.cells| then CellRect(config.cells[i], Cached()) else old(surfaces)[i])
    {
      if config.gridRows <= 0 || config.gridCols <= 0 {
        return;
      }
      var m := CalculateGridMetrics(geometry.width, geometry.height, config.gridRows, config.gridCols);
      gridWidth, gridHeight, gridOffsetX, gridOffsetY := m.gridW, m.gridH, m.offsetX, m.offsetY;
      cellWidth, cellHeight := m.cellW, m.cellH;
      surfaces := LayoutSurfaces(config.cells, surfaces, m);
    }

    /** paintEvent: the separator lines of the current cells at the cached metrics. */
    method Paint() returns (lines: seq<Line>)
      requires GridEditing.NonNegOrigins(config.cells)
      ensures lines == GridLines(config.cells, config.gridRows, config.gridCols, Cached())
    {
      lines := PaintLines(config.cells, config.gridRows, config.gridCols, Cached());
    }

    /**
     * saveWindowState: the windowed geometry (only when not fullscreen), the
     * fullscreen flag and the monitor under the window centre, if any, are written
     * into the configuration, which is stored.
     */
    method SaveWindowState(centerScreen: Option<int>, cm: ConfigManager, host: Host)
      requires cm.Valid()
      modifies this, cm
      ensures cm.Valid()
      ensures geometry == old(geometry) && fullscreen == old(fullscreen) && surfaces == old(surfaces)
      ensures Cached() == old(Cached())
      ensures config == old(config).(
        geometry := if fullscreen then old(config).geometry else geometry,
        fullscreen := fullscreen,
        monitorId := if centerScreen.Some? then centerScreen.value else old(config).monitorId)
      ensures cm.multiviews == old(cm.multiviews)[config.name := config]
      ensures cm.templates == old(cm.templates) && cm.suppressSave == old(cm.suppressSave)
      ensures cm.events == old(cm.events) + cm.CollectionSave(host) + [MultiviewUpdated(config.name)]
    {
      var c := config;
      if !fullscreen {
        c := c.(geometry := geometry);
      }
      c := c.(fullscreen := fullscreen);
      if centerScreen.Some? {
        c := c.(monitorId := centerScreen.value);
      }
      config := c;
      cm.UpdateMultiview(c, host);
    }

    /**
     * setFullscreenOnMonitor: an index outside the screen list changes nothing;
     * otherwise the windowed geometry is remembered, the window takes the screen's
     * geometry, becomes fullscreen on that monitor, and its state is saved.
     */
    method SetFullscreenOnMonitor(screens: seq<Rect>, screenIndex: int, centerScreen: Option<int>,
                                  cm: ConfigManager, host: Host)
      requires cm.Valid()
      modifies this, cm
      ensures cm.Valid()
      ensures !(0 <= screenIndex < |screens|) ==>
        config == old(config) && geometry == old(geometry) && fullscreen == old(fullscreen) &&
        cm.multiviews == old(cm.multiviews) && cm.events == old(cm.events)
      ensures 0 <= screenIndex < |screens| ==>
        fullscreen && geometry == screens[screenIndex] && config.fullscreen &&
        config.geometry == (if old(fullscreen) then old(config).geometry else old(geometry)) &&
        config.monitorId == (if centerScreen.Some? then centerScreen.value else screenIndex) &&
        config.name == old(config).name && config.cells == old(config).cells &&
        cm.multiviews == old(cm.multiviews)[config.name := config] &&
        cm.events == old(cm.events) + cm.CollectionSave(host) + [MultiviewUpdated(config.name)]
      ensures cm.templates == old(cm.templates) && cm.suppressSave == old(cm.suppressSave)
      ensures surfaces == old(surfaces)
    {
      if screenIndex < 0 || screenIndex >= |screens| {
        return;
      }
      if !fullscreen {
        config := config.(geometry := geometry);
      }
      geometry := screens[screenIndex];
      fullscreen := true;
      config := config.(fullscreen := true, monitorId := screenIndex);
      SaveWindowState(centerScreen, cm, host);
    }
  }
}
