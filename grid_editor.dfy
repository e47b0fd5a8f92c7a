/**
 * The grid editor widget (src/ui/grid-editor-widget.cpp): a rows x cols grid,
 * its cell list, the derived ownership map and the set of selected positions,
 * with the merge and reset operations and the click/drag selection rules.
 */
module GridEditing {
  import opened CppInt
  import opened ConfigTypes
  import opened GridModel
  import opened Ownership

  /** kPadding of the editor's cell rectangles. */
  const Padding: int := 2

  /**
   * gridPosFromPixel: the grid position under pixel (px, py) of a width x height
   * widget, clamped to the grid; (-1, -1) when a cell would be empty.
   */
  function GridPosFromPixel(width: int, height: int, rows: int, cols: int, px: int, py: int): (p: Pos)
    requires rows >= 1 && cols >= 1 && width >= 0 && height >= 0
    ensures (width < cols || height < rows) <==> p == Pos(-1, -1)
    ensures p != Pos(-1, -1) ==> InGrid(rows, cols, p)
  {
    var cellW := TruncDiv(width, cols);
    var cellH := TruncDiv(height, rows);
    DivPositive(width, cols);
    DivPositive(height, rows);
    if cellW <= 0 || cellH <= 0 then Pos(-1, -1)
    else Pos(Bound(0, TruncDiv(py, cellH), rows - 1), Bound(0, TruncDiv(px, cellW), cols - 1))
  }

  lemma DivPositive(a: int, b: int)
    requires a >= 0 && b > 0
    ensures a / b >= 0
    ensures a / b >= 1 <==> a >= b
  {
  }

  /** cellRect: the editor's drawing rectangle of a span, inset by the padding. */
  function CellRect(width: int, height: int, rows: int, cols: int, row: int, col: int, rowSpan: int, colSpan: int): Rect
    requires rows >= 1 && cols >= 1
  {
    var cellW := TruncDiv(width, cols);
    var cellH := TruncDiv(height, rows);
    Rect(col * cellW + Padding, row * cellH + Padding, colSpan * cellW - 2 * Padding, rowSpan * cellH - 2 * Padding)
  }

  /** A pixel x with a * d <= x < (a + 1) * d lies in band a of width d. */
  lemma DivOfBand(x: int, d: int, a: int)
    requires d > 0 && a * d <= x < (a + 1) * d
    ensures x / d == a
  {
    var q := x / d;
    assert q * d <= x < q * d + d;
    if q < a {
      MulMono(q + 1, a, d);
    }
  }

  lemma MulMono(a: int, b: int, d: int)
    requires a <= b && d > 0
    ensures a * d <= b * d
  {
    assert b * d - a * d == (b - a) * d;
  }

  /**
   * A pixel inside the drawing rectangle of grid position p maps back to p:
   * gridPosFromPixel inverts cellRect.
   */
  lemma PixelInCellRectMapsBack(width: int, height: int, rows: int, cols: int, p: Pos, px: int, py: int)
    requires rows >= 1 && cols >= 1 && width >= 0 && height >= 0
    requires InGrid(rows, cols, p)
    requires var q := CellRect(width, height, rows, cols, p.row, p.col, 1, 1);
      q.x <= px < q.x + q.width && q.y <= py < q.y + q.height
    ensures GridPosFromPixel(width, height, rows, cols, px, py) == p
  {
    var cellW := width / cols;
    var cellH := height / rows;
    assert TruncDiv(width, cols) == cellW && TruncDiv(height, rows) == cellH;
    assert cellW > 0 && cellH > 0;
    assert p.col * cellW >= 0 && p.row * cellH >= 0 by {
      MulMono(0, p.col, cellW);
      MulMono(0, p.row, cellH);
    }
    DivOfBand(px, cellW, p.col);
    DivOfBand(py, cellH, p.row);
    assert TruncDiv(px, cellW) == p.col && TruncDiv(py, cellH) == p.row;
  }

  /**
   * Pixels beyond the last cell clamp to the last row and column.
   */
  lemma PixelBeyondGridClamps(width: int, height: int, rows: int, cols: int, px: int, py: int)
    requires rows >= 1 && cols >= 1 && width >= cols && height >= rows
    requires px >= cols * (width / cols) && py >= rows * (height / rows)
    ensures GridPosFromPixel(width, height, rows, cols, px, py) == Pos(rows - 1, cols - 1)
  {
    var cellW := width / cols;
    var cellH := height / rows;
    DivPositive(width, cols);
    DivPositive(height, rows);
    assert px / cellW >= cols by {
      MulMono(0, cols, cellW);
      DivAtLeast(px, cellW, cols);
    }
    assert py / cellH >= rows by {
      MulMono(0, rows, cellH);
      DivAtLeast(py, cellH, rows);
    }
  }

  lemma DivAtLeast(x: int, d: int, n: int)
    requires d > 0 && x >= n * d && n * d >= 0
    ensures x / d >= n
  {
    if x / d < n {
      MulMono(x / d + 1, n, d);
    }
  }

  /** Selected positions and drag anchors have non-negative 32-bit coordinates. */
  predicate PosInRange(p: Pos) {
    0 <= p.row <= INT_MAX && 0 <= p.col <= INT_MAX
  }

  /** Every cell starts at a non-negative row and column. */
  predicate NonNegOrigins(cs: seq<CellConfig>) {
    forall i :: 0 <= i < |cs| ==> cs[i].row >= 0 && cs[i].col >= 0
  }

  /**
   * Removes the cells at the indices in `drop`, largest index first so that the
   * remaining indices stay valid: the result is the list without those cells.
   */
  method RemoveInDescendingOrder(cells: seq<CellConfig>, drop: set<int>) returns (out: seq<CellConfig>)
    requires forall i :: i in drop ==> 0 <= i < |cells|
    ensures out == RemoveIndices(cells, drop)
  {
    out := cells;
    RemoveNothing(cells);
    var pending := drop;
    ghost var done: set<int> := {};
    while pending != {}
      invariant pending + done == drop && pending !! done
      invariant forall a, b :: a in pending && b in done ==> a < b
      invariant out == RemoveIndices(cells, done)
      decreases pending
    {
      ghost var top := MaxOf(pending);
      var m :| m in pending && forall x :: x in pending ==> x <= m;
      RemoveIndicesStep(cells, done, m);
      out := out[..m] + out[m + 1..];
      pending := pending - {m};
      done := done + {m};
    }
  }

  /**
   * The bounding box of a non-empty selection, from running minima and maxima
   * that start at INT_MAX and 0.
   */
  method SelectionBounds(sel: set<Pos>) returns (b: Box)
    requires sel != {} && forall p :: p in sel ==> PosInRange(p)
    ensures b == BoundingBox(sel)
  {
    var minR, maxR, minC, maxC := INT_MAX, 0, INT_MAX, 0;
    ghost var wMinR, wMaxR, wMinC, wMaxC := Pos(0, 0), Pos(0, 0), Pos(0, 0), Pos(0, 0);
    var rem := sel;
    ghost var done: set<Pos> := {};
    while rem != {}
      invariant done + rem == sel && done !! rem
      invariant done == {} ==> minR == INT_MAX && maxR == 0 && minC == INT_MAX && maxC == 0
      invariant forall q :: q in done ==> minR <= q.row <= maxR && minC <= q.col <= maxC
      invariant done != {} ==> wMinR in done && wMinR.row == minR && wMaxR in done && wMaxR.row == maxR
      invariant done != {} ==> wMinC in done && wMinC.col == minC && wMaxC in done && wMaxC.col == maxC
      decreases rem
    {
      var p :| p in rem;
      if done == {} || p.row < minR { wMinR := p; }
      if done == {} || p.row > maxR { wMaxR := p; }
      if done == {} || p.col < minC { wMinC := p; }
      if done == {} || p.col > maxC { wMaxC := p; }
      minR := Min(minR, p.row);
      maxR := Max(maxR, p.row);
      minC := Min(minC, p.col);
      maxC := Max(maxC, p.col);
      rem := rem - {p};
      done := done + {p};
    }
    b := Box(minR, maxR, minC, maxC);
    BoundingBoxUnique(sel, b);
  }

  /** The selection has its bounding box's area and contains each position of the box. */
  method FillsBoundingBox(sel: set<Pos>, b: Box) returns (ok: bool)
    ensures ok == FillsBox(sel, b)
  {
    var expected := (b.maxRow - b.minRow + 1) * (b.maxCol - b.minCol + 1);
    if |sel| != expected {
      return false;
    }
    var r := b.minRow;
    while r <= b.maxRow
      invariant b.minRow <= r && (r == b.minRow || r <= b.maxRow + 1)
      invariant forall rr, kk :: b.minRow <= rr < r && b.minCol <= kk <= b.maxCol ==> Pos(rr, kk) in sel
      decreases b.maxRow - r
    {
      var k := b.minCol;
      while k <= b.maxCol
        invariant b.minCol <= k && (k == b.minCol || k <= b.maxCol + 1)
        invariant forall kk :: b.minCol <= kk < k ==> Pos(r, kk) in sel
        decreases b.maxCol - k
      {
        if Pos(r, k) !in sel {
          assert InBox(b, r, k);
          return false;
        }
        k := k + 1;
      }
      r := r + 1;
    }
    return true;
  }

  /** Every position of each touched cell's full span is selected. */
  method TouchedSpansSelected(cells: seq<CellConfig>, t: set<int>, sel: set<Pos>) returns (ok: bool)
    requires forall i :: i in t ==> 0 <= i < |cells|
    ensures ok == SpansInside(cells, t, sel)
  {
    var rem := t;
    ghost var done: set<int> := {};
    while rem != {}
      invariant done + rem == t && done !! rem
      invariant forall i, r, k :: i in done && Covers(cells[i], r, k) ==> Pos(r, k) in sel
      decreases rem
    {
      ghost var least := MinOf(rem);
      var idx :| idx in rem;
      var cell := cells[idx];
      var r := cell.row;
      while r < cell.row + cell.rowSpan
        invariant cell.row <= r && (r == cell.row || r <= cell.row + cell.rowSpan)
        invariant forall rr, kk :: cell.row <= rr < r && Covers(cell, rr, kk) ==> Pos(rr, kk) in sel
        decreases cell.row + cell.rowSpan - r
      {
        var k := cell.col;
        while k < cell.col + cell.colSpan
          invariant cell.col <= k && (k == cell.col || k <= cell.col + cell.colSpan)
          invariant forall kk :: cell.col <= kk < k ==> Pos(r, kk) in sel
          decreases cell.col + cell.colSpan - k
        {
          if Pos(r, k) !in sel {
            assert Covers(cells[idx], r, k);
            return false;
          }
          k := k + 1;
        }
        r := r + 1;
      }
      rem := rem - {idx};
      done := done + {idx};
    }
    return true;
  }

  /**
   * The 1x1 default cells for each position of a selection, in the order the
   * set is walked; `order` records that walk.
   */
  method UnitCellsFor(sel: set<Pos>) returns (cs: seq<CellConfig>, ghost order: seq<Pos>)
    ensures Enumerates(order, sel) && cs == UnitCells(order)
  {
    cs := [];
    order := [];
    var rem := sel;
    while rem != {}
      invariant rem <= sel
      invariant forall m :: 0 <= m < |order| ==> order[m] in sel && order[m] !in rem
      invariant forall p :: p in sel && p !in rem ==> p in order
      invariant Distinct(order)
      invariant cs == UnitCells(order)
      decreases rem
    {
      var p :| p in rem;
      cs := cs + [UnitCell(p.row, p.col)];
      order := order + [p];
      rem := rem - {p};
    }
    EnumeratesIntro(order, sel);
  }

  /** Adds every position of the rectangle rows r0..r1, columns k0..k1 to a set. */
  method AddBox(s: set<Pos>, r0: int, r1: int, k0: int, k1: int) returns (out: set<Pos>)
    ensures out == s + BoxSet(r0, r1, k0, k1)
  {
    out := s;
    var r := r0;
    while r <= r1
      invariant r0 <= r && (r == r0 || r <= r1 + 1)
      invariant out == s + BoxSet(r0, r - 1, k0, k1)
      decreases r1 - r
    {
      ghost var before := out;
      var k := k0;
      while k <= k1
        invariant k0 <= k && (k == k0 || k <= k1 + 1)
        invariant out == before + BoxSet(r, r, k0, k - 1)
        decreases k1 - k
      {
        BoxSetColStep(r, k0, k);
        out := out + {Pos(r, k)};
        k := k + 1;
      }
      BoxSetRowStep(r0, r, k0, k1);
      assert BoxSet(r, r, k0, k - 1) == BoxSet(r, r, k0, k1);
      r := r + 1;
    }
    assert BoxSet(r0, r - 1, k0, k1) == BoxSet(r0, r1, k0, k1);
  }

  /** The positions of the rectangle spanned by two drag anchors. */
  function DragRect(a: Pos, b: Pos): (s: set<Pos>)
    ensures a in s && b in s
    ensures forall p :: p in s ==> Min(a.row, b.row) <= p.row <= Max(a.row, b.row)
    ensures forall p :: p in s ==> Min(a.col, b.col) <= p.col <= Max(a.col, b.col)
  {
    BoxSet(Min(a.row, b.row), Max(a.row, b.row), Min(a.col, b.col), Max(a.col, b.col))
  }

  /** A drag rectangle between two in-range (in-grid) anchors stays in range (in the grid). */
  lemma DragRectBetween(rows: int, cols: int, a: Pos, b: Pos)
    requires PosInRange(a) && PosInRange(b)
    ensures forall p :: p in DragRect(a, b) ==> PosInRange(p)
    ensures InGrid(rows, cols, a) && InGrid(rows, cols, b) ==> forall p :: p in DragRect(a, b) ==> InGrid(rows, cols, p)
  {
  }

  /**
   * Replaces the widget of cell idx. The geometry is untouched, so the ownership
   * map and tiling are unaffected.
   */
  method SetCellWidget(rows: int, cols: int, cells: seq<CellConfig>, idx: int, w: WidgetConfig)
    returns (updated: seq<CellConfig>)
    requires 0 <= idx < |cells| && NonNegOrigins(cells)
    ensures updated == cells[idx := cells[idx].(widget := w)]
    ensures NonNegOrigins(updated)
    ensures forall r, k :: Owner(updated, r, k) == Owner(cells, r, k)
    ensures Tiled(rows, cols, cells) ==> Tiled(rows, cols, updated)
  {
    updated := cells[idx := cells[idx].(widget := w)];
    assert SameGeometry(cells, updated);
    forall r, k
      ensures Owner(updated, r, k) == Owner(cells, r, k)
    {
      OwnerSameGeometry(updated, cells, r, k);
    }
    if Tiled(rows, cols, cells) {
      TiledSameGeometry(rows, cols, cells, updated);
    }
  }

  /**
   * The second half of mergeSelected: drop the touched cells, append the merged
   * cell. The result is the specified merge and tiles the grid when the cells did.
   */
  method MergeCells(rows: int, cols: int, cells: seq<CellConfig>, sel: set<Pos>, b: Box, touched: set<int>)
    returns (merged: seq<CellConfig>)
    requires sel != {} && b == BoundingBox(sel) && touched == Touched(rows, cols, cells, sel)
    requires NonNegOrigins(cells) && forall p :: p in sel ==> PosInRange(p)
    ensures merged == MergeResult(rows, cols, cells, sel)
    ensures NonNegOrigins(merged)
    ensures (Tiled(rows, cols, cells) && (forall p :: p in sel ==> InGrid(rows, cols, p)) &&
             CanMerge(rows, cols, cells, sel)) ==> Tiled(rows, cols, merged)
  {
    var kept := RemoveInDescendingOrder(cells, touched);
    merged := kept + [MergedCell(b)];
    MergeResultOrigins(rows, cols, cells, sel);
    if Tiled(rows, cols, cells) && (forall p :: p in sel ==> InGrid(rows, cols, p)) && CanMerge(rows, cols, cells, sel) {
      MergePreservesTiling(rows, cols, cells, sel);
    }
  }

  /**
   * The mass path of resetSelected: drop the touched cells, append a 1x1 default
   * cell per selected position in walk order `order`.
   */
  method ResetCells(rows: int, cols: int, cells: seq<CellConfig>, sel: set<Pos>, touched: set<int>)
    returns (reset: seq<CellConfig>, ghost order: seq<Pos>)
    requires touched == Touched(rows, cols, cells, sel)
    requires NonNegOrigins(cells) && forall p :: p in sel ==> PosInRange(p)
    ensures Enumerates(order, sel) && reset == ResetResult(rows, cols, cells, sel, order)
    ensures NonNegOrigins(reset)
    ensures (Tiled(rows, cols, cells) && (forall p :: p in sel ==> InGrid(rows, cols, p)) &&
             SpansInside(cells, touched, sel)) ==> Tiled(rows, cols, reset)
  {
    var kept := RemoveInDescendingOrder(cells, touched);
    var units;
    units, order := UnitCellsFor(sel);
    reset := kept + units;
    ResetResultOrigins(rows, cols, cells, sel, order);
    if Tiled(rows, cols, cells) && (forall p :: p in sel ==> InGrid(rows, cols, p)) && SpansInside(cells, touched, sel) {
      ResetPreservesTiling(rows, cols, cells, sel, order);
    }
  }

  /** The cell list after a merge keeps every origin non-negative. */
  lemma MergeResultOrigins(rows: int, cols: int, cells: seq<CellConfig>, sel: set<Pos>)
    requires sel != {} && NonNegOrigins(cells) && forall p :: p in sel ==> PosInRange(p)
    ensures NonNegOrigins(MergeResult(rows, cols, cells, sel))
  {
    var b := BoundingBox(sel);
    var kept := RemoveIndices(cells, Touched(rows, cols, cells, sel));
    assert NonNegOrigins(kept);
    assert b.minRow >= 0 && b.minCol >= 0;
  }

  /** So does the cell list after a mass reset. */
  lemma ResetResultOrigins(rows: int, cols: int, cells: seq<CellConfig>, sel: set<Pos>, order: seq<Pos>)
    requires NonNegOrigins(cells) && forall p :: p in sel ==> PosInRange(p)
    requires Enumerates(order, sel)
    ensures NonNegOrigins(ResetResult(rows, cols, cells, sel, order))
  {
    var kept := RemoveIndices(cells, Touched(rows, cols, cells, sel));
    assert NonNegOrigins(kept);
    EnumeratesFacts(order, sel);
    assert NonNegOrigins(UnitCells(order));
  }

  class GridEditorWidget {
    var rows: int
    var cols: int
    var cells: seq<CellConfig>
    var ownership: array2<int>
    var selected: set<Pos>
    var dragging: bool
    var dragStart: Pos
    var dragCurrent: Pos
    /** QWidget::width()/height(), supplied by the layout. */
    var width: int
    var height: int

    ghost predicate Valid()
      reads this, ownership
    {
      1 <= rows <= INT_MAX && 1 <= cols <= INT_MAX &&
      ownership.Length0 == rows && ownership.Length1 == cols &&
      (forall r, k :: 0 <= r < rows && 0 <= k < cols ==> ownership[r, k] == Owner(cells, r, k)) &&
      NonNegOrigins(cells) &&
      (forall p :: p in selected ==> PosInRange(p)) &&
      PosInRange(dragStart) && PosInRange(dragCurrent) &&
      width >= 0 && height >= 0
    }

    /** Every selected position lies inside the grid. */
    ghost predicate SelectionInGrid()
      reads this
    {
      forall p :: p in selected ==> InGrid(rows, cols, p)
    }

    /** A fresh editor: an empty 4x4 grid, nothing selected, not dragging. */
    constructor (w: int, h: int)
      requires w >= 0 && h >= 0
      ensures Valid() && fresh(ownership)
      ensures rows == 4 && cols == 4 && cells == [] && selected == {} && !dragging
      ensures width == w && height == h
    {
      rows := 4;
      cols := 4;
      cells := [];
      selected := {};
      dragging := false;
      dragStart := Pos(0, 0);
      dragCurrent := Pos(0, 0);
      width := w;
      height := h;
      new;
      ownership := BuildOwnership(4, 4, []);
    }

    /** setGrid: at least one row and column, the given cells, an empty selection. */
    method SetGrid(newRows: int, newCols: int, newCells: seq<CellConfig>)
      requires Valid()
      requires newRows <= INT_MAX && newCols <= INT_MAX
      requires forall i :: 0 <= i < |newCells| ==> newCells[i].row >= 0 && newCells[i].col >= 0
      modifies this
      ensures Valid() && fresh(ownership)
      ensures rows == Max(1, newRows) && cols == Max(1, newCols)
      ensures cells == newCells && selected == {}
      ensures dragging == old(dragging) && dragStart == old(dragStart) && dragCurrent == old(dragCurrent)
      ensures width == old(width) && height == old(height)
    {
      rows := Max(1, newRows);
      cols := Max(1, newCols);
      cells := newCells;
      selected := {};
      ownership := BuildOwnership(rows, cols, cells);
    }

    /** ownerAt: -1 outside the grid, otherwise the ownership map's entry. */
    method OwnerAt(row: int, col: int) returns (o: int)
      requires Valid()
      ensures o == GridModel.OwnerAt(rows, cols, cells, Pos(row, col))
    {
      if row < 0 || row >= rows || col < 0 || col >= cols {
        return -1;
      }
      return ownership[row, col];
    }

    /** selectedCellIndex. */
    method SelectedCellIndex() returns (idx: int)
      requires Valid()
      ensures idx >= -1
      ensures idx >= 0 ==> SingleOwner(rows, cols, cells, selected, idx)
      ensures idx == -1 ==> forall i :: !SingleOwner(rows, cols, cells, selected, i)
      ensures idx == SelectedCell(rows, cols, cells, selected)
    {
      if selected == {} {
        return -1;
      }
      var first :| first in selected;
      idx := OwnerAt(first.row, first.col);
      var rem := selected;
      while rem != {}
        invariant rem <= selected
        invariant forall q :: q in selected && q !in rem ==> GridModel.OwnerAt(rows, cols, cells, q) == idx
        decreases rem
      {
        var p :| p in rem;
        var o := OwnerAt(p.row, p.col);
        if o != idx {
          SelectedCellUnique(rows, cols, cells, selected, -1);
          return -1;
        }
        rem := rem - {p};
      }
      if idx < 0 {
        idx := -1;
      }
      SelectedCellUnique(rows, cols, cells, selected, idx);
    }

    /** setWidgetForSelected: only the single selected cell's widget changes. */
    method SetWidgetForSelected(w: WidgetConfig)
      requires Valid()
      modifies this
      ensures Valid()
      ensures var idx := SelectedCell(old(rows), old(cols), old(cells), old(selected));
        cells == if idx >= 0 then old(cells)[idx := old(cells)[idx].(widget := w)] else old(cells)
      ensures rows == old(rows) && cols == old(cols) && selected == old(selected) && ownership == old(ownership)
      ensures dragging == old(dragging) && dragStart == old(dragStart) && dragCurrent == old(dragCurrent)
      ensures width == old(width) && height == old(height)
      ensures old(Tiled(rows, cols, cells)) ==> Tiled(rows, cols, cells)
    {
      var idx := SelectedCellIndex();
      if idx >= 0 && idx < |cells| {
        cells := SetCellWidget(rows, cols, cells, idx, w);
      }
    }

    /** The indices of the cells owning a selected position. */
    method TouchedCells() returns (t: set<int>)
      requires Valid()
      ensures t == Touched(rows, cols, cells, selected)
    {
      t := {};
      var rem := selected;
      ghost var done: set<Pos> := {};
      while rem != {}
        invariant done + rem == selected && done !! rem
        invariant t == Touched(rows, cols, cells, done)
        decreases rem
      {
        var p :| p in rem;
        var idx := OwnerAt(p.row, p.col);
        TouchedInsert(rows, cols, cells, done, p);
        if idx >= 0 {
          t := t + {idx};
        }
        rem := rem - {p};
        done := done + {p};
      }
    }

    /** canMergeSelected. */
    method CanMergeSelected() returns (can: bool)
      requires Valid()
      ensures can == CanMerge(rows, cols, cells, selected)
    {
      if |selected| < 2 {
        return false;
      }
      var b := SelectionBounds(selected);
      var fills := FillsBoundingBox(selected, b);
      if !fills {
        return false;
      }
      var t := TouchedCells();
      can := TouchedSpansSelected(cells, t, selected);
    }

    /** canResetSelected. */
    method CanResetSelected() returns (can: bool)
      requires Valid()
      ensures can == CanReset(rows, cols, cells, selected)
    {
      if selected == {} {
        return false;
      }
      var idx := SelectedCellIndex();
      if idx >= 0 {
        return true;
      }
      var b := SelectionBounds(selected);
      var fills := FillsBoundingBox(selected, b);
      if !fills {
        return false;
      }
      var t := TouchedCells();
      can := TouchedSpansSelected(cells, t, selected);
    }

    /**
     * mergeSelected: when the selection can be merged, the touched cells are removed,
     * one default cell spanning the bounding box is appended and the selection is cleared.
     */
    method MergeSelected()
      requires Valid()
      modifies this
      ensures Valid()
      ensures !old(CanMerge(rows, cols, cells, selected)) ==>
        cells == old(cells) && selected == old(selected) && ownership == old(ownership)
      ensures old(CanMerge(rows, cols, cells, selected)) ==>
        cells == old(MergeResult(rows, cols, cells, selected)) && selected == {}
      ensures old(CanMerge(rows, cols, cells, selected) && Tiled(rows, cols, cells) && SelectionInGrid()) ==>
        Tiled(rows, cols, cells)
      ensures rows == old(rows) && cols == old(cols)
      ensures dragging == old(dragging) && dragStart == old(dragStart) && dragCurrent == old(dragCurrent)
      ensures width == old(width) && height == old(height)
    {
      var can := CanMergeSelected();
      if !can {
        return;
      }
      ApplyMerge();
    }

    /** The body of mergeSelected once canMergeSelected has passed. */
    method ApplyMerge()
      requires Valid() && CanMerge(rows, cols, cells, selected)
      modifies this
      ensures Valid()
      ensures cells == old(MergeResult(rows, cols, cells, selected)) && selected == {}
      ensures old(Tiled(rows, cols, cells) && SelectionInGrid()) ==> Tiled(rows, cols, cells)
      ensures rows == old(rows) && cols == old(cols)
      ensures dragging == old(dragging) && dragStart == old(dragStart) && dragCurrent == old(dragCurrent)
      ensures width == old(width) && height == old(height)
    {
      var b := SelectionBounds(selected);
      var toRemove := TouchedCells();
      var merged := MergeCells(rows, cols, cells, selected, b, toRemove);
      cells := merged;
      selected := {};
      ownership := BuildOwnership(rows, cols, cells);
    }

    /**
     * resetSelected. The fast path clears the widget of a single selected 1x1 cell;
     * otherwise every touched cell is removed and a default 1x1 cell is appended
     * for each selected position, in the selection's iteration order `order`.
     */
    method ResetSelected() returns (ghost order: seq<Pos>)
      requires Valid()
      modifies this
      ensures Valid()
      ensures !old(CanReset(rows, cols, cells, selected)) ==>
        cells == old(cells) && selected == old(selected) && ownership == old(ownership)
      ensures var idx := old(SelectedCell(rows, cols, cells, selected));
        old(CanReset(rows, cols, cells, selected)) && idx >= 0 &&
        old(cells)[idx].rowSpan == 1 && old(cells)[idx].colSpan == 1 ==>
          cells == old(cells)[idx := old(cells)[idx].(widget := DefaultWidget)] && selected == old(selected)
      ensures var idx := old(SelectedCell(rows, cols, cells, selected));
        old(CanReset(rows, cols, cells, selected)) &&
        !(idx >= 0 && old(cells)[idx].rowSpan == 1 && old(cells)[idx].colSpan == 1) ==>
          Enumerates(order, old(selected)) &&
          cells == old(ResetResult(rows, cols, cells, selected, order)) && selected == {}
      ensures old(Tiled(rows, cols, cells) && SelectionInGrid() &&
                  SpansInside(cells, Touched(rows, cols, cells, selected), selected)) ==>
        Tiled(rows, cols, cells)
      ensures rows == old(rows) && cols == old(cols)
      ensures dragging == old(dragging) && dragStart == old(dragStart) && dragCurrent == old(dragCurrent)
      ensures width == old(width) && height == old(height)
    {
      order := [];
      var can := CanResetSelected();
      if !can {
        return;
      }
      var singleIdx := SelectedCellIndex();
      if singleIdx >= 0 && singleIdx < |cells| {
        var cell := cells[singleIdx];
        if cell.rowSpan == 1 && cell.colSpan == 1 {
          ResetWidget(singleIdx);
          return;
        }
      }
      order := ResetAll();
    }

    /** The fast path of resetSelected: cell idx gets the default widget. */
    method ResetWidget(idx: int)
      requires Valid() && 0 <= idx < |cells|
      modifies this
      ensures Valid()
      ensures cells == old(cells)[idx := old(cells)[idx].(widget := DefaultWidget)] && selected == old(selected)
      ensures old(Tiled(rows, cols, cells)) ==> Tiled(rows, cols, cells)
      ensures rows == old(rows) && cols == old(cols)
      ensures dragging == old(dragging) && dragStart == old(dragStart) && dragCurrent == old(dragCurrent)
      ensures width == old(width) && height == old(height)
    {
      cells := SetCellWidget(rows, cols, cells, idx, DefaultWidget);
      ownership := BuildOwnership(rows, cols, cells);
    }

    /** The mass path of resetSelected. */
    method ResetAll() returns (ghost order: seq<Pos>)
      requires Valid()
      modifies this
      ensures Valid()
      ensures Enumerates(order, old(selected))
      ensures cells == old(ResetResult(rows, cols, cells, selected, order)) && selected == {}
      ensures old(Tiled(rows, cols, cells) && SelectionInGrid() &&
                  SpansInside(cells, Touched(rows, cols, cells, selected), selected)) ==>
        Tiled(rows, cols, cells)
      ensures rows == old(rows) && cols == old(cols)
      ensures dragging == old(dragging) && dragStart == old(dragStart) && dragCurrent == old(dragCurrent)
      ensures width == old(width) && height == old(height)
    {
      var toRemove := TouchedCells();
      var reset;
      reset, order := ResetCells(rows, cols, cells, selected, toRemove);
      cells := reset;
      selected := {};
      ownership := BuildOwnership(rows, cols, cells);
    }

    /** clearSelection. */
    method ClearSelection()
      requires Valid()
      modifies this
      ensures Valid() && selected == {}
      ensures rows == old(rows) && cols == old(cols) && cells == old(cells) && ownership == old(ownership)
      ensures dragging == old(dragging) && dragStart == old(dragStart) && dragCurrent == old(dragCurrent)
      ensures width == old(width) && height == old(height)
    {
      selected := {};
    }

    /**
     * mousePressEvent: a left click on a grid position starts a drag there; without
     * Ctrl it selects only that position, with Ctrl it toggles it.
     */
    method MousePress(leftButton: bool, px: int, py: int, ctrl: bool)
      requires Valid()
      modifies this
      ensures Valid()
      ensures var gp := GridPosFromPixel(old(width), old(height), old(rows), old(cols), px, py);
        if !leftButton || gp.col < 0 then
          selected == old(selected) && dragging == old(dragging) &&
          dragStart == old(dragStart) && dragCurrent == old(dragCurrent)
        else
          dragging && dragStart == gp && dragCurrent == gp &&
          selected == (if !ctrl then {gp}
                       else if gp in old(selected) then old(selected) - {gp}
                       else old(selected) + {gp})
      ensures old(SelectionInGrid()) ==> SelectionInGrid()
      ensures rows == old(rows) && cols == old(cols) && cells == old(cells) && ownership == old(ownership)
      ensures width == old(width) && height == old(height)
    {
      if !leftButton {
        return;
      }
      var gp := GridPosFromPixel(width, height, rows, cols, px, py);
      if gp.col < 0 {
        return;
      }
      dragStart := gp;
      dragCurrent := gp;
      dragging := true;
      if !ctrl {
        selected := {};
      }
      if ctrl && gp in selected {
        selected := selected - {gp};
      } else {
        selected := selected + {gp};
      }
    }

    /**
     * mouseMoveEvent: while dragging, the selection becomes (without Ctrl) or gains
     * (with Ctrl) every position of the rectangle between the drag start and the
     * position under the pointer.
     */
    method MouseMove(px: int, py: int, ctrl: bool)
      requires Valid()
      modifies this
      ensures Valid()
      ensures var gp := GridPosFromPixel(old(width), old(height), old(rows), old(cols), px, py);
        if !old(dragging) || gp.col < 0 then
          selected == old(selected) && dragCurrent == old(dragCurrent)
        else
          dragCurrent == gp &&
          selected == (if ctrl then old(selected) else {}) + DragRect(dragStart, gp)
      ensures old(SelectionInGrid()) && InGrid(rows, cols, dragStart) ==> SelectionInGrid()
      ensures dragging == old(dragging) && dragStart == old(dragStart)
      ensures rows == old(rows) && cols == old(cols) && cells == old(cells) && ownership == old(ownership)
      ensures width == old(width) && height == old(height)
    {
      if !dragging {
        return;
      }
      var gp := GridPosFromPixel(width, height, rows, cols, px, py);
      if gp.col < 0 {
        return;
      }
      dragCurrent := gp;
      if !ctrl {
        selected := {};
      }
      var minC := Min(dragStart.col, dragCurrent.col);
      var maxC := Max(dragStart.col, dragCurrent.col);
      var minR := Min(dragStart.row, dragCurrent.row);
      var maxR := Max(dragStart.row, dragCurrent.row);
      DragRectBetween(rows, cols, dragStart, gp);
      selected := AddBox(selected, minR, maxR, minC, maxC);
    }

    /** mouseReleaseEvent: releasing the left button ends the drag. */
    method MouseRelease(leftButton: bool)
      requires Valid()
      modifies this
      ensures Valid()
      ensures dragging == (old(dragging) && !leftButton)
      ensures selected == old(selected) && dragStart == old(dragStart) && dragCurrent == old(dragCurrent)
      ensures rows == old(rows) && cols == old(cols) && cells == old(cells) && ownership == old(ownership)
      ensures width == old(width) && height == old(height)
    {
      if leftButton {
        dragging := false;
      }
    }
  }
}
