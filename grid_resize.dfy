/**
 * Changing the grid dimensions in the edit dialogs (onGridSizeChanged in
 * src/ui/multiview-edit-dialog.cpp and the same lambda in
 * src/ui/template-manage-dialog.cpp): cells whose origin is still inside the
 * grid survive with their spans clamped, and every position no survivor covers
 * gets a fresh 1x1 default cell, in row-major order.
 */
module GridResize {
  import opened ConfigTypes
  import opened GridModel
  import opened Ownership
  import opened GridEditing

  /** A cell survives when its origin lies inside the new grid. */
  predicate Survives(c: CellConfig, rows: int, cols: int) {
    c.row < rows && c.col < cols
  }

  /** The surviving copy: spans cut back so the cell ends at the grid border. */
  function Clamp(c: CellConfig, rows: int, cols: int): (d: CellConfig)
    ensures d.row == c.row && d.col == c.col && d.widget == c.widget
    ensures Survives(c, rows, cols) ==> d.row + d.rowSpan <= rows && d.col + d.colSpan <= cols
    ensures Survives(c, rows, cols) && c.rowSpan >= 1 && c.colSpan >= 1 ==> d.rowSpan >= 1 && d.colSpan >= 1
    ensures d.rowSpan <= c.rowSpan && d.colSpan <= c.colSpan
    ensures forall r, k :: 0 <= r < rows && 0 <= k < cols ==> (Covers(d, r, k) <==> Covers(c, r, k))
  {
    var rs := if c.row + c.rowSpan > rows then rows - c.row else c.rowSpan;
    var cs := if c.col + c.colSpan > cols then cols - c.col else c.colSpan;
    c.(rowSpan := rs, colSpan := cs)
  }

  /** The clamped survivors, in their original order. */
  function Survivors(cells: seq<CellConfig>, rows: int, cols: int): (s: seq<CellConfig>)
    ensures |s| <= |cells|
  {
    if |cells| == 0 then []
    else
      var last := cells[|cells| - 1];
      Survivors(cells[..|cells| - 1], rows, cols) + (if Survives(last, rows, cols) then [Clamp(last, rows, cols)] else [])
  }

  /** The positions of row r before column k that no survivor covers, left to right. */
  function FreeInRow(surv: seq<CellConfig>, r: int, k: int): (ps: seq<Pos>)
    ensures forall m :: 0 <= m < |ps| ==> ps[m].row == r && 0 <= ps[m].col < k && Owner(surv, r, ps[m].col) < 0
    ensures forall m1, m2 :: 0 <= m1 < m2 < |ps| ==> ps[m1].col < ps[m2].col
    decreases if k < 0 then 0 else k
  {
    if k <= 0 then []
    else FreeInRow(surv, r, k - 1) + (if Owner(surv, r, k - 1) < 0 then [Pos(r, k - 1)] else [])
  }

  /** The uncovered positions of rows 0 .. r-1 of a grid `cols` wide, in row-major order. */
  function FreeRows(surv: seq<CellConfig>, r: int, cols: int): (ps: seq<Pos>)
    ensures forall m :: 0 <= m < |ps| ==>
      0 <= ps[m].row < r && 0 <= ps[m].col < cols && Owner(surv, ps[m].row, ps[m].col) < 0
    ensures forall m1, m2 :: 0 <= m1 < m2 < |ps| ==> RowMajorBefore(ps[m1], ps[m2])
    decreases if r < 0 then 0 else r
  {
    if r <= 0 then []
    else FreeRows(surv, r - 1, cols) + FreeInRow(surv, r - 1, cols)
  }

  /** p comes strictly before q in row-major order. */
  predicate RowMajorBefore(p: Pos, q: Pos) {
    p.row < q.row || (p.row == q.row && p.col < q.col)
  }

  /** The cell list onGridSizeChanged hands to setGrid. */
  function Resized(cells: seq<CellConfig>, rows: int, cols: int): seq<CellConfig> {
    var surv := Survivors(cells, rows, cols);
    surv + UnitCells(FreeRows(surv, rows, cols))
  }

  // ---- the algorithm ----

  /**
   * The resize loops: survivors are appended and their (clamped) spans marked in
   * an `occupied` map; then every unmarked position, row by row, gets a 1x1 cell.
   */
  method ResizeCells(oldCells: seq<CellConfig>, newRows: int, newCols: int) returns (newCells: seq<CellConfig>)
    requires newRows >= 0 && newCols >= 0
    requires NonNegOrigins(oldCells)
    ensures newCells == Resized(oldCells, newRows, newCols)
  {
    var occupied := new bool[newRows, newCols]((r, k) => false);
    var surv := CollectSurvivors(oldCells, occupied);
    var fill := [];
    var r := 0;
    while r < newRows
      invariant 0 <= r <= newRows
      invariant fill == UnitCells(FreeRows(surv, r, newCols))
      modifies {}
      decreases newRows - r
    {
      var row := FreeCellsOfRow(occupied, surv, r);
      FreeRowsStep(surv, r, newCols);
      fill := fill + row;
      r := r + 1;
    }
    newCells := surv + fill;
  }

  /**
   * The first loop of the resize: keeps the clamped survivors in order and marks
   * what they cover in the (all-false) occupied map.
   */
  method CollectSurvivors(oldCells: seq<CellConfig>, occupied: array2<bool>) returns (surv: seq<CellConfig>)
    requires NonNegOrigins(oldCells)
    requires forall rr, kk :: 0 <= rr < occupied.Length0 && 0 <= kk < occupied.Length1 ==> !occupied[rr, kk]
    modifies occupied
    ensures surv == Survivors(oldCells, occupied.Length0, occupied.Length1)
    ensures forall rr, kk :: 0 <= rr < occupied.Length0 && 0 <= kk < occupied.Length1 ==>
      occupied[rr, kk] == (Owner(surv, rr, kk) >= 0)
  {
    surv := [];
    for i := 0 to |oldCells|
      invariant surv == Survivors(oldCells[..i], occupied.Length0, occupied.Length1)
      invariant forall rr, kk :: 0 <= rr < occupied.Length0 && 0 <= kk < occupied.Length1 ==>
        occupied[rr, kk] == (Owner(surv, rr, kk) >= 0)
    {
      var cell := oldCells[i];
      assert oldCells[..i + 1][..i] == oldCells[..i];
      if cell.row < occupied.Length0 && cell.col < occupied.Length1 {
        var c := Clamp(cell, occupied.Length0, occupied.Length1);
        ghost var before := surv;
        surv := surv + [c];
        MarkSpan(occupied, c, before);
      }
    }
    assert oldCells[..|oldCells|] == oldCells;
  }

  /** The inner loop of the second pass: a 1x1 cell for every unmarked position of row r. */
  method FreeCellsOfRow(occupied: array2<bool>, ghost surv: seq<CellConfig>, r: int) returns (row: seq<CellConfig>)
    requires 0 <= r < occupied.Length0
    requires forall rr, kk :: 0 <= rr < occupied.Length0 && 0 <= kk < occupied.Length1 ==>
      occupied[rr, kk] == (Owner(surv, rr, kk) >= 0)
    ensures row == UnitCells(FreeInRow(surv, r, occupied.Length1))
  {
    row := [];
    var k := 0;
    while k < occupied.Length1
      invariant 0 <= k <= occupied.Length1
      invariant row == UnitCells(FreeInRow(surv, r, k))
      decreases occupied.Length1 - k
    {
      if !occupied[r, k] {
        UnitCellsSnoc(FreeInRow(surv, r, k), Pos(r, k));
        row := row + [UnitCell(r, k)];
      }
      k := k + 1;
    }
  }

  /**
   * Marks the span of a clamped survivor c, just appended to `before`, in the
   * occupied map: afterwards the map records "some survivor covers" for before + [c].
   */
  method MarkSpan(occupied: array2<bool>, c: CellConfig, ghost before: seq<CellConfig>)
    requires c.row >= 0 && c.col >= 0
    requires c.row + c.rowSpan <= occupied.Length0 && c.col + c.colSpan <= occupied.Length1
    requires forall rr, kk :: 0 <= rr < occupied.Length0 && 0 <= kk < occupied.Length1 ==>
      occupied[rr, kk] == (Owner(before, rr, kk) >= 0)
    modifies occupied
    ensures forall rr, kk :: 0 <= rr < occupied.Length0 && 0 <= kk < occupied.Length1 ==>
      occupied[rr, kk] == (Owner(before + [c], rr, kk) >= 0)
  {
    var r := c.row;
    while r < c.row + c.rowSpan
      invariant c.row <= r && (r == c.row || r <= c.row + c.rowSpan)
      invariant forall rr, kk :: 0 <= rr < occupied.Length0 && 0 <= kk < occupied.Length1 ==>
        occupied[rr, kk] == (Painted(c, r, c.col, rr, kk) || Owner(before, rr, kk) >= 0)
      decreases c.row + c.rowSpan - r
    {
      var k := c.col;
      while k < c.col + c.colSpan
        invariant c.col <= k && (k == c.col || k <= c.col + c.colSpan)
        invariant forall rr, kk :: 0 <= rr < occupied.Length0 && 0 <= kk < occupied.Length1 ==>
          occupied[rr, kk] == (Painted(c, r, k, rr, kk) || Owner(before, rr, kk) >= 0)
        decreases c.col + c.colSpan - k
      {
        occupied[r, k] := true;
        k := k + 1;
      }
      r := r + 1;
    }
    assert (before + [c])[..|before|] == before;
    assert forall rr, kk :: 0 <= rr < occupied.Length0 && 0 <= kk < occupied.Length1 ==>
      (Painted(c, r, c.col, rr, kk) <==> Covers(c, rr, kk));
  }

  /** One more row of the second pass appends that row's unit cells. */
  lemma FreeRowsStep(surv: seq<CellConfig>, r: int, cols: int)
    requires r >= 0
    ensures UnitCells(FreeRows(surv, r + 1, cols)) == UnitCells(FreeRows(surv, r, cols)) + UnitCells(FreeInRow(surv, r, cols))
  {
    UnitCellsAppend(FreeRows(surv, r, cols), FreeInRow(surv, r, cols));
  }

  lemma UnitCellsAppend(a: seq<Pos>, b: seq<Pos>)
    ensures UnitCells(a + b) == UnitCells(a) + UnitCells(b)
  {
    var lhs := UnitCells(a + b);
    var rhs := UnitCells(a) + UnitCells(b);
    assert |lhs| == |rhs|;
    forall m | 0 <= m < |lhs|
      ensures lhs[m] == rhs[m]
    {
      if m < |a| {
        assert (a + b)[m] == a[m];
      } else {
        assert (a + b)[m] == b[m - |a|];
      }
    }
  }

  lemma UnitCellsSnoc(order: seq<Pos>, p: Pos)
    ensures UnitCells(order + [p]) == UnitCells(order) + [UnitCell(p.row, p.col)]
  {
    var lhs := UnitCells(order + [p]);
    var rhs := UnitCells(order) + [UnitCell(p.row, p.col)];
    assert |lhs| == |rhs|;
    forall m | 0 <= m < |lhs|
      ensures lhs[m] == rhs[m]
    {
      if m < |order| {
        assert (order + [p])[m] == order[m];
      }
    }
  }

  // ---- what a resize keeps and what it adds ----

  /** The indices of the cells whose origin falls outside the new grid. */
  function Dropped(cells: seq<CellConfig>, rows: int, cols: int): (d: set<int>)
    ensures forall i :: i in d <==> 0 <= i < |cells| && !Survives(cells[i], rows, cols)
  {
    set i | 0 <= i < |cells| && !Survives(cells[i], rows, cols)
  }

  /**
   * The survivors are exactly the cells whose origin is inside the new grid, in
   * their original order, each clamped (its widget and origin kept).
   */
  lemma {:induction false} SurvivorsAreKept(cells: seq<CellConfig>, rows: int, cols: int)
    ensures |Survivors(cells, rows, cols)| == |KeptIndices(|cells|, Dropped(cells, rows, cols))|
    ensures forall m :: 0 <= m < |Survivors(cells, rows, cols)| ==>
      Survivors(cells, rows, cols)[m] == Clamp(cells[KeptIndices(|cells|, Dropped(cells, rows, cols))[m]], rows, cols)
  {
    if |cells| > 0 {
      var n := |cells|;
      var init := cells[..n - 1];
      SurvivorsAreKept(init, rows, cols);
      KeptIndicesAgree(n - 1, Dropped(init, rows, cols), Dropped(cells, rows, cols));
      var s := Survivors(cells, rows, cols);
      var s0 := Survivors(init, rows, cols);
      var ks := KeptIndices(n, Dropped(cells, rows, cols));
      var ks0 := KeptIndices(n - 1, Dropped(cells, rows, cols));
      assert ks == ks0 + (if n - 1 in Dropped(cells, rows, cols) then [] else [n - 1]);
      forall m | 0 <= m < |s|
        ensures s[m] == Clamp(cells[ks[m]], rows, cols)
      {
        if m < |s0| {
          assert s[m] == s0[m];
          assert ks[m] == ks0[m];
          assert init[ks0[m]] == cells[ks0[m]];
        }
      }
    }
  }

  /** A survivor of cells that were in order is in bounds; two survivors never overlap. */
  lemma SurvivorsDisjoint(cells: seq<CellConfig>, rows: int, cols: int)
    requires NonNegOrigins(cells) && PairwiseDisjoint(cells)
    requires forall i :: 0 <= i < |cells| ==> cells[i].rowSpan >= 1 && cells[i].colSpan >= 1
    ensures AllInBounds(rows, cols, Survivors(cells, rows, cols))
    ensures PairwiseDisjoint(Survivors(cells, rows, cols))
  {
    SurvivorsAreKept(cells, rows, cols);
    var s := Survivors(cells, rows, cols);
    var ks := KeptIndices(|cells|, Dropped(cells, rows, cols));
    forall m | 0 <= m < |s|
      ensures InBounds(s[m], rows, cols)
    {
      assert ks[m] !in Dropped(cells, rows, cols);
    }
    forall m1, m2 | 0 <= m1 < m2 < |s|
      ensures !Overlap(s[m1], s[m2])
    {
      assert !Overlap(cells[ks[m1]], cells[ks[m2]]);
    }
  }

  /** The in-grid positions no survivor covers. */
  ghost function Gaps(surv: seq<CellConfig>, rows: int, cols: int): (g: set<Pos>)
    ensures forall r, k :: Pos(r, k) in g <==> 0 <= r < rows && 0 <= k < cols && Owner(surv, r, k) < 0
  {
    set r, k | 0 <= r < rows && 0 <= k < cols && Owner(surv, r, k) < 0 :: Pos(r, k)
  }

  lemma {:induction false} FreeInRowComplete(surv: seq<CellConfig>, r: int, n: int, k: int)
    requires 0 <= k < n && Owner(surv, r, k) < 0
    ensures Pos(r, k) in FreeInRow(surv, r, n)
    decreases n
  {
    if k < n - 1 {
      FreeInRowComplete(surv, r, n - 1, k);
    } else {
      assert FreeInRow(surv, r, n) == FreeInRow(surv, r, n - 1) + [Pos(r, k)];
    }
  }

  lemma {:induction false} FreeRowsComplete(surv: seq<CellConfig>, n: int, cols: int, r: int, k: int)
    requires 0 <= r < n && 0 <= k < cols && Owner(surv, r, k) < 0
    ensures Pos(r, k) in FreeRows(surv, n, cols)
    decreases n
  {
    if r < n - 1 {
      FreeRowsComplete(surv, n - 1, cols, r, k);
    } else {
      FreeInRowComplete(surv, r, cols, k);
    }
  }

  /**
   * The positions the second pass fills are exactly the gaps the survivors leave,
   * each listed once, in row-major order.
   */
  lemma FreeRowsEnumerateGaps(surv: seq<CellConfig>, rows: int, cols: int)
    ensures Enumerates(FreeRows(surv, rows, cols), Gaps(surv, rows, cols))
    ensures forall m1, m2 :: 0 <= m1 < m2 < |FreeRows(surv, rows, cols)| ==>
      RowMajorBefore(FreeRows(surv, rows, cols)[m1], FreeRows(surv, rows, cols)[m2])
  {
    var order := FreeRows(surv, rows, cols);
    var g := Gaps(surv, rows, cols);
    forall p | p in g
      ensures p in order
    {
      FreeRowsComplete(surv, rows, cols, p.row, p.col);
    }
    EnumeratesIntro(order, g);
  }

  /**
   * Resizing a grid whose cells do not overlap and have non-empty spans yields a
   * tiling of the new grid: the survivors keep their places and the new 1x1
   * cells fill every gap.
   */
  lemma ResizeTiles(cells: seq<CellConfig>, rows: int, cols: int)
    requires NonNegOrigins(cells) && PairwiseDisjoint(cells)
    requires forall i :: 0 <= i < |cells| ==> cells[i].rowSpan >= 1 && cells[i].colSpan >= 1
    ensures Tiled(rows, cols, Resized(cells, rows, cols))
  {
    var surv := Survivors(cells, rows, cols);
    var order := FreeRows(surv, rows, cols);
    var g := Gaps(surv, rows, cols);
    SurvivorsDisjoint(cells, rows, cols);
    FreeRowsEnumerateGaps(surv, rows, cols);
    UnitCellsFillSelection(rows, cols, g, order);
    forall m, r, k | 0 <= m < |surv| && Covers(surv[m], r, k)
      ensures Pos(r, k) !in g
    {
      CoveredHasOwner(surv, m, r, k);
    }
    TilingUnion(rows, cols, surv, UnitCells(order), g);
  }

  /** The resized list only has cells at non-negative origins, as setGrid needs. */
  lemma ResizedOrigins(cells: seq<CellConfig>, rows: int, cols: int)
    requires NonNegOrigins(cells)
    ensures NonNegOrigins(Resized(cells, rows, cols))
  {
    SurvivorsAreKept(cells, rows, cols);
    var surv := Survivors(cells, rows, cols);
    var units := UnitCells(FreeRows(surv, rows, cols));
    var all := Resized(cells, rows, cols);
    forall i | 0 <= i < |all|
      ensures all[i].row >= 0 && all[i].col >= 0
    {
      if i < |surv| {
        assert all[i] == surv[i];
      } else {
        assert all[i] == units[i - |surv|];
      }
    }
  }

  /**
   * The resize the edit dialogs run when a spin box changes: nothing when the
   * new dimensions are the editor's, otherwise setGrid with the resized list.
   */
  method ResizeEditor(editor: GridEditorWidget, newRows: int, newCols: int)
    requires editor.Valid() && 1 <= newRows <= 16 && 1 <= newCols <= 16
    modifies editor
    ensures editor.Valid()
    ensures old(newRows == editor.rows && newCols == editor.cols) ==>
      editor.cells == old(editor.cells) && editor.selected == old(editor.selected) &&
      editor.rows == old(editor.rows) && editor.cols == old(editor.cols)
    ensures old(newRows != editor.rows || newCols != editor.cols) ==>
      editor.rows == newRows && editor.cols == newCols && editor.selected == {} &&
      editor.cells == Resized(old(editor.cells), newRows, newCols)
    ensures old(PairwiseDisjoint(editor.cells) &&
                forall i :: 0 <= i < |editor.cells| ==> editor.cells[i].rowSpan >= 1 && editor.cells[i].colSpan >= 1) &&
            old(newRows != editor.rows || newCols != editor.cols) ==>
      Tiled(editor.rows, editor.cols, editor.cells)
    ensures editor.width == old(editor.width) && editor.height == old(editor.height)
  {
    if newRows == editor.rows && newCols == editor.cols {
      return;
    }
    ghost var oldCells := editor.cells;
    var newCells := ResizeCells(editor.cells, newRows, newCols);
    ResizedOrigins(oldCells, newRows, newCols);
    if PairwiseDisjoint(oldCells) && forall i :: 0 <= i < |oldCells| ==> oldCells[i].rowSpan >= 1 && oldCells[i].colSpan >= 1 {
      ResizeTiles(oldCells, newRows, newCols);
    }
    editor.SetGrid(newRows, newCols, newCells);
  }
}
