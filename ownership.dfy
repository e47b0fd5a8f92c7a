/**
 * The editor's ownership map (rebuildOwnership): a rows x cols array holding, for
 * every position, the index of the cell that owns it (-1 for none). The window's
 * paint code fills a nested vector with the same loops (WindowLayout).
 */
module Ownership {
  import opened ConfigTypes
  import opened GridModel

  /** (rr, kk) has been painted by `cell` once the loops reached row r, column k. */
  predicate Painted(cell: CellConfig, r: int, k: int, rr: int, kk: int) {
    cell.row <= rr && cell.col <= kk && kk < cell.col + cell.colSpan &&
    (rr < r || (rr == r && kk < k))
  }

  /**
   * Fills a fresh map with -1, then lets every cell in list order overwrite the
   * positions of its span that lie inside the grid. Cells must not start at a
   * negative row or column: the source would index the map out of range.
   */
  method BuildOwnership(rows: int, cols: int, cells: seq<CellConfig>) returns (own: array2<int>)
    requires rows >= 0 && cols >= 0
    requires forall i :: 0 <= i < |cells| ==> cells[i].row >= 0 && cells[i].col >= 0
    ensures fresh(own)
    ensures own.Length0 == rows && own.Length1 == cols
    ensures forall r, k :: 0 <= r < rows && 0 <= k < cols ==> own[r, k] == Owner(cells, r, k)
  {
    own := new int[rows, cols]((r, k) => -1);
    for i := 0 to |cells|
      invariant forall r, k :: 0 <= r < rows && 0 <= k < cols ==> own[r, k] == Owner(cells[..i], r, k)
    {
      var cell := cells[i];
      var r := cell.row;
      while r < cell.row + cell.rowSpan && r < rows
        invariant cell.row <= r
        invariant r == cell.row || (r <= rows && r <= cell.row + cell.rowSpan)
        invariant forall rr, kk :: 0 <= rr < rows && 0 <= kk < cols ==>
          own[rr, kk] == (if Painted(cell, r, cell.col, rr, kk) then i else Owner(cells[..i], rr, kk))
        decreases rows - r
      {
        var k := cell.col;
        while k < cell.col + cell.colSpan && k < cols
          invariant cell.col <= k
          invariant k == cell.col || (k <= cols && k <= cell.col + cell.colSpan)
          invariant forall rr, kk :: 0 <= rr < rows && 0 <= kk < cols ==>
            own[rr, kk] == (if Painted(cell, r, k, rr, kk) then i else Owner(cells[..i], rr, kk))
          decreases cols - k
        {
          own[r, k] := i;
          k := k + 1;
        }
        r := r + 1;
      }
      assert cells[..i + 1][..i] == cells[..i];
      assert forall rr, kk :: 0 <= rr < rows && 0 <= kk < cols ==>
        (Painted(cell, r, cell.col, rr, kk) <==> Covers(cell, rr, kk));
    }
    assert cells[..|cells|] == cells;
  }
}
