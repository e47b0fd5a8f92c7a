/**
 * The mathematical model of the layout grid shared by the editor, the window and
 * the resize: which cell owns a position, when a cell list tiles a grid, and the
 * cell lists that merge and reset produce.
 */
module GridModel {
  import opened ConfigTypes

  /** A grid position; QPoint(x = col, y = row) in the source. */
  datatype Pos = Pos(row: int, col: int)

  predicate InGrid(rows: int, cols: int, p: Pos) {
    0 <= p.row < rows && 0 <= p.col < cols
  }

  /** The span of `c` (unclipped) contains position (r, k). */
  predicate Covers(c: CellConfig, r: int, k: int) {
    c.row <= r < c.row + c.rowSpan && c.col <= k < c.col + c.colSpan
  }

  /** The spans of two cells intersect (as rectangles). */
  predicate Overlap(a: CellConfig, b: CellConfig) {
    a.row < b.row + b.rowSpan && b.row < a.row + a.rowSpan &&
    a.col < b.col + b.colSpan && b.col < a.col + a.colSpan
  }

  /** A cell with a non-empty span that lies inside a rows x cols grid. */
  predicate InBounds(c: CellConfig, rows: int, cols: int) {
    0 <= c.row && 1 <= c.rowSpan && c.row + c.rowSpan <= rows &&
    0 <= c.col && 1 <= c.colSpan && c.col + c.colSpan <= cols
  }

  /**
   * The owner of (r, k) in the ownership map that rebuildOwnership paints: cells are
   * painted in list order, so the last cell whose span covers the position wins;
   * -1 when no cell covers it.
   */
  function Owner(cells: seq<CellConfig>, r: int, k: int): (o: int)
    ensures -1 <= o < |cells|
    ensures o >= 0 ==> Covers(cells[o], r, k)
    ensures o >= 0 ==> forall j :: o < j < |cells| ==> !Covers(cells[j], r, k)
    ensures o == -1 ==> forall j :: 0 <= j < |cells| ==> !Covers(cells[j], r, k)
  {
    if |cells| == 0 then -1
    else if Covers(cells[|cells| - 1], r, k) then |cells| - 1
    else Owner(cells[..|cells| - 1], r, k)
  }

  /** ownerAt: the owner of an in-grid position, -1 outside the grid. */
  function OwnerAt(rows: int, cols: int, cells: seq<CellConfig>, p: Pos): (o: int)
    ensures -1 <= o < |cells|
    ensures !InGrid(rows, cols, p) ==> o == -1
    ensures InGrid(rows, cols, p) ==> o == Owner(cells, p.row, p.col)
  {
    if InGrid(rows, cols, p) then Owner(cells, p.row, p.col) else -1
  }

  predicate AllInBounds(rows: int, cols: int, cells: seq<CellConfig>) {
    forall i :: 0 <= i < |cells| ==> InBounds(cells[i], rows, cols)
  }

  predicate PairwiseDisjoint(cells: seq<CellConfig>) {
    forall i, j :: 0 <= i < j < |cells| ==> !Overlap(cells[i], cells[j])
  }

  /** Every position of the grid has an owner. */
  predicate Covered(rows: int, cols: int, cells: seq<CellConfig>) {
    forall r, k :: 0 <= r < rows && 0 <= k < cols ==> Owner(cells, r, k) >= 0
  }

  /** The cells tile the grid: in bounds, pairwise disjoint, and every position is covered. */
  predicate Tiled(rows: int, cols: int, cells: seq<CellConfig>) {
    AllInBounds(rows, cols, cells) && PairwiseDisjoint(cells) && Covered(rows, cols, cells)
  }

  lemma CommonPositionOverlaps(a: CellConfig, b: CellConfig, r: int, k: int)
    requires Covers(a, r, k) && Covers(b, r, k)
    ensures Overlap(a, b)
  {
  }

  lemma CoveredHasOwner(cells: seq<CellConfig>, j: int, r: int, k: int)
    requires 0 <= j < |cells| && Covers(cells[j], r, k)
    ensures Owner(cells, r, k) >= j
  {
  }

  /** In a tiled grid the owner of a position is the one cell that covers it. */
  lemma TiledOwnerUnique(rows: int, cols: int, cells: seq<CellConfig>, j: int, r: int, k: int)
    requires Tiled(rows, cols, cells)
    requires 0 <= j < |cells| && Covers(cells[j], r, k)
    ensures Owner(cells, r, k) == j
  {
    var o := Owner(cells, r, k);
    if o > j {
      CommonPositionOverlaps(cells[j], cells[o], r, k);
    }
  }

  /** The owner in a concatenation: the second part's owner if it has one, else the first's. */
  lemma {:induction false} OwnerConcat(a: seq<CellConfig>, b: seq<CellConfig>, r: int, k: int)
    ensures Owner(a + b, r, k) == if Owner(b, r, k) >= 0 then |a| + Owner(b, r, k) else Owner(a, r, k)
  {
    if |b| == 0 {
      assert a + b == a;
    } else {
      var ab := a + b;
      assert ab[..|ab| - 1] == a + b[..|b| - 1];
      assert ab[|ab| - 1] == b[|b| - 1];
      if !Covers(b[|b| - 1], r, k) {
        OwnerConcat(a, b[..|b| - 1], r, k);
      }
    }
  }

  /** No cell of `cs` covers a position of `region`. */
  ghost predicate Avoids(cs: seq<CellConfig>, region: set<Pos>) {
    forall m, r, k :: 0 <= m < |cs| && Covers(cs[m], r, k) ==> Pos(r, k) !in region
  }

  /** Every position a cell of `cs` covers is in `region`. */
  ghost predicate Within(cs: seq<CellConfig>, region: set<Pos>) {
    forall m, r, k :: 0 <= m < |cs| && Covers(cs[m], r, k) ==> Pos(r, k) in region
  }

  /**
   * Two disjoint cell lists, one avoiding a region and covering the rest of the grid,
   * the other inside the region and covering all of it, together tile the grid.
   */
  lemma TilingUnion(rows: int, cols: int, a: seq<CellConfig>, b: seq<CellConfig>, region: set<Pos>)
    requires AllInBounds(rows, cols, a) && AllInBounds(rows, cols, b)
    requires PairwiseDisjoint(a) && PairwiseDisjoint(b)
    requires Avoids(a, region) && Within(b, region)
    requires forall r, k :: 0 <= r < rows && 0 <= k < cols && Pos(r, k) !in region ==> Owner(a, r, k) >= 0
    requires forall r, k :: 0 <= r < rows && 0 <= k < cols && Pos(r, k) in region ==> Owner(b, r, k) >= 0
    ensures Tiled(rows, cols, a + b)
  {
    var ab := a + b;
    forall i | 0 <= i < |ab|
      ensures InBounds(ab[i], rows, cols)
    {
      if i >= |a| {
        assert ab[i] == b[i - |a|];
      }
    }
    forall i, j | 0 <= i < j < |ab|
      ensures !Overlap(ab[i], ab[j])
    {
      if j < |a| {
        assert ab[i] == a[i] && ab[j] == a[j];
      } else if i >= |a| {
        assert ab[i] == b[i - |a|] && ab[j] == b[j - |a|];
      } else {
        var x := a[i];
        var y := b[j - |a|];
        assert ab[i] == x && ab[j] == y;
        assert InBounds(x, rows, cols) && InBounds(y, rows, cols);
        if Overlap(x, y) {
          var r := if x.row < y.row then y.row else x.row;
          var k := if x.col < y.col then y.col else x.col;
          assert Covers(x, r, k) && Covers(y, r, k);
          ghost var inRegion := Pos(r, k) in region;
        }
      }
    }
    forall r, k | 0 <= r < rows && 0 <= k < cols
      ensures Owner(ab, r, k) >= 0
    {
      OwnerConcat(a, b, r, k);
    }
  }

  /** Two cell lists with the same spans, position by position (widgets may differ). */
  predicate SameGeometry(a: seq<CellConfig>, b: seq<CellConfig>) {
    |a| == |b| &&
    forall i :: 0 <= i < |a| ==>
      a[i].row == b[i].row && a[i].col == b[i].col && a[i].rowSpan == b[i].rowSpan && a[i].colSpan == b[i].colSpan
  }

  /** Ownership depends on the spans only, not on the widgets. */
  lemma {:induction false} OwnerSameGeometry(a: seq<CellConfig>, b: seq<CellConfig>, r: int, k: int)
    requires SameGeometry(a, b)
    ensures Owner(a, r, k) == Owner(b, r, k)
  {
    if |a| > 0 {
      OwnerSameGeometry(a[..|a| - 1], b[..|b| - 1], r, k);
    }
  }

  lemma TiledSameGeometry(rows: int, cols: int, a: seq<CellConfig>, b: seq<CellConfig>)
    requires SameGeometry(a, b) && Tiled(rows, cols, a)
    ensures Tiled(rows, cols, b)
  {
    forall r, k | 0 <= r < rows && 0 <= k < cols
      ensures Owner(b, r, k) >= 0
    {
      OwnerSameGeometry(a, b, r, k);
    }
    forall i, j | 0 <= i < j < |b|
      ensures !Overlap(b[i], b[j])
    {
      assert !Overlap(a[i], a[j]);
    }
  }

  /** The bounding box is the one box that bounds the selection and is attained on every side. */
  lemma BoundingBoxUnique(sel: set<Pos>, b: Box)
    requires sel != {}
    requires forall p :: p in sel ==> b.minRow <= p.row <= b.maxRow && b.minCol <= p.col <= b.maxCol
    requires exists p :: p in sel && p.row == b.minRow
    requires exists p :: p in sel && p.row == b.maxRow
    requires exists p :: p in sel && p.col == b.minCol
    requires exists p :: p in sel && p.col == b.maxCol
    ensures b == BoundingBox(sel)
  {
    var bb := BoundingBox(sel);
    var p1 :| p1 in sel && p1.row == b.minRow;
    var p2 :| p2 in sel && p2.row == b.maxRow;
    var p3 :| p3 in sel && p3.col == b.minCol;
    var p4 :| p4 in sel && p4.col == b.maxCol;
    var q1 :| q1 in sel && q1.row == bb.minRow;
    var q2 :| q2 in sel && q2.row == bb.maxRow;
    var q3 :| q3 in sel && q3.col == bb.minCol;
    var q4 :| q4 in sel && q4.col == bb.maxCol;
  }

  /** Only a selection owned entirely by one cell has that cell as its selected cell. */
  lemma SelectedCellUnique(rows: int, cols: int, cells: seq<CellConfig>, sel: set<Pos>, idx: int)
    requires idx >= -1
    requires idx >= 0 ==> SingleOwner(rows, cols, cells, sel, idx)
    requires idx == -1 ==> forall i :: !SingleOwner(rows, cols, cells, sel, i)
    ensures idx == SelectedCell(rows, cols, cells, sel)
  {
    var s := SelectedCell(rows, cols, cells, sel);
    if idx >= 0 && s >= 0 {
      var p :| p in sel;
      assert OwnerAt(rows, cols, cells, p) == idx;
    }
  }

  // ---- removal of a set of indices ----

  /** The indices below n not in `drop`, in increasing order. */
  function KeptIndices(n: nat, drop: set<int>): (ks: seq<int>)
    ensures |ks| <= n
    ensures forall k :: 0 <= k < |ks| ==> 0 <= ks[k] < n && ks[k] !in drop
    ensures forall k1, k2 :: 0 <= k1 < k2 < |ks| ==> ks[k1] < ks[k2]
  {
    if n == 0 then []
    else KeptIndices(n - 1, drop) + (if n - 1 in drop then [] else [n - 1])
  }

  /** Every index below n that is not dropped is kept. */
  lemma {:induction false} KeptIndicesComplete(n: nat, drop: set<int>, i: int)
    requires 0 <= i < n && i !in drop
    ensures exists m :: 0 <= m < |KeptIndices(n, drop)| && KeptIndices(n, drop)[m] == i
  {
    var ks := KeptIndices(n, drop);
    if i == n - 1 {
      assert ks[|ks| - 1] == i;
    } else {
      KeptIndicesComplete(n - 1, drop, i);
      var m :| 0 <= m < |KeptIndices(n - 1, drop)| && KeptIndices(n - 1, drop)[m] == i;
      assert ks[m] == i;
    }
  }

  /** The list without the elements at the indices in `drop`, the others in their order. */
  function RemoveIndices<T>(s: seq<T>, drop: set<int>): (r: seq<T>)
    ensures |r| == |KeptIndices(|s|, drop)|
    ensures forall k :: 0 <= k < |r| ==> r[k] == s[KeptIndices(|s|, drop)[k]]
  {
    var ks := KeptIndices(|s|, drop);
    seq(|ks|, k requires 0 <= k < |ks| => s[ks[k]])
  }

  /** Removing no index at all keeps the whole list. */
  lemma {:induction false} KeptAll(n: nat, drop: set<int>)
    requires forall d :: d in drop ==> d >= n
    ensures |KeptIndices(n, drop)| == n
    ensures forall k :: 0 <= k < n ==> KeptIndices(n, drop)[k] == k
  {
    if n > 0 {
      KeptAll(n - 1, drop);
    }
  }

  lemma {:induction false} KeptIndicesAgree(n: nat, a: set<int>, b: set<int>)
    requires forall i :: 0 <= i < n ==> (i in a <==> i in b)
    ensures KeptIndices(n, a) == KeptIndices(n, b)
  {
    if n > 0 {
      KeptIndicesAgree(n - 1, a, b);
    }
  }

  /**
   * Removing index m from the list that already lost the indices in `done` (all
   * above m) is the same as removing `done + {m}` from the original: the step the
   * editor's removal in descending index order relies on.
   */
  lemma {:induction false} KeptIndicesStep(n: nat, done: set<int>, m: int)
    requires 0 <= m < n && m !in done
    requires forall d :: d in done ==> d > m
    ensures |KeptIndices(n, done)| > m
    ensures KeptIndices(n, done + {m}) == KeptIndices(n, done)[..m] + KeptIndices(n, done)[m + 1..]
  {
    var ks := KeptIndices(n, done);
    if n - 1 == m {
      KeptAll(m, done);
      KeptIndicesAgree(m, done + {m}, done);
      var below := KeptIndices(m, done);
      assert ks == below + [m];
      assert KeptIndices(n, done + {m}) == KeptIndices(m, done + {m});
      assert ks[..m] == below;
      assert ks[m + 1..] == [];
    } else {
      KeptIndicesStep(n - 1, done, m);
      var ks0 := KeptIndices(n - 1, done);
      var tail := if n - 1 in done then [] else [n - 1];
      assert ks == ks0 + tail;
      assert KeptIndices(n, done + {m}) == KeptIndices(n - 1, done + {m}) + tail;
      assert ks[..m] == ks0[..m];
      assert ks[m + 1..] == ks0[m + 1..] + tail;
    }
  }

  lemma RemoveIndicesStep<T>(s: seq<T>, done: set<int>, m: int)
    requires 0 <= m < |s| && m !in done
    requires forall d :: d in done ==> d > m
    ensures m < |RemoveIndices(s, done)|
    ensures RemoveIndices(s, done + {m}) == RemoveIndices(s, done)[..m] + RemoveIndices(s, done)[m + 1..]
  {
    KeptIndicesStep(|s|, done, m);
    var r := RemoveIndices(s, done);
    var r2 := RemoveIndices(s, done + {m});
    var want := r[..m] + r[m + 1..];
    assert |r2| == |want|;
    forall k | 0 <= k < |r2|
      ensures r2[k] == want[k]
    {
      if k < m {
        assert want[k] == r[k];
      } else {
        assert want[k] == r[k + 1];
      }
    }
  }

  lemma RemoveNothing<T>(s: seq<T>)
    ensures RemoveIndices(s, {}) == s
  {
    KeptAll(|s|, {});
  }

  // ---- selection ----

  /** Every selected position is owned by cell i (and the selection is not empty). */
  predicate SingleOwner(rows: int, cols: int, cells: seq<CellConfig>, sel: set<Pos>, i: int) {
    sel != {} && 0 <= i && forall p :: p in sel ==> OwnerAt(rows, cols, cells, p) == i
  }

  /** selectedCellIndex: the one cell owning the whole selection, else -1. */
  ghost function SelectedCell(rows: int, cols: int, cells: seq<CellConfig>, sel: set<Pos>): (idx: int)
    ensures -1 <= idx < |cells|
    ensures idx >= 0 ==> SingleOwner(rows, cols, cells, sel, idx)
    ensures idx == -1 ==> forall i :: !SingleOwner(rows, cols, cells, sel, i)
  {
    if sel == {} then -1
    else
      var p :| p in sel;
      var o := OwnerAt(rows, cols, cells, p);
      if forall q :: q in sel ==> OwnerAt(rows, cols, cells, q) == o then o else -1
  }

  /** The indices of the cells owning some selected position. */
  function Touched(rows: int, cols: int, cells: seq<CellConfig>, sel: set<Pos>): (t: set<int>)
    ensures forall i :: i in t ==> 0 <= i < |cells|
    ensures forall p :: p in sel && OwnerAt(rows, cols, cells, p) >= 0 ==> OwnerAt(rows, cols, cells, p) in t
  {
    set p | p in sel && OwnerAt(rows, cols, cells, p) >= 0 :: OwnerAt(rows, cols, cells, p)
  }

  /** Adding one position to a selection adds at most its owner to the touched cells. */
  lemma TouchedInsert(rows: int, cols: int, cells: seq<CellConfig>, sel: set<Pos>, p: Pos)
    ensures Touched(rows, cols, cells, sel + {p}) ==
      Touched(rows, cols, cells, sel) +
      (if OwnerAt(rows, cols, cells, p) >= 0 then {OwnerAt(rows, cols, cells, p)} else {})
  {
    var lhs := Touched(rows, cols, cells, sel + {p});
    var rhs := Touched(rows, cols, cells, sel) +
      (if OwnerAt(rows, cols, cells, p) >= 0 then {OwnerAt(rows, cols, cells, p)} else {});
    forall i | i in lhs
      ensures i in rhs
    {
      var q :| q in sel + {p} && OwnerAt(rows, cols, cells, q) >= 0 && OwnerAt(rows, cols, cells, q) == i;
    }
  }

  /** Every position of every touched cell's full (unclipped) span is selected. */
  ghost predicate SpansInside(cells: seq<CellConfig>, touched: set<int>, sel: set<Pos>) {
    forall i, r, k :: i in touched && 0 <= i < |cells| && Covers(cells[i], r, k) ==> Pos(r, k) in sel
  }

  ghost function Rows(sel: set<Pos>): set<int> { set p | p in sel :: p.row }
  ghost function Cols(sel: set<Pos>): set<int> { set p | p in sel :: p.col }

  /** A non-empty set has an element (it has a positive size). */
  lemma HasElement<T>(s: set<T>)
    requires s != {}
    ensures exists x :: x in s
  {
    assert |s| != 0;
  }

  /** Some element of a non-empty set. */
  ghost function Pick<T>(s: set<T>): (x: T)
    requires s != {}
    ensures x in s
  {
    HasElement(s);
    var x :| x in s; x
  }

  ghost function MinOf(s: set<int>): (m: int)
    requires s != {}
    ensures m in s && forall y :: y in s ==> m <= y
  {
    var x := Pick(s);
    if s == {x} then x
    else
      var m' := MinOf(s - {x});
      assert forall y :: y in s ==> y == x || y in s - {x};
      if x < m' then x else m'
  }

  ghost function MaxOf(s: set<int>): (m: int)
    requires s != {}
    ensures m in s && forall y :: y in s ==> y <= m
  {
    var x := Pick(s);
    if s == {x} then x
    else
      var m' := MaxOf(s - {x});
      assert forall y :: y in s ==> y == x || y in s - {x};
      if x > m' then x else m'
  }

  /** The bounding rectangle of a non-empty selection, as (minRow, maxRow, minCol, maxCol). */
  datatype Box = Box(minRow: int, maxRow: int, minCol: int, maxCol: int)

  ghost function BoundingBox(sel: set<Pos>): (b: Box)
    requires sel != {}
    ensures forall p :: p in sel ==> b.minRow <= p.row <= b.maxRow && b.minCol <= p.col <= b.maxCol
    ensures exists p :: p in sel && p.row == b.minRow
    ensures exists p :: p in sel && p.row == b.maxRow
    ensures exists p :: p in sel && p.col == b.minCol
    ensures exists p :: p in sel && p.col == b.maxCol
  {
    var p :| p in sel;
    assert p.row in Rows(sel) && p.col in Cols(sel);
    assert forall q :: q in sel ==> q.row in Rows(sel) && q.col in Cols(sel);
    Box(MinOf(Rows(sel)), MaxOf(Rows(sel)), MinOf(Cols(sel)), MaxOf(Cols(sel)))
  }

  predicate InBox(b: Box, r: int, k: int) {
    b.minRow <= r <= b.maxRow && b.minCol <= k <= b.maxCol
  }

  function Area(b: Box): int {
    (b.maxRow - b.minRow + 1) * (b.maxCol - b.minCol + 1)
  }

  /** The selection fills its box: it has the box's area and contains every position of it. */
  ghost predicate FillsBox(sel: set<Pos>, b: Box) {
    |sel| == Area(b) && forall r, k :: InBox(b, r, k) ==> Pos(r, k) in sel
  }

  /** canMergeSelected. */
  ghost predicate CanMerge(rows: int, cols: int, cells: seq<CellConfig>, sel: set<Pos>) {
    |sel| >= 2 && FillsBox(sel, BoundingBox(sel)) &&
    SpansInside(cells, Touched(rows, cols, cells, sel), sel)
  }

  /** canResetSelected. */
  ghost predicate CanReset(rows: int, cols: int, cells: seq<CellConfig>, sel: set<Pos>) {
    sel != {} &&
    (SelectedCell(rows, cols, cells, sel) >= 0 ||
     (FillsBox(sel, BoundingBox(sel)) && SpansInside(cells, Touched(rows, cols, cells, sel), sel)))
  }

  /** The cell mergeSelected appends: a default widget spanning the bounding box. */
  function MergedCell(b: Box): (c: CellConfig)
    ensures c.row == b.minRow && c.col == b.minCol && c.widget == DefaultWidget
    ensures forall r, k :: Covers(c, r, k) <==> InBox(b, r, k)
  {
    CellConfig(b.minRow, b.minCol, b.maxRow - b.minRow + 1, b.maxCol - b.minCol + 1, DefaultWidget)
  }

  /** The cell list after mergeSelected. */
  ghost function MergeResult(rows: int, cols: int, cells: seq<CellConfig>, sel: set<Pos>): seq<CellConfig>
    requires sel != {}
  {
    RemoveIndices(cells, Touched(rows, cols, cells, sel)) + [MergedCell(BoundingBox(sel))]
  }

  /** The 1x1 default cells resetSelected appends, one per position of `order`. */
  function UnitCells(order: seq<Pos>): (cs: seq<CellConfig>)
    ensures |cs| == |order|
    ensures forall m :: 0 <= m < |order| ==> cs[m] == UnitCell(order[m].row, order[m].col)
  {
    seq(|order|, m requires 0 <= m < |order| => UnitCell(order[m].row, order[m].col))
  }

  /** `order` lists every element of `sel` exactly once (QSet iteration order is unspecified). */
  predicate Enumerates(order: seq<Pos>, sel: set<Pos>) {
    multiset(order) == multiset(sel)
  }

  /** The elements of a sequence are pairwise distinct. */
  predicate Distinct<T(==)>(s: seq<T>) {
    forall m1, m2 :: 0 <= m1 < m2 < |s| ==> s[m1] != s[m2]
  }

  /** In a sequence without repetitions every element occurs once. */
  lemma {:induction false} DistinctCount<T>(s: seq<T>, x: T)
    requires Distinct(s)
    ensures multiset(s)[x] == if x in s then 1 else 0
  {
    if s != [] {
      var init := s[..|s| - 1];
      assert s == init + [s[|s| - 1]];
      assert Distinct(init);
      DistinctCount(init, x);
      if x == s[|s| - 1] {
        assert x !in init;
      }
    }
  }

  /** A distinct listing of exactly the elements of `sel` enumerates it. */
  lemma EnumeratesIntro(order: seq<Pos>, sel: set<Pos>)
    requires forall m :: 0 <= m < |order| ==> order[m] in sel
    requires forall p :: p in sel ==> p in order
    requires Distinct(order)
    ensures Enumerates(order, sel)
  {
    forall x
      ensures multiset(order)[x] == multiset(sel)[x]
    {
      DistinctCount(order, x);
    }
  }

  /** What an enumeration gives its users: membership both ways and no repetition. */
  lemma EnumeratesFacts(order: seq<Pos>, sel: set<Pos>)
    requires Enumerates(order, sel)
    ensures forall m :: 0 <= m < |order| ==> order[m] in sel
    ensures forall p :: p in sel ==> p in order
    ensures Distinct(order)
  {
    forall m | 0 <= m < |order|
      ensures order[m] in sel
    {
      assert order[m] in multiset(order);
    }
    forall p | p in sel
      ensures p in order
    {
      assert p in multiset(sel);
    }
    forall m1, m2 | 0 <= m1 < m2 < |order|
      ensures order[m1] != order[m2]
    {
      TwoOccurrences(order, m1, m2);
    }
  }

  lemma TwoOccurrences<T>(s: seq<T>, m1: int, m2: int)
    requires 0 <= m1 < m2 < |s|
    ensures multiset(s)[s[m1]] >= if s[m1] == s[m2] then 2 else 1
  {
    assert s == s[..m2] + s[m2..];
    assert s[m1] in s[..m2] && s[m2] in s[m2..];
  }

  /** The cell list after the mass path of resetSelected, for one enumeration order. */
  function ResetResult(rows: int, cols: int, cells: seq<CellConfig>, sel: set<Pos>, order: seq<Pos>): seq<CellConfig>
  {
    RemoveIndices(cells, Touched(rows, cols, cells, sel)) + UnitCells(order)
  }

  // ---- tiling preservation ----

  /** Kept cells of a tiled grid never cover a selected position. */
  lemma KeptCellAvoidsSelection(rows: int, cols: int, cells: seq<CellConfig>, sel: set<Pos>, j: int, r: int, k: int)
    requires Tiled(rows, cols, cells)
    requires 0 <= j < |cells| && j !in Touched(rows, cols, cells, sel)
    requires Covers(cells[j], r, k)
    ensures Pos(r, k) !in sel
  {
    if Pos(r, k) in sel {
      assert InBounds(cells[j], rows, cols);
      TiledOwnerUnique(rows, cols, cells, j, r, k);
    }
  }

  lemma KeptCellsAvoidSelection(rows: int, cols: int, cells: seq<CellConfig>, sel: set<Pos>)
    requires Tiled(rows, cols, cells)
    ensures Avoids(RemoveIndices(cells, Touched(rows, cols, cells, sel)), sel)
  {
    var t := Touched(rows, cols, cells, sel);
    var ks := KeptIndices(|cells|, t);
    var kept := RemoveIndices(cells, t);
    forall m, r, k | 0 <= m < |kept| && Covers(kept[m], r, k)
      ensures Pos(r, k) !in sel
    {
      KeptCellAvoidsSelection(rows, cols, cells, sel, ks[m], r, k);
    }
  }

  /** The kept cells of a tiled grid are in bounds and pairwise disjoint. */
  lemma KeptCellsDisjoint(rows: int, cols: int, cells: seq<CellConfig>, drop: set<int>)
    requires Tiled(rows, cols, cells)
    ensures AllInBounds(rows, cols, RemoveIndices(cells, drop))
    ensures PairwiseDisjoint(RemoveIndices(cells, drop))
  {
    var ks := KeptIndices(|cells|, drop);
    var kept := RemoveIndices(cells, drop);
    forall k1, k2 | 0 <= k1 < k2 < |kept|
      ensures !Overlap(kept[k1], kept[k2])
    {
      assert ks[k1] < ks[k2];
    }
  }

  /** A position outside the selection is still owned once the touched cells are removed. */
  lemma UnselectedStaysCovered(rows: int, cols: int, cells: seq<CellConfig>, sel: set<Pos>)
    requires Tiled(rows, cols, cells)
    requires SpansInside(cells, Touched(rows, cols, cells, sel), sel)
    ensures forall r, k :: 0 <= r < rows && 0 <= k < cols && Pos(r, k) !in sel ==>
      Owner(RemoveIndices(cells, Touched(rows, cols, cells, sel)), r, k) >= 0
  {
    var t := Touched(rows, cols, cells, sel);
    var ks := KeptIndices(|cells|, t);
    var kept := RemoveIndices(cells, t);
    forall r, k | 0 <= r < rows && 0 <= k < cols && Pos(r, k) !in sel
      ensures Owner(kept, r, k) >= 0
    {
      var j := Owner(cells, r, k);
      assert j !in t;
      KeptIndicesComplete(|cells|, t, j);
      var m :| 0 <= m < |ks| && ks[m] == j;
      CoveredHasOwner(kept, m, r, k);
    }
  }

  /** The merged cell of a selection that fills its bounding box covers exactly the selection. */
  lemma MergedCellFillsSelection(rows: int, cols: int, sel: set<Pos>)
    requires sel != {} && forall p :: p in sel ==> InGrid(rows, cols, p)
    requires FillsBox(sel, BoundingBox(sel))
    ensures AllInBounds(rows, cols, [MergedCell(BoundingBox(sel))])
    ensures PairwiseDisjoint([MergedCell(BoundingBox(sel))])
    ensures Within([MergedCell(BoundingBox(sel))], sel)
    ensures forall r, k :: 0 <= r < rows && 0 <= k < cols && Pos(r, k) in sel ==>
      Owner([MergedCell(BoundingBox(sel))], r, k) >= 0
  {
    var b := BoundingBox(sel);
    MergedCellInBounds(rows, cols, sel, b);
    MergedCellCovers(rows, cols, sel, MergedCell(b));
  }

  lemma MergedCellInBounds(rows: int, cols: int, sel: set<Pos>, b: Box)
    requires sel != {} && forall p :: p in sel ==> InGrid(rows, cols, p)
    requires b == BoundingBox(sel)
    ensures InBounds(MergedCell(b), rows, cols)
  {
    var p1 :| p1 in sel && p1.row == b.minRow;
    var p2 :| p2 in sel && p2.row == b.maxRow;
    var p3 :| p3 in sel && p3.col == b.minCol;
    var p4 :| p4 in sel && p4.col == b.maxCol;
    assert InGrid(rows, cols, p1) && InGrid(rows, cols, p2) && InGrid(rows, cols, p3) && InGrid(rows, cols, p4);
  }

  lemma MergedCellCovers(rows: int, cols: int, sel: set<Pos>, mc: CellConfig)
    requires forall r, k :: Pos(r, k) in sel ==> Covers(mc, r, k)
    ensures forall r, k :: 0 <= r < rows && 0 <= k < cols && Pos(r, k) in sel ==> Owner([mc], r, k) >= 0
  {
    forall r, k | 0 <= r < rows && 0 <= k < cols && Pos(r, k) in sel
      ensures Owner([mc], r, k) >= 0
    {
      CoveredHasOwner([mc], 0, r, k);
    }
  }

  /** mergeSelected keeps a tiled grid tiled. */
  lemma MergePreservesTiling(rows: int, cols: int, cells: seq<CellConfig>, sel: set<Pos>)
    requires Tiled(rows, cols, cells)
    requires forall p :: p in sel ==> InGrid(rows, cols, p)
    requires CanMerge(rows, cols, cells, sel)
    ensures Tiled(rows, cols, MergeResult(rows, cols, cells, sel))
  {
    var t := Touched(rows, cols, cells, sel);
    KeptCellsDisjoint(rows, cols, cells, t);
    KeptCellsAvoidSelection(rows, cols, cells, sel);
    UnselectedStaysCovered(rows, cols, cells, sel);
    MergedCellFillsSelection(rows, cols, sel);
    TilingUnion(rows, cols, RemoveIndices(cells, t), [MergedCell(BoundingBox(sel))], sel);
  }

  lemma UnitCellsInBounds(rows: int, cols: int, sel: set<Pos>, order: seq<Pos>)
    requires forall p :: p in sel ==> InGrid(rows, cols, p)
    requires forall m :: 0 <= m < |order| ==> order[m] in sel
    ensures AllInBounds(rows, cols, UnitCells(order))
  {
    var units := UnitCells(order);
    forall i | 0 <= i < |units|
      ensures InBounds(units[i], rows, cols)
    {
      assert order[i] in sel;
    }
  }

  lemma UnitCellsDisjoint(order: seq<Pos>)
    requires forall m1, m2 :: 0 <= m1 < m2 < |order| ==> order[m1] != order[m2]
    ensures PairwiseDisjoint(UnitCells(order))
  {
  }

  lemma UnitCellsCover(rows: int, cols: int, sel: set<Pos>, order: seq<Pos>)
    requires forall p :: p in sel ==> p in order
    ensures forall r, k :: 0 <= r < rows && 0 <= k < cols && Pos(r, k) in sel ==> Owner(UnitCells(order), r, k) >= 0
  {
    var units := UnitCells(order);
    forall r, k | 0 <= r < rows && 0 <= k < cols && Pos(r, k) in sel
      ensures Owner(units, r, k) >= 0
    {
      assert Pos(r, k) in order;
      var m :| 0 <= m < |order| && order[m] == Pos(r, k);
      CoveredHasOwner(units, m, r, k);
    }
  }

  lemma UnitCellsWithin(sel: set<Pos>, order: seq<Pos>)
    requires forall m :: 0 <= m < |order| ==> order[m] in sel
    ensures Within(UnitCells(order), sel)
  {
    var units := UnitCells(order);
    forall m, r, k | 0 <= m < |units| && Covers(units[m], r, k)
      ensures Pos(r, k) in sel
    {
      assert Pos(r, k) == order[m];
    }
  }

  lemma UnitCellsFillSelection(rows: int, cols: int, sel: set<Pos>, order: seq<Pos>)
    requires forall p :: p in sel ==> InGrid(rows, cols, p)
    requires Enumerates(order, sel)
    ensures AllInBounds(rows, cols, UnitCells(order)) && PairwiseDisjoint(UnitCells(order))
    ensures Within(UnitCells(order), sel)
    ensures forall r, k :: 0 <= r < rows && 0 <= k < cols && Pos(r, k) in sel ==> Owner(UnitCells(order), r, k) >= 0
  {
    EnumeratesFacts(order, sel);
    UnitCellsInBounds(rows, cols, sel, order);
    UnitCellsDisjoint(order);
    UnitCellsWithin(sel, order);
    UnitCellsCover(rows, cols, sel, order);
  }

  /**
   * The mass path of resetSelected keeps a tiled grid tiled, in every enumeration
   * order of the selection, provided every touched cell's span is selected.
   */
  lemma ResetPreservesTiling(rows: int, cols: int, cells: seq<CellConfig>, sel: set<Pos>, order: seq<Pos>)
    requires Tiled(rows, cols, cells)
    requires forall p :: p in sel ==> InGrid(rows, cols, p)
    requires SpansInside(cells, Touched(rows, cols, cells, sel), sel)
    requires Enumerates(order, sel)
    ensures Tiled(rows, cols, ResetResult(rows, cols, cells, sel, order))
  {
    var t := Touched(rows, cols, cells, sel);
    KeptCellsDisjoint(rows, cols, cells, t);
    KeptCellsAvoidSelection(rows, cols, cells, sel);
    UnselectedStaysCovered(rows, cols, cells, sel);
    UnitCellsFillSelection(rows, cols, sel, order);
    TilingUnion(rows, cols, RemoveIndices(cells, t), UnitCells(order), sel);
  }

  // ---- the merge test as a rectangle test ----

  /** The positions of the rectangle rows r0..r1, columns k0..k1 (inclusive). */
  function BoxSet(r0: int, r1: int, k0: int, k1: int): (s: set<Pos>)
    ensures forall p :: p in s <==> r0 <= p.row <= r1 && k0 <= p.col <= k1
  {
    set r, k | r0 <= r <= r1 && k0 <= k <= k1 :: Pos(r, k)
  }

  lemma BoxSetRowStep(r0: int, r: int, k0: int, k1: int)
    ensures BoxSet(r0, r, k0, k1) == BoxSet(r0, r - 1, k0, k1) + BoxSet(r, r, k0, k1) || r < r0
  {
  }

  lemma BoxSetColStep(r: int, k0: int, k: int)
    ensures BoxSet(r, r, k0, k) == BoxSet(r, r, k0, k - 1) + {Pos(r, k)} || k < k0
  {
  }

  lemma {:induction false} RowSetSize(r: int, k0: int, k1: int)
    requires k0 <= k1 + 1
    ensures |BoxSet(r, r, k0, k1)| == k1 - k0 + 1
    decreases k1 - k0 + 1
  {
    if k1 >= k0 {
      RowSetSize(r, k0, k1 - 1);
      assert BoxSet(r, r, k0, k1) == BoxSet(r, r, k0, k1 - 1) + {Pos(r, k1)};
    } else {
      assert BoxSet(r, r, k0, k1) == {};
    }
  }

  lemma DisjointRows(r0: int, r1: int, k0: int, k1: int)
    ensures BoxSet(r0, r1 - 1, k0, k1) !! BoxSet(r1, r1, k0, k1)
  {
    var upper := BoxSet(r0, r1 - 1, k0, k1);
    forall p | p in upper
      ensures p !in BoxSet(r1, r1, k0, k1)
    {
    }
  }

  lemma DisjointUnionSize<T>(a: set<T>, b: set<T>)
    requires a !! b
    ensures |a + b| == |a| + |b|
  {
  }

  lemma {:induction false} BoxSetSize(r0: int, r1: int, k0: int, k1: int)
    requires r0 <= r1 + 1 && k0 <= k1 + 1
    ensures |BoxSet(r0, r1, k0, k1)| == (r1 - r0 + 1) * (k1 - k0 + 1)
    decreases r1 - r0 + 1
  {
    if r1 >= r0 {
      var upper, last := BoxSet(r0, r1 - 1, k0, k1), BoxSet(r1, r1, k0, k1);
      var w, n := k1 - k0 + 1, r1 - r0;
      BoxSetSize(r0, r1 - 1, k0, k1);
      RowSetSize(r1, k0, k1);
      BoxSetRowStep(r0, r1, k0, k1);
      DisjointRows(r0, r1, k0, k1);
      DisjointUnionSize(upper, last);
      assert |upper| == n * w && |last| == w;
      assert (n + 1) * w == n * w + w;
    } else {
      assert BoxSet(r0, r1, k0, k1) == {};
    }
  }

  /** A selection fills its bounding box exactly when it is that rectangle. */
  lemma FillsBoxIsRectangle(sel: set<Pos>)
    requires sel != {}
    ensures FillsBox(sel, BoundingBox(sel)) <==>
      sel == BoxSet(BoundingBox(sel).minRow, BoundingBox(sel).maxRow, BoundingBox(sel).minCol, BoundingBox(sel).maxCol)
  {
    var b := BoundingBox(sel);
    var box := BoxSet(b.minRow, b.maxRow, b.minCol, b.maxCol);
    var p :| p in sel;
    BoxSetSize(b.minRow, b.maxRow, b.minCol, b.maxCol);
    if FillsBox(sel, b) {
      assert sel == box;
    }
    if sel == box {
      assert forall r, k :: InBox(b, r, k) ==> Pos(r, k) in box;
    }
  }

  /**
   * canMergeSelected holds exactly when at least two positions are selected, the
   * selection is its bounding rectangle, and every touched cell's span is selected.
   */
  lemma CanMergeIsRectangle(rows: int, cols: int, cells: seq<CellConfig>, sel: set<Pos>)
    ensures CanMerge(rows, cols, cells, sel) <==>
      (|sel| >= 2 &&
       sel == BoxSet(BoundingBox(sel).minRow, BoundingBox(sel).maxRow, BoundingBox(sel).minCol, BoundingBox(sel).maxCol) &&
       SpansInside(cells, Touched(rows, cols, cells, sel), sel))
  {
    if |sel| >= 2 {
      FillsBoxIsRectangle(sel);
    }
  }

  // ---- a selection inside one merged cell ----

  /**
   * Resetting a selection that is only part of one merged cell passes
   * canResetSelected, removes the whole cell and recreates only the selected
   * position: on a 2x1 grid holding one 2x1 cell, selecting (0, 0) and resetting
   * leaves (1, 0) without an owner.
   */
  lemma ResetOfPartialCellLeavesHole()
    ensures var cells := [CellConfig(0, 0, 2, 1, DefaultWidget)];
      var sel := {Pos(0, 0)};
      Tiled(2, 1, cells) &&
      CanReset(2, 1, cells, sel) &&
      SelectedCell(2, 1, cells, sel) == 0 &&
      cells[0].rowSpan != 1 &&
      ResetResult(2, 1, cells, sel, [Pos(0, 0)]) == [UnitCell(0, 0)] &&
      Owner(ResetResult(2, 1, cells, sel, [Pos(0, 0)]), 1, 0) == -1 &&
      !Tiled(2, 1, ResetResult(2, 1, cells, sel, [Pos(0, 0)]))
  {
    PartialCellSelection();
    PartialCellReset();
    var out := [UnitCell(0, 0)];
    assert Owner(out, 1, 0) == -1;
  }

  /** The one-position selection of the 2x1 example is owned by its single cell. */
  lemma PartialCellSelection()
    ensures var cells := [CellConfig(0, 0, 2, 1, DefaultWidget)];
      var sel := {Pos(0, 0)};
      Tiled(2, 1, cells) &&
      CanReset(2, 1, cells, sel) &&
      SelectedCell(2, 1, cells, sel) == 0 &&
      Touched(2, 1, cells, sel) == {0}
  {
    var cells := [CellConfig(0, 0, 2, 1, DefaultWidget)];
    var sel := {Pos(0, 0)};
    assert Owner(cells, 0, 0) == 0 && Owner(cells, 1, 0) == 0;
    assert SingleOwner(2, 1, cells, sel, 0);
    SelectedCellUnique(2, 1, cells, sel, 0);
    assert Touched(2, 1, cells, sel) == {0};
  }

  /** Resetting the 2x1 example drops its cell and recreates only (0, 0). */
  lemma PartialCellReset()
    requires Touched(2, 1, [CellConfig(0, 0, 2, 1, DefaultWidget)], {Pos(0, 0)}) == {0}
    ensures ResetResult(2, 1, [CellConfig(0, 0, 2, 1, DefaultWidget)], {Pos(0, 0)}, [Pos(0, 0)]) == [UnitCell(0, 0)]
  {
    assert KeptIndices(1, {0}) == [];
  }
}
