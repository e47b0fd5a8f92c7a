# Looking Glass multiview: a verified model of the grid layout core

Looking Glass is an OBS Studio plugin that shows a user-defined multiview. It
opens a window divided into a `rows × cols` grid. Each cell of the grid spans a
rectangle of grid positions and shows a widget: the preview, the program, a
canvas, a scene, a source, a placeholder image, or nothing. The user arranges
cells in a grid editor by merging and resetting selected positions. Layouts
are saved per scene collection, and reusable layouts are kept as templates.

This project models the layout engine behind that in Dafny and proves what the
code promises:

- **Grid model** (`GridModel`, `Ownership`, `GridEditing`). The editor holds
  the grid, its cell list, the derived ownership map and the selection.
  - Merging a rectangular selection keeps the grid tiled, with no gap and no
    overlap.
  - Resetting a selection that contains every touched cell's span keeps it
    tiled too.
  - A concrete lemma shows that the source as written *does* leave a hole when
    only part of a merged cell is selected and reset.
- **Grid resize** (`GridResize`). Resizing keeps the cells whose origin is
  still inside, clamps their spans, and fills every uncovered position with a
  fresh 1×1 cell in row-major order. When the old cells did not overlap, the
  result tiles the new grid exactly.
- **Window layout** (`WindowLayout`). The grid metrics are an exact multiple
  of the integer cell size, 16:9 per cell, and centred inside a 1-pixel
  margin. The cell rectangles of a tiled grid are disjoint and sit inside
  their span boxes. The separator lines are exactly the maximal runs where
  ownership differs across a line.
- **Cell rendering** (`CellRendering`). This covers aspect-fit and centring,
  the dispatch on widget type, label text and placement, and the two texture
  caches. Drawing is recorded as a list of viewports.
- **Configuration** (`ConfigTypes`, `MultiviewSerializer`,
  `ConfigManagement`). This covers the data types and their defaults, the
  enum/string round-trips, load-time normalisation, the name-keyed store of
  multiviews and templates with save suppression, the built-in default
  template, and collection file names.
- **Dialogs** (`EditDialog`, `ManageDialog`, `TemplateDialog`). This covers
  button enablement, the name checks, the "create template" cell conversion,
  and the protection of the default template.

### How the model is built

- **Mutable objects are classes.** The grid editor, the edit dialogs, the
  window, the renderer and the configuration manager are classes whose
  methods update their fields.
- **The store's effects are events.** The configuration manager's saves and
  signals are appended to an `events` list.
- **Host facilities are parameters.** OBS and Qt calls are passed in as a
  `Host` record: the configuration directory, the current collection, the
  readable files, the scene list, colour parsing and the set of open windows.
- **Graphics are parameters too.** The renderer's graphics calls come from a
  `Graphics` record that says whether a texture or source could be created.
- **C++ arithmetic is written out.** Integer arithmetic follows C++: `TruncDiv`
  is truncating division, `ToInt32` is the `(int)` cast of a 64-bit value, and
  `Bound` is `qBound`.

## Model

| member | source | states |
|---|---|---|
| CppInt.TruncDiv | src/render/multiview-renderer.cpp:474-487 | C++ `/` truncates toward zero: the remainder has the sign of the dividend and is smaller than the divisor in magnitude |
| CppInt.ToInt32 | src/core/multiview-config.cpp:162-165 | the `(int)` cast of a 64-bit value lands in the int32 range, is congruent modulo 2^32, and leaves int32 values unchanged |
| CppInt.Bound | src/ui/grid-editor-widget.cpp:300-301 | `qBound(lo, v, hi)` lies in `[lo, hi]` when the range is not empty, and is `v` when `v` is already inside |
| QtString.LeadingSpaces | src/ui/multiview-edit-dialog.cpp:236 | counts exactly the whitespace prefix: all counted characters are spaces, and the next one is not |
| QtString.TrailingSpaces | src/ui/multiview-edit-dialog.cpp:236 | counts exactly the whitespace suffix: all counted characters are spaces, and the one before is not |
| QtString.Trimmed | src/ui/multiview-edit-dialog.cpp:236 | `trimmed()` is the slice of the input between its leading and trailing whitespace; it neither starts nor ends with a space; it is empty exactly when the input is all whitespace |
| QtString.TrimmedIdempotent | src/ui/multiview-manage-dialog.cpp:144-147 | trimming an already trimmed name changes nothing |
| QtString.TrimmedPadded | src/ui/multiview-manage-dialog.cpp:144-147 | a non-empty trimmed name padded with spaces trims back to itself |
| ConfigTypes.UnitCell | src/core/multiview-config.hpp:56-62 | a cell at the given position with span 1×1 and the default widget |
| ConfigTypes.DefaultsAsDeclared | src/core/multiview-config.hpp:41-85 | the declared defaults. Widget: type None, visible label, HCenter and Bottom, background (0,0,0,128), empty names. Cell: at (0,0), 1×1. Multiview: 4×4, geometry (100,100,1280,720), monitor -1, not fullscreen, not open. Template: 4×4, preserveSources false |
| Ownership.BuildOwnership | src/ui/grid-editor-widget.cpp:263-280 | the filled `rows × cols` array holds at each position the owner `Owner(cells, r, k)`: the last cell covering it, or -1 |
| GridModel.Owner | src/ui/grid-editor-widget.cpp:265-279 | the owner is the last cell that covers the position, or -1 exactly when no cell covers it |
| GridModel.OwnerAt | src/ui/grid-editor-widget.cpp:282-287 | -1 for a position outside the grid, otherwise the owner of the position |
| GridModel.CommonPositionOverlaps | src/ui/grid-editor-widget.cpp:265-279 | two cells that cover a common position overlap |
| GridModel.CoveredHasOwner | src/ui/grid-editor-widget.cpp:265-279 | a cell covering a position makes its owner that cell or a later one |
| GridModel.TiledOwnerUnique | src/ui/grid-editor-widget.cpp:265-279 | in a tiled grid, the owner of a position is the one cell that covers it |
| GridModel.OwnerConcat | src/ui/grid-editor-widget.cpp:265-279 | appending cells: a position owned by the appended part is owned there, otherwise by the original list |
| GridModel.TilingUnion | src/ui/grid-editor-widget.cpp:132-154 | cells that tile the grid outside a region, followed by cells that tile the region, tile the whole grid |
| GridModel.OwnerSameGeometry | src/ui/multiview-manage-dialog.cpp:238-270 | cell lists with the same positions and spans have the same owners everywhere |
| GridModel.TiledSameGeometry | src/ui/multiview-manage-dialog.cpp:238-270 | changing only widgets keeps a tiled grid tiled |
| GridModel.BoundingBoxUnique | src/ui/grid-editor-widget.cpp:77-83 | a box that contains the selection and touches it on all four sides is its bounding box |
| GridModel.SelectedCellUnique | src/ui/grid-editor-widget.cpp:47-59 | the single-owner index is determined uniquely: an index that is a single owner, or -1 when none is |
| GridModel.KeptIndices | src/ui/grid-editor-widget.cpp:132-143 | the indices below `n` that are not dropped, strictly increasing |
| GridModel.KeptIndicesComplete | src/ui/grid-editor-widget.cpp:132-143 | every index below `n` that is not dropped appears among the kept indices |
| GridModel.RemoveIndices | src/ui/grid-editor-widget.cpp:132-143 | the list after removal holds exactly the elements at the kept indices, in order |
| GridModel.KeptAll | src/ui/grid-editor-widget.cpp:132-143 | dropping nothing below `n` keeps every index in order |
| GridModel.KeptIndicesAgree | src/ui/grid-editor-widget.cpp:132-143 | the kept indices depend only on which indices below `n` are dropped |
| GridModel.KeptIndicesStep | src/ui/grid-editor-widget.cpp:132-143 | dropping one more index `m`, below all indices already dropped, removes exactly position `m` of the kept list |
| GridModel.RemoveIndicesStep | src/ui/grid-editor-widget.cpp:132-143 | removing in descending order: removing index `m` after larger ones is a single `removeAt(m)` on the current list |
| GridModel.RemoveNothing | src/ui/grid-editor-widget.cpp:132-143 | removing no index leaves the list unchanged |
| GridModel.SelectedCell | src/ui/grid-editor-widget.cpp:47-59 | `i >= 0` only if the selection is non-empty and every selected position is owned by `i`; -1 exactly when no cell is the single owner |
| GridModel.Touched | src/ui/grid-editor-widget.cpp:98-103 | every owned selected position contributes its owner, and only valid cell indices appear |
| GridModel.TouchedInsert | src/ui/grid-editor-widget.cpp:98-103 | adding a position to the selection adds its owner, if any, to the touched cells |
| GridModel.MinOf | src/ui/grid-editor-widget.cpp:77-83 | the running minimum is a member and is below every element |
| GridModel.MaxOf | src/ui/grid-editor-widget.cpp:77-83 | the running maximum is a member and is above every element |
| GridModel.BoundingBox | src/ui/grid-editor-widget.cpp:77-83 | the box contains every selected position, and a selected position lies on each of its four sides |
| GridModel.MergedCell | src/ui/grid-editor-widget.cpp:146-151 | the merged cell has its origin at (minRow, minCol), covers exactly the bounding box, and shows the default widget |
| GridModel.UnitCells | src/ui/grid-editor-widget.cpp:240-247 | one default 1×1 cell per position, in the given order |
| GridModel.DistinctCount | src/ui/grid-editor-widget.cpp:240-247 | in a list without repeats, each element occurs once |
| GridModel.EnumeratesIntro | src/ui/grid-editor-widget.cpp:240-247 | a repeat-free list holding exactly the selected positions enumerates the selection |
| GridModel.EnumeratesFacts | src/ui/grid-editor-widget.cpp:240-247 | an enumeration holds every selected position once and nothing else |
| GridModel.TwoOccurrences | src/ui/grid-editor-widget.cpp:240-247 | two equal entries at different places make the element occur twice |
| GridModel.KeptCellAvoidsSelection | src/ui/grid-editor-widget.cpp:132-143 | in a tiled grid, a cell not touched by the selection covers no selected position |
| GridModel.KeptCellsAvoidSelection | src/ui/grid-editor-widget.cpp:132-143 | the cells left after removing the touched ones cover no selected position |
| GridModel.KeptCellsDisjoint | src/ui/grid-editor-widget.cpp:132-143 | removing any cells from a tiled list leaves cells that are in bounds and pairwise disjoint |
| GridModel.UnselectedStaysCovered | src/ui/grid-editor-widget.cpp:132-143 | when every touched span lies in the selection, every unselected position keeps an owner after the touched cells go |
| GridModel.MergedCellFillsSelection | src/ui/grid-editor-widget.cpp:146-151 | for a rectangular selection, the merged cell is in bounds, lies within the selection, and covers every selected position |
| GridModel.MergedCellInBounds | src/ui/grid-editor-widget.cpp:146-151 | the merged cell of an in-grid selection lies inside the grid |
| GridModel.MergedCellCovers | src/ui/grid-editor-widget.cpp:146-151 | a cell covering every selected position gives each selected in-grid position an owner |
| GridModel.MergePreservesTiling | src/ui/grid-editor-widget.cpp:118-158 | merging a mergeable selection of a tiled grid leaves it tiled |
| GridModel.UnitCellsInBounds | src/ui/grid-editor-widget.cpp:240-247 | the 1×1 cells for in-grid positions are in bounds |
| GridModel.UnitCellsDisjoint | src/ui/grid-editor-widget.cpp:240-247 | the 1×1 cells of distinct positions do not overlap |
| GridModel.UnitCellsCover | src/ui/grid-editor-widget.cpp:240-247 | every selected position is owned by one of its 1×1 cells |
| GridModel.UnitCellsWithin | src/ui/grid-editor-widget.cpp:240-247 | the 1×1 cells cover only selected positions |
| GridModel.UnitCellsFillSelection | src/ui/grid-editor-widget.cpp:240-247 | the 1×1 cells of an enumeration of the selection tile exactly the selection |
| GridModel.ResetPreservesTiling | src/ui/grid-editor-widget.cpp:228-253 | the mass reset keeps a tiled grid tiled when the selection contains every touched cell's span |
| GridModel.BoxSet | src/ui/grid-editor-widget.cpp:86-95 | the set of positions inside a rectangle |
| GridModel.BoxSetRowStep | src/ui/grid-editor-widget.cpp:86-95 | a rectangle is its rows before the last one plus the last row |
| GridModel.BoxSetColStep | src/ui/grid-editor-widget.cpp:86-95 | a row segment is its part before the last column plus the last position |
| GridModel.RowSetSize | src/ui/grid-editor-widget.cpp:86-95 | a row segment from `k0` to `k1` has `k1 - k0 + 1` positions |
| GridModel.DisjointRows | src/ui/grid-editor-widget.cpp:86-95 | the rows above a row share no position with it |
| GridModel.BoxSetSize | src/ui/grid-editor-widget.cpp:86-95 | a rectangle has (height × width) positions, the `expected` count of the fill check |
| GridModel.FillsBoxIsRectangle | src/ui/grid-editor-widget.cpp:86-95 | the fill check (every box position selected, count equal to the area) holds exactly when the selection is its bounding rectangle |
| GridModel.CanMergeIsRectangle | src/ui/grid-editor-widget.cpp:71-116 | `canMergeSelected` holds iff at least two positions are selected, the selection equals its bounding rectangle, and every touched cell's span lies inside it |
| GridModel.ResetOfPartialCellLeavesHole | src/ui/grid-editor-widget.cpp:160-253 | as written: a tiled 2×1 grid with one 2×1 cell, with (0,0) selected, passes `canResetSelected`; the reset leaves (1,0) without an owner, so the grid is no longer tiled |
| GridEditing.GridPosFromPixel | src/ui/grid-editor-widget.cpp:294-303 | (-1,-1) exactly when the widget is narrower than the column count or shorter than the row count; otherwise a position inside the grid |
| GridEditing.DivOfBand | src/ui/grid-editor-widget.cpp:294-303 | a pixel in the band `[a·d, (a+1)·d)` divides to `a` |
| GridEditing.PixelInCellRectMapsBack | src/ui/grid-editor-widget.cpp:294-311 | a pixel inside the rectangle `cellRect` draws for a position maps back to that position |
| GridEditing.PixelBeyondGridClamps | src/ui/grid-editor-widget.cpp:294-303 | a pixel in the leftover strip past the last full cell clamps to the last row and column |
| GridEditing.RemoveInDescendingOrder | src/ui/grid-editor-widget.cpp:132-143 | sorting the indices descending and removing them one by one yields the list without those indices, order kept |
| GridEditing.SelectionBounds | src/ui/grid-editor-widget.cpp:77-83 | the running min/max loop over the selection computes its bounding box |
| GridEditing.FillsBoundingBox | src/ui/grid-editor-widget.cpp:86-95 | the nested loop and count check succeed exactly when the selection fills the box and has the box's size |
| GridEditing.TouchedSpansSelected | src/ui/grid-editor-widget.cpp:105-113 | the span loop succeeds exactly when every position of every touched cell is selected |
| GridEditing.UnitCellsFor | src/ui/grid-editor-widget.cpp:240-247 | the loop over the selection appends exactly one default 1×1 cell per selected position |
| GridEditing.AddBox | src/ui/grid-editor-widget.cpp:493-495 | the nested loop adds exactly the positions of the rectangle to the set |
| GridEditing.DragRect | src/ui/grid-editor-widget.cpp:488-495 | the drag rectangle contains both corners and lies between their minimum and maximum rows and columns |
| GridEditing.DragRectBetween | src/ui/grid-editor-widget.cpp:488-495 | a drag between two in-grid positions selects only in-grid positions |
| GridEditing.SetCellWidget | src/ui/grid-editor-widget.cpp:61-69 | only `cells[idx].widget` changes; owners and tiling are unaffected |
| GridEditing.MergeCells | src/ui/grid-editor-widget.cpp:132-154 | removes the touched cells and appends the merged cell; on a tiled grid with a mergeable in-grid selection the result is tiled |
| GridEditing.ResetCells | src/ui/grid-editor-widget.cpp:228-253 | removes the touched cells and appends a 1×1 default cell per selected position; it keeps tiling when every touched span is selected |
| GridEditing.MergeResultOrigins | src/ui/grid-editor-widget.cpp:132-154 | merging keeps every cell origin non-negative |
| GridEditing.ResetResultOrigins | src/ui/grid-editor-widget.cpp:228-253 | resetting keeps every cell origin non-negative |
| GridEditing.GridEditorWidget.constructor | src/ui/grid-editor-widget.cpp:27-33 | a 4×4 grid with no cells, no selection, and not dragging |
| GridEditing.GridEditorWidget.SetGrid | src/ui/grid-editor-widget.cpp:35-45 | rows and columns are clamped to at least 1, the cells are replaced, the selection is emptied, and ownership is rebuilt |
| GridEditing.GridEditorWidget.OwnerAt | src/ui/grid-editor-widget.cpp:282-287 | -1 outside the grid, otherwise the owner of the position |
| GridEditing.GridEditorWidget.SelectedCellIndex | src/ui/grid-editor-widget.cpp:47-59 | an index `i >= 0` only when the selection is non-empty and wholly owned by `i`; otherwise -1 |
| GridEditing.GridEditorWidget.SetWidgetForSelected | src/ui/grid-editor-widget.cpp:61-69 | with a single selected cell, only its widget changes; otherwise nothing changes; tiling is kept |
| GridEditing.GridEditorWidget.TouchedCells | src/ui/grid-editor-widget.cpp:98-103 | the set of owners of the selected positions |
| GridEditing.GridEditorWidget.CanMergeSelected | src/ui/grid-editor-widget.cpp:71-116 | decides exactly the merge condition: at least two positions, a full rectangle, and every touched span selected |
| GridEditing.GridEditorWidget.CanResetSelected | src/ui/grid-editor-widget.cpp:160-208 | decides exactly the reset condition: a non-empty selection that either lies in one cell or passes the merge rectangle and span checks |
| GridEditing.GridEditorWidget.MergeSelected | src/ui/grid-editor-widget.cpp:118-158 | nothing changes unless mergeable. Otherwise the touched cells go, the untouched ones keep their order, one merged cell is appended, and the selection is cleared. A tiled grid stays tiled |
| GridEditing.GridEditorWidget.ApplyMerge | src/ui/grid-editor-widget.cpp:123-157 | after a passed check: the cells are the merge result, the selection is empty, the ownership map is rebuilt, and a tiled grid with an in-grid selection stays tiled |
| GridEditing.GridEditorWidget.ResetSelected | src/ui/grid-editor-widget.cpp:210-254 | nothing changes unless resettable. A single 1×1 cell only gets the default widget (selection kept). Otherwise the mass reset runs and the selection is cleared. Tiling is kept when the selection contains every touched span |
| GridEditing.GridEditorWidget.ResetWidget | src/ui/grid-editor-widget.cpp:215-226 | the fast reset path sets only that cell's widget to the default; geometry, count and selection are unchanged |
| GridEditing.GridEditorWidget.ResetAll | src/ui/grid-editor-widget.cpp:228-253 | the mass reset: touched cells removed, one 1×1 default cell per selected position appended, selection cleared |
| GridEditing.GridEditorWidget.ClearSelection | src/ui/grid-editor-widget.cpp:256-261 | only the selection changes; it becomes empty |
| GridEditing.GridEditorWidget.MousePress | src/ui/grid-editor-widget.cpp:447-471 | a left click on the grid starts a drag. Without Ctrl it selects only the clicked position; with Ctrl it toggles that position. Anything else changes nothing |
| GridEditing.GridEditorWidget.MouseMove | src/ui/grid-editor-widget.cpp:473-499 | while dragging over the grid, the selection becomes (or with Ctrl gains) the rectangle from the drag start to the pointer |
| GridEditing.GridEditorWidget.MouseRelease | src/ui/grid-editor-widget.cpp:501-506 | a left release ends the drag; the selection is kept |
| GridResize.Clamp | src/ui/multiview-edit-dialog.cpp:285-302 | origin and widget kept; spans shrink to fit the new grid and stay at least 1; inside the new grid the clamped cell covers the same positions |
| GridResize.Survivors | src/ui/multiview-edit-dialog.cpp:285-302 | the survivors are no more than the old cells |
| GridResize.FreeInRow | src/ui/multiview-edit-dialog.cpp:305-316 | uncovered positions of one row, left to right |
| GridResize.FreeRows | src/ui/multiview-edit-dialog.cpp:305-316 | uncovered positions of the first `r` rows in row-major order |
| GridResize.ResizeCells | src/ui/multiview-edit-dialog.cpp:281-318 | the `occupied`-array loops produce the survivors in their original order with clamped spans, then a 1×1 cell per uncovered position in row-major order |
| GridResize.CollectSurvivors | src/ui/multiview-edit-dialog.cpp:285-302 | the first loop keeps exactly the cells whose origin is inside, clamped, and marks exactly the positions they cover |
| GridResize.FreeCellsOfRow | src/ui/multiview-edit-dialog.cpp:305-316 | a row of the fill loop yields one 1×1 cell per unmarked position |
| GridResize.MarkSpan | src/ui/multiview-edit-dialog.cpp:294-300 | marking a span sets exactly the positions the cell covers |
| GridResize.FreeRowsStep | src/ui/multiview-edit-dialog.cpp:305-316 | the fill of `r+1` rows is the fill of `r` rows followed by row `r` |
| GridResize.UnitCellsAppend | src/ui/multiview-edit-dialog.cpp:305-316 | the 1×1 cells of two position lists are the concatenation of each list's cells |
| GridResize.UnitCellsSnoc | src/ui/multiview-edit-dialog.cpp:305-316 | appending one position appends its 1×1 cell |
| GridResize.Dropped | src/ui/multiview-edit-dialog.cpp:285-288 | the indices of the cells whose origin falls outside the new grid |
| GridResize.SurvivorsAreKept | src/ui/multiview-edit-dialog.cpp:285-302 | a cell survives iff its origin is inside; the survivors are exactly the kept cells, clamped, in their original order |
| GridResize.SurvivorsDisjoint | src/ui/multiview-edit-dialog.cpp:285-302 | survivors of non-overlapping cells are in bounds and still do not overlap |
| GridResize.Gaps | src/ui/multiview-edit-dialog.cpp:305-316 | the in-grid positions no survivor covers |
| GridResize.FreeInRowComplete | src/ui/multiview-edit-dialog.cpp:305-316 | every uncovered position of the row is listed |
| GridResize.FreeRowsComplete | src/ui/multiview-edit-dialog.cpp:305-316 | every uncovered position of the grid is listed |
| GridResize.FreeRowsEnumerateGaps | src/ui/multiview-edit-dialog.cpp:305-316 | the fill lists each uncovered position exactly once, in row-major order |
| GridResize.ResizeTiles | src/ui/multiview-edit-dialog.cpp:281-318 | when the old cells did not overlap, the resized list tiles the new grid exactly |
| GridResize.ResizedOrigins | src/ui/multiview-edit-dialog.cpp:281-318 | resizing keeps every cell origin non-negative |
| GridResize.ResizeEditor | src/ui/multiview-edit-dialog.cpp:266-319 | same dimensions: nothing changes. Otherwise the editor gets the resized cells with the new dimensions and an empty selection, and is tiled when the old cells did not overlap |
| MultiviewSerializer.WidgetTypeToString | src/core/multiview-config.cpp:23-41 | every widget type has a non-empty name |
| MultiviewSerializer.StringToWidgetType | src/core/multiview-config.cpp:43-60 | a null or unknown type string decodes to None |
| MultiviewSerializer.WidgetTypeRoundTrip | src/core/multiview-config.cpp:23-60 | decoding the name of each of the seven types gives that type back |
| MultiviewSerializer.WidgetTypeToStringInjective | src/core/multiview-config.cpp:23-41 | distinct types get distinct names |
| MultiviewSerializer.AlignHToString | src/core/multiview-config.cpp:62-69 | the horizontal alignment is written as "left", "center" or "right" |
| MultiviewSerializer.StringToAlignH | src/core/multiview-config.cpp:71-80 | null or anything but "left"/"right" decodes to HCenter |
| MultiviewSerializer.AlignHRoundTrip | src/core/multiview-config.cpp:62-80 | Left, HCenter and Right round-trip |
| MultiviewSerializer.AlignVToString | src/core/multiview-config.cpp:82-89 | the vertical alignment is written as "top", "middle" or "bottom" |
| MultiviewSerializer.StringToAlignV | src/core/multiview-config.cpp:91-100 | null decodes to Top; any other string but "top"/"bottom" decodes to VCenter |
| MultiviewSerializer.AlignVRoundTrip | src/core/multiview-config.cpp:82-100 | Top, VCenter and Bottom round-trip |
| MultiviewSerializer.WidgetToData | src/core/multiview-config.cpp:104-119 | the type and both alignments are always written, and the written type decodes back to the widget's type |
| MultiviewSerializer.WidgetFromData | src/core/multiview-config.cpp:121-142 | type and alignments are decoded as above; an empty colour string gives (0,0,0,128), any other is parsed; label visibility and text are copied |
| MultiviewSerializer.WidgetRoundTrip | src/core/multiview-config.cpp:104-142 | a widget written and read back is unchanged when its colour's name parses back to it |
| MultiviewSerializer.CellToData | src/core/multiview-config.cpp:144-157 | position and spans are written unchanged, and the widget object is always present |
| MultiviewSerializer.CellFromData | src/core/multiview-config.cpp:159-177 | fields are cast to int; spans are always at least 1; a missing widget object leaves the default widget |
| MultiviewSerializer.CellRoundTrip | src/core/multiview-config.cpp:144-177 | an int32 cell with spans ≥ 1 and a round-tripping colour survives writing and reading unchanged |
| MultiviewSerializer.PositiveOr | src/core/multiview-config.cpp:229-237 | the cast value when positive, else the fallback |
| MultiviewSerializer.GridDimension | src/core/multiview-config.cpp:211-217 | a grid dimension ≤ 0 becomes 4; a positive one is kept |
| MultiviewSerializer.BorderWidth | src/core/multiview-config.cpp:213-221 | the border width is clamped to [1, 10] |
| MultiviewSerializer.CellsFromData | src/core/multiview-config.cpp:242-251 | a missing array gives no cells; otherwise one decoded cell per element, same order and length |
| MultiviewSerializer.MultiviewFromData | src/core/multiview-config.cpp:207-254 | normalises on load: dimensions ≤ 0 become 4; border clamped to [1,10]; an empty line colour is white; width/height ≤ 0 become 1280/720; cells kept in order |
| MultiviewSerializer.TemplateFromData | src/core/multiview-config.cpp:276-300 | dimensions ≤ 0 become 4; the name and preserveSources are copied; cells kept in order and length |
| ConfigManagement.Sanitize | src/core/config-manager.cpp:221 | every character outside `[a-zA-Z0-9_- ]` becomes `_`, the others are kept, and the length is unchanged |
| ConfigManagement.SanitizeIdempotent | src/core/config-manager.cpp:221 | sanitising twice is sanitising once |
| ConfigManagement.CollectionConfigPath | src/core/config-manager.cpp:215-230 | empty when there is no config directory, else `dir + "/" + sanitised collection name + ".json"` |
| ConfigManagement.CollectionPathIsSafe | src/core/config-manager.cpp:215-230 | the file name part has the collection name's length and only safe characters |
| ConfigManagement.LoadedKeys | src/core/config-manager.cpp:258-264 | after loading, the keys are the initial ones plus every non-empty name in the file |
| ConfigManagement.LoadedKeyedByName | src/core/config-manager.cpp:258-264 | every loaded entry is stored under its own name |
| ConfigManagement.Present | src/core/config-manager.cpp:169-178 | the scene names that could be read; never more than the scene list |
| ConfigManagement.SceneNames | src/core/config-manager.cpp:169-178 | the scene loop collects exactly the readable scene names in order |
| ConfigManagement.DefaultTemplate | src/core/config-manager.cpp:129-202 | the built-in template: named as the default, 4×4, preserveSources false, its cells built from the readable scene names |
| ConfigManagement.DefaultTemplateTiles | src/core/config-manager.cpp:133-199 | whatever the scene list, the built-in layout tiles the 4×4 grid with no gap and no overlap |
| ConfigManagement.DefaultTemplateScenes | src/core/config-manager.cpp:181-199 | of the eight bottom cells, the first min(8, #scenes) show the scenes in list order, named and labelled; the rest are placeholders |
| ConfigManagement.FilterTemplates | src/core/config-manager.cpp:341-348 | the save loop keeps every template except the default |
| ConfigManagement.MarkOpenWindows | src/core/config-manager.cpp:364-367 | every multiview whose window is open gets wasOpen set; all else is unchanged and entries stay keyed by name |
| ConfigManagement.LoadedStep | src/core/config-manager.cpp:258-264 | one more loop iteration adds the next entry unless its name is empty |
| ConfigManagement.LoadMultiviews | src/core/config-manager.cpp:258-264 | the load loop leaves exactly the map `Loaded` specifies, and every entry stays keyed by its own name |
| ConfigManagement.LoadTemplateEntries | src/core/config-manager.cpp:317-323 | the template load loop adds every non-empty-named template and keeps the entries already present |
| ConfigManagement.SavedTemplatesOmitDefault | src/core/config-manager.cpp:343-344 | `saveTemplates` never writes the default template, and writes every other one |
| ConfigManagement.LoadedSkipsEmptyNames | src/core/config-manager.cpp:258-264 | an entry with an empty name is never loaded |
| ConfigManagement.ConfigManager.constructor | src/core/config-manager.cpp:31 | no multiviews, no templates, saving not suppressed |
| ConfigManagement.ConfigManager.GetMultiview | src/core/config-manager.cpp:47-50 | a stored entry comes back under its own name; an absent name gives the default-constructed multiview |
| ConfigManagement.ConfigManager.GetTemplate | src/core/config-manager.cpp:109-112 | a stored template comes back under its own name; an absent name gives the default-constructed template |
| ConfigManagement.ConfigManager.SaveCurrentCollection | src/core/config-manager.cpp:272-296 | records a save of all multiviews to the collection path, unless saving is suppressed or there is no path |
| ConfigManagement.ConfigManager.SaveTemplates | src/core/config-manager.cpp:331-355 | records a save of every template but the default, when there is a path |
| ConfigManagement.ConfigManager.AddMultiview | src/core/config-manager.cpp:52-57 | stores the multiview under its name, leaves every other entry alone, then saves and signals |
| ConfigManagement.ConfigManager.UpdateMultiview | src/core/config-manager.cpp:59-64 | stores the multiview under its name, leaves every other entry alone, then saves and signals |
| ConfigManagement.ConfigManager.RemoveMultiview | src/core/config-manager.cpp:66-72 | deletes the key; it saves and signals only if the key existed |
| ConfigManagement.ConfigManager.RenameMultiview | src/core/config-manager.cpp:74-83 | no-op if the old name is absent or the new one taken; otherwise the entry moves to the new key with its name set, and the map size is kept |
| ConfigManagement.ConfigManager.DuplicateMultiview | src/core/config-manager.cpp:85-95 | same no-op cases; otherwise a copy under the new name with wasOpen false is added; the source is kept |
| ConfigManagement.ConfigManager.AddTemplate | src/core/config-manager.cpp:114-119 | stores the template under its name, then saves templates and signals |
| ConfigManagement.ConfigManager.RemoveTemplate | src/core/config-manager.cpp:121-127 | deletes the key; it saves and signals only if it existed |
| ConfigManagement.ConfigManager.LoadForCurrentCollection | src/core/config-manager.cpp:243-270 | the map is emptied; if the collection file can be read, its non-empty-named entries are loaded and a reload is signalled |
| ConfigManagement.ConfigManager.LoadTemplates | src/core/config-manager.cpp:298-329 | afterwards the default template is always present; the file's non-empty-named templates are added when readable |
| ConfigManagement.ConfigManager.OnSceneCollectionChanging | src/core/config-manager.cpp:357-370 | marks open windows, saves under the old collection path (if saving is allowed), then suppresses saving |
| ConfigManagement.ConfigManager.OnSceneCollectionChanged | src/core/config-manager.cpp:372-376 | saving is allowed again and the new collection's multiviews are loaded |
| EditDialog.MultiviewEditDialog.constructor | src/ui/multiview-edit-dialog.cpp:37-167 | a multiview with no cells starts from the default 4×4 layout. Spin boxes are clamped to [1,16] and [1,10]. The editor gets the grid, nothing is selected and every button is disabled |
| EditDialog.MultiviewEditDialog.OnSelectionChanged | src/ui/multiview-edit-dialog.cpp:222-232 | Set is enabled iff one cell is selected; Edit also needs its type not None; Merge and Reset follow `canMergeSelected`/`canResetSelected` |
| EditDialog.MultiviewEditDialog.OnSetWidget | src/ui/multiview-edit-dialog.cpp:169-180 | a cancelled cell dialog changes nothing; an accepted one sets the widget of the single selected cell |
| EditDialog.MultiviewEditDialog.OnMergeWidgets | src/ui/multiview-edit-dialog.cpp:187-194 | never changes the grid when the selection is not mergeable; otherwise merges, keeping a tiled grid tiled |
| EditDialog.MultiviewEditDialog.OnGridSizeChanged | src/ui/multiview-edit-dialog.cpp:266-319 | same spin values: nothing changes. Otherwise the editor holds the resized cells, which tile the grid when the old cells did not overlap |
| EditDialog.MultiviewEditDialog.ChangeGridSize | src/ui/multiview-edit-dialog.cpp:84-99 | the spin boxes clamp the input to [1,16]; an unchanged value does nothing, a changed one resizes |
| EditDialog.MultiviewEditDialog.LoadTemplate | src/ui/multiview-edit-dialog.cpp:321-333 | the spin boxes show the template's clamped dimensions, and the editor gets its grid and cells with an empty selection |
| EditDialog.MultiviewEditDialog.OnTemplateChanged | src/ui/multiview-edit-dialog.cpp:201-220 | index ≤ 0 or an unknown template changes nothing; otherwise the combo box resets and, if confirmed, the template is loaded |
| EditDialog.MultiviewEditDialog.Result | src/ui/multiview-edit-dialog.cpp:335-345 | the trimmed name, the editor's grid and cells, the border settings, and the original geometry and window state |
| EditDialog.MultiviewEditDialog.OnConfirm | src/ui/multiview-edit-dialog.cpp:234-264 | stores nothing for an empty trimmed name, or for a new multiview whose name exists; otherwise stores the result under its name |
| EditDialog.StoreMultiview | src/ui/multiview-edit-dialog.cpp:236-262 | stores iff the name is non-empty and not a clash for a new multiview; a new one is added, an existing one updated |
| EditDialog.SelectionButtons | src/ui/multiview-edit-dialog.cpp:224-231 | the four enablement flags, as in `onSelectionChanged` |
| EditDialog.DefaultCellsInBounds | src/ui/multiview-edit-dialog.cpp:147-153 | the default layout has non-negative origins, so the editor accepts it |
| WindowLayout.PreGridFits | src/ui/multiview-window.cpp:207-216 | the grid before rounding to cells fits the available area |
| WindowLayout.MulCancelLess | src/ui/multiview-window.cpp:207-216 | cancelling a positive factor in a strict inequality |
| WindowLayout.PreGridWidthFits | src/ui/multiview-window.cpp:210-212 | in the height-bound branch, the width derived from the height fits the available width |
| WindowLayout.PreGridHeightFits | src/ui/multiview-window.cpp:213-215 | in the width-bound branch, the height derived from the width fits the available height |
| WindowLayout.PreGridAspect | src/ui/multiview-window.cpp:207-216 | a window wider than the grid aspect gets height = availableH with the width truncated from it; otherwise width = availableW with the height truncated from it |
| WindowLayout.MetricsFit | src/ui/multiview-window.cpp:196-236 | the grid is an exact multiple of the integer cell size; it stays within width−2 and height−2; it loses less than one cell per axis to rounding |
| WindowLayout.AxisFit | src/ui/multiview-window.cpp:220-227 | truncating to whole cells loses less than one cell |
| WindowLayout.MetricsCentred | src/ui/multiview-window.cpp:234-235 | each offset is at least 1, the grid ends at least 1 pixel before the far edge, and the two margins differ by at most one pixel |
| WindowLayout.CellRect | src/ui/multiview-window.cpp:264-271 | width and height are at least 1, and equal span·size − 2 whenever that is at least 1 |
| WindowLayout.CellRectInsideSpanBox | src/ui/multiview-window.cpp:264-271 | with cells at least 2 pixels, a cell's rectangle lies inside its span box |
| WindowLayout.CellRectsDisjoint | src/ui/multiview-window.cpp:262-276 | the rectangles of non-overlapping cells are disjoint |
| WindowLayout.AxisApart | src/ui/multiview-window.cpp:264-271 | along one axis, a span that ends before the next begins gives a rectangle that ends before the next one's |
| WindowLayout.TiledLayout | src/ui/multiview-window.cpp:262-276 | in a tiled grid every rectangle lies in its span box and distinct cells' rectangles are disjoint |
| WindowLayout.LayoutSurfaces | src/ui/multiview-window.cpp:262-276 | the loop gives each surface that has a cell that cell's rectangle, and leaves the others |
| WindowLayout.ScanSound | src/ui/multiview-window.cpp:456-479 | every segment the scan emits is a maximal run of positions needing a line, and the segments are in order |
| WindowLayout.ScanComplete | src/ui/multiview-window.cpp:456-479 | every maximal run still ahead of the scan is emitted |
| WindowLayout.SegmentsExact | src/ui/multiview-window.cpp:456-479 | the segments of a line are exactly its maximal runs |
| WindowLayout.NoNeedNoSegments | src/ui/multiview-window.cpp:456-479 | a line with no ownership change emits no segment |
| WindowLayout.RunNeedsLine | src/ui/multiview-window.cpp:456-479 | each emitted segment starts at a position that needs a line |
| WindowLayout.ScanVertical | src/ui/multiview-window.cpp:456-479 | the `segmentStart` loop over an interior column emits exactly the maximal runs where the owners left and right differ |
| WindowLayout.ScanHorizontal | src/ui/multiview-window.cpp:493-516 | the loop over an interior row emits exactly the maximal runs where the owners above and below differ |
| WindowLayout.VRunLines | src/ui/multiview-window.cpp:465-478 | one vertical line per run |
| WindowLayout.HRunLines | src/ui/multiview-window.cpp:502-515 | one horizontal line per run |
| WindowLayout.OuterLinesFull | src/ui/multiview-window.cpp:450-453 | column 0, column `cols`, row 0 and row `rows` are drawn full length |
| WindowLayout.InteriorColumnExact | src/ui/multiview-window.cpp:446-480 | the lines on an interior column are exactly the maximal runs where the owners on the two sides differ, in order, scaled to pixels |
| WindowLayout.InteriorRowExact | src/ui/multiview-window.cpp:483-517 | the same for an interior row |
| WindowLayout.SingleCellNoInteriorLines | src/ui/multiview-window.cpp:446-517 | a single cell covering the whole grid draws no interior lines |
| WindowLayout.BuildOwnershipGrid | src/ui/multiview-window.cpp:424-433 | paintEvent's `rows × cols` ownership vector holds at each position the owner `Owner(cells, r, k)`: the last cell covering it, or -1 |
| WindowLayout.PaintLines | src/ui/multiview-window.cpp:411-518 | the paint routine builds the ownership vector and emits exactly the specified vertical and horizontal lines |
| WindowLayout.PaintVertical | src/ui/multiview-window.cpp:446-480 | the column loop emits the lines of every column in order |
| WindowLayout.PaintColumn | src/ui/multiview-window.cpp:446-480 | an outer column gives one full line, an interior one the scanned runs |
| WindowLayout.PaintHorizontal | src/ui/multiview-window.cpp:483-517 | the row loop emits the lines of every row in order |
| WindowLayout.PaintRow | src/ui/multiview-window.cpp:483-517 | an outer row gives one full line, an interior one the scanned runs |
| WindowLayout.MultiviewWindow.constructor | src/ui/multiview-window.cpp:40-54 | a saved geometry with positive size is used, otherwise 1280×720 at the given position; there is one surface per cell; buildGrid's updateLayout then caches the metrics of the window size and gives every surface its cell's rectangle (an empty grid keeps the zero cache) |
| WindowLayout.DefaultWindowLayout | src/ui/multiview-window.cpp:190-273 | the default 4×4 grid in a 1280×720 window is 1276×716 at (2, 2) with 319×179 cells, and the top-left surface is (3, 3) at 317×177 |
| WindowLayout.MultiviewWindow.UpdateLayout | src/ui/multiview-window.cpp:238-280 | a grid with a non-positive dimension changes nothing; otherwise the metrics are cached and each cell's surface gets its rectangle |
| WindowLayout.MultiviewWindow.Paint | src/ui/multiview-window.cpp:411-518 | the lines drawn are those of the cached metrics and the current cells |
| WindowLayout.MultiviewWindow.SaveWindowState | src/ui/multiview-window.cpp:343-359 | the windowed geometry (but not a fullscreen one), the fullscreen flag and the monitor are stored through `updateMultiview` |
| WindowLayout.MultiviewWindow.SetFullscreenOnMonitor | src/ui/multiview-window.cpp:361-380 | an index outside the screen list changes nothing; otherwise the window takes that screen's geometry, becomes fullscreen, keeps the windowed geometry in its config, and saves |
| CellRendering.FreeSide | src/render/multiview-renderer.cpp:46-61 | the rounded free side never exceeds the box |
| CellRendering.MulNonneg | src/render/multiview-renderer.cpp:46-61 | the product of non-negative sizes is non-negative |
| CellRendering.ScaleAndCenter | src/render/multiview-renderer.cpp:40-69 | the scaled size never exceeds the box. A box wider than the content binds the height, otherwise the width. The offsets are half the remainders, so the content sits inside, centred to within a pixel |
| CellRendering.RoundDivBounds | src/render/multiview-renderer.cpp:50-58 | round-half-up division lies within half a unit of the exact quotient |
| CellRendering.FreeSideRounds | src/render/multiview-renderer.cpp:50-58 | when the exact side fits, the free side is the exact side rounded half up |
| CellRendering.MulLess | src/render/multiview-renderer.cpp:50-58 | multiplying by a non-negative factor keeps order |
| CellRendering.ScaleKeepsAspect | src/render/multiview-renderer.cpp:46-61 | the free side is the content's aspect applied to the binding side, rounded to the nearest pixel |
| CellRendering.WiderFreeSide | src/render/multiview-renderer.cpp:46-61 | when the content is relatively narrower than the box, the free side is the exact proportional length rounded to the nearest pixel |
| CellRendering.FitView | src/render/multiview-renderer.cpp:310-333 | a viewport is drawn exactly when the content has a non-zero size, and it lies inside the cell |
| CellRendering.ResolveLabelText | src/render/multiview-renderer.cpp:346-371 | empty when hidden or None; custom text wins; otherwise per type: scene name, source name, canvas name or "Canvas", or the fixed Preview/Program/Placeholder text |
| CellRendering.LabelTextEmpty | src/render/multiview-renderer.cpp:346-371 | a visible label of a non-None widget is empty exactly for a Scene or Source with no name and no custom text |
| CellRendering.BgRect | src/render/multiview-renderer.cpp:492-497 | the background is the label rectangle grown by 4 on every side |
| CellRendering.LabelMargins | src/render/multiview-renderer.cpp:466-487 | near alignment leaves padding 6 on its side, far alignment 6 on the other, and centring gives margins within one pixel of each other |
| CellRendering.CentredOffsetTruncates | src/render/multiview-renderer.cpp:474 | a label 13 wide in a 10-pixel cell is placed at −1 (truncating), not at −2 (floor division) |
| CellRendering.RefreshBg | src/render/multiview-renderer.cpp:500-509 | the cache is rebuilt iff the texture is missing or (w, h, colour) differ; afterwards the key is the current one |
| CellRendering.RefreshBgIdempotent | src/render/multiview-renderer.cpp:500-509 | once the texture exists, the next frame with the same key reuses it |
| CellRendering.IconSize | src/render/multiview-renderer.cpp:568-573 | the icon size is at least 16, and is either 16 or half the smaller side, truncated |
| CellRendering.CreateIcon | src/render/multiview-renderer.cpp:556-592 | an invalid SVG leaves no texture (an existing one is destroyed and its size reset to 0); otherwise the size is computed from the surface, and the texture exists exactly when creation succeeds |
| CellRendering.RefreshIcon | src/render/multiview-renderer.cpp:626-632 | the icon is recreated only when it is missing or its size differs from the desired one |
| CellRendering.RefreshIconSane | src/render/multiview-renderer.cpp:556-632 | an existing icon texture always has a recorded size of at least 16 |
| CellRendering.IconCacheHit | src/render/multiview-renderer.cpp:626-632 | when the cell and surface sizes agree, a created icon is reused on the next frame |
| CellRendering.IconCacheMissesOnMismatch | src/render/multiview-renderer.cpp:568-632 | when the cell and the surface give different sizes, a recreated icon records the surface's size, which never matches the desired one, so every later frame recreates it again |
| CellRendering.FailedIconKeepsSize | src/render/multiview-renderer.cpp:589-591 | as written: a failed texture creation leaves no texture but a recorded size of 30, not 0 |
| CellRendering.ContentOps | src/render/multiview-renderer.cpp:142-186 | at most one viewport; None and Placeholder draw no content; a Scene or Source with an empty or unknown name draws none |
| CellRendering.ContentInsideCell | src/render/multiview-renderer.cpp:188-333 | every content viewport lies inside the cell |
| CellRendering.IconOps | src/render/multiview-renderer.cpp:634-642 | the icon is drawn iff there is a path and a texture, at the recorded size, centred with truncating division |
| CellRendering.LabelDrawnLast | src/render/multiview-renderer.cpp:455-546 | a label is drawn iff there is a label source of non-zero size, and it is drawn last; a transparent background is neither drawn nor cached |
| CellRendering.CellRenderer.constructor | src/render/multiview-renderer.cpp:71 | no surface, no label, empty caches, nothing drawn |
| CellRendering.CellRenderer.SetPlaceholderSvgPath | src/render/multiview-renderer.cpp:550-553 | only the path changes |
| CellRendering.CellRenderer.DestroyLabelBgTexture | src/render/multiview-renderer.cpp:607-618 | an existing background texture is destroyed and its key reset to zero; nothing else changes |
| CellRendering.CellRenderer.DestroyPlaceholderTexture | src/render/multiview-renderer.cpp:595-604 | an existing icon texture is destroyed and its size reset to 0; nothing else changes |
| CellRendering.CellRenderer.Cleanup | src/render/multiview-renderer.cpp:111-122 | the label and display are gone, and both caches are reset |
| CellRendering.CellRenderer.CreateLabelSource | src/render/multiview-renderer.cpp:373-414 | a label source exists iff the resolved text is non-empty and creation succeeds |
| CellRendering.CellRenderer.Init | src/render/multiview-renderer.cpp:78-109 | stores the cell; with a display, creates the label source; neither cache holds a texture afterwards |
| CellRendering.CellRenderer.UpdateConfig | src/render/multiview-renderer.cpp:124-128 | stores the new cell and recreates its label source; caches are untouched |
| CellRendering.CellRenderer.RenderLabel | src/render/multiview-renderer.cpp:455-546 | refreshes the background cache as specified and draws the background (when opaque and present) and then the label |
| CellRendering.CellRenderer.CreatePlaceholderTexture | src/render/multiview-renderer.cpp:556-592 | without a path the icon is destroyed; otherwise it is created from the surface size |
| CellRendering.CellRenderer.RenderPlaceholderIcon | src/render/multiview-renderer.cpp:620-664 | refreshes the icon cache for the desired size and draws the icon centred when it exists |
| CellRendering.CellRenderer.RenderContent | src/render/multiview-renderer.cpp:149-184 | draws the content viewport for the widget type, as specified by `ContentOps` |
| CellRendering.CellRenderer.RenderSource | src/render/multiview-renderer.cpp:310-333 | draws the source aspect-fitted and centred inside the cell when it has a size |
| CellRendering.CellRenderer.Render | src/render/multiview-renderer.cpp:142-186 | a zero size or type None draws nothing and touches no cache; otherwise content (or the placeholder icon) is drawn, then the label |
| ManageDialog.RenameVerdict | src/ui/multiview-manage-dialog.cpp:144-151 | accept iff confirmed, with a non-empty trimmed name different from the old one and not taken; refuse iff it is taken; otherwise ignore |
| ManageDialog.DuplicateVerdict | src/ui/multiview-manage-dialog.cpp:181-188 | accept iff confirmed, with a non-empty trimmed name that is not taken; refuse iff it is taken; otherwise ignore |
| ManageDialog.AcceptedNameIsClean | src/ui/multiview-manage-dialog.cpp:144-188 | an accepted name is non-empty, trimmed and free (and differs from the old name) |
| ManageDialog.RenameToSelfIgnored | src/ui/multiview-manage-dialog.cpp:144-188 | renaming to the old name padded with spaces is ignored, while duplicating to it is refused |
| ManageDialog.OnRename | src/ui/multiview-manage-dialog.cpp:135-154 | with no selection, or a name that is not accepted, nothing changes; an accepted name renames the entry in the store |
| ManageDialog.OnDuplicate | src/ui/multiview-manage-dialog.cpp:171-191 | with no selection, or a name that is not accepted, nothing changes; an accepted name adds a copy under that name |
| ManageDialog.OnDelete | src/ui/multiview-manage-dialog.cpp:156-169 | removes the selected multiview only once the user confirms; an existing entry is then saved and `multiviewRemoved` signalled, a missing one records nothing |
| ManageDialog.TemplateCell | src/ui/multiview-manage-dialog.cpp:238-270 | geometry kept. With preserveSources or a None cell, an exact copy. Otherwise a placeholder with scene and source names cleared, the canvas name kept, and the original label only when the label text was empty |
| ManageDialog.TemplateOf | src/ui/multiview-manage-dialog.cpp:231-270 | the template has the multiview's dimensions and one converted cell per cell, in order |
| ManageDialog.ConvertCells | src/ui/multiview-manage-dialog.cpp:238-270 | the loop converts every cell, keeping their order and count |
| ManageDialog.TemplateKeepsLayout | src/ui/multiview-manage-dialog.cpp:231-270 | the template has the same owners everywhere and is tiled whenever the multiview was |
| ManageDialog.PreservedTemplateCopies | src/ui/multiview-manage-dialog.cpp:238-239 | with preserveSources the template's cells are exactly the multiview's |
| ManageDialog.ConversionIdempotent | src/ui/multiview-manage-dialog.cpp:240-264 | converting twice changes nothing more; without preserveSources only placeholder and None cells remain |
| ManageDialog.ConversionKeepsLabel | src/ui/multiview-manage-dialog.cpp:241-266 | a converted cell shows the same label as before, except that an unlabelled cell shows the placeholder text and a named canvas without custom text shows the generic canvas text |
| ManageDialog.OnCreateTemplate | src/ui/multiview-manage-dialog.cpp:193-275 | created iff a multiview is selected, the dialog is accepted, and the trimmed name is non-empty and free; refused iff the name exists; a created template is the converted multiview, stored and saved |
| TemplateDialog.SelectionButtons | src/ui/template-manage-dialog.cpp:94-102 | Edit is enabled iff a template is selected; Rename and Delete also need it not to be the default |
| TemplateDialog.TemplateRenameCheck | src/ui/template-manage-dialog.cpp:104-128 | no selection and the default template are turned away before asking; any other name goes through the rename verdict (empty, unchanged, taken) |
| TemplateDialog.DefaultNeverRenamed | src/ui/template-manage-dialog.cpp:104-128 | an accepted rename never touches the default template and never produces its name |
| TemplateDialog.OnDelete | src/ui/template-manage-dialog.cpp:325-342 | the default template is never deleted; another is removed once the user confirms |
| TemplateDialog.EditedDefaultNotSaved | src/core/config-manager.cpp:343-344 | an edited default template is never written to the templates file |
| TemplateDialog.TemplateEditDialog.constructor | src/ui/template-manage-dialog.cpp:132-220 | the spin boxes show the template's dimensions clamped to [1,16], the editor gets its grid and cells, nothing is selected, and the buttons are disabled |
| TemplateDialog.TemplateEditDialog.SetNameText | src/ui/template-manage-dialog.cpp:151-153 | the name field of the default template is read-only; other names can be edited |
| TemplateDialog.TemplateEditDialog.UpdateButtons | src/ui/template-manage-dialog.cpp:212-220 | the same enablement rule as the multiview editor |
| TemplateDialog.TemplateEditDialog.OnGridSizeChanged | src/ui/template-manage-dialog.cpp:250-286 | same dimensions: nothing changes. Otherwise the editor holds the resized cells, which tile the new grid when the old cells did not overlap |
| TemplateDialog.TemplateEditDialog.ChangeGridSize | src/ui/template-manage-dialog.cpp:168-175 | the spin boxes clamp the input to [1,16]; only a change resizes |
| TemplateDialog.TemplateEditDialog.Updated | src/ui/template-manage-dialog.cpp:304-309 | the trimmed name, the editor's grid and cells, and the preserve flag |
| TemplateDialog.TemplateEditDialog.Save | src/ui/template-manage-dialog.cpp:299-322 | ignored for an empty name; refused for a changed name that exists; otherwise the old entry (unless default) is replaced by the updated one; the default survives and the count is kept |
| TemplateDialog.StoreEdited | src/ui/template-manage-dialog.cpp:299-322 | the same outcome for a given updated template: ignore iff its name is empty, refuse iff it clashes, else replace |
| TemplateDialog.ReplaceTemplate | src/ui/template-manage-dialog.cpp:319-322 | removes the old entry unless it is kept, then adds the updated one; the count is kept when the old entry existed |
| TemplateDialog.RemoveUnlessKept | src/ui/template-manage-dialog.cpp:320-321 | removes the entry unless it is the default |
| TemplateDialog.SaveKeepsCount | src/ui/template-manage-dialog.cpp:319-322 | replacing an existing entry by one with a free or equal name keeps the template count |
| TemplateDialog.DefaultNameTrimmed | src/ui/template-manage-dialog.cpp:299 | the default template's name survives trimming |

## Left out

- Integer width: grid sizes and pixel sizes are unbounded integers. Only the
  `(int)` casts when loading and C++ truncating division are modelled. The
  `uint32_t` draw sizes are natural numbers.
- Whitespace: `QString::trimmed` is modelled for the ASCII space, tab, newline,
  vertical tab, form feed and carriage return. Other Unicode whitespace is not.
- Floating point: `calculateGridMetrics` computes its aspect ratios, the derived
  grid side and the cell sizes in `float`; `GetScaleAndCenterPos` compares its
  aspect ratios in `double` and scales by a `float` factor. Both are modelled
  with exact integer arithmetic: cross-multiplied aspect comparisons,
  truncation of the derived side, and round-half-up for `std::round`. The
  float/double results can differ from the exact ones at an exact aspect tie
  and where a rounded product lands next to a whole number. The unused `scale`
  output is left out.
- CellRendering.RefreshIconSane: states the weaker invariant "a texture implies
  size ≥ 16", because "size is 0 whenever no texture exists" is false for the
  code as written when texture creation fails (see `FailedIconKeepsSize`).
- Files: JSON reading and writing are not modelled. A saved file is an event
  that records the path and the map written. A readable file is a list of
  decoded records supplied by the host.
- `MultiviewToData` and `TemplateToData`: the writers are not modelled. The
  `ensureConfigDir`/`QDir::mkpath` call is not modelled.
- `WidgetToData` and `CellToData`: modelled on an abstract key/value record.
  Colour naming and parsing are functions passed in.
- Ordering: map iteration order (`QMap` keys) and the sorted template list of
  `refreshList` are not modelled. The store is a Dafny `map`.
- Dialogs: message boxes, input dialogs, colour and font pickers, context menus,
  layouts and the cell configuration form are not modelled. The user's answers
  are parameters.
- Window registry: the static registry of open windows (`openOrFocus`,
  `closeByName`, `reloadConfig`, `closeAll`, `reopenPreviouslyOpen`) is not
  modelled. `onSceneCollectionChanging` receives the set of open windows as a
  parameter.
- ManageDialog.OnDelete: it does not model the `closeByName` call that closes
  the deleted multiview's window.
- Template rename: `renameTemplate`, called from the template dialog's
  `onRename`, is defined in none of the configuration manager's sources.
  `TemplateRenameCheck` models the checks before the call. The call itself is
  not modelled.
- Text: localised texts (`LG_TEXT`) are fixed string constants.
- Negative cell origins: a stored cell's `row` and `col` are read by a plain
  `(int)` cast (`MultiviewSerializer.CellFromData`), so a configuration file can
  carry a negative origin. For such a cell the source indexes out of range, which
  is undefined behaviour: the editor's `rebuildOwnership`
  (src/ui/grid-editor-widget.cpp:274-275), the window's ownership loop in
  `paintEvent` (src/ui/multiview-window.cpp:428-430) and the resize's `occupied`
  array (src/ui/multiview-edit-dialog.cpp:294-297) have no guard. The model
  excludes this case by a `NonNegOrigins` requires on the editor's `Valid`, the
  edit dialog's constructor and template loading, the resize, and the window's
  `PaintLines`, `BuildOwnershipGrid` and `Paint`. The editor, the resize and the
  default template themselves only produce non-negative origins.
- Window events and painting: resize, move, close, title updates, the
  background fill and the paint colours are not modelled. Screen enumeration
  is a list of screen rectangles passed in.
- WindowLayout.MultiviewWindow.constructor: it models the geometry choice, the
  surfaces and buildGrid's layout. The fullscreen re-entry, the deferred renderer
  creation, the title and the `wasOpen` update are not modelled. The geometry of
  a surface that updateLayout never sets (an empty grid) is Qt's default widget
  geometry in the source; the model gives it as `Rect(0, 0, 0, 0)`.
- Graphics: display creation, viewports, projections, effects, texture upload,
  SVG and rounded-rectangle rasterisation, fonts and label-source settings are
  not modelled. Drawing is a recorded list of viewports. Creating a texture or
  source is a boolean outcome supplied by a `Graphics` record.
- Renderer: the studio-mode choice between the preview and the main texture,
  `resize` and `destroyLabelSource` are not modelled.
- Threads: the render-thread draw callback and the graphics lock are not
  modelled.
- Alignment: label alignment is one of three values per axis. Combinations of
  Qt alignment flags are not modelled.
- Shared editor actions: the edit dialog's `onEditWidget` and `onResetWidgets`,
  and the template dialog's set, merge and reset lambdas, call the same editor
  members (`SetWidgetForSelected`, `ResetSelected`, `MergeSelected`) that are
  modelled above.
  They have no members of their own.
- Other files: src/ui/cell-config-dialog.cpp, src/ui/tools-menu.cpp and
  src/plugin-main.cpp are not part of this model.
