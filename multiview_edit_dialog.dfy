/**
 * The multiview edit dialog (src/ui/multiview-edit-dialog.cpp): a name field, the
 * rows/columns/border spin boxes, the grid editor and its buttons, and the
 * confirmation that stores the edited multiview in the configuration store.
 *
 * Message boxes, the cell configuration dialog and the template question are
 * answers passed in as parameters; opening the new multiview's window is left out.
 */
module EditDialog {
  import opened Wrappers
  import opened CppInt
  import opened QtString
  import opened ConfigTypes
  import opened GridModel
  import opened GridEditing
  import opened GridResize
  import opened ConfigManagement

  /** A template setGrid can take: the source indexes its ownership map with the cells' origins. */
  predicate Loadable(t: TemplateConfig) {
    t.gridRows <= INT_MAX && t.gridCols <= INT_MAX && NonNegOrigins(t.cells)
  }

  class MultiviewEditDialog {
    const editor: GridEditorWidget
    const isNew: bool
    var config: MultiviewConfig
    var nameText: string
    var rowsValue: int          // rowsSpin_, range 1..16
    var colsValue: int          // colsSpin_, range 1..16
    var borderWidth: int        // borderWidthSpin_, range 1..10
    var gridLineColor: Color
    var setEnabled: bool
    var editEnabled: bool
    var mergeEnabled: bool
    var resetEnabled: bool
    var templateIndex: int      // templateCombo_, 0 is "(Current)"
    var accepted: bool

    ghost predicate Valid()
      reads this, editor, editor.ownership
    {
      editor.Valid() &&
      1 <= rowsValue <= 16 && 1 <= colsValue <= 16 && 1 <= borderWidth <= 10 &&
      templateIndex >= 0
    }

    /**
     * The dialog for `cfg`: an existing grid is loaded as it is, a multiview without
     * cells starts from the default template. Spin boxes clamp to their ranges.
     */
    constructor (cfg: MultiviewConfig, newMultiview: bool, scenes: seq<Option<string>>, w: int, h: int)
      requires w >= 0 && h >= 0
      requires cfg.gridRows <= INT_MAX && cfg.gridCols <= INT_MAX && NonNegOrigins(cfg.cells)
      ensures Valid() && fresh(editor)
      ensures config == cfg && isNew == newMultiview && nameText == cfg.name && !accepted
      ensures cfg.cells != [] ==>
        editor.rows == Max(1, cfg.gridRows) && editor.cols == Max(1, cfg.gridCols) && editor.cells == cfg.cells
      ensures cfg.cells == [] ==>
        editor.rows == 4 && editor.cols == 4 && editor.cells == DefaultCells(Present(scenes))
      ensures rowsValue == Bound(1, if cfg.cells == [] then 4 else cfg.gridRows, 16)
      ensures colsValue == Bound(1, if cfg.cells == [] then 4 else cfg.gridCols, 16)
      ensures borderWidth == Bound(1, cfg.gridBorderWidth, 10) && gridLineColor == cfg.gridLineColor
      ensures editor.selected == {} && !setEnabled && !editEnabled && !mergeEnabled && !resetEnabled
    {
      config := cfg;
      isNew := newMultiview;
      nameText := cfg.name;
      var def := DefaultTemplate(scenes);
      rowsValue := Bound(1, if cfg.cells == [] then def.gridRows else cfg.gridRows, 16);
      colsValue := Bound(1, if cfg.cells == [] then def.gridCols else cfg.gridCols, 16);
      borderWidth := Bound(1, cfg.gridBorderWidth, 10);
      gridLineColor := cfg.gridLineColor;
      templateIndex := 0;
      accepted := false;
      setEnabled, editEnabled, mergeEnabled, resetEnabled := false, false, false, false;
      editor := new GridEditorWidget(w, h);
      new;
      if cfg.cells != [] {
        editor.SetGrid(cfg.gridRows, cfg.gridCols, cfg.cells);
      } else {
        DefaultCellsInBounds(Present(scenes));
        editor.SetGrid(def.gridRows, def.gridCols, def.cells);
      }
      OnSelectionChanged();
    }

    /** onSelectionChanged: the buttons follow the selection. */
    method OnSelectionChanged()
      requires Valid()
      modifies this
      ensures Valid()
      ensures var idx := SelectedCell(editor.rows, editor.cols, editor.cells, editor.selected);
        setEnabled == (idx >= 0) &&
        editEnabled == (idx >= 0 && idx < |editor.cells| && editor.cells[idx].widget.widgetType != WidgetType.None)
      ensures mergeEnabled == CanMerge(editor.rows, editor.cols, editor.cells, editor.selected)
      ensures resetEnabled == CanReset(editor.rows, editor.cols, editor.cells, editor.selected)
      ensures config == old(config) && nameText == old(nameText) && accepted == old(accepted)
      ensures rowsValue == old(rowsValue) && colsValue == old(colsValue) && templateIndex == old(templateIndex)
      ensures borderWidth == old(borderWidth) && gridLineColor == old(gridLineColor)
    {
      var canSet, canEdit, canMerge, canReset := SelectionButtons(editor);
      setEnabled, editEnabled, mergeEnabled, resetEnabled := canSet, canEdit, canMerge, canReset;
    }

    /** onSetWidget: the cell dialog's result, when accepted, goes to the single selected cell. */
    method OnSetWidget(dialogAccepted: bool, w: WidgetConfig)
      requires Valid()
      modifies editor
      ensures Valid()
      ensures !dialogAccepted ==> editor.cells == old(editor.cells)
      ensures dialogAccepted ==> var idx := old(SelectedCell(editor.rows, editor.cols, editor.cells, editor.selected));
        editor.cells == if idx >= 0 then old(editor.cells)[idx := old(editor.cells)[idx].(widget := w)] else old(editor.cells)
      ensures editor.rows == old(editor.rows) && editor.cols == old(editor.cols) && editor.selected == old(editor.selected)
    {
      if dialogAccepted {
        editor.SetWidgetForSelected(w);
      }
    }

    /** onMergeWidgets: refuses (with a warning) a selection that cannot be merged. */
    method OnMergeWidgets()
      requires Valid()
      modifies editor
      ensures Valid()
      ensures !old(CanMerge(editor.rows, editor.cols, editor.cells, editor.selected)) ==>
        editor.cells == old(editor.cells) && editor.selected == old(editor.selected)
      ensures old(CanMerge(editor.rows, editor.cols, editor.cells, editor.selected)) ==>
        editor.cells == old(MergeResult(editor.rows, editor.cols, editor.cells, editor.selected)) && editor.selected == {}
      ensures old(CanMerge(editor.rows, editor.cols, editor.cells, editor.selected) &&
                  Tiled(editor.rows, editor.cols, editor.cells) && editor.SelectionInGrid()) ==>
        Tiled(editor.rows, editor.cols, editor.cells)
      ensures editor.rows == old(editor.rows) && editor.cols == old(editor.cols)
    {
      var can := editor.CanMergeSelected();
      if !can {
        return;
      }
      editor.MergeSelected();
    }

    /**
     * onGridSizeChanged: nothing happens when the spin boxes show the current
     * dimensions; otherwise the editor gets the resized cell list.
     */
    method OnGridSizeChanged()
      requires Valid()
      modifies editor
      ensures Valid()
      ensures old(rowsValue == editor.rows && colsValue == editor.cols) ==>
        editor.cells == old(editor.cells) && editor.selected == old(editor.selected) &&
        editor.rows == old(editor.rows) && editor.cols == old(editor.cols)
      ensures old(rowsValue != editor.rows || colsValue != editor.cols) ==>
        editor.rows == rowsValue && editor.cols == colsValue && editor.selected == {} &&
        editor.cells == Resized(old(editor.cells), rowsValue, colsValue)
      ensures old(PairwiseDisjoint(editor.cells) &&
                  forall i :: 0 <= i < |editor.cells| ==> editor.cells[i].rowSpan >= 1 && editor.cells[i].colSpan >= 1) &&
              old(rowsValue != editor.rows || colsValue != editor.cols) ==>
        Tiled(editor.rows, editor.cols, editor.cells)
    {
      ResizeEditor(editor, rowsValue, colsValue);
    }

    /** A spin box change: the value is clamped to 1..16 and, if it changed, the grid follows. */
    method ChangeGridSize(rowsInput: int, colsInput: int)
      requires Valid()
      modifies this, editor
      ensures Valid()
      ensures rowsValue == Bound(1, rowsInput, 16) && colsValue == Bound(1, colsInput, 16)
      ensures old(rowsValue) == rowsValue && old(colsValue) == colsValue ==>
        editor.cells == old(editor.cells) && editor.rows == old(editor.rows) && editor.cols == old(editor.cols)
      ensures (old(rowsValue) != rowsValue || old(colsValue) != colsValue) &&
              (rowsValue != old(editor.rows) || colsValue != old(editor.cols)) ==>
        editor.rows == rowsValue && editor.cols == colsValue &&
        editor.cells == Resized(old(editor.cells), rowsValue, colsValue)
    {
      var r := Bound(1, rowsInput, 16);
      var c := Bound(1, colsInput, 16);
      if r != rowsValue || c != colsValue {
        rowsValue, colsValue := r, c;
        OnGridSizeChanged();
      }
    }

    /**
     * loadTemplate: the spin boxes (signals blocked, so without a resize) and the
     * editor take the template's dimensions and cells.
     */
    method LoadTemplate(t: TemplateConfig)
      requires Valid() && Loadable(t)
      modifies this, editor
      ensures Valid()
      ensures rowsValue == Bound(1, t.gridRows, 16) && colsValue == Bound(1, t.gridCols, 16)
      ensures editor.rows == Max(1, t.gridRows) && editor.cols == Max(1, t.gridCols)
      ensures editor.cells == t.cells && editor.selected == {}
      ensures config == old(config) && nameText == old(nameText) && accepted == old(accepted)
      ensures templateIndex == old(templateIndex)
    {
      rowsValue := Bound(1, t.gridRows, 16);
      colsValue := Bound(1, t.gridCols, 16);
      editor.SetGrid(t.gridRows, t.gridCols, t.cells);
    }

    /**
     * onTemplateChanged: index 0 ("(Current)") and names the store does not know
     * change nothing; otherwise the template is applied if the user says yes, and
     * the combo box returns to "(Current)".
     */
    method OnTemplateChanged(index: int, templateName: string, apply: bool, cm: ConfigManager)
      requires Valid()
      requires forall k :: k in cm.templates ==> Loadable(cm.templates[k])
      modifies this, editor
      ensures Valid()
      ensures index <= 0 || templateName !in cm.templates ==>
        editor.cells == old(editor.cells) && editor.rows == old(editor.rows) && editor.cols == old(editor.cols) &&
        editor.selected == old(editor.selected) &&
        rowsValue == old(rowsValue) && colsValue == old(colsValue) && templateIndex == old(templateIndex)
      ensures index > 0 && templateName in cm.templates ==> templateIndex == 0
      ensures index > 0 && templateName in cm.templates && apply ==>
        editor.cells == cm.templates[templateName].cells && editor.selected == {}
      ensures index > 0 && templateName in cm.templates && !apply ==>
        editor.cells == old(editor.cells) && editor.rows == old(editor.rows) && editor.cols == old(editor.cols)
      ensures config == old(config) && nameText == old(nameText) && accepted == old(accepted)
    {
      if index <= 0 {
        return;
      }
      if !cm.HasTemplate(templateName) {
        return;
      }
      if apply {
        LoadTemplate(cm.GetTemplate(templateName));
      }
      templateIndex := 0;
    }

    /** result: the configuration with the dialog's name, grid and line settings. */
    function Result(): (mv: MultiviewConfig)
      reads this, editor
      ensures mv.name == Trimmed(nameText)
      ensures mv.gridRows == editor.rows && mv.gridCols == editor.cols && mv.cells == editor.cells
      ensures mv.gridBorderWidth == borderWidth && mv.gridLineColor == gridLineColor
      ensures mv.geometry == config.geometry && mv.monitorId == config.monitorId
      ensures mv.fullscreen == config.fullscreen && mv.wasOpen == config.wasOpen
    {
      config.(name := Trimmed(nameText), gridRows := editor.rows, gridCols := editor.cols,
              gridBorderWidth := borderWidth, gridLineColor := gridLineColor, cells := editor.cells)
    }

    /**
     * onConfirm: an empty trimmed name, or the name of an existing multiview when
     * creating one, is refused and nothing is stored; otherwise the result is
     * added (new) or updated (existing) in the store and the dialog is accepted.
     */
    method OnConfirm(cm: ConfigManager, host: Host)
      requires Valid() && cm.Valid()
      modifies this, cm
      ensures Valid() && cm.Valid()
      ensures var mv := old(Result());
        (mv.name == "" || (isNew && mv.name in old(cm.multiviews))) ==>
          cm.multiviews == old(cm.multiviews) && cm.events == old(cm.events) &&
          config == old(config) && accepted == old(accepted)
      ensures var mv := old(Result());
        !(mv.name == "" || (isNew && mv.name in old(cm.multiviews))) ==>
          config == mv && accepted &&
          cm.multiviews == old(cm.multiviews)[mv.name := mv] &&
          cm.events == old(cm.events) + cm.CollectionSave(host) + [if isNew then MultiviewAdded(mv.name) else MultiviewUpdated(mv.name)]
      ensures cm.templates == old(cm.templates) && cm.suppressSave == old(cm.suppressSave)
      ensures nameText == old(nameText)
    {
      var mv := Result();
      var stored := StoreMultiview(cm, mv, isNew, host);
      if stored {
        config := mv;
        accepted := true;
      }
    }
  }

  /**
   * The store step of onConfirm: an empty name, or an existing name for a new
   * multiview, is refused; otherwise addMultiview (new) or updateMultiview.
   */
  method StoreMultiview(cm: ConfigManager, mv: MultiviewConfig, isNew: bool, host: Host) returns (stored: bool)
    requires cm.Valid()
    modifies cm
    ensures cm.Valid()
    ensures stored <==> !(mv.name == "" || (isNew && mv.name in old(cm.multiviews)))
    ensures !stored ==> cm.multiviews == old(cm.multiviews) && cm.events == old(cm.events)
    ensures stored ==> cm.multiviews == old(cm.multiviews)[mv.name := mv]
    ensures stored ==>
      cm.events == old(cm.events) + cm.CollectionSave(host) + [if isNew then MultiviewAdded(mv.name) else MultiviewUpdated(mv.name)]
    ensures cm.templates == old(cm.templates) && cm.suppressSave == old(cm.suppressSave)
  {
    if mv.name == "" || (isNew && cm.HasMultiview(mv.name)) {
      return false;
    }
    if isNew {
      cm.AddMultiview(mv, host);
    } else {
      cm.UpdateMultiview(mv, host);
    }
    return true;
  }

  /**
   * The four button states of onSelectionChanged: Set needs a single selected cell,
   * Edit also needs that cell to show something, Merge and Reset follow the editor.
   */
  method SelectionButtons(editor: GridEditorWidget) returns (canSet: bool, canEdit: bool, canMerge: bool, canReset: bool)
    requires editor.Valid()
    ensures var idx := SelectedCell(editor.rows, editor.cols, editor.cells, editor.selected);
      canSet == (idx >= 0) &&
      canEdit == (idx >= 0 && idx < |editor.cells| && editor.cells[idx].widget.widgetType != WidgetType.None)
    ensures canMerge == CanMerge(editor.rows, editor.cols, editor.cells, editor.selected)
    ensures canReset == CanReset(editor.rows, editor.cols, editor.cells, editor.selected)
  {
    var cellIdx := editor.SelectedCellIndex();
    canSet := cellIdx >= 0;
    canEdit := canSet && cellIdx < |editor.cells| && editor.cells[cellIdx].widget.widgetType != WidgetType.None;
    canMerge := editor.CanMergeSelected();
    canReset := editor.CanResetSelected();
  }

  /** The default template's cells lie inside its 4x4 grid, so setGrid can take them. */
  lemma DefaultCellsInBounds(names: seq<string>)
    ensures NonNegOrigins(DefaultCells(names))
  {
    DefaultTemplateTiles(names);
  }
}
