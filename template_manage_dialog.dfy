/**
 * The "Manage Templates" dialog (src/ui/template-manage-dialog.cpp): the
 * protection of the built-in default template, the rename and delete checks,
 * and the template edit dialog with its grid resize and the save that replaces
 * the edited entry. Input dialogs and confirmations are parameters.
 */
module TemplateDialog {
  import opened Wrappers
  import opened CppInt
  import opened QtString
  import opened ConfigTypes
  import opened GridModel
  import opened GridEditing
  import opened GridResize
  import opened ConfigManagement
  import EditDialog
  import ManageDialog

  /** isDefaultTemplate: the name of the template defaultTemplate builds. */
  predicate IsDefaultTemplate(name: string) {
    name == DefaultTemplateName
  }

  /** The enabled state of the rename, edit and delete buttons. */
  datatype ListButtons = ListButtons(rename: bool, edit: bool, delete: bool)

  /** onSelectionChanged: any selection may be edited; only one other than the default may be renamed or deleted. */
  function SelectionButtons(selected: Option<string>): (b: ListButtons)
    ensures b.edit <==> selected.Some?
    ensures b.rename <==> selected.Some? && !IsDefaultTemplate(selected.value)
    ensures b.delete == b.rename
  {
    var has := selected.Some?;
    var isDefault := has && IsDefaultTemplate(selected.value);
    ListButtons(has && !isDefault, has, has && !isDefault)
  }

  /** The outcome of the rename check. */
  datatype RenameCheck = NoSelection | DefaultProtected | Checked(verdict: ManageDialog.Verdict)

  /**
   * onRename's checks: the default template is refused outright; otherwise a
   * cancelled, empty or unchanged name is ignored and a taken one refused.
   */
  function TemplateRenameCheck(selected: Option<string>, input: string, ok: bool, taken: set<string>): (c: RenameCheck)
    ensures c == NoSelection <==> selected.None?
    ensures c == DefaultProtected <==> selected.Some? && IsDefaultTemplate(selected.value)
    ensures c.Checked? ==> c.verdict == ManageDialog.RenameVerdict(selected.value, input, ok, taken)
  {
    if selected.None? then NoSelection
    else if IsDefaultTemplate(selected.value) then DefaultProtected
    else Checked(ManageDialog.RenameVerdict(selected.value, input, ok, taken))
  }

  /** The default template is never offered a new name, and no accepted name is the default's or taken. */
  lemma DefaultNeverRenamed(selected: Option<string>, input: string, ok: bool, taken: set<string>)
    requires DefaultTemplateName in taken
    ensures var c := TemplateRenameCheck(selected, input, ok, taken);
      c.Checked? && c.verdict.Accept? ==>
        !IsDefaultTemplate(selected.value) && !IsDefaultTemplate(c.verdict.name) && c.verdict.name !in taken
  {
  }

  /** onDelete: the default template is refused; any other is removed once the user confirms. */
  method OnDelete(cm: ConfigManager, selected: Option<string>, confirmed: bool, host: Host)
    requires cm.Valid()
    modifies cm
    ensures cm.Valid()
    ensures selected.None? || IsDefaultTemplate(selected.value) || !confirmed ==>
      cm.templates == old(cm.templates) && cm.events == old(cm.events)
    ensures selected.Some? && !IsDefaultTemplate(selected.value) && confirmed ==>
      cm.templates == old(cm.templates) - {selected.value}
    ensures DefaultTemplateName in old(cm.templates) ==> DefaultTemplateName in cm.templates
    ensures cm.multiviews == old(cm.multiviews) && cm.suppressSave == old(cm.suppressSave)
  {
    if selected.None? {
      return;
    }
    if IsDefaultTemplate(selected.value) {
      return;
    }
    if confirmed {
      cm.RemoveTemplate(selected.value, host);
    }
  }

  /** The events saveTemplates records for the map `t`. */
  function TemplatesSaveOf(t: map<string, TemplateConfig>, host: Host): seq<Event> {
    if TemplatesConfigPath(host) == "" then [] else [TemplatesSaved(TemplatesConfigPath(host), TemplatesToSave(t))]
  }

  /** Edits to the default template stay in memory: saveTemplates never writes an entry named like the default. */
  lemma EditedDefaultNotSaved(t: map<string, TemplateConfig>, updated: TemplateConfig, host: Host)
    requires IsDefaultTemplate(updated.name)
    ensures forall e <- TemplatesSaveOf(t[updated.name := updated], host) ::
      e.TemplatesSaved? && DefaultTemplateName !in e.templates
  {
  }

  /** The outcome of saving the edit dialog. */
  datatype SaveResult = SaveIgnored | SaveRefused | Saved(template: TemplateConfig)

  /**
   * The edit dialog of onEdit: a name field (read-only for the default
   * template), the rows and columns spin boxes, the preserve-sources box, and
   * the grid editor with its buttons.
   */
  class TemplateEditDialog {
    const editor: GridEditorWidget
    const templateName: string
    const isDefault: bool
    var nameText: string
    var rowsValue: int          // rowsSpin, range 1..16
    var colsValue: int          // colsSpin, range 1..16
    var preserveChecked: bool
    var setEnabled: bool
    var editEnabled: bool
    var mergeEnabled: bool
    var resetEnabled: bool

    ghost predicate Valid()
      reads this, editor, editor.ownership
    {
      editor.Valid() && 1 <= rowsValue <= 16 && 1 <= colsValue <= 16 &&
      isDefault == IsDefaultTemplate(templateName) && (isDefault ==> nameText == templateName)
    }

    /** The default template keeps its name: its name field cannot be edited. */
    predicate NameValid()
      reads this
    {
      isDefault == IsDefaultTemplate(templateName) && (isDefault ==> nameText == templateName)
    }

    /** The dialog for the template stored as `name`, loaded into the editor; spin boxes clamp to 1..16. */
    constructor (name: string, tmpl: TemplateConfig, w: int, h: int)
      requires w >= 0 && h >= 0 && EditDialog.Loadable(tmpl)
      ensures Valid() && fresh(editor)
      ensures templateName == name && isDefault == IsDefaultTemplate(name) && nameText == name
      ensures rowsValue == Bound(1, tmpl.gridRows, 16) && colsValue == Bound(1, tmpl.gridCols, 16)
      ensures preserveChecked == tmpl.preserveSources
      ensures editor.rows == Max(1, tmpl.gridRows) && editor.cols == Max(1, tmpl.gridCols)
      ensures editor.cells == tmpl.cells && editor.selected == {}
      ensures !setEnabled && !editEnabled && !mergeEnabled && !resetEnabled
    {
      templateName := name;
      isDefault := IsDefaultTemplate(name);
      nameText := name;
      rowsValue := Bound(1, tmpl.gridRows, 16);
      colsValue := Bound(1, tmpl.gridCols, 16);
      preserveChecked := tmpl.preserveSources;
      setEnabled, editEnabled, mergeEnabled, resetEnabled := false, false, false, false;
      editor := new GridEditorWidget(w, h);
      new;
      editor.SetGrid(tmpl.gridRows, tmpl.gridCols, tmpl.cells);
      UpdateButtons();
    }

    /** Typing into the name field; the default template's field is read-only. */
    method SetNameText(text: string)
      requires Valid()
      modifies this
      ensures Valid()
      ensures nameText == if isDefault then old(nameText) else text
      ensures rowsValue == old(rowsValue) && colsValue == old(colsValue) && preserveChecked == old(preserveChecked)
    {
      if !isDefault {
        nameText := text;
      }
    }

    /** updateButtons: the widget buttons follow the editor's selection. */
    method UpdateButtons()
      requires Valid()
      modifies this
      ensures Valid()
      ensures var idx := SelectedCell(editor.rows, editor.cols, editor.cells, editor.selected);
        setEnabled == (idx >= 0) &&
        editEnabled == (idx >= 0 && idx < |editor.cells| && editor.cells[idx].widget.widgetType != WidgetType.None)
      ensures mergeEnabled == CanMerge(editor.rows, editor.cols, editor.cells, editor.selected)
      ensures resetEnabled == CanReset(editor.rows, editor.cols, editor.cells, editor.selected)
      ensures nameText == old(nameText) && preserveChecked == old(preserveChecked)
      ensures rowsValue == old(rowsValue) && colsValue == old(colsValue)
    {
      var canSet, canEdit, canMerge, canReset := EditDialog.SelectionButtons(editor);
      setEnabled, editEnabled, mergeEnabled, resetEnabled := canSet, canEdit, canMerge, canReset;
    }

    /**
     * onGridSizeChanged: a no-op when the spin boxes show the editor's
     * dimensions; otherwise the editor gets the resized cell list, which tiles
     * the new grid whenever the old cells were disjoint with non-empty spans.
     */
    method OnGridSizeChanged()
      requires Valid()
      modifies editor
      ensures Valid()
      ensures old(rowsValue == editor.rows && colsValue == editor.cols) ==>
        editor.cells == old(editor.cells) && editor.selected == old(editor.selected) &&
        editor.rows == old(editor.rows) && editor.cols == old(editor.cols)
      ensures old(rowsValue != editor.rows || colsValue != editor.cols) ==>
        editor.rows == rowsValue && editor.cols == colsValue && editor.selected == {} &&
        editor.cells == Resized(old(editor.cells), rowsValue, colsValue)
      ensures old(PairwiseDisjoint(editor.cells) &&
                  forall i :: 0 <= i < |editor.cells| ==> editor.cells[i].rowSpan >= 1 && editor.cells[i].colSpan >= 1) &&
              old(rowsValue != editor.rows || colsValue != editor.cols) ==>
        Tiled(editor.rows, editor.cols, editor.cells)
    {
      ResizeEditor(editor, rowsValue, colsValue);
    }

    /** A spin box change: the value is clamped to 1..16 and, when it changed, the lambda runs. */
    method ChangeGridSize(rowsInput: int, colsInput: int)
      requires Valid()
      modifies this, editor
      ensures Valid()
      ensures rowsValue == Bound(1, rowsInput, 16) && colsValue == Bound(1, colsInput, 16)
      ensures rowsValue == old(rowsValue) && colsValue == old(colsValue) ==>
        editor.cells == old(editor.cells) && editor.rows == old(editor.rows) && editor.cols == old(editor.cols)
      ensures (rowsValue != old(rowsValue) || colsValue != old(colsValue)) &&
              (rowsValue != old(editor.rows) || colsValue != old(editor.cols)) ==>
        editor.rows == rowsValue && editor.cols == colsValue &&
        editor.cells == Resized(old(editor.cells), rowsValue, colsValue)
      ensures nameText == old(nameText) && preserveChecked == old(preserveChecked)
    {
      var r := Bound(1, rowsInput, 16);
      var c := Bound(1, colsInput, 16);
      if r != rowsValue || c != colsValue {
        rowsValue, colsValue := r, c;
        OnGridSizeChanged();
      }
    }

    /** The template the dialog describes once accepted. */
    function Updated(): (t: TemplateConfig)
      reads this, editor
      ensures t.name == Trimmed(nameText) && t.cells == editor.cells
      ensures t.gridRows == editor.rows && t.gridCols == editor.cols && t.preserveSources == preserveChecked
    {
      TemplateConfig(Trimmed(nameText), editor.rows, editor.cols, editor.cells, preserveChecked)
    }

    /**
     * The end of onEdit once the dialog is accepted: an empty name does nothing,
     * a changed name that is taken is refused; otherwise the old entry is removed
     * (unless it is the default) and the updated template added.
     */
    method Save(cm: ConfigManager, host: Host) returns (res: SaveResult)
      requires NameValid() && cm.Valid()
      modifies cm
      ensures cm.Valid()
      ensures var n := Trimmed(nameText);
        res == SaveIgnored <==> n == ""
      ensures var n := Trimmed(nameText);
        res == SaveRefused <==> n != "" && n != templateName && n in old(cm.templates)
      ensures !res.Saved? ==> cm.templates == old(cm.templates) && cm.events == old(cm.events)
      ensures res.Saved? ==> res.template == Updated()
      ensures res.Saved? ==>
        (cm.templates == (if isDefault then old(cm.templates) else old(cm.templates) - {templateName})[res.template.name := res.template])
      ensures res.Saved? ==>
        (cm.events == old(cm.events) + ReplaceEvents(old(cm.templates), templateName, res.template, isDefault, host))
      ensures DefaultTemplateName in old(cm.templates) ==> DefaultTemplateName in cm.templates
      ensures res.Saved? && templateName in old(cm.templates) ==> |cm.templates| == |old(cm.templates)|
      ensures cm.multiviews == old(cm.multiviews) && cm.suppressSave == old(cm.suppressSave)
    {
      if isDefault {
        DefaultNameTrimmed();
      }
      res := StoreEdited(cm, templateName, isDefault, Updated(), host);
    }
  }

  /**
   * The checks and the store step of the edit save for the template stored as
   * `name`, edited into `updated` (whose name is already trimmed).
   */
  method StoreEdited(cm: ConfigManager, name: string, isDefault: bool, updated: TemplateConfig, host: Host)
    returns (res: SaveResult)
    requires cm.Valid()
    requires isDefault ==> updated.name == name
    modifies cm
    ensures cm.Valid()
    ensures res == SaveIgnored <==> updated.name == ""
    ensures res == SaveRefused <==> updated.name != "" && updated.name != name && updated.name in old(cm.templates)
    ensures !res.Saved? ==> cm.templates == old(cm.templates) && cm.events == old(cm.events)
    ensures res.Saved? ==> res.template == updated
    ensures res.Saved? ==>
      (cm.templates == (if isDefault then old(cm.templates) else old(cm.templates) - {name})[updated.name := updated])
    ensures res.Saved? ==>
      (cm.events == old(cm.events) + ReplaceEvents(old(cm.templates), name, updated, isDefault, host))
    ensures res.Saved? && name in old(cm.templates) ==> |cm.templates| == |old(cm.templates)|
    ensures cm.multiviews == old(cm.multiviews) && cm.suppressSave == old(cm.suppressSave)
  {
    if updated.name == "" {
      return SaveIgnored;
    }
    if updated.name != name && cm.HasTemplate(updated.name) {
      return SaveRefused;
    }
    ReplaceTemplate(cm, name, updated, isDefault, host);
    res := Saved(updated);
  }

  /** The events of ReplaceTemplate: a save for the removal, when there was one, and a save for the addition. */
  function ReplaceEvents(before: map<string, TemplateConfig>, name: string, updated: TemplateConfig, keep: bool, host: Host): seq<Event> {
    var mid := if keep then before else before - {name};
    (if !keep && name in before then TemplatesSaveOf(mid, host) + [TemplatesChanged] else []) +
    TemplatesSaveOf(mid[updated.name := updated], host) + [TemplatesChanged]
  }

  /**
   * The store step of the edit save: removeTemplate of the old name unless it
   * is kept, then addTemplate of the updated template.
   */
  method ReplaceTemplate(cm: ConfigManager, name: string, updated: TemplateConfig, keep: bool, host: Host)
    requires cm.Valid()
    requires keep ==> updated.name == name
    requires updated.name == name || updated.name !in cm.templates
    modifies cm
    ensures cm.Valid()
    ensures cm.templates == (if keep then old(cm.templates) else old(cm.templates) - {name})[updated.name := updated]
    ensures cm.events == old(cm.events) + ReplaceEvents(old(cm.templates), name, updated, keep, host)
    ensures name in old(cm.templates) ==> |cm.templates| == |old(cm.templates)|
    ensures cm.multiviews == old(cm.multiviews) && cm.suppressSave == old(cm.suppressSave)
  {
    ghost var before := cm.templates;
    RemoveUnlessKept(cm, name, keep, host);
    ghost var mid := cm.templates;
    ghost var removal: seq<Event> := if !keep && name in before then TemplatesSaveOf(mid, host) + [TemplatesChanged] else [];
    ghost var midEvents := cm.events;
    assert midEvents == old(cm.events) + removal;
    cm.AddTemplate(updated, host);
    assert cm.templates == mid[updated.name := updated];
    ghost var addition := TemplatesSaveOf(mid[updated.name := updated], host) + [TemplatesChanged];
    assert cm.events == midEvents + addition;
    assert ReplaceEvents(before, name, updated, keep, host) == removal + addition;
    assert midEvents + addition == old(cm.events) + (removal + addition);
    if name in before {
      SaveKeepsCount(before, mid, name, updated, keep);
    }
  }

  /** removeTemplate of `name` unless it is kept. */
  method RemoveUnlessKept(cm: ConfigManager, name: string, keep: bool, host: Host)
    requires cm.Valid()
    modifies cm
    ensures cm.Valid()
    ensures cm.templates == if keep then old(cm.templates) else old(cm.templates) - {name}
    ensures cm.events == old(cm.events) +
      (if !keep && name in old(cm.templates) then TemplatesSaveOf(cm.templates, host) + [TemplatesChanged] else [])
    ensures cm.multiviews == old(cm.multiviews) && cm.suppressSave == old(cm.suppressSave)
  {
    if !keep {
      cm.RemoveTemplate(name, host);
    }
  }

  /** Replacing one entry, under its own or a free name, keeps the number of templates. */
  lemma SaveKeepsCount(before: map<string, TemplateConfig>, mid: map<string, TemplateConfig>, name: string,
                       updated: TemplateConfig, keep: bool)
    requires name in before
    requires mid == if keep then before else before - {name}
    requires keep ==> updated.name == name
    requires updated.name == name || updated.name !in before
    ensures |mid[updated.name := updated]| == |before|
  {
    var after := mid[updated.name := updated];
    if updated.name == name {
      assert after.Keys == before.Keys;
    } else {
      assert after.Keys == before.Keys - {name} + {updated.name};
    }
  }

  /** The read-only name of the default template survives the trimming on save. */
  lemma DefaultNameTrimmed()
    ensures Trimmed(DefaultTemplateName) == DefaultTemplateName
  {
    assert LeadingSpaces(DefaultTemplateName) == 0;
    assert TrailingSpaces(DefaultTemplateName[0..]) == 0;
    assert DefaultTemplateName[0..] == DefaultTemplateName;
  }
}
