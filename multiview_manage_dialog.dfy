/**
 * The "Manage Multiviews" dialog (src/ui/multiview-manage-dialog.cpp): the name
 * checks of rename and duplicate, delete, and turning a multiview into a
 * template. What the user types or picks in the input dialogs is a parameter:
 * the selected list entry, the text entered and whether the dialog was accepted.
 */
module ManageDialog {
  import opened Wrappers
  import opened QtString
  import opened ConfigTypes
  import opened GridModel
  import opened ConfigManagement
  import CellRendering

  /** What a name prompt amounts to: nothing, a refusal (the name is taken), or a name to use. */
  datatype Verdict = Ignore | Refuse | Accept(name: string)

  /**
   * The rename check of onRename: cancelled, empty after trimming or unchanged
   * is ignored; a taken name is refused; otherwise the trimmed name is used.
   */
  function RenameVerdict(oldName: string, input: string, ok: bool, taken: set<string>): (v: Verdict)
    ensures v.Accept? <==> ok && Trimmed(input) != "" && Trimmed(input) != oldName && Trimmed(input) !in taken
    ensures v == Refuse <==> ok && Trimmed(input) != "" && Trimmed(input) != oldName && Trimmed(input) in taken
    ensures v.Accept? ==> v.name == Trimmed(input)
  {
    var name := Trimmed(input);
    if !ok || name == "" || name == oldName then Ignore
    else if name in taken then Refuse
    else Accept(name)
  }

  /**
   * The duplicate check of onDuplicate: as for rename, except that keeping the
   * source's own name is not ignored but refused, since that name is taken.
   */
  function DuplicateVerdict(input: string, ok: bool, taken: set<string>): (v: Verdict)
    ensures v.Accept? <==> ok && Trimmed(input) != "" && Trimmed(input) !in taken
    ensures v == Refuse <==> ok && Trimmed(input) != "" && Trimmed(input) in taken
    ensures v.Accept? ==> v.name == Trimmed(input)
  {
    var name := Trimmed(input);
    if !ok || name == "" then Ignore
    else if name in taken then Refuse
    else Accept(name)
  }

  /** An accepted name is already trimmed, non-empty and free. */
  lemma AcceptedNameIsClean(oldName: string, input: string, ok: bool, taken: set<string>)
    ensures var v := RenameVerdict(oldName, input, ok, taken);
      v.Accept? ==> v.name != "" && Trimmed(v.name) == v.name && v.name !in taken && v.name != oldName
    ensures var v := DuplicateVerdict(input, ok, taken);
      v.Accept? ==> v.name != "" && Trimmed(v.name) == v.name && v.name !in taken
  {
    TrimmedIdempotent(input);
  }

  /** Renaming to the old name with only surrounding whitespace added is ignored, not refused. */
  lemma RenameToSelfIgnored(oldName: string, taken: set<string>)
    requires oldName in taken && Trimmed(oldName) == oldName && oldName != ""
    ensures RenameVerdict(oldName, " " + oldName + " ", true, taken) == Ignore
    ensures DuplicateVerdict(" " + oldName + " ", true, taken) == Refuse
  {
    TrimmedPadded(oldName);
  }

  /** onRename: selection, verdict, then the rename in the config manager. */
  method OnRename(cm: ConfigManager, selected: Option<string>, input: string, ok: bool, host: Host) returns (v: Verdict)
    requires cm.Valid()
    modifies cm
    ensures cm.Valid()
    ensures selected.None? ==> v == Ignore
    ensures selected.Some? ==> v == RenameVerdict(selected.value, input, ok, old(cm.multiviews).Keys)
    ensures !v.Accept? ==> cm.multiviews == old(cm.multiviews) && cm.events == old(cm.events)
    ensures v.Accept? && selected.value in old(cm.multiviews) ==>
      cm.multiviews == (old(cm.multiviews) - {selected.value})[v.name := old(cm.multiviews)[selected.value].(name := v.name)] &&
      cm.events == old(cm.events) + cm.CollectionSave(host) + [MultiviewRenamed(selected.value, v.name)]
    ensures v.Accept? && selected.value !in old(cm.multiviews) ==>
      cm.multiviews == old(cm.multiviews) && cm.events == old(cm.events)
    ensures cm.templates == old(cm.templates) && cm.suppressSave == old(cm.suppressSave)
  {
    if selected.None? {
      return Ignore;
    }
    v := RenameVerdict(selected.value, input, ok, cm.multiviews.Keys);
    if v.Accept? {
      cm.RenameMultiview(selected.value, v.name, host);
    }
  }

  /** onDuplicate: selection, verdict, then the copy in the config manager. */
  method OnDuplicate(cm: ConfigManager, selected: Option<string>, input: string, ok: bool, host: Host) returns (v: Verdict)
    requires cm.Valid()
    modifies cm
    ensures cm.Valid()
    ensures selected.None? ==> v == Ignore
    ensures selected.Some? ==> v == DuplicateVerdict(input, ok, old(cm.multiviews).Keys)
    ensures !v.Accept? ==> cm.multiviews == old(cm.multiviews) && cm.events == old(cm.events)
    ensures v.Accept? && selected.value in old(cm.multiviews) ==>
      cm.multiviews == old(cm.multiviews)[v.name := old(cm.multiviews)[selected.value].(name := v.name, wasOpen := false)] &&
      cm.events == old(cm.events) + cm.CollectionSave(host) + [MultiviewAdded(v.name)]
    ensures v.Accept? && selected.value !in old(cm.multiviews) ==>
      cm.multiviews == old(cm.multiviews) && cm.events == old(cm.events)
    ensures cm.templates == old(cm.templates) && cm.suppressSave == old(cm.suppressSave)
  {
    if selected.None? {
      return Ignore;
    }
    v := DuplicateVerdict(input, ok, cm.multiviews.Keys);
    if v.Accept? {
      cm.DuplicateMultiview(selected.value, v.name, host);
    }
  }

  /** onDelete: the selected multiview is removed once the user confirms. */
  method OnDelete(cm: ConfigManager, selected: Option<string>, confirmed: bool, host: Host)
    requires cm.Valid()
    modifies cm
    ensures cm.Valid()
    ensures selected.None? || !confirmed ==> cm.multiviews == old(cm.multiviews) && cm.events == old(cm.events)
    ensures selected.Some? && confirmed ==> cm.multiviews == old(cm.multiviews) - {selected.value}
    ensures selected.Some? && confirmed && selected.value in old(cm.multiviews) ==>
      cm.events == old(cm.events) + cm.CollectionSave(host) + [MultiviewRemoved(selected.value)]
    ensures selected.Some? && confirmed && selected.value !in old(cm.multiviews) ==> cm.events == old(cm.events)
    ensures cm.templates == old(cm.templates) && cm.suppressSave == old(cm.suppressSave)
  {
    if selected.None? || !confirmed {
      return;
    }
    cm.RemoveMultiview(selected.value, host);
  }

  // ---------------------------------------------------------------------------
  // onCreateTemplate
  // ---------------------------------------------------------------------------

  /** The label a converted cell inherits: the widget's own name, or nothing for a placeholder. */
  function OriginalLabel(w: WidgetConfig): string {
    match w.widgetType
      case Preview => "Preview"
      case Program => "Program"
      case Canvas => "Canvas"
      case Scene => w.sceneName
      case Source => w.sourceName
      case Placeholder => ""
      case None => ""
  }

  /**
   * One cell of a new template. Kept as it is when sources are preserved or the
   * cell is empty; otherwise it becomes a placeholder with no scene or source,
   * whose label text, when empty, becomes the original label.
   */
  function TemplateCell(c: CellConfig, preserve: bool): (t: CellConfig)
    ensures t.row == c.row && t.col == c.col && t.rowSpan == c.rowSpan && t.colSpan == c.colSpan
    ensures preserve || c.widget.widgetType == WidgetType.None ==> t == c
    ensures !preserve && c.widget.widgetType != WidgetType.None ==>
      var w, u := c.widget, t.widget;
      u.widgetType == Placeholder && u.sceneName == "" && u.sourceName == "" &&
      u.canvasName == w.canvasName && u.placeholderPath == w.placeholderPath &&
      u.labelVisible == w.labelVisible && u.labelHAlign == w.labelHAlign && u.labelVAlign == w.labelVAlign &&
      u.labelFont == w.labelFont && u.labelBgColor == w.labelBgColor &&
      (w.labelText != "" ==> u.labelText == w.labelText) &&
      (w.labelText == "" ==> u.labelText == OriginalLabel(w))
  {
    if preserve || c.widget.widgetType == WidgetType.None then c
    else
      var origLabel := OriginalLabel(c.widget);
      var w := c.widget.(widgetType := Placeholder, sceneName := "", sourceName := "");
      c.(widget := if origLabel != "" && w.labelText == "" then w.(labelText := origLabel) else w)
  }

  /** The template built from `mv` under `name`. */
  function TemplateOf(mv: MultiviewConfig, name: string, preserve: bool): (t: TemplateConfig)
    ensures t.name == name && t.gridRows == mv.gridRows && t.gridCols == mv.gridCols
    ensures t.preserveSources == preserve && |t.cells| == |mv.cells|
    ensures forall i :: 0 <= i < |t.cells| ==> t.cells[i] == TemplateCell(mv.cells[i], preserve)
  {
    TemplateConfig(name, mv.gridRows, mv.gridCols, seq(|mv.cells|, i requires 0 <= i < |mv.cells| => TemplateCell(mv.cells[i], preserve)), preserve)
  }

  /** The conversion loop of onCreateTemplate: one converted copy per cell, in order. */
  method ConvertCells(cells: seq<CellConfig>, preserve: bool) returns (out: seq<CellConfig>)
    ensures |out| == |cells|
    ensures forall i :: 0 <= i < |cells| ==> out[i] == TemplateCell(cells[i], preserve)
  {
    out := [];
    for i := 0 to |cells|
      invariant |out| == i
      invariant forall j :: 0 <= j < i ==> out[j] == TemplateCell(cells[j], preserve)
    {
      var tc := cells[i];
      if !preserve && tc.widget.widgetType != WidgetType.None {
        var origLabel := OriginalLabel(tc.widget);
        tc := tc.(widget := tc.widget.(widgetType := Placeholder, sceneName := "", sourceName := ""));
        if origLabel != "" && tc.widget.labelText == "" {
          tc := tc.(widget := tc.widget.(labelText := origLabel));
        }
      }
      out := out + [tc];
    }
  }

  /** A template keeps the layout of its multiview: same spans in the same order, so it tiles as the multiview does. */
  lemma TemplateKeepsLayout(mv: MultiviewConfig, name: string, preserve: bool)
    ensures SameGeometry(mv.cells, TemplateOf(mv, name, preserve).cells)
    ensures var t := TemplateOf(mv, name, preserve);
      Tiled(mv.gridRows, mv.gridCols, mv.cells) ==> Tiled(t.gridRows, t.gridCols, t.cells)
    ensures var t := TemplateOf(mv, name, preserve);
      forall r, k :: Owner(mv.cells, r, k) == Owner(t.cells, r, k)
  {
    var t := TemplateOf(mv, name, preserve);
    if Tiled(mv.gridRows, mv.gridCols, mv.cells) {
      TiledSameGeometry(mv.gridRows, mv.gridCols, mv.cells, t.cells);
    }
    forall r, k
      ensures Owner(mv.cells, r, k) == Owner(t.cells, r, k)
    {
      OwnerSameGeometry(mv.cells, t.cells, r, k);
    }
  }

  /** With preserveSources the template's cells are the multiview's. */
  lemma PreservedTemplateCopies(mv: MultiviewConfig, name: string)
    ensures TemplateOf(mv, name, true).cells == mv.cells
  {
  }

  /** Converting twice changes nothing more: the result holds only placeholders and empty cells. */
  lemma ConversionIdempotent(c: CellConfig, preserve: bool)
    ensures TemplateCell(TemplateCell(c, preserve), preserve) == TemplateCell(c, preserve)
    ensures !preserve ==>
      TemplateCell(c, preserve).widget.widgetType == WidgetType.None ||
      TemplateCell(c, preserve).widget.widgetType == Placeholder
  {
  }

  /**
   * What a converted cell shows as its label, against what the multiview's cell
   * showed: the same text, except that a cell with no label shows the placeholder
   * text and a named canvas without custom text shows the generic canvas text.
   */
  lemma ConversionKeepsLabel(c: CellConfig)
    requires c.widget.widgetType != WidgetType.None
    ensures var before := CellRendering.ResolveLabelText(c.widget);
      var after := CellRendering.ResolveLabelText(TemplateCell(c, false).widget);
      after == (if before == "" && c.widget.labelVisible then CellRendering.PlaceholderText
                else if c.widget.widgetType == Canvas && c.widget.canvasName != "" && c.widget.labelText == ""
                     && c.widget.labelVisible then CellRendering.CanvasText
                else before)
  {
  }

  /** The outcome of onCreateTemplate. */
  datatype CreateResult = CreateIgnored | CreateRefused | Created(template: TemplateConfig)

  /**
   * onCreateTemplate: with a selection and an accepted dialog, a trimmed name
   * that is empty does nothing, one that is taken is refused, and otherwise the
   * template built from the selected multiview is added.
   */
  method OnCreateTemplate(cm: ConfigManager, selected: Option<string>, accepted: bool, input: string,
                          preserve: bool, host: Host) returns (res: CreateResult)
    requires cm.Valid()
    modifies cm
    ensures cm.Valid()
    ensures res.Created? <==> selected.Some? && accepted && Trimmed(input) != "" && Trimmed(input) !in old(cm.templates)
    ensures res == CreateRefused <==> selected.Some? && accepted && Trimmed(input) != "" && Trimmed(input) in old(cm.templates)
    ensures res.Created? ==>
      res.template == TemplateOf(old(cm.GetMultiview(selected.value)), Trimmed(input), preserve) &&
      cm.templates == old(cm.templates)[res.template.name := res.template] &&
      cm.events == old(cm.events) + cm.TemplatesSave(host) + [TemplatesChanged]
    ensures !res.Created? ==> cm.templates == old(cm.templates) && cm.events == old(cm.events)
    ensures cm.multiviews == old(cm.multiviews) && cm.suppressSave == old(cm.suppressSave)
  {
    if selected.None? || !accepted {
      return CreateIgnored;
    }
    var templateName := Trimmed(input);
    if templateName == "" {
      return CreateIgnored;
    }
    if cm.HasTemplate(templateName) {
      return CreateRefused;
    }
    var mv := cm.GetMultiview(selected.value);
    var cells := ConvertCells(mv.cells, preserve);
    var tmpl := TemplateConfig(templateName, mv.gridRows, mv.gridCols, cells, preserve);
    assert tmpl == TemplateOf(mv, templateName, preserve);
    cm.AddTemplate(tmpl, host);
    res := Created(tmpl);
  }
}
