/**
 * Serialisation of the layout data (src/core/multiview-config.cpp): the
 * enum/string conversions and the load-time normalisation of obs_data records.
 *
 * An obs_data object is modelled as a record with one field per key the code
 * reads; a missing string key reads as "", so only the keys whose null result the
 * code tests are `Option`s. Integers read through obs_data_get_int are 64-bit and
 * cast to `int`, which is written out with `ToInt32`. Colour parsing (QColor(str))
 * and naming (QColor::name(HexArgb)) are library internals and are parameters.
 */
module MultiviewSerializer {
  import opened Wrappers
  import opened CppInt
  import opened ConfigTypes

  datatype WidgetData = WidgetData(
    widgetType: Option<string>,
    sceneName: string,
    sourceName: string,
    placeholderPath: string,
    canvasName: string,
    labelVisible: bool,
    labelHAlign: Option<string>,
    labelVAlign: Option<string>,
    labelText: string,
    labelFont: string,
    labelBgColor: string)

  datatype CellData = CellData(
    row: int, col: int, rowSpan: int, colSpan: int,
    widget: Option<WidgetData>)       // None: no "widget" object

  datatype MultiviewData = MultiviewData(
    name: string,
    gridRows: int, gridCols: int, gridBorderWidth: int,
    gridLineColor: string,
    geometryX: int, geometryY: int, geometryW: int, geometryH: int,
    monitorId: int, fullscreen: bool, wasOpen: bool,
    cells: Option<seq<CellData>>)     // None: no "cells" array

  datatype TemplateData = TemplateData(
    name: string,
    gridRows: int, gridCols: int,
    preserveSources: bool,
    cells: Option<seq<CellData>>)

  // ---- enum conversions ----

  function WidgetTypeToString(t: WidgetType): (s: string)
    ensures s != ""
  {
    match t
    case Preview => "preview"
    case Program => "program"
    case Canvas => "canvas"
    case Scene => "scene"
    case Source => "source"
    case Placeholder => "placeholder"
    case None => "none"
  }

  function StringToWidgetType(s: Option<string>): (t: WidgetType)
    ensures s.None? ==> t == WidgetType.None
    ensures s.Some? && s.value !in ["preview", "program", "canvas", "scene", "source", "placeholder"] ==> t == WidgetType.None
  {
    if s.None? then WidgetType.None
    else if s.value == "preview" then Preview
    else if s.value == "program" then Program
    else if s.value == "canvas" then Canvas
    else if s.value == "scene" then Scene
    else if s.value == "source" then Source
    else if s.value == "placeholder" then Placeholder
    else WidgetType.None
  }

  lemma WidgetTypeRoundTrip(t: WidgetType)
    ensures StringToWidgetType(Some(WidgetTypeToString(t))) == t
  {
  }

  /** Distinct types are written as distinct strings. */
  lemma WidgetTypeToStringInjective(t1: WidgetType, t2: WidgetType)
    requires WidgetTypeToString(t1) == WidgetTypeToString(t2)
    ensures t1 == t2
  {
    WidgetTypeRoundTrip(t1);
    WidgetTypeRoundTrip(t2);
  }

  function AlignHToString(a: HAlign): (s: string)
    ensures s in ["left", "center", "right"]
  {
    match a
    case AlignLeft => "left"
    case AlignRight => "right"
    case AlignHCenter => "center"
  }

  function StringToAlignH(s: Option<string>): (a: HAlign)
    ensures (s.None? || s.value !in ["left", "right"]) ==> a == AlignHCenter
  {
    if s.None? then AlignHCenter
    else if s.value == "left" then AlignLeft
    else if s.value == "right" then AlignRight
    else AlignHCenter
  }

  lemma AlignHRoundTrip(a: HAlign)
    ensures StringToAlignH(Some(AlignHToString(a))) == a
  {
  }

  function AlignVToString(a: VAlign): (s: string)
    ensures s in ["top", "middle", "bottom"]
  {
    match a
    case AlignTop => "top"
    case AlignBottom => "bottom"
    case AlignVCenter => "middle"
  }

  /** A missing string decodes to Top, an unrecognised one to VCenter. */
  function StringToAlignV(s: Option<string>): (a: VAlign)
    ensures s.None? ==> a == AlignTop
    ensures s.Some? && s.value !in ["top", "bottom"] ==> a == AlignVCenter
  {
    if s.None? then AlignTop
    else if s.value == "top" then AlignTop
    else if s.value == "bottom" then AlignBottom
    else AlignVCenter
  }

  lemma AlignVRoundTrip(a: VAlign)
    ensures StringToAlignV(Some(AlignVToString(a))) == a
  {
  }

  // ---- records ----

  function WidgetToData(w: WidgetConfig, colorName: Color -> string): (d: WidgetData)
    ensures d.widgetType.Some? && d.labelHAlign.Some? && d.labelVAlign.Some?
    ensures StringToWidgetType(d.widgetType) == w.widgetType
  {
    WidgetTypeRoundTrip(w.widgetType);
    WidgetData(Some(WidgetTypeToString(w.widgetType)), w.sceneName, w.sourceName,
               w.placeholderPath, w.canvasName, w.labelVisible,
               Some(AlignHToString(w.labelHAlign)), Some(AlignVToString(w.labelVAlign)),
               w.labelText, w.labelFont, colorName(w.labelBgColor))
  }

  function WidgetFromData(d: WidgetData, parseColor: string -> Color): (w: WidgetConfig)
    ensures d.labelBgColor == "" ==> w.labelBgColor == Rgba(0, 0, 0, 128)
    ensures d.labelBgColor != "" ==> w.labelBgColor == parseColor(d.labelBgColor)
    ensures w.widgetType == StringToWidgetType(d.widgetType)
    ensures w.labelHAlign == StringToAlignH(d.labelHAlign) && w.labelVAlign == StringToAlignV(d.labelVAlign)
    ensures w.labelVisible == d.labelVisible && w.labelText == d.labelText
  {
    WidgetConfig(
      StringToWidgetType(d.widgetType), d.sceneName, d.sourceName, d.placeholderPath,
      d.canvasName, d.labelVisible, StringToAlignH(d.labelHAlign), StringToAlignV(d.labelVAlign),
      d.labelText, d.labelFont,
      if d.labelBgColor != "" then parseColor(d.labelBgColor) else DefaultLabelBg)
  }

  /** Writing a widget and reading it back gives it back, given a colour round trip. */
  lemma WidgetRoundTrip(w: WidgetConfig, colorName: Color -> string, parseColor: string -> Color)
    requires colorName(w.labelBgColor) != "" && parseColor(colorName(w.labelBgColor)) == w.labelBgColor
    ensures WidgetFromData(WidgetToData(w, colorName), parseColor) == w
  {
    AlignHRoundTrip(w.labelHAlign);
    AlignVRoundTrip(w.labelVAlign);
  }

  function CellToData(c: CellConfig, colorName: Color -> string): (d: CellData)
    ensures d.widget.Some?
    ensures d.row == c.row && d.col == c.col && d.rowSpan == c.rowSpan && d.colSpan == c.colSpan
  {
    CellData(c.row, c.col, c.rowSpan, c.colSpan, Some(WidgetToData(c.widget, colorName)))
  }

  function CellFromData(d: CellData, parseColor: string -> Color): (c: CellConfig)
    ensures c.rowSpan >= 1 && c.colSpan >= 1
    ensures IsInt32(c.row) && IsInt32(c.col) && IsInt32(c.rowSpan) && IsInt32(c.colSpan)
    ensures c.row == ToInt32(d.row) && c.col == ToInt32(d.col)
    ensures ToInt32(d.rowSpan) >= 1 ==> c.rowSpan == ToInt32(d.rowSpan)
    ensures ToInt32(d.colSpan) >= 1 ==> c.colSpan == ToInt32(d.colSpan)
    ensures d.widget.None? ==> c.widget == DefaultWidget
    ensures d.widget.Some? ==> c.widget == WidgetFromData(d.widget.value, parseColor)
  {
    var rs := ToInt32(d.rowSpan);
    var cs := ToInt32(d.colSpan);
    CellConfig(
      ToInt32(d.row), ToInt32(d.col),
      if rs <= 0 then 1 else rs,
      if cs <= 0 then 1 else cs,
      if d.widget.Some? then WidgetFromData(d.widget.value, parseColor) else DefaultWidget)
  }

  /** A cell with positive 32-bit spans survives a write and a read unchanged. */
  lemma CellRoundTrip(c: CellConfig, colorName: Color -> string, parseColor: string -> Color)
    requires IsInt32(c.row) && IsInt32(c.col) && IsInt32(c.rowSpan) && IsInt32(c.colSpan)
    requires c.rowSpan >= 1 && c.colSpan >= 1
    requires colorName(c.widget.labelBgColor) != ""
    requires parseColor(colorName(c.widget.labelBgColor)) == c.widget.labelBgColor
    ensures CellFromData(CellToData(c, colorName), parseColor) == c
  {
    WidgetRoundTrip(c.widget, colorName, parseColor);
  }

  /** A stored integer read as `int`, with a non-positive value replaced by `fallback`. */
  function PositiveOr(raw: int, fallback: int): (n: int)
    ensures ToInt32(raw) > 0 ==> n == ToInt32(raw)
    ensures ToInt32(raw) <= 0 ==> n == fallback
  {
    var v := ToInt32(raw);
    if v <= 0 then fallback else v
  }

  /** A stored grid dimension: non-positive values become 4. */
  function GridDimension(raw: int): (n: int)
    ensures 1 <= n <= INT_MAX
    ensures ToInt32(raw) > 0 ==> n == ToInt32(raw)
    ensures ToInt32(raw) <= 0 ==> n == 4
  {
    PositiveOr(raw, 4)
  }

  /** A stored border width, clamped to [1, 10]. */
  function BorderWidth(raw: int): (n: int)
    ensures 1 <= n <= 10
    ensures 1 <= ToInt32(raw) <= 10 ==> n == ToInt32(raw)
    ensures ToInt32(raw) <= 0 ==> n == 1
    ensures ToInt32(raw) > 10 ==> n == 10
  {
    var w := PositiveOr(raw, 1);
    if w > 10 then 10 else w
  }

  /** The cells of a deserialised record: the array converted element by element, in order. */
  method CellsFromData(arr: Option<seq<CellData>>, parseColor: string -> Color)
    returns (cells: seq<CellConfig>)
    ensures arr.None? ==> cells == []
    ensures arr.Some? ==> |cells| == |arr.value|
    ensures arr.Some? ==> forall i :: 0 <= i < |cells| ==> cells[i] == CellFromData(arr.value[i], parseColor)
  {
    cells := [];
    if arr.Some? {
      var items := arr.value;
      var i := 0;
      while i < |items|
        invariant 0 <= i <= |items|
        invariant |cells| == i
        invariant forall k :: 0 <= k < i ==> cells[k] == CellFromData(items[k], parseColor)
      {
        cells := cells + [CellFromData(items[i], parseColor)];
        i := i + 1;
      }
    }
  }

  /** The cell list a (possibly missing) cells array decodes to. */
  function CellsOf(arr: Option<seq<CellData>>, parseColor: string -> Color): seq<CellConfig> {
    if arr.None? then []
    else seq(|arr.value|, i requires 0 <= i < |arr.value| => CellFromData(arr.value[i], parseColor))
  }

  /** The record MultiviewFromData builds, as one value (used to specify loading). */
  function MultiviewOf(d: MultiviewData, parseColor: string -> Color): MultiviewConfig {
    MultiviewConfig(
      d.name, GridDimension(d.gridRows), GridDimension(d.gridCols), BorderWidth(d.gridBorderWidth),
      if d.gridLineColor != "" then parseColor(d.gridLineColor) else White,
      CellsOf(d.cells, parseColor),
      Rect(ToInt32(d.geometryX), ToInt32(d.geometryY), PositiveOr(d.geometryW, 1280), PositiveOr(d.geometryH, 720)),
      ToInt32(d.monitorId), d.fullscreen, d.wasOpen)
  }

  /** The record TemplateFromData builds, as one value. */
  function TemplateOf(d: TemplateData, parseColor: string -> Color): TemplateConfig {
    TemplateConfig(d.name, GridDimension(d.gridRows), GridDimension(d.gridCols), CellsOf(d.cells, parseColor), d.preserveSources)
  }

  method MultiviewFromData(d: MultiviewData, parseColor: string -> Color) returns (mv: MultiviewConfig)
    ensures mv == MultiviewOf(d, parseColor)
    ensures mv.name == d.name
    ensures mv.gridRows == GridDimension(d.gridRows) && mv.gridCols == GridDimension(d.gridCols)
    ensures mv.gridBorderWidth == BorderWidth(d.gridBorderWidth)
    ensures mv.gridLineColor == (if d.gridLineColor == "" then Rgba(255, 255, 255, 255) else parseColor(d.gridLineColor))
    ensures mv.geometry.x == ToInt32(d.geometryX) && mv.geometry.y == ToInt32(d.geometryY)
    ensures mv.geometry.width == PositiveOr(d.geometryW, 1280)
    ensures mv.geometry.height == PositiveOr(d.geometryH, 720)
    ensures mv.monitorId == ToInt32(d.monitorId)
    ensures mv.fullscreen == d.fullscreen && mv.wasOpen == d.wasOpen
    ensures d.cells.None? ==> mv.cells == []
    ensures d.cells.Some? ==> |mv.cells| == |d.cells.value|
    ensures d.cells.Some? ==> forall i :: 0 <= i < |mv.cells| ==> mv.cells[i] == CellFromData(d.cells.value[i], parseColor)
  {
    var lineColor := if d.gridLineColor != "" then parseColor(d.gridLineColor) else White;
    var cells := CellsFromData(d.cells, parseColor);
    mv := MultiviewConfig(
      d.name, GridDimension(d.gridRows), GridDimension(d.gridCols), BorderWidth(d.gridBorderWidth),
      lineColor, cells,
      Rect(ToInt32(d.geometryX), ToInt32(d.geometryY), PositiveOr(d.geometryW, 1280), PositiveOr(d.geometryH, 720)),
      ToInt32(d.monitorId), d.fullscreen, d.wasOpen);
  }

  method TemplateFromData(d: TemplateData, parseColor: string -> Color) returns (t: TemplateConfig)
    ensures t == TemplateOf(d, parseColor)
    ensures t.name == d.name && t.preserveSources == d.preserveSources
    ensures t.gridRows == GridDimension(d.gridRows) && t.gridCols == GridDimension(d.gridCols)
    ensures d.cells.None? ==> t.cells == []
    ensures d.cells.Some? ==> |t.cells| == |d.cells.value|
    ensures d.cells.Some? ==> forall i :: 0 <= i < |t.cells| ==> t.cells[i] == CellFromData(d.cells.value[i], parseColor)
  {
    var cells := CellsFromData(d.cells, parseColor);
    t := TemplateConfig(d.name, GridDimension(d.gridRows), GridDimension(d.gridCols), cells, d.preserveSources);
  }
}
