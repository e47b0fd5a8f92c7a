/**
 * The layout data of the plugin: widget types, per-cell widget settings, cells,
 * multiview and template configurations, with the default member values of
 * src/core/multiview-config.hpp.
 */
module ConfigTypes {

  /** Content shown in a multiview cell. */
  datatype WidgetType = None | Preview | Program | Canvas | Scene | Source | Placeholder

  /** Horizontal label alignment (the Qt::Alignment values the plugin produces). */
  datatype HAlign = AlignLeft | AlignHCenter | AlignRight

  /** Vertical label alignment. */
  datatype VAlign = AlignTop | AlignVCenter | AlignBottom

  /** A QColor, treated as an opaque value with equality; `Invalid` is `QColor()`. */
  datatype Color = Invalid | Rgba(red: int, green: int, blue: int, alpha: int)

  /** QColor::alpha(); an invalid QColor reports full opacity. */
  function Alpha(c: Color): int
  {
    match c
    case Invalid => 255
    case Rgba(_, _, _, a) => a
  }

  /** QRect(x, y, width, height). */
  datatype Rect = Rect(x: int, y: int, width: int, height: int)

  datatype WidgetConfig = WidgetConfig(
    widgetType: WidgetType,
    sceneName: string,
    sourceName: string,
    placeholderPath: string,
    canvasName: string,          // empty means the main canvas
    labelVisible: bool,
    labelHAlign: HAlign,
    labelVAlign: VAlign,
    labelText: string,
    labelFont: string,           // QFont::toString() format, opaque here
    labelBgColor: Color)

  datatype CellConfig = CellConfig(
    row: int,
    col: int,
    rowSpan: int,
    colSpan: int,
    widget: WidgetConfig)

  datatype MultiviewConfig = MultiviewConfig(
    name: string,
    gridRows: int,
    gridCols: int,
    gridBorderWidth: int,
    gridLineColor: Color,
    cells: seq<CellConfig>,
    geometry: Rect,
    monitorId: int,
    fullscreen: bool,
    wasOpen: bool)

  datatype TemplateConfig = TemplateConfig(
    name: string,
    gridRows: int,
    gridCols: int,
    cells: seq<CellConfig>,
    preserveSources: bool)

  const DefaultLabelBg: Color := Rgba(0, 0, 0, 128)
  const White: Color := Rgba(255, 255, 255, 255)

  /** The default-constructed WidgetConfig. */
  const DefaultWidget: WidgetConfig :=
    WidgetConfig(None, "", "", "", "", true, AlignHCenter, AlignBottom, "", "", DefaultLabelBg)

  /** The default-constructed CellConfig. */
  const DefaultCell: CellConfig := CellConfig(0, 0, 1, 1, DefaultWidget)

  /**
   * The default-constructed MultiviewConfig. The header declares no border width
   * or line colour; the model gives them the values deserialisation falls back to.
   */
  const DefaultMultiview: MultiviewConfig :=
    MultiviewConfig("", 4, 4, 1, White, [], Rect(100, 100, 1280, 720), -1, false, false)

  /** The default-constructed TemplateConfig. */
  const DefaultTemplateConfig: TemplateConfig := TemplateConfig("", 4, 4, [], false)

  /** A default 1x1 cell at (row, col), as the editor and the resize append them. */
  function UnitCell(row: int, col: int): (c: CellConfig)
    ensures c.row == row && c.col == col && c.rowSpan == 1 && c.colSpan == 1
    ensures c.widget == DefaultWidget
  {
    DefaultCell.(row := row, col := col)
  }

  lemma DefaultsAsDeclared()
    ensures DefaultWidget.widgetType == None && DefaultWidget.labelVisible
    ensures DefaultWidget.labelHAlign == AlignHCenter && DefaultWidget.labelVAlign == AlignBottom
    ensures DefaultWidget.labelBgColor == Rgba(0, 0, 0, 128)
    ensures DefaultWidget.sceneName == "" && DefaultWidget.sourceName == ""
    ensures DefaultWidget.placeholderPath == "" && DefaultWidget.canvasName == ""
    ensures DefaultWidget.labelText == "" && DefaultWidget.labelFont == ""
    ensures DefaultCell.row == 0 && DefaultCell.col == 0
    ensures DefaultCell.rowSpan == 1 && DefaultCell.colSpan == 1 && DefaultCell.widget == DefaultWidget
    ensures DefaultMultiview.gridRows == 4 && DefaultMultiview.gridCols == 4
    ensures DefaultMultiview.geometry == Rect(100, 100, 1280, 720)
    ensures DefaultMultiview.monitorId == -1 && !DefaultMultiview.fullscreen && !DefaultMultiview.wasOpen
    ensures DefaultTemplateConfig.gridRows == 4 && DefaultTemplateConfig.gridCols == 4
    ensures !DefaultTemplateConfig.preserveSources
  {
  }
}
