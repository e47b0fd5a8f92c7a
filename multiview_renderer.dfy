/**
 * The per-cell compositor (src/render/multiview-renderer.cpp): aspect-fit and
 * centring of content, the dispatch on the widget type, the label text and
 * position, and the two texture caches (label background and placeholder icon).
 *
 * Texture creation, source lookup and the label source's size come from the
 * graphics host and are parameters (`Graphics`); what the renderer draws is
 * recorded as a sequence of viewports (`DrawOp`).
 */
module CellRendering {
  import opened Wrappers
  import opened CppInt
  import opened ConfigTypes

  // ---------------------------------------------------------------------------
  // GetScaleAndCenterPos
  // ---------------------------------------------------------------------------

  /** Where scaled content goes inside a box: its offset and its scaled size. */
  datatype Fit = Fit(x: int, y: int, scaledCX: int, scaledCY: int)

  /** std::round(a / b) for a >= 0 and b > 0 (halves round up). */
  function RoundDiv(a: int, b: int): int
    requires a >= 0 && b > 0
  {
    (2 * a + b) / (2 * b)
  }

  /** windowAspect > baseAspect, decided exactly by cross-multiplication. */
  predicate WindowWider(baseCX: int, baseCY: int, windowCX: int, windowCY: int) {
    windowCX * baseCY > baseCX * windowCY
  }

  /** The free side of the fitted content: num / den rounded, clamped to the box. */
  function FreeSide(num: int, den: int, limit: int): (s: int)
    requires num >= 0 && den >= 1 && limit >= 1
    ensures 0 <= s <= limit
  {
    Min(RoundDiv(num, den), limit)
  }

  lemma MulNonneg(a: int, b: int)
    requires a >= 0 && b >= 0
    ensures a * b >= 0
  {
  }

  /**
   * GetScaleAndCenterPos: fits baseCX x baseCY content into a windowCX x windowCY
   * box keeping its aspect ratio. The box's height binds when the box is wider
   * than the content, its width otherwise; the other side is rounded and clamped
   * to the box, and the content is centred. The unused `scale` result is left out.
   */
  function ScaleAndCenter(baseCX: int, baseCY: int, windowCX: int, windowCY: int): (f: Fit)
    requires baseCX >= 1 && baseCY >= 1 && windowCX >= 1 && windowCY >= 1
    ensures 0 <= f.scaledCX <= windowCX && 0 <= f.scaledCY <= windowCY
    ensures WindowWider(baseCX, baseCY, windowCX, windowCY) ==> f.scaledCY == windowCY
    ensures !WindowWider(baseCX, baseCY, windowCX, windowCY) ==> f.scaledCX == windowCX
    ensures 0 <= f.x && f.x + f.scaledCX <= windowCX && 0 <= windowCX - f.scaledCX - 2 * f.x <= 1
    ensures 0 <= f.y && f.y + f.scaledCY <= windowCY && 0 <= windowCY - f.scaledCY - 2 * f.y <= 1
  {
    MulNonneg(baseCX, windowCY);
    MulNonneg(baseCY, windowCX);
    var sw := if WindowWider(baseCX, baseCY, windowCX, windowCY)
      then FreeSide(baseCX * windowCY, baseCY, windowCX) else windowCX;
    var sh := if WindowWider(baseCX, baseCY, windowCX, windowCY)
      then windowCY else FreeSide(baseCY * windowCX, baseCX, windowCY);
    Fit(TruncDiv(windowCX - sw, 2), TruncDiv(windowCY - sh, 2), sw, sh)
  }

  lemma RoundDivBounds(a: int, b: int)
    requires a >= 0 && b > 0
    ensures 2 * RoundDiv(a, b) * b <= 2 * a + b < 2 * RoundDiv(a, b) * b + 2 * b
  {
    var q := RoundDiv(a, b);
    assert 2 * a + b == q * (2 * b) + (2 * a + b) % (2 * b);
  }

  /**
   * When num / den is at most the box size the clamp does not fire, and the free
   * side is num / den rounded to the nearest whole pixel, halves up.
   */
  lemma FreeSideRounds(num: int, den: int, limit: int)
    requires num >= 0 && den >= 1 && limit >= 1 && num <= limit * den
    ensures FreeSide(num, den, limit) == RoundDiv(num, den)
    ensures 2 * FreeSide(num, den, limit) * den <= 2 * num + den < 2 * FreeSide(num, den, limit) * den + 2 * den
  {
    var q := RoundDiv(num, den);
    RoundDivBounds(num, den);
    if q > limit {
      MulLess(limit, q - 1, den);
      assert false;
    }
  }

  lemma MulLess(a: int, b: int, c: int)
    requires a <= b && c >= 0
    ensures a * c <= b * c
  {
  }

  /**
   * The free side keeps the content's aspect ratio: it is the exact scaled length
   * rounded to the nearest whole pixel, halves up; the clamp to the box never
   * cuts it in exact arithmetic.
   */
  lemma ScaleKeepsAspect(baseCX: int, baseCY: int, windowCX: int, windowCY: int)
    requires baseCX >= 1 && baseCY >= 1 && windowCX >= 1 && windowCY >= 1
    ensures var f := ScaleAndCenter(baseCX, baseCY, windowCX, windowCY);
      WindowWider(baseCX, baseCY, windowCX, windowCY) ==>
        2 * f.scaledCX * baseCY <= 2 * baseCX * windowCY + baseCY < 2 * f.scaledCX * baseCY + 2 * baseCY
    ensures var f := ScaleAndCenter(baseCX, baseCY, windowCX, windowCY);
      !WindowWider(baseCX, baseCY, windowCX, windowCY) ==>
        2 * f.scaledCY * baseCX <= 2 * baseCY * windowCX + baseCX < 2 * f.scaledCY * baseCX + 2 * baseCX
  {
    var f := ScaleAndCenter(baseCX, baseCY, windowCX, windowCY);
    MulNonneg(baseCX, windowCY);
    MulNonneg(baseCY, windowCX);
    if WindowWider(baseCX, baseCY, windowCX, windowCY) {
      WiderFreeSide(baseCX, baseCY, windowCX, windowCY, f.scaledCX);
    } else {
      WiderFreeSide(baseCY, baseCX, windowCY, windowCX, f.scaledCY);
    }
  }

  /** One branch of ScaleKeepsAspect, for the axis whose window length does not bind. */
  lemma WiderFreeSide(lenB: int, lenO: int, winB: int, winO: int, s: int)
    requires lenB >= 1 && lenO >= 1 && winB >= 1 && winO >= 1
    requires lenB * winO <= winB * lenO
    requires s == FreeSide(lenB * winO, lenO, winB)
    ensures 2 * s * lenO <= 2 * lenB * winO + lenO < 2 * s * lenO + 2 * lenO
  {
    FreeSideRounds(lenB * winO, lenO, winB);
  }

  /** A content size of zero draws nothing; otherwise the viewport of the fitted content. */
  function FitView(size: Option<(nat, nat)>, cx: int, cy: int): (v: Option<Rect>)
    requires cx >= 1 && cy >= 1
    ensures v.Some? <==> size.Some? && size.value.0 > 0 && size.value.1 > 0
    ensures v.Some? ==> 0 <= v.value.x && v.value.x + v.value.width <= cx &&
                        0 <= v.value.y && v.value.y + v.value.height <= cy
  {
    if size.None? || size.value.0 == 0 || size.value.1 == 0 then Option.None
    else
      var f := ScaleAndCenter(size.value.0, size.value.1, cx, cy);
      Some(Rect(f.x, f.y, f.scaledCX, f.scaledCY))
  }

  // ---------------------------------------------------------------------------
  // resolveLabelText
  // ---------------------------------------------------------------------------

  /** The en-US texts of the renderer's locale keys. */
  const PreviewText: string := "Preview"
  const ProgramText: string := "Program"
  const CanvasText: string := "Canvas"
  const PlaceholderText: string := "Placeholder"

  /**
   * resolveLabelText: nothing for a hidden label or a None widget; custom text
   * when set; otherwise the widget's own name.
   */
  function ResolveLabelText(w: WidgetConfig): (t: string)
    ensures !w.labelVisible || w.widgetType == WidgetType.None ==> t == ""
    ensures w.labelVisible && w.widgetType != WidgetType.None && w.labelText != "" ==> t == w.labelText
    ensures w.labelVisible && w.labelText == "" ==>
      (w.widgetType == Scene ==> t == w.sceneName) &&
      (w.widgetType == Source ==> t == w.sourceName) &&
      (w.widgetType == Canvas ==> t == (if w.canvasName == "" then CanvasText else w.canvasName)) &&
      (w.widgetType == Preview ==> t == PreviewText) &&
      (w.widgetType == Program ==> t == ProgramText) &&
      (w.widgetType == Placeholder ==> t == PlaceholderText)
  {
    if !w.labelVisible || w.widgetType == WidgetType.None then ""
    else if w.labelText != "" then w.labelText
    else match w.widgetType
      case Preview => PreviewText
      case Program => ProgramText
      case Canvas => if w.canvasName == "" then CanvasText else w.canvasName
      case Scene => w.sceneName
      case Source => w.sourceName
      case Placeholder => PlaceholderText
      case None => ""
  }

  /** A visible label of a widget that is not None is empty only when its name is. */
  lemma LabelTextEmpty(w: WidgetConfig)
    requires w.labelVisible && w.widgetType != WidgetType.None
    ensures ResolveLabelText(w) == "" <==>
      w.labelText == "" &&
      ((w.widgetType == Scene && w.sceneName == "") || (w.widgetType == Source && w.sourceName == ""))
  {
  }

  // ---------------------------------------------------------------------------
  // renderLabel: position and background
  // ---------------------------------------------------------------------------

  const LabelPadding: int := 6
  const BgPadding: int := 4

  /** One axis of the label position: centred, at the far side, or at the near side, with padding 6. */
  function LabelOffset(size: int, len: int, center: bool, far: bool): int {
    if center then TruncDiv(size - len, 2)
    else if far then size - len - LabelPadding
    else LabelPadding
  }

  /** The label's viewport in a cx x cy cell for a label of labelW x labelH. */
  function LabelRect(cx: int, cy: int, labelW: int, labelH: int, h: HAlign, v: VAlign): Rect {
    Rect(LabelOffset(cx, labelW, h == AlignHCenter, h == AlignRight),
         LabelOffset(cy, labelH, v == AlignVCenter, v == AlignBottom), labelW, labelH)
  }

  /** The rounded background behind the label: the label rectangle grown by 4 on each side. */
  function BgRect(lr: Rect): (r: Rect)
    ensures r.x + BgPadding == lr.x && r.y + BgPadding == lr.y
    ensures r.x + r.width == lr.x + lr.width + BgPadding
    ensures r.y + r.height == lr.y + lr.height + BgPadding
  {
    Rect(lr.x - BgPadding, lr.y - BgPadding, lr.width + 2 * BgPadding, lr.height + 2 * BgPadding)
  }

  /**
   * Label placement, stated as margins: a near-aligned label leaves a 6-pixel
   * margin on its side, a far-aligned one 6 pixels on the other side, and a
   * centred one margins that differ by at most one pixel (even when the label is
   * larger than the cell, thanks to truncating division).
   */
  lemma LabelMargins(size: int, len: int, center: bool, far: bool)
    ensures var o := LabelOffset(size, len, center, far);
      var nearMargin := o;
      var farMargin := size - (o + len);
      (center ==> -1 <= farMargin - nearMargin <= 1) &&
      (!center && far ==> farMargin == LabelPadding) &&
      (!center && !far ==> nearMargin == LabelPadding)
  {
  }

  /** The centred offset in C++: for a label wider than the cell by an odd amount it differs from floor division. */
  lemma CentredOffsetTruncates()
    ensures LabelOffset(10, 13, true, false) == -1
    ensures (10 - 13) / 2 == -2
  {
  }

  // ---------------------------------------------------------------------------
  // The two texture caches
  // ---------------------------------------------------------------------------

  /** The label background cache: labelBgTexture_ (present or not) and its key. */
  datatype BgCache = BgCache(texture: bool, w: int, h: int, color: Color)

  /** The placeholder icon cache: placeholderTexture_ (present or not) and placeholderTexSize_. */
  datatype IconCache = IconCache(texture: bool, size: int)

  const EmptyBg: BgCache := BgCache(false, 0, 0, Invalid)
  const EmptyIcon: IconCache := IconCache(false, 0)

  predicate BgStale(c: BgCache, w: int, h: int, color: Color) {
    !c.texture || c.w != w || c.h != h || c.color != color
  }

  /**
   * The cache step of renderLabel for a w x h background in `color`: rebuilt
   * (with the outcome `created` of texture creation) exactly when absent or keyed
   * differently; afterwards the key is the current one.
   */
  function RefreshBg(c: BgCache, w: int, h: int, color: Color, created: bool): (r: BgCache)
    ensures r.w == w && r.h == h && r.color == color
    ensures !BgStale(c, w, h, color) ==> r == c
    ensures BgStale(c, w, h, color) ==> r.texture == created
  {
    if BgStale(c, w, h, color) then BgCache(created, w, h, color) else c
  }

  /** Once built, the background texture is reused for the same key. */
  lemma RefreshBgIdempotent(c: BgCache, w: int, h: int, color: Color, created: bool, again: bool)
    requires created
    ensures RefreshBg(RefreshBg(c, w, h, color, created), w, h, color, again) == RefreshBg(c, w, h, color, created)
  {
  }

  /** The icon size for a w x h area: half the shorter side, at least 16. */
  function IconSize(w: int, h: int): (s: int)
    ensures s >= 16
    ensures s == 16 || s == TruncDiv(Min(w, h), 2)
  {
    var s := TruncDiv(Min(w, h), 2);
    if s < 16 then 16 else s
  }

  /**
   * createPlaceholderTexture with a non-empty SVG path: any old texture is
   * destroyed (size 0), the size is taken from the surface, not from the draw
   * size; an invalid SVG leaves no texture, otherwise the texture is whatever
   * creation gave and the size is recorded either way.
   */
  function CreateIcon(c: IconCache, surfaceW: int, surfaceH: int, svgValid: bool, created: bool): (r: IconCache)
    ensures !svgValid ==> !r.texture && r.size == (if c.texture then 0 else c.size)
    ensures svgValid ==> r == IconCache(created, IconSize(surfaceW, surfaceH))
  {
    var d := if c.texture then IconCache(false, 0) else c;
    if !svgValid then d else IconCache(created, IconSize(surfaceW, surfaceH))
  }

  /** The cache step of renderPlaceholderIcon: recreate only when missing or of another size. */
  function RefreshIcon(c: IconCache, desired: int, surfaceW: int, surfaceH: int, svgValid: bool, created: bool): (r: IconCache)
    ensures c.texture && c.size == desired ==> r == c
    ensures !(c.texture && c.size == desired) ==> r == CreateIcon(c, surfaceW, surfaceH, svgValid, created)
  {
    if !c.texture || c.size != desired then CreateIcon(c, surfaceW, surfaceH, svgValid, created) else c
  }

  /** An icon texture that exists always has a recorded size of at least 16. */
  predicate IconSane(c: IconCache) {
    c.texture ==> c.size >= 16
  }

  lemma RefreshIconSane(c: IconCache, desired: int, surfaceW: int, surfaceH: int, svgValid: bool, created: bool)
    requires IconSane(c)
    ensures IconSane(RefreshIcon(c, desired, surfaceW, surfaceH, svgValid, created))
  {
  }

  /**
   * When the draw size matches the surface, a successfully created icon is
   * reused on the next frame.
   */
  lemma IconCacheHit(c: IconCache, cx: int, cy: int, created: bool, again: bool)
    requires created
    ensures var c1 := RefreshIcon(c, IconSize(cx, cy), cx, cy, true, created);
      c1 == IconCache(true, IconSize(cx, cy)) || (c1 == c && c.texture && c.size == IconSize(cx, cy))
    ensures var c1 := RefreshIcon(c, IconSize(cx, cy), cx, cy, true, created);
      RefreshIcon(c1, IconSize(cx, cy), cx, cy, true, again) == c1
  {
  }

  /**
   * When the surface and the draw size give different icon sizes, the size
   * recorded is the surface's, so the next frame finds the cache stale again.
   */
  lemma IconCacheMissesOnMismatch(c: IconCache, cx: int, cy: int, surfaceW: int, surfaceH: int, created: bool)
    requires IconSize(cx, cy) != IconSize(surfaceW, surfaceH)
    ensures var c1 := RefreshIcon(c, IconSize(cx, cy), surfaceW, surfaceH, true, created);
      (c.texture && c.size == IconSize(cx, cy)) || c1.size == IconSize(surfaceW, surfaceH)
    ensures var c1 := RefreshIcon(c, IconSize(cx, cy), surfaceW, surfaceH, true, created);
      !(c.texture && c.size == IconSize(cx, cy)) ==>
        RefreshIcon(c1, IconSize(cx, cy), surfaceW, surfaceH, true, created) == c1
  {
  }

  /** A failed texture creation leaves no texture but a non-zero recorded size. */
  lemma FailedIconKeepsSize()
    ensures var c := CreateIcon(EmptyIcon, 100, 60, true, false);
      !c.texture && c.size == 30
  {
  }

  // ---------------------------------------------------------------------------
  // The renderer
  // ---------------------------------------------------------------------------

  /** What the host answers while a frame is drawn. */
  datatype Graphics = Graphics(
    videoSize: Option<(nat, nat)>,                      // obs_get_video_info's base size
    findCanvas: string -> Option<Option<(nat, nat)>>,   // a canvas by name ("" = main): missing, or its base size
    findSource: string -> Option<(nat, nat)>,           // obs_get_source_by_name and the source's size
    labelW: nat, labelH: nat,                           // obs_source_get_width/height of the label source
    bgTextureCreated: bool,                             // gs_texture_create of the label background
    svgValid: bool, iconTextureCreated: bool)           // the placeholder SVG and its texture

  /** A viewport the renderer draws into. */
  datatype DrawOp =
    | ContentView(kind: WidgetType, viewport: Rect)     // preview, program or canvas output
    | SourceView(name: string, viewport: Rect)
    | IconView(viewport: Rect)
    | LabelBackground(viewport: Rect)
    | LabelView(viewport: Rect)

  function ViewOps(v: Option<Rect>, op: Rect -> DrawOp): seq<DrawOp> {
    if v.Some? then [op(v.value)] else []
  }

  /**
   * The size of what a Canvas cell shows: the named (or main) canvas's base
   * size, or, when no such canvas exists, the main output's.
   */
  function CanvasSize(g: Graphics, name: string): Option<(nat, nat)> {
    var c := g.findCanvas(name);
    if c.None? then g.videoSize else c.value
  }

  /**
   * What the content step of render draws for every widget type except
   * Placeholder: preview and program show the main output, a canvas its own,
   * a scene or source itself when it has a name that is found.
   */
  function ContentOps(w: WidgetConfig, cx: int, cy: int, g: Graphics): (ops: seq<DrawOp>)
    requires cx >= 1 && cy >= 1
    ensures |ops| <= 1
    ensures w.widgetType == WidgetType.None || w.widgetType == Placeholder ==> ops == []
    ensures w.widgetType == Scene && w.sceneName == "" ==> ops == []
    ensures w.widgetType == Source && w.sourceName == "" ==> ops == []
    ensures w.widgetType == Scene && w.sceneName != "" && g.findSource(w.sceneName).None? ==> ops == []
    ensures w.widgetType == Source && w.sourceName != "" && g.findSource(w.sourceName).None? ==> ops == []
  {
    match w.widgetType
      case Preview => ViewOps(FitView(g.videoSize, cx, cy), r => ContentView(Preview, r))
      case Program => ViewOps(FitView(g.videoSize, cx, cy), r => ContentView(Program, r))
      case Canvas => ViewOps(FitView(CanvasSize(g, w.canvasName), cx, cy), r => ContentView(Canvas, r))
      case Scene =>
        if w.sceneName == "" || g.findSource(w.sceneName).None? then []
        else ViewOps(FitView(g.findSource(w.sceneName), cx, cy), r => SourceView(w.sceneName, r))
      case Source =>
        if w.sourceName == "" || g.findSource(w.sourceName).None? then []
        else ViewOps(FitView(g.findSource(w.sourceName), cx, cy), r => SourceView(w.sourceName, r))
      case Placeholder => []
      case None => []
  }

  /** Everything drawn from a cell stays inside that cell. */
  lemma ContentInsideCell(w: WidgetConfig, cx: int, cy: int, g: Graphics)
    requires cx >= 1 && cy >= 1
    ensures forall op <- ContentOps(w, cx, cy, g) ::
      0 <= op.viewport.x && op.viewport.x + op.viewport.width <= cx &&
      0 <= op.viewport.y && op.viewport.y + op.viewport.height <= cy
  {
  }

  /** The icon drawn for a placeholder: centred at the recorded size, when a texture exists. */
  function IconOps(path: string, c: IconCache, cx: int, cy: int): (ops: seq<DrawOp>)
    ensures ops != [] <==> path != "" && c.texture
    ensures ops != [] ==> ops == [IconView(Rect(TruncDiv(cx - c.size, 2), TruncDiv(cy - c.size, 2), c.size, c.size))]
  {
    if path != "" && c.texture then [IconView(Rect(TruncDiv(cx - c.size, 2), TruncDiv(cy - c.size, 2), c.size, c.size))]
    else []
  }

  /** The icon cache after renderPlaceholderIcon. */
  function IconAfter(path: string, c: IconCache, cx: int, cy: int, surfaceW: int, surfaceH: int, g: Graphics): IconCache {
    if path == "" then c
    else RefreshIcon(c, IconSize(cx, cy), surfaceW, surfaceH, g.svgValid, g.iconTextureCreated)
  }

  /**
   * What renderLabel draws: nothing without a label source or for an empty
   * label; else the background (when it has any opacity and its texture exists
   * after the cache step), then the label.
   */
  function LabelOps(hasLabel: bool, w: WidgetConfig, cx: int, cy: int, g: Graphics, bgAfter: BgCache): seq<DrawOp> {
    if !hasLabel || g.labelW == 0 || g.labelH == 0 then []
    else
      var lr := LabelRect(cx, cy, g.labelW, g.labelH, w.labelHAlign, w.labelVAlign);
      (if Alpha(w.labelBgColor) > 0 && bgAfter.texture then [LabelBackground(BgRect(lr))] else []) + [LabelView(lr)]
  }

  /** The background cache after renderLabel. */
  function BgAfterLabel(hasLabel: bool, w: WidgetConfig, g: Graphics, c: BgCache): BgCache {
    if !hasLabel || g.labelW == 0 || g.labelH == 0 || Alpha(w.labelBgColor) <= 0 then c
    else RefreshBg(c, g.labelW + 2 * BgPadding, g.labelH + 2 * BgPadding, w.labelBgColor, g.bgTextureCreated)
  }

  /**
   * A drawn label is the last thing drawn, behind it at most its background; a
   * transparent background neither draws nor touches the cache.
   */
  lemma LabelDrawnLast(hasLabel: bool, w: WidgetConfig, cx: int, cy: int, g: Graphics, c: BgCache)
    ensures var ops := LabelOps(hasLabel, w, cx, cy, g, BgAfterLabel(hasLabel, w, g, c));
      (ops == [] <==> !hasLabel || g.labelW == 0 || g.labelH == 0) &&
      (ops != [] ==> ops[|ops| - 1] == LabelView(LabelRect(cx, cy, g.labelW, g.labelH, w.labelHAlign, w.labelVAlign)))
    ensures Alpha(w.labelBgColor) <= 0 ==>
      BgAfterLabel(hasLabel, w, g, c) == c && |LabelOps(hasLabel, w, cx, cy, g, BgAfterLabel(hasLabel, w, g, c))| <= 1
  {
  }

  class CellRenderer {
    var cell: CellConfig
    var hasSurface: bool
    var surfaceW: int
    var surfaceH: int
    var placeholderSvgPath: string
    var hasLabel: bool
    var bg: BgCache
    var icon: IconCache
    var drawn: seq<DrawOp>

    ghost predicate Valid()
      reads this
    {
      IconSane(icon)
    }

    /** The surface's size, 0 x 0 without a surface. */
    function SurfaceW(): int
      reads this
    {
      if hasSurface then surfaceW else 0
    }

    function SurfaceH(): int
      reads this
    {
      if hasSurface then surfaceH else 0
    }

    /** A renderer with nothing created yet. */
    constructor ()
      ensures Valid()
      ensures !hasSurface && !hasLabel && bg == EmptyBg && icon == EmptyIcon && drawn == []
      ensures placeholderSvgPath == ""
    {
      cell := DefaultCell;
      hasSurface, surfaceW, surfaceH := false, 0, 0;
      placeholderSvgPath := "";
      hasLabel := false;
      bg := EmptyBg;
      icon := EmptyIcon;
      drawn := [];
    }

    /** setPlaceholderSvgPath: only the path changes; the texture is rebuilt lazily. */
    method SetPlaceholderSvgPath(path: string)
      modifies this
      ensures placeholderSvgPath == path
      ensures cell == old(cell) && hasLabel == old(hasLabel) && bg == old(bg) && icon == old(icon)
      ensures drawn == old(drawn) && hasSurface == old(hasSurface)
      ensures surfaceW == old(surfaceW) && surfaceH == old(surfaceH)
    {
      placeholderSvgPath := path;
    }

    /** destroyLabelBgTexture: the key is reset only when a texture existed. */
    method DestroyLabelBgTexture()
      modifies this
      ensures bg == (if old(bg).texture then EmptyBg else old(bg))
      ensures icon == old(icon) && hasLabel == old(hasLabel) && drawn == old(drawn) && cell == old(cell)
      ensures hasSurface == old(hasSurface) && surfaceW == old(surfaceW) && surfaceH == old(surfaceH)
      ensures placeholderSvgPath == old(placeholderSvgPath)
    {
      if bg.texture {
        bg := EmptyBg;
      }
    }

    /** destroyPlaceholderTexture: the size is reset only when a texture existed. */
    method DestroyPlaceholderTexture()
      modifies this
      ensures icon == (if old(icon).texture then EmptyIcon else old(icon))
      ensures bg == old(bg) && hasLabel == old(hasLabel) && drawn == old(drawn) && cell == old(cell)
      ensures hasSurface == old(hasSurface) && surfaceW == old(surfaceW) && surfaceH == old(surfaceH)
      ensures placeholderSvgPath == old(placeholderSvgPath)
    {
      if icon.texture {
        icon := EmptyIcon;
      }
    }

    /** cleanup: the label source, both textures and the surface are released. */
    method Cleanup()
      requires Valid()
      modifies this
      ensures Valid()
      ensures !hasLabel && !hasSurface
      ensures bg == (if old(bg).texture then EmptyBg else old(bg))
      ensures icon == (if old(icon).texture then EmptyIcon else old(icon))
      ensures cell == old(cell) && drawn == old(drawn) && placeholderSvgPath == old(placeholderSvgPath)
    {
      hasLabel := false;
      DestroyLabelBgTexture();
      DestroyPlaceholderTexture();
      hasSurface := false;
    }

    /**
     * createLabelSource: the old label source is released; a new one exists only
     * for a non-empty label text, and only when the host creates it.
     */
    method CreateLabelSource(created: bool)
      modifies this
      ensures hasLabel == (ResolveLabelText(cell.widget) != "" && created)
      ensures cell == old(cell) && bg == old(bg) && icon == old(icon) && drawn == old(drawn)
      ensures hasSurface == old(hasSurface) && surfaceW == old(surfaceW) && surfaceH == old(surfaceH)
      ensures placeholderSvgPath == old(placeholderSvgPath)
    {
      hasLabel := false;
      var text := ResolveLabelText(cell.widget);
      if text == "" {
        return;
      }
      hasLabel := created;
    }

    /**
     * init: cleanup, then take the surface and the cell; without a surface
     * nothing else is created, otherwise the label source is.
     */
    method Init(surface: Option<(int, int)>, c: CellConfig, labelCreated: bool)
      requires Valid()
      modifies this
      ensures Valid()
      ensures cell == c && hasSurface == surface.Some?
      ensures surface.Some? ==> (surfaceW, surfaceH) == surface.value
      ensures hasLabel == (surface.Some? && ResolveLabelText(c.widget) != "" && labelCreated)
      ensures !bg.texture && !icon.texture
      ensures drawn == old(drawn) && placeholderSvgPath == old(placeholderSvgPath)
    {
      Cleanup();
      cell := c;
      if surface.None? {
        return;
      }
      hasSurface := true;
      surfaceW, surfaceH := surface.value.0, surface.value.1;
      CreateLabelSource(labelCreated);
    }

    /** updateConfig: the new cell, and its label source recreated. */
    method UpdateConfig(c: CellConfig, labelCreated: bool)
      modifies this
      ensures cell == c && hasLabel == (ResolveLabelText(c.widget) != "" && labelCreated)
      ensures bg == old(bg) && icon == old(icon) && drawn == old(drawn)
      ensures hasSurface == old(hasSurface) && surfaceW == old(surfaceW) && surfaceH == old(surfaceH)
      ensures placeholderSvgPath == old(placeholderSvgPath)
    {
      cell := c;
      CreateLabelSource(labelCreated);
    }

    /** renderLabel: the background cache step and the label's draws. */
    method RenderLabel(cx: nat, cy: nat, g: Graphics)
      modifies this
      ensures bg == BgAfterLabel(hasLabel, cell.widget, g, old(bg))
      ensures drawn == old(drawn) + LabelOps(hasLabel, cell.widget, cx, cy, g, bg)
      ensures cell == old(cell) && hasLabel == old(hasLabel) && icon == old(icon)
      ensures hasSurface == old(hasSurface) && surfaceW == old(surfaceW) && surfaceH == old(surfaceH)
      ensures placeholderSvgPath == old(placeholderSvgPath)
    {
      if !hasLabel || g.labelW == 0 || g.labelH == 0 {
        return;
      }
      var w := cell.widget;
      var lr := LabelRect(cx, cy, g.labelW, g.labelH, w.labelHAlign, w.labelVAlign);
      if Alpha(w.labelBgColor) > 0 {
        var bgR := BgRect(lr);
        if !bg.texture || bg.w != bgR.width || bg.h != bgR.height || bg.color != w.labelBgColor {
          bg := BgCache(g.bgTextureCreated, bgR.width, bgR.height, w.labelBgColor);
        }
        if bg.texture {
          drawn := drawn + [LabelBackground(bgR)];
        }
      }
      drawn := drawn + [LabelView(lr)];
    }

    /**
     * createPlaceholderTexture: any old texture is destroyed; with an SVG path
     * a new one is made at the size taken from the surface.
     */
    method CreatePlaceholderTexture(g: Graphics)
      modifies this
      ensures placeholderSvgPath == "" ==> icon == (if old(icon).texture then EmptyIcon else old(icon))
      ensures placeholderSvgPath != "" ==>
        icon == CreateIcon(old(icon), SurfaceW(), SurfaceH(), g.svgValid, g.iconTextureCreated)
      ensures cell == old(cell) && hasLabel == old(hasLabel) && bg == old(bg) && drawn == old(drawn)
      ensures hasSurface == old(hasSurface) && surfaceW == old(surfaceW) && surfaceH == old(surfaceH)
      ensures placeholderSvgPath == old(placeholderSvgPath)
    {
      if icon.texture {
        icon := EmptyIcon;
      }
      if placeholderSvgPath == "" {
        return;
      }
      var w := if hasSurface then surfaceW else 0;
      var h := if hasSurface then surfaceH else 0;
      if !g.svgValid {
        return;
      }
      icon := IconCache(g.iconTextureCreated, IconSize(w, h));
    }

    /**
     * renderPlaceholderIcon: nothing without an SVG path; the cache step for the
     * size wanted at cx x cy; the icon, when a texture exists.
     */
    method RenderPlaceholderIcon(cx: nat, cy: nat, g: Graphics)
      requires Valid()
      modifies this
      ensures Valid()
      ensures icon == IconAfter(placeholderSvgPath, old(icon), cx, cy, SurfaceW(), SurfaceH(), g)
      ensures drawn == old(drawn) + IconOps(placeholderSvgPath, icon, cx, cy)
      ensures cell == old(cell) && hasLabel == old(hasLabel) && bg == old(bg)
      ensures hasSurface == old(hasSurface) && surfaceW == old(surfaceW) && surfaceH == old(surfaceH)
      ensures placeholderSvgPath == old(placeholderSvgPath)
    {
      if placeholderSvgPath == "" {
        return;
      }
      var desired := IconSize(cx, cy);
      if !icon.texture || icon.size != desired {
        CreatePlaceholderTexture(g);
      }
      if !icon.texture {
        return;
      }
      var s := icon.size;
      drawn := drawn + [IconView(Rect(TruncDiv(cx - s, 2), TruncDiv(cy - s, 2), s, s))];
    }

    /**
     * The content step of render for everything but a placeholder: one
     * aspect-fitted viewport, or nothing when the content has no size or a
     * scene or source is missing.
     */
    method RenderContent(cx: nat, cy: nat, g: Graphics)
      requires cx >= 1 && cy >= 1 && cell.widget.widgetType != Placeholder
      modifies this
      ensures drawn == old(drawn) + ContentOps(cell.widget, cx, cy, g)
      ensures cell == old(cell) && hasLabel == old(hasLabel) && bg == old(bg) && icon == old(icon)
      ensures hasSurface == old(hasSurface) && surfaceW == old(surfaceW) && surfaceH == old(surfaceH)
      ensures placeholderSvgPath == old(placeholderSvgPath)
    {
      var w := cell.widget;
      match w.widgetType {
        case Preview =>
          drawn := drawn + ViewOps(FitView(g.videoSize, cx, cy), r => ContentView(Preview, r));
        case Program =>
          drawn := drawn + ViewOps(FitView(g.videoSize, cx, cy), r => ContentView(Program, r));
        case Canvas =>
          drawn := drawn + ViewOps(FitView(CanvasSize(g, w.canvasName), cx, cy), r => ContentView(Canvas, r));
        case Scene =>
          if w.sceneName != "" {
            var found := g.findSource(w.sceneName);
            if found.Some? {
              RenderSource(w.sceneName, found.value, cx, cy);
            }
          }
        case Source =>
          if w.sourceName != "" {
            var found := g.findSource(w.sourceName);
            if found.Some? {
              RenderSource(w.sourceName, found.value, cx, cy);
            }
          }
        case None =>
      }
    }

    /** renderSource: a source of size 0 draws nothing; otherwise it is aspect-fitted into the cell. */
    method RenderSource(name: string, size: (nat, nat), cx: nat, cy: nat)
      requires cx >= 1 && cy >= 1
      modifies this
      ensures drawn == old(drawn) + ViewOps(FitView(Some(size), cx, cy), r => SourceView(name, r))
      ensures cell == old(cell) && hasLabel == old(hasLabel) && bg == old(bg) && icon == old(icon)
      ensures hasSurface == old(hasSurface) && surfaceW == old(surfaceW) && surfaceH == old(surfaceH)
      ensures placeholderSvgPath == old(placeholderSvgPath)
    {
      if size.0 == 0 || size.1 == 0 {
        return;
      }
      var f := ScaleAndCenter(size.0, size.1, cx, cy);
      drawn := drawn + [SourceView(name, Rect(f.x, f.y, f.scaledCX, f.scaledCY))];
    }

    /**
     * render: nothing for an empty area or a None widget; otherwise the
     * widget's content (the placeholder icon for a Placeholder) followed by its
     * label. A Scene or Source that is unnamed or not found draws only the label.
     */
    method Render(cx: nat, cy: nat, g: Graphics)
      requires Valid()
      modifies this
      ensures Valid()
      ensures cx == 0 || cy == 0 || cell.widget.widgetType == WidgetType.None ==>
        drawn == old(drawn) && bg == old(bg) && icon == old(icon)
      ensures cx > 0 && cy > 0 && cell.widget.widgetType != WidgetType.None ==>
        bg == BgAfterLabel(hasLabel, cell.widget, g, old(bg)) &&
        icon == (if cell.widget.widgetType == Placeholder
                 then IconAfter(placeholderSvgPath, old(icon), cx, cy, SurfaceW(), SurfaceH(), g)
                 else old(icon)) &&
        drawn == old(drawn) +
          (if cell.widget.widgetType == Placeholder then IconOps(placeholderSvgPath, icon, cx, cy)
           else ContentOps(cell.widget, cx, cy, g)) +
          LabelOps(hasLabel, cell.widget, cx, cy, g, bg)
      ensures cell == old(cell) && hasLabel == old(hasLabel) && placeholderSvgPath == old(placeholderSvgPath)
      ensures hasSurface == old(hasSurface) && surfaceW == old(surfaceW) && surfaceH == old(surfaceH)
    {
      if cx == 0 || cy == 0 || cell.widget.widgetType == WidgetType.None {
        return;
      }
      if cell.widget.widgetType == Placeholder {
        RenderPlaceholderIcon(cx, cy, g);
      } else {
        RenderContent(cx, cy, g);
      }
      RenderLabel(cx, cy, g);
    }
  }
}
