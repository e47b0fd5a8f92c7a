/**
 * The configuration store of src/core/config-manager.cpp: the multiviews of the
 * current scene collection and the global layout templates, each a map keyed by
 * name, the flag that suppresses saving while the scene collection changes, and
 * the built-in default template.
 *
 * Everything the store asks of OBS and of the file system is a `Host` value:
 * obs_module_config_path, the current scene collection, the scene list, the open
 * windows, and the JSON files that can be read (already split into their array
 * items). A save is recorded as an event carrying the path and the entries it
 * writes; signals are recorded as events too.
 */
module ConfigManagement {
  import opened Wrappers
  import opened ConfigTypes
  import opened GridModel
  import opened MultiviewSerializer

  datatype Host = Host(
    configPath: string -> Option<string>,       // obs_module_config_path
    collection: Option<string>,                 // obs_frontend_get_current_scene_collection
    scenes: seq<Option<string>>,                // obs_frontend_get_scenes, one name per scene
    openWindows: set<string>,                   // names MultiviewWindow::findByName finds
    collectionFiles: map<string, seq<MultiviewData>>,  // readable files: their "multiviews" items
    templateFiles: map<string, seq<TemplateData>>,     // readable files: their "templates" items
    parseColor: string -> Color)

  datatype Event =
    | MultiviewAdded(name: string)
    | MultiviewUpdated(name: string)
    | MultiviewRemoved(name: string)
    | MultiviewRenamed(oldName: string, newName: string)
    | MultiviewsReloaded
    | TemplatesChanged
    | CollectionSaved(path: string, multiviews: map<string, MultiviewConfig>)
    | TemplatesSaved(path: string, templates: map<string, TemplateConfig>)

  // Localised strings (LG_TEXT) and the font string of a 20 pt QFont, as fixed values.
  const DefaultTemplateName: string := "Default"
  const PreviewLabel: string := "Preview"
  const ProgramLabel: string := "Program"
  const TitleFont: string := "Sans Serif,20,-1,5,50,0,0,0,0,0"

  // ---- file names ----

  /** The characters the collection file name may keep: [a-zA-Z0-9_- ]. */
  predicate FileNameChar(ch: char) {
    ('a' <= ch <= 'z') || ('A' <= ch <= 'Z') || ('0' <= ch <= '9') || ch == '_' || ch == '-' || ch == ' '
  }

  /** Every other character replaced by '_'. */
  function Sanitize(s: string): (t: string)
    ensures |t| == |s|
    ensures forall i :: 0 <= i < |t| ==> FileNameChar(t[i])
    ensures forall i :: 0 <= i < |s| ==> t[i] == (if FileNameChar(s[i]) then s[i] else '_')
  {
    if s == [] then []
    else (if FileNameChar(s[0]) then [s[0]] else ['_']) + Sanitize(s[1..])
  }

  /** Sanitising twice is sanitising once: a safe name is left alone. */
  lemma SanitizeIdempotent(s: string)
    ensures Sanitize(Sanitize(s)) == Sanitize(s)
  {
    var t := Sanitize(s);
    assert forall i :: 0 <= i < |t| ==> Sanitize(t)[i] == t[i];
  }

  function CollectionName(host: Host): string {
    if host.collection.Some? then host.collection.value else "default"
  }

  /** collectionConfigPath: "" when the module has no config path. */
  function CollectionConfigPath(host: Host): (p: string)
    ensures host.configPath("multiviews").None? <==> p == ""
    ensures host.configPath("multiviews").Some? ==>
      p == host.configPath("multiviews").value + "/" + Sanitize(CollectionName(host)) + ".json"
  {
    match host.configPath("multiviews")
    case None => ""
    case Some(dir) => dir + "/" + Sanitize(CollectionName(host)) + ".json"
  }

  /** The name part of the collection file only holds safe characters, whatever the collection is called. */
  lemma CollectionPathIsSafe(host: Host)
    requires host.configPath("multiviews").Some?
    ensures var dir := host.configPath("multiviews").value;
      exists name :: CollectionConfigPath(host) == dir + "/" + name + ".json" &&
        |name| == |CollectionName(host)| && forall i :: 0 <= i < |name| ==> FileNameChar(name[i])
  {
    var name := Sanitize(CollectionName(host));
    assert CollectionConfigPath(host) == host.configPath("multiviews").value + "/" + name + ".json";
  }

  function TemplatesConfigPath(host: Host): (p: string) {
    match host.configPath("templates.json")
    case None => ""
    case Some(path) => path
  }

  // ---- loading ----

  /**
   * The map a load leaves: starting from m0, every entry of the file in order whose
   * name is not empty is stored under its name (a later duplicate wins).
   */
  function Loaded<D, V>(m0: map<string, V>, items: seq<D>, decode: D -> V, nameOf: V -> string): map<string, V>
  {
    if |items| == 0 then m0
    else
      var prev := Loaded(m0, items[..|items| - 1], decode, nameOf);
      var v := decode(items[|items| - 1]);
      if nameOf(v) == "" then prev else prev[nameOf(v) := v]
  }

  /** The keys after a load: the initial ones and the non-empty names in the file. */
  lemma {:induction false} LoadedKeys<D, V>(m0: map<string, V>, items: seq<D>, decode: D -> V, nameOf: V -> string, k: string)
    ensures k in Loaded(m0, items, decode, nameOf) <==>
      k in m0 || (k != "" && exists i :: 0 <= i < |items| && nameOf(decode(items[i])) == k)
  {
    if |items| > 0 {
      var init := items[..|items| - 1];
      LoadedKeys(m0, init, decode, nameOf, k);
      if exists i :: 0 <= i < |items| && nameOf(decode(items[i])) == k {
        var i :| 0 <= i < |items| && nameOf(decode(items[i])) == k;
        if i < |items| - 1 {
          assert init[i] == items[i];
        }
      }
      if exists i :: 0 <= i < |init| && nameOf(decode(init[i])) == k {
        var i :| 0 <= i < |init| && nameOf(decode(init[i])) == k;
        assert items[i] == init[i];
      }
    }
  }

  /** Every entry of a load is stored under its own name, if the initial ones were. */
  lemma {:induction false} LoadedKeyedByName<D, V>(m0: map<string, V>, items: seq<D>, decode: D -> V, nameOf: V -> string)
    requires forall k :: k in m0 ==> nameOf(m0[k]) == k
    ensures forall k :: k in Loaded(m0, items, decode, nameOf) ==> nameOf(Loaded(m0, items, decode, nameOf)[k]) == k
  {
    if |items| > 0 {
      LoadedKeyedByName(m0, items[..|items| - 1], decode, nameOf);
    }
  }

  function MultiviewName(mv: MultiviewConfig): string { mv.name }
  function TemplateName(t: TemplateConfig): string { t.name }

  // ---- the default template ----

  /** The scene names obs_frontend_get_scenes reports, skipping scenes without a name. */
  function Present(scenes: seq<Option<string>>): (names: seq<string>)
    ensures |names| <= |scenes|
  {
    if |scenes| == 0 then []
    else Present(scenes[..|scenes| - 1]) + (if scenes[|scenes| - 1].Some? then [scenes[|scenes| - 1].value] else [])
  }

  method SceneNames(scenes: seq<Option<string>>) returns (names: seq<string>)
    ensures names == Present(scenes)
  {
    names := [];
    for i := 0 to |scenes|
      invariant names == Present(scenes[..i])
    {
      assert scenes[..i + 1][..i] == scenes[..i];
      if scenes[i].Some? {
        names := names + [scenes[i].value];
      }
    }
    assert scenes[..|scenes|] == scenes;
  }

  /** The 2x2 title cells of the top row. */
  function TitleCell(col: int, t: WidgetType, text: string): CellConfig {
    CellConfig(0, col, 2, 2, DefaultWidget.(widgetType := t, labelText := text, labelVisible := true, labelFont := TitleFont))
  }

  /** Bottom cell m (0..7, row-major in rows 2-3): the m-th scene if there is one, else a placeholder. */
  function BottomCell(m: int, names: seq<string>): CellConfig {
    var w := if 0 <= m < |names| then DefaultWidget.(widgetType := Scene, sceneName := names[m], labelText := names[m], labelVisible := true)
             else DefaultWidget.(widgetType := Placeholder, labelVisible := true);
    CellConfig(2 + m / 4, m % 4, 1, 1, w)
  }

  function DefaultCells(names: seq<string>): seq<CellConfig> {
    [TitleCell(0, Preview, PreviewLabel), TitleCell(2, Program, ProgramLabel)] +
    seq(8, m requires 0 <= m < 8 => BottomCell(m, names))
  }

  function DefaultTemplateOf(scenes: seq<Option<string>>): TemplateConfig {
    TemplateConfig(DefaultTemplateName, 4, 4, DefaultCells(Present(scenes)), false)
  }

  /** defaultTemplate: Preview and Program on top, then up to eight scenes, the rest placeholders. */
  method DefaultTemplate(scenes: seq<Option<string>>) returns (t: TemplateConfig)
    ensures t.name == DefaultTemplateName && t.gridRows == 4 && t.gridCols == 4 && !t.preserveSources
    ensures t.cells == DefaultCells(Present(scenes))
    ensures t == DefaultTemplateOf(scenes)
  {
    var names := SceneNames(scenes);
    t := DefaultTemplateConfig.(name := DefaultTemplateName, gridRows := 4, gridCols := 4);
    t := t.(cells := t.cells + [TitleCell(0, Preview, PreviewLabel)]);
    t := t.(cells := t.cells + [TitleCell(2, Program, ProgramLabel)]);
    var sceneIdx := 0;
    for r := 2 to 4
      invariant t.name == DefaultTemplateName && t.gridRows == 4 && t.gridCols == 4 && !t.preserveSources
      invariant sceneIdx == (if |names| < (r - 2) * 4 then |names| else (r - 2) * 4)
      invariant t.cells == DefaultCells(names)[..2 + (r - 2) * 4]
    {
      for c := 0 to 4
        invariant t.name == DefaultTemplateName && t.gridRows == 4 && t.gridCols == 4 && !t.preserveSources
        invariant sceneIdx == (if |names| < (r - 2) * 4 + c then |names| else (r - 2) * 4 + c)
        invariant t.cells == DefaultCells(names)[..2 + (r - 2) * 4 + c]
      {
        var m := (r - 2) * 4 + c;
        var cell := DefaultCell.(row := r, col := c, widget := DefaultWidget.(labelVisible := true));
        if sceneIdx < |names| {
          cell := cell.(widget := cell.widget.(widgetType := Scene, sceneName := names[sceneIdx], labelText := names[sceneIdx]));
          sceneIdx := sceneIdx + 1;
        } else {
          cell := cell.(widget := cell.widget.(widgetType := Placeholder));
        }
        assert cell == BottomCell(m, names);
        assert DefaultCells(names)[..2 + m + 1] == DefaultCells(names)[..2 + m] + [BottomCell(m, names)];
        t := t.(cells := t.cells + [cell]);
      }
    }
  }

  /** The default layout tiles its 4x4 grid exactly. */
  lemma DefaultTemplateTiles(names: seq<string>)
    ensures Tiled(4, 4, DefaultCells(names))
  {
    var cells := DefaultCells(names);
    assert |cells| == 10;
    forall i | 0 <= i < 10
      ensures InBounds(cells[i], 4, 4)
      ensures i >= 2 ==> cells[i].row == 2 + (i - 2) / 4 && cells[i].col == (i - 2) % 4
      ensures i >= 2 ==> cells[i].rowSpan == 1 && cells[i].colSpan == 1
    {
      if i >= 2 {
        assert cells[i] == BottomCell(i - 2, names);
      }
    }
    forall i, j | 0 <= i < j < 10
      ensures !Overlap(cells[i], cells[j])
    {
    }
    forall r, k | 0 <= r < 4 && 0 <= k < 4
      ensures Owner(cells, r, k) >= 0
    {
      var j := if r < 2 then (if k < 2 then 0 else 1) else 2 + (r - 2) * 4 + k;
      assert Covers(cells[j], r, k);
      CoveredHasOwner(cells, j, r, k);
    }
  }

  /** The first min(8, #scenes) bottom cells show the scenes in order; the others are placeholders. */
  lemma DefaultTemplateScenes(names: seq<string>, m: int)
    requires 0 <= m < 8
    ensures var w := DefaultCells(names)[2 + m].widget;
      (w.widgetType == Scene <==> m < |names|) &&
      (m < |names| ==> w.sceneName == names[m] && w.labelText == names[m]) &&
      (m >= |names| ==> w.widgetType == Placeholder)
  {
    assert DefaultCells(names)[2 + m] == BottomCell(m, names);
  }

  // ---- the store ----

  /** The entries saveTemplates writes: every template but the built-in default. */
  function TemplatesToSave(templates: map<string, TemplateConfig>): (out: map<string, TemplateConfig>)
  {
    map k | k in templates && templates[k].name != DefaultTemplateName :: templates[k]
  }

  /** The map after onSceneCollectionChanging marks the open windows. */
  function MarkOpen(m: map<string, MultiviewConfig>, open: set<string>): map<string, MultiviewConfig>
  {
    map k | k in m :: if m[k].name in open then m[k].(wasOpen := true) else m[k]
  }

  class ConfigManager {
    var multiviews: map<string, MultiviewConfig>
    var templates: map<string, TemplateConfig>
    var suppressSave: bool
    var events: seq<Event>

    /** Every entry is stored under its own name. */
    predicate Valid()
      reads this
    {
      (forall k :: k in multiviews ==> multiviews[k].name == k) &&
      (forall k :: k in templates ==> templates[k].name == k)
    }

    constructor()
      ensures Valid()
      ensures multiviews == map[] && templates == map[] && !suppressSave && events == []
    {
      multiviews := map[];
      templates := map[];
      suppressSave := false;
      events := [];
    }

    predicate HasMultiview(name: string)
      reads this
    {
      name in multiviews
    }

    predicate HasTemplate(name: string)
      reads this
    {
      name in templates
    }

    /** QMap::value: a default-constructed record for an absent name. */
    function GetMultiview(name: string): (mv: MultiviewConfig)
      reads this
      ensures Valid() && name in multiviews ==> mv.name == name
      ensures name !in multiviews ==> mv == DefaultMultiview
    {
      if name in multiviews then multiviews[name] else DefaultMultiview
    }

    function GetTemplate(name: string): (t: TemplateConfig)
      reads this
      ensures Valid() && name in templates ==> t.name == name
      ensures name !in templates ==> t == DefaultTemplateConfig
    {
      if name in templates then templates[name] else DefaultTemplateConfig
    }

    /** The events saveCurrentCollection records in the current state. */
    function CollectionSave(host: Host): seq<Event>
      reads this
    {
      if suppressSave || CollectionConfigPath(host) == "" then []
      else [CollectionSaved(CollectionConfigPath(host), multiviews)]
    }

    /** saveCurrentCollection: nothing while saving is suppressed or there is no path. */
    method SaveCurrentCollection(host: Host)
      modifies this`events
      ensures events == old(events) + CollectionSave(host)
    {
      if suppressSave {
        return;
      }
      var path := CollectionConfigPath(host);
      if path == "" {
        return;
      }
      events := events + [CollectionSaved(path, multiviews)];
    }

    /** The events saveTemplates records in the current state. */
    function TemplatesSave(host: Host): seq<Event>
      reads this
    {
      if TemplatesConfigPath(host) == "" then [] else [TemplatesSaved(TemplatesConfigPath(host), TemplatesToSave(templates))]
    }

    /** saveTemplates: writes every template but the default, when there is a path. */
    method SaveTemplates(host: Host)
      modifies this`events
      ensures events == old(events) + TemplatesSave(host)
    {
      var path := TemplatesConfigPath(host);
      if path == "" {
        return;
      }
      var out := FilterTemplates(templates);
      events := events + [TemplatesSaved(path, out)];
    }

    method AddMultiview(mv: MultiviewConfig, host: Host)
      requires Valid()
      modifies this
      ensures Valid()
      ensures multiviews == old(multiviews)[mv.name := mv]
      ensures templates == old(templates) && suppressSave == old(suppressSave)
      ensures events == old(events) + CollectionSave(host) + [MultiviewAdded(mv.name)]
    {
      multiviews := multiviews[mv.name := mv];
      SaveCurrentCollection(host);
      events := events + [MultiviewAdded(mv.name)];
    }

    method UpdateMultiview(mv: MultiviewConfig, host: Host)
      requires Valid()
      modifies this
      ensures Valid()
      ensures multiviews == old(multiviews)[mv.name := mv]
      ensures templates == old(templates) && suppressSave == old(suppressSave)
      ensures events == old(events) + CollectionSave(host) + [MultiviewUpdated(mv.name)]
    {
      multiviews := multiviews[mv.name := mv];
      SaveCurrentCollection(host);
      events := events + [MultiviewUpdated(mv.name)];
    }

    /** removeMultiview: saves and signals only when the name was present. */
    method RemoveMultiview(name: string, host: Host)
      requires Valid()
      modifies this
      ensures Valid()
      ensures multiviews == old(multiviews) - {name}
      ensures templates == old(templates) && suppressSave == old(suppressSave)
      ensures name !in old(multiviews) ==> events == old(events)
      ensures name in old(multiviews) ==> events == old(events) + CollectionSave(host) + [MultiviewRemoved(name)]
    {
      if name in multiviews {
        multiviews := multiviews - {name};
        SaveCurrentCollection(host);
        events := events + [MultiviewRemoved(name)];
      }
    }

    /** renameMultiview: moves the entry to the new name, unless the old is absent or the new taken. */
    method RenameMultiview(oldName: string, newName: string, host: Host)
      requires Valid()
      modifies this
      ensures Valid()
      ensures templates == old(templates) && suppressSave == old(suppressSave)
      ensures oldName !in old(multiviews) || newName in old(multiviews) ==>
        multiviews == old(multiviews) && events == old(events)
      ensures oldName in old(multiviews) && newName !in old(multiviews) ==>
        multiviews == (old(multiviews) - {oldName})[newName := old(multiviews)[oldName].(name := newName)] &&
        |multiviews| == |old(multiviews)| &&
        events == old(events) + CollectionSave(host) + [MultiviewRenamed(oldName, newName)]
    {
      if oldName !in multiviews || newName in multiviews {
        return;
      }
      var mv := multiviews[oldName];
      multiviews := multiviews - {oldName};
      mv := mv.(name := newName);
      multiviews := multiviews[newName := mv];
      assert multiviews.Keys == old(multiviews).Keys - {oldName} + {newName};
      SaveCurrentCollection(host);
      events := events + [MultiviewRenamed(oldName, newName)];
    }

    /** duplicateMultiview: a copy under the new name that is not marked open; the source is kept. */
    method DuplicateMultiview(srcName: string, newName: string, host: Host)
      requires Valid()
      modifies this
      ensures Valid()
      ensures templates == old(templates) && suppressSave == old(suppressSave)
      ensures srcName !in old(multiviews) || newName in old(multiviews) ==>
        multiviews == old(multiviews) && events == old(events)
      ensures srcName in old(multiviews) && newName !in old(multiviews) ==>
        multiviews == old(multiviews)[newName := old(multiviews)[srcName].(name := newName, wasOpen := false)] &&
        events == old(events) + CollectionSave(host) + [MultiviewAdded(newName)]
    {
      if srcName !in multiviews || newName in multiviews {
        return;
      }
      var mv := multiviews[srcName];
      mv := mv.(name := newName, wasOpen := false);
      multiviews := multiviews[newName := mv];
      SaveCurrentCollection(host);
      events := events + [MultiviewAdded(newName)];
    }

    method AddTemplate(t: TemplateConfig, host: Host)
      requires Valid()
      modifies this
      ensures Valid()
      ensures templates == old(templates)[t.name := t]
      ensures multiviews == old(multiviews) && suppressSave == old(suppressSave)
      ensures events == old(events) + TemplatesSave(host) + [TemplatesChanged]
    {
      templates := templates[t.name := t];
      SaveTemplates(host);
      events := events + [TemplatesChanged];
    }

    method RemoveTemplate(name: string, host: Host)
      requires Valid()
      modifies this
      ensures Valid()
      ensures templates == old(templates) - {name}
      ensures multiviews == old(multiviews) && suppressSave == old(suppressSave)
      ensures name !in old(templates) ==> events == old(events)
      ensures name in old(templates) ==> events == old(events) + TemplatesSave(host) + [TemplatesChanged]
    {
      if name in templates {
        templates := templates - {name};
        SaveTemplates(host);
        events := events + [TemplatesChanged];
      }
    }

    /**
     * loadForCurrentCollection: the map is emptied, then filled from the
     * collection's file when there is a path and the file can be read.
     */
    method LoadForCurrentCollection(host: Host)
      requires Valid()
      modifies this
      ensures Valid()
      ensures templates == old(templates) && suppressSave == old(suppressSave)
      ensures var path := CollectionConfigPath(host);
        if path == "" || path !in host.collectionFiles then
          multiviews == map[] && events == old(events)
        else
          multiviews == Loaded(map[], host.collectionFiles[path], (d: MultiviewData) => MultiviewOf(d, host.parseColor), MultiviewName) &&
          events == old(events) + [MultiviewsReloaded]
    {
      multiviews := map[];
      var path := CollectionConfigPath(host);
      if path == "" || path !in host.collectionFiles {
        return;
      }
      multiviews := LoadMultiviews(map[], host.collectionFiles[path], host.parseColor);
      events := events + [MultiviewsReloaded];
    }

    /**
     * loadTemplates: the map is emptied and the default template put in, then the
     * templates of the file are added when there is a path and the file can be read.
     */
    method LoadTemplates(host: Host)
      requires Valid()
      modifies this
      ensures Valid()
      ensures multiviews == old(multiviews) && suppressSave == old(suppressSave)
      ensures DefaultTemplateName in templates
      ensures var path := TemplatesConfigPath(host);
        var m0 := map[DefaultTemplateName := DefaultTemplateOf(host.scenes)];
        if path == "" || path !in host.templateFiles then
          templates == m0 && events == old(events)
        else
          templates == Loaded(m0, host.templateFiles[path], (d: TemplateData) => TemplateOf(d, host.parseColor), TemplateName) &&
          events == old(events) + [TemplatesChanged]
    {
      templates := map[];
      var def := DefaultTemplate(host.scenes);
      templates := templates[def.name := def];
      var path := TemplatesConfigPath(host);
      if path == "" || path !in host.templateFiles {
        return;
      }
      templates := LoadTemplateEntries(templates, host.templateFiles[path], host.parseColor);
      events := events + [TemplatesChanged];
    }

    /**
     * onSceneCollectionChanging: marks the multiviews whose window is open, saves
     * them while the path still names the old collection, then suppresses saving.
     */
    method OnSceneCollectionChanging(host: Host)
      requires Valid()
      modifies this
      ensures Valid()
      ensures multiviews == MarkOpen(old(multiviews), host.openWindows)
      ensures templates == old(templates) && suppressSave
      ensures events == old(events) +
        (if old(suppressSave) || CollectionConfigPath(host) == "" then []
         else [CollectionSaved(CollectionConfigPath(host), MarkOpen(old(multiviews), host.openWindows))])
    {
      multiviews := MarkOpenWindows(multiviews, host.openWindows);
      SaveCurrentCollection(host);
      suppressSave := true;
    }

    /** onSceneCollectionChanged: saving is allowed again and the new collection is loaded. */
    method OnSceneCollectionChanged(host: Host)
      requires Valid()
      modifies this
      ensures Valid()
      ensures !suppressSave && templates == old(templates)
      ensures var path := CollectionConfigPath(host);
        if path == "" || path !in host.collectionFiles then
          multiviews == map[] && events == old(events)
        else
          multiviews == Loaded(map[], host.collectionFiles[path], (d: MultiviewData) => MultiviewOf(d, host.parseColor), MultiviewName) &&
          events == old(events) + [MultiviewsReloaded]
    {
      suppressSave := false;
      LoadForCurrentCollection(host);
    }
  }

  // ---- the loops of the store, on values ----

  /** The loop of saveTemplates that skips the default. */
  method FilterTemplates(templates: map<string, TemplateConfig>) returns (out: map<string, TemplateConfig>)
    ensures out == TemplatesToSave(templates)
  {
    out := map[];
    var remaining := templates.Keys;
    while remaining != {}
      invariant remaining <= templates.Keys
      invariant out == map k | k in templates && k !in remaining && templates[k].name != DefaultTemplateName :: templates[k]
      decreases |remaining|
    {
      var k :| k in remaining;
      if templates[k].name != DefaultTemplateName {
        out := out[k := templates[k]];
      }
      remaining := remaining - {k};
    }
    assert out == TemplatesToSave(templates);
  }

  /** The loop of onSceneCollectionChanging that marks open windows. */
  method MarkOpenWindows(m: map<string, MultiviewConfig>, open: set<string>) returns (out: map<string, MultiviewConfig>)
    requires forall k :: k in m ==> m[k].name == k
    ensures out == MarkOpen(m, open)
    ensures forall k :: k in out ==> out[k].name == k
  {
    out := m;
    var remaining := m.Keys;
    while remaining != {}
      invariant remaining <= m.Keys && out.Keys == m.Keys
      invariant forall k :: k in out ==> out[k] == if k in remaining then m[k] else MarkOpen(m, open)[k]
      decreases |remaining|
    {
      var k :| k in remaining;
      if out[k].name in open {
        out := out[k := out[k].(wasOpen := true)];
      }
      remaining := remaining - {k};
    }
    assert out == MarkOpen(m, open);
  }

  /** One more item of a load: stored under its name unless that is empty. */
  lemma LoadedStep<D, V>(m0: map<string, V>, items: seq<D>, i: int, decode: D -> V, nameOf: V -> string)
    requires 0 <= i < |items|
    ensures Loaded(m0, items[..i + 1], decode, nameOf) ==
      var v := decode(items[i]);
      if nameOf(v) == "" then Loaded(m0, items[..i], decode, nameOf) else Loaded(m0, items[..i], decode, nameOf)[nameOf(v) := v]
  {
    assert items[..i + 1][..i] == items[..i];
  }

  /** The loop of loadForCurrentCollection over the file's items. */
  method LoadMultiviews(m0: map<string, MultiviewConfig>, items: seq<MultiviewData>, parseColor: string -> Color)
    returns (m: map<string, MultiviewConfig>)
    requires forall k :: k in m0 ==> m0[k].name == k
    ensures m == Loaded(m0, items, (d: MultiviewData) => MultiviewOf(d, parseColor), MultiviewName)
    ensures forall k :: k in m ==> m[k].name == k
  {
    ghost var decode := (d: MultiviewData) => MultiviewOf(d, parseColor);
    m := m0;
    for i := 0 to |items|
      invariant m == Loaded(m0, items[..i], decode, MultiviewName)
    {
      LoadedStep(m0, items, i, decode, MultiviewName);
      var mv := MultiviewFromData(items[i], parseColor);
      if mv.name != "" {
        m := m[mv.name := mv];
      }
    }
    assert items[..|items|] == items;
    LoadedKeyedByName(m0, items, decode, MultiviewName);
  }

  /** The loop of loadTemplates over the file's items. */
  method LoadTemplateEntries(m0: map<string, TemplateConfig>, items: seq<TemplateData>, parseColor: string -> Color)
    returns (m: map<string, TemplateConfig>)
    requires forall k :: k in m0 ==> m0[k].name == k
    ensures m == Loaded(m0, items, (d: TemplateData) => TemplateOf(d, parseColor), TemplateName)
    ensures forall k :: k in m ==> m[k].name == k
    ensures forall k :: k in m0 ==> k in m
  {
    ghost var decode := (d: TemplateData) => TemplateOf(d, parseColor);
    m := m0;
    for i := 0 to |items|
      invariant m == Loaded(m0, items[..i], decode, TemplateName)
    {
      LoadedStep(m0, items, i, decode, TemplateName);
      var t := TemplateFromData(items[i], parseColor);
      if t.name != "" {
        m := m[t.name := t];
      }
    }
    assert items[..|items|] == items;
    LoadedKeyedByName(m0, items, decode, TemplateName);
    forall k | k in m0
      ensures k in m
    {
      LoadedKeys(m0, items, decode, TemplateName, k);
    }
  }

  /** A saved template list never holds the built-in default. */
  lemma SavedTemplatesOmitDefault(templates: map<string, TemplateConfig>)
    ensures forall k :: k in TemplatesToSave(templates) ==> TemplatesToSave(templates)[k].name != DefaultTemplateName
    ensures forall k :: k in templates && templates[k].name != DefaultTemplateName ==>
      k in TemplatesToSave(templates) && TemplatesToSave(templates)[k] == templates[k]
  {
  }

  /** A load never stores an entry under the empty name (for an initially empty map). */
  lemma LoadedSkipsEmptyNames<D, V>(items: seq<D>, decode: D -> V, nameOf: V -> string)
    ensures "" !in Loaded(map[], items, decode, nameOf)
  {
    LoadedKeys(map[], items, decode, nameOf, "");
  }
}
