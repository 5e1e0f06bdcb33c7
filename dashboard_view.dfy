/// What the two dashboard pages, src/pages/Dashboard.tsx and
/// src/pages/MinimalDashboard.tsx, have in common: their tabs, the
/// widgets behind the flags, the two ways a widget is mounted from its
/// `isEnabled` prop, and the rendered page reduced to what the flags
/// decide (which widget is mounted, which shows its placeholder, which
/// controls are on screen).
module DashboardView {
  import opened FeatureFlags

  /** The `activeTab` state: 'general' | 'geo' | 'financiar' | 'analiza-ai'. */
  datatype Tab = General | Geo | Financiar | AnalizaAi

  /** The `geoTab` state: 'judete' | 'bucuresti'. */
  datatype GeoTab = Judete | Bucuresti

  /** The lazily loaded components that a flag gates. */
  datatype Widget =
    | FilterPanel | ExportData
    | StatusChart | TopExchangeHouses | TimelineChart
    | CountyDistributionMap | BucharestSectorsMap
    | FinancialAnalysis | DataAnalysisLLM

  /** The flag passed as each widget's `isEnabled` prop. */
  function GateFlag(w: Widget): Flag {
    match w
    case FilterPanel => EnableFilters
    case ExportData => EnableExport
    case StatusChart => EnableStatusChart
    case TopExchangeHouses => EnableTopExchanges
    case TimelineChart => EnableTimelineChart
    case CountyDistributionMap => EnableCountyMap
    case BucharestSectorsMap => EnableBucharestMap
    case FinancialAnalysis => EnableFinancialAnalysis
    case DataAnalysisLLM => EnableLLMAnalysis
  }

  /** The widgets in the active tab's panel, in render order. */
  function TabWidgets(tab: Tab, geo: GeoTab): seq<Widget> {
    match tab
    case General => [StatusChart, TopExchangeHouses, TimelineChart]
    case Geo => if geo == Judete then [CountyDistributionMap] else [BucharestSectorsMap]
    case Financiar => [FinancialAnalysis]
    case AnalizaAi => [DataAnalysisLLM]
  }

  /** A widget slot on the page: the component itself, or its placeholder. */
  datatype Slot = Mounted(widget: Widget) | Placeholder(widget: Widget)

  /** How a page turns a widget's `isEnabled` prop (None: `undefined`) into a slot. */
  datatype Loader =
    /** Dashboard.tsx's DynamicComponent: `isEnabled = true` is a default,
        so an undefined prop mounts the widget. */
    | DefaultEnabled
    /** MinimalDashboard.tsx's LazyComponent: a required prop, and only a
        true one mounts the widget. */
    | Strict

  function Load(loader: Loader, w: Widget, isEnabled: Option<bool>): Slot {
    var enabled := if loader.DefaultEnabled? && isEnabled.None? then true else isEnabled == Some(true);
    if enabled then Mounted(w) else Placeholder(w)
  }

  /**
   * The two loaders disagree only on an undefined prop: a defined prop
   * mounts the widget exactly when it is true, whichever the loader.
   */
  lemma LoadersAgree(w: Widget, isEnabled: Option<bool>)
    ensures Load(DefaultEnabled, w, isEnabled).widget == w && Load(Strict, w, isEnabled).widget == w
    ensures isEnabled.Some? ==> Load(DefaultEnabled, w, isEnabled) == Load(Strict, w, isEnabled)
    ensures isEnabled.Some? ==> (Load(Strict, w, isEnabled).Mounted? <==> isEnabled.value)
    ensures Load(DefaultEnabled, w, None).Mounted? && Load(Strict, w, None).Placeholder?
  {
  }

  /** The slot of a widget for the current flags. */
  function SlotFor(flags: FlagSet, loader: Loader, w: Widget): Slot {
    Load(loader, w, Lookup(flags, Name(GateFlag(w))))
  }

  /** The widget's slot is mounted when its flag is true, or, for DefaultEnabled, missing. */
  lemma SlotMounted(flags: FlagSet, loader: Loader, w: Widget)
    ensures SlotFor(flags, loader, w).widget == w
    ensures SlotFor(flags, loader, w).Mounted? <==>
      if loader == DefaultEnabled then Lookup(flags, Name(GateFlag(w))) != Some(false)
      else IsOn(flags, Name(GateFlag(w)))
  {
    var e := Lookup(flags, Name(GateFlag(w)));
    LoadersAgree(w, e);
  }

  /** The active tab's panel. */
  function Panel(flags: FlagSet, loader: Loader, tab: Tab, geo: GeoTab): seq<Slot> {
    var ws := TabWidgets(tab, geo);
    seq(|ws|, j requires 0 <= j < |ws| => SlotFor(flags, loader, ws[j]))
  }

  /**
   * A section rendered only under `{flags.x && (...)}` whose widget is
   * then loaded with the same flag: absent unless the flag is true.
   */
  function GuardedSlot(flags: FlagSet, loader: Loader, w: Widget): Option<Slot> {
    if IsOn(flags, Name(GateFlag(w))) then Some(SlotFor(flags, loader, w)) else None
  }

  /** The Developer Controls panel: a checkbox per key of `flags`, and maybe the two bulk buttons. */
  datatype DevControls = DevControls(checkboxes: FlagSet, bulkButtons: bool)

  /** A rendered dashboard. */
  datatype View =
    /** The "Se verifică autentificarea..." placeholder. */
    | CheckingAuth
    | Page(profileLink: bool, filters: Option<Slot>, exportData: Option<Slot>,
           tab: Tab, geo: GeoTab, panel: seq<Slot>, dev: Option<DevControls>)

  /** The widgets whose component is mounted. */
  function MountedWidgets(v: View): set<Widget> {
    if v.CheckingAuth? then {}
    else
      (if v.filters.Some? && v.filters.value.Mounted? then {v.filters.value.widget} else {}) +
      (if v.exportData.Some? && v.exportData.value.Mounted? then {v.exportData.value.widget} else {}) +
      (set j | 0 <= j < |v.panel| && v.panel[j].Mounted? :: v.panel[j].widget)
  }

  /** What the user can click. */
  datatype Control =
    | TabButton(tab: Tab)
    | GeoButton(geo: GeoTab)
      /** A developer checkbox, with the `checked` value its change event carries. */
    | Checkbox(key: string, checked: bool)
    | EnableAllButton
    | DisableAllButton

  /** The control is on screen in the view. */
  predicate Offers(v: View, c: Control) {
    v.Page? &&
    match c
    case TabButton(_) => true
    case GeoButton(_) => v.tab == Geo
    case Checkbox(key, _) => v.dev.Some? && key in Keys(v.dev.value.checkboxes)
    case EnableAllButton => v.dev.Some? && v.dev.value.bulkButtons
    case DisableAllButton => v.dev.Some? && v.dev.value.bulkButtons
  }

  /** What a click handler does when it runs. */
  datatype Handled =
    | Done
      /** The handler calls useFeatureFlags(), a React hook, outside
          rendering; React throws and the handler stops there. */
    | HookError

  // ---------------------------------------------------------------------
  // Properties of the shared parts
  // ---------------------------------------------------------------------

  /**
   * A panel mounts a widget exactly when the widget belongs to the active
   * tab and its loader mounts it for the widget's flag.
   */
  lemma PanelMounted(flags: FlagSet, loader: Loader, tab: Tab, geo: GeoTab, w: Widget)
    ensures (exists j :: 0 <= j < |Panel(flags, loader, tab, geo)| && Panel(flags, loader, tab, geo)[j] == Mounted(w)) <==>
      w in TabWidgets(tab, geo) && SlotFor(flags, loader, w).Mounted?
  {
    var ws := TabWidgets(tab, geo);
    var slots := Panel(flags, loader, tab, geo);
    if w in ws && SlotFor(flags, loader, w).Mounted? {
      var j :| 0 <= j < |ws| && ws[j] == w;
      assert slots[j] == Mounted(w);
    }
    forall j | 0 <= j < |slots| && slots[j] == Mounted(w)
      ensures w in ws && SlotFor(flags, loader, w).Mounted?
    {
      assert slots[j] == Load(loader, ws[j], Lookup(flags, Name(GateFlag(ws[j]))));
    }
  }

  /** The widgets a view mounts, slot by slot. */
  lemma MountedWidgetsIs(v: View, w: Widget)
    requires v.Page?
    ensures w in MountedWidgets(v) <==>
      v.filters == Some(Mounted(w)) || v.exportData == Some(Mounted(w)) ||
      exists j :: 0 <= j < |v.panel| && v.panel[j] == Mounted(w)
  {
    if exists j :: 0 <= j < |v.panel| && v.panel[j] == Mounted(w) {
      var j :| 0 <= j < |v.panel| && v.panel[j] == Mounted(w);
      assert v.panel[j].widget == w;
    }
  }

  /** Each tab's panel holds the widgets of that tab, each gated by its own flag. */
  lemma TabContents()
    ensures TabWidgets(General, Judete) == TabWidgets(General, Bucuresti) == [StatusChart, TopExchangeHouses, TimelineChart]
    ensures forall g :: TabWidgets(Financiar, g) == [FinancialAnalysis] && TabWidgets(AnalizaAi, g) == [DataAnalysisLLM]
    ensures TabWidgets(Geo, Judete) == [CountyDistributionMap] && TabWidgets(Geo, Bucuresti) == [BucharestSectorsMap]
    ensures forall v, w :: GateFlag(v) == GateFlag(w) ==> v == w
  {
  }
}
