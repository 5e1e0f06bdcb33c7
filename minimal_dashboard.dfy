/// src/pages/MinimalDashboard.tsx, the reduced dashboard: no
/// authentication gate and no export section, the same four tabs loaded
/// through LazyComponent, and Developer Controls with checkboxes only.
module MinimalDashboard {
  import opened FeatureFlags
  import opened FlagProvider
  import opened DashboardView
  import Dashboard

  /** MinimalDashboard's render for the flags, NODE_ENV and the two tab states. */
  function MinimalPage(flags: FlagSet, production: bool, tab: Tab, geo: GeoTab): View {
    Page(
      false,
      GuardedSlot(flags, Strict, FilterPanel),
      None,
      tab, geo,
      Panel(flags, Strict, tab, geo),
      if production then None else Some(DevControls(flags, false)))
  }

  /**
   * The page is always shown; the developer panel, with a checkbox per
   * key of the flags and no bulk buttons, is there exactly outside
   * production.
   */
  lemma MinimalChrome(flags: FlagSet, production: bool, tab: Tab, geo: GeoTab)
    ensures var v := MinimalPage(flags, production, tab, geo);
      v.Page? && !v.profileLink && v.exportData.None? && v.tab == tab && v.geo == geo &&
      (v.dev.Some? <==> !production) &&
      (v.dev.Some? ==> v.dev.value == DevControls(flags, false)) &&
      !Offers(v, EnableAllButton) && !Offers(v, DisableAllButton)
  {
  }

  /**
   * LazyComponent mounts a widget exactly when it is on the page and its
   * flag is true; a missing flag shows the placeholder.
   */
  lemma MinimalMounted(flags: FlagSet, production: bool, tab: Tab, geo: GeoTab, w: Widget)
    ensures w in MountedWidgets(MinimalPage(flags, production, tab, geo)) <==>
      (w == FilterPanel || w in TabWidgets(tab, geo)) && IsOn(flags, Name(GateFlag(w)))
  {
    var v := MinimalPage(flags, production, tab, geo);
    MountedWidgetsIs(v, w);
    PanelMounted(flags, Strict, tab, geo, w);
    Dashboard.GuardedMounted(flags, Strict, FilterPanel);
  }

  /**
   * The minimal page mounts what the corrected main page mounts for a
   * signed-in user, less the export: the two pages differ only in the
   * authentication gate and the export section.
   */
  lemma MinimalIsCorrectedMainLessExport(flags: FlagSet, production: bool, tab: Tab, geo: GeoTab)
    ensures MountedWidgets(MinimalPage(flags, production, tab, geo)) ==
      MountedWidgets(Dashboard.MainPage(Strict, flags, true, production, tab, geo)) - {ExportData}
  {
    forall w: Widget
      ensures w in MountedWidgets(MinimalPage(flags, production, tab, geo)) <==>
        w in MountedWidgets(Dashboard.MainPage(Strict, flags, true, production, tab, geo)) - {ExportData}
    {
      MinimalMounted(flags, production, tab, geo, w);
      Dashboard.CorrectedMainMounted(flags, true, production, tab, geo, w);
    }
  }

  /** The mounted MinimalDashboard. */
  class MinimalDashboard {
    var activeTab: Tab
    var geoTab: GeoTab
    const store: FeatureFlagsProvider

    /** `useState('general')` and `useState('judete')`. */
    constructor (store: FeatureFlagsProvider)
      ensures activeTab == General && geoTab == Judete && this.store == store
    {
      activeTab := General;
      geoTab := Judete;
      this.store := store;
    }

    /** What the page renders now. */
    function Render(production: bool): View
      reads this, store
    {
      MinimalPage(store.flags, production, activeTab, geoTab)
    }

    /**
     * A click on a control of the page as written. The tab buttons set
     * their state; a checkbox's change handler calls useFeatureFlags(),
     * which React rejects outside rendering, so the flag keeps its value.
     */
    method Click(c: Control, production: bool) returns (r: Handled)
      requires store.Valid() && Offers(Render(production), c)
      modifies this
      ensures unchanged(store)
      ensures c.TabButton? ==> r == Done && activeTab == c.tab && geoTab == old(geoTab)
      ensures c.GeoButton? ==> r == Done && geoTab == c.geo && activeTab == old(activeTab)
      ensures c.Checkbox? ==> r == HookError && unchanged(this)
    {
      match c
      case TabButton(t) =>
        activeTab := t;
        r := Done;
      case GeoButton(g) =>
        geoTab := g;
        r := Done;
      case Checkbox(_, _) =>
        r := HookError;
    }

    /** The same click with the checkbox using the updateFlag taken from the hook at render. */
    method ClickCorrected(c: Control, production: bool) returns (r: Handled)
      requires store.Valid() && Offers(Render(production), c)
      modifies this, store
      ensures store.Valid() && r == Done
      ensures c.TabButton? ==>
        activeTab == c.tab && geoTab == old(geoTab) && store.flags == old(store.flags)
      ensures c.GeoButton? ==>
        geoTab == c.geo && activeTab == old(activeTab) && store.flags == old(store.flags)
      ensures c.Checkbox? ==>
        activeTab == old(activeTab) && geoTab == old(geoTab) &&
        store.flags == Assign(old(store.flags), c.key, c.checked) &&
        Keys(store.flags) == Keys(old(store.flags)) &&
        (c.key == Name(GateFlag(FilterPanel)) ==>
          (FilterPanel in MountedWidgets(Render(production)) <==> c.checked))
    {
      r := Done;
      match c
      case TabButton(t) =>
        activeTab := t;
      case GeoButton(g) =>
        geoTab := g;
      case Checkbox(key, checked) =>
        Dashboard.KeyPlain(store.flags, key);
        AssignKeys(store.flags, key, checked);
        store.UpdateFlag(key, checked);
        MinimalMounted(store.flags, production, activeTab, geoTab, FilterPanel);
    }
  }
}
