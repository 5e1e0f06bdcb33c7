/// src/pages/Dashboard.tsx, the main dashboard: the authentication gate,
/// the flag-gated filter and export sections, the four tabs whose widgets
/// DynamicComponent loads, and the Developer Controls outside production.
module Dashboard {
  import opened FeatureFlags
  import opened FlagProvider
  import opened DashboardView
  import opened FlagJson

  /** The two sections rendered under `{flags.x && (...)}`. */
  predicate Sectioned(w: Widget) {
    w == FilterPanel || w == ExportData
  }

  /**
   * MainDashboard's render for the flags, whether a user is signed in,
   * whether NODE_ENV is 'production', and the two tab states. `loader`
   * is DefaultEnabled for the page as written and Strict for the
   * corrected DynamicComponent.
   */
  function MainPage(loader: Loader, flags: FlagSet, signedIn: bool, production: bool,
                    tab: Tab, geo: GeoTab): View {
    if IsOn(flags, Name(EnableFirebaseAuth)) && !signedIn then CheckingAuth
    else Page(
      IsOn(flags, Name(EnableFirebaseAuth)) && signedIn,
      GuardedSlot(flags, loader, FilterPanel),
      GuardedSlot(flags, loader, ExportData),
      tab, geo,
      Panel(flags, loader, tab, geo),
      if production then None else Some(DevControls(flags, true)))
  }

  /** The page is shown unless authentication is on and nobody is signed in. */
  predicate Visible(flags: FlagSet, signedIn: bool) {
    !(IsOn(flags, Name(EnableFirebaseAuth)) && !signedIn)
  }

  /**
   * The authentication gate, the profile link and the developer panel:
   * with authentication on and no user only the "checking" placeholder is
   * rendered; the profile link needs both; the developer panel, with a
   * checkbox per key of the flags and the two bulk buttons, is there
   * exactly outside production.
   */
  lemma PageChrome(loader: Loader, flags: FlagSet, signedIn: bool, production: bool, tab: Tab, geo: GeoTab)
    ensures MainPage(loader, flags, signedIn, production, tab, geo).CheckingAuth? <==> !Visible(flags, signedIn)
    ensures var v := MainPage(loader, flags, signedIn, production, tab, geo);
      v.Page? ==>
        v.tab == tab && v.geo == geo &&
        (v.profileLink <==> IsOn(flags, Name(EnableFirebaseAuth)) && signedIn) &&
        (v.dev.Some? <==> !production) &&
        (v.dev.Some? ==> v.dev.value == DevControls(flags, true))
  {
  }

  /** A section's widget is mounted exactly when its flag is on, whatever the loader. */
  lemma GuardedMounted(flags: FlagSet, loader: Loader, w: Widget)
    ensures GuardedSlot(flags, loader, w) == Some(Mounted(w)) <==> IsOn(flags, Name(GateFlag(w)))
  {
  }

  /** Which widgets a shown page mounts, for either loader. */
  lemma PageMounted(loader: Loader, flags: FlagSet, signedIn: bool, production: bool,
                    tab: Tab, geo: GeoTab, w: Widget)
    ensures w in MountedWidgets(MainPage(loader, flags, signedIn, production, tab, geo)) <==>
      Visible(flags, signedIn) &&
      ((Sectioned(w) && IsOn(flags, Name(GateFlag(w)))) ||
       (w in TabWidgets(tab, geo) && SlotFor(flags, loader, w).Mounted?))
  {
    var v := MainPage(loader, flags, signedIn, production, tab, geo);
    if v.Page? {
      MountedWidgetsIs(v, w);
      PanelMounted(flags, loader, tab, geo, w);
      GuardedMounted(flags, loader, FilterPanel);
      GuardedMounted(flags, loader, ExportData);
    }
  }

  /**
   * The page as written: a section's widget is mounted when its flag is
   * on, but a tab's widget is mounted unless its flag is false, so a flag
   * missing from the object mounts it.
   */
  lemma MainMounted(flags: FlagSet, signedIn: bool, production: bool, tab: Tab, geo: GeoTab, w: Widget)
    ensures w in MountedWidgets(MainPage(DefaultEnabled, flags, signedIn, production, tab, geo)) <==>
      Visible(flags, signedIn) &&
      ((Sectioned(w) && IsOn(flags, Name(GateFlag(w)))) ||
       (w in TabWidgets(tab, geo) && Lookup(flags, Name(GateFlag(w))) != Some(false)))
  {
    PageMounted(DefaultEnabled, flags, signedIn, production, tab, geo, w);
    SlotMounted(flags, DefaultEnabled, w);
  }

  /**
   * Corrected: with a strict DynamicComponent a widget is mounted exactly
   * when it is on the page and its flag is true.
   */
  lemma CorrectedMainMounted(flags: FlagSet, signedIn: bool, production: bool, tab: Tab, geo: GeoTab, w: Widget)
    ensures w in MountedWidgets(MainPage(Strict, flags, signedIn, production, tab, geo)) <==>
      Visible(flags, signedIn) && (Sectioned(w) || w in TabWidgets(tab, geo)) &&
      IsOn(flags, Name(GateFlag(w)))
  {
    PageMounted(Strict, flags, signedIn, production, tab, geo, w);
    SlotMounted(flags, Strict, w);
  }

  /**
   * The discrepancy: a stored `{}` record resolves to an object without
   * any flag, and the page as written then mounts the status chart of
   * the general tab although enableStatusChart is not on; the corrected
   * page shows its placeholder.
   */
  lemma MissingFlagMountsWidget(production: bool, acceptsJson: string -> bool)
    ensures GetInitialFlags(true, production, Some("{}"), acceptsJson) == Flags([])
    ensures !IsOn([], Name(EnableStatusChart))
    ensures StatusChart in MountedWidgets(MainPage(DefaultEnabled, [], true, production, General, Judete))
    ensures StatusChart !in MountedWidgets(MainPage(Strict, [], true, production, General, Judete))
  {
    StoredRecordNotMerged(production, acceptsJson);
    MainMounted([], true, production, General, Judete, StatusChart);
    CorrectedMainMounted([], true, production, General, Judete, StatusChart);
  }

  /** The two loaders give the same slot whenever the widget's flag is present. */
  lemma SlotsAgree(flags: FlagSet, w: Widget)
    requires Lookup(flags, Name(GateFlag(w))).Some?
    ensures SlotFor(flags, DefaultEnabled, w) == SlotFor(flags, Strict, w)
  {
  }

  /**
   * On an object that holds every flag, as every table does, the page as
   * written and the corrected page render the same.
   */
  lemma CompleteFlagsRenderAlike(flags: FlagSet, signedIn: bool, production: bool, tab: Tab, geo: GeoTab)
    requires HasAllFlags(flags)
    ensures MainPage(DefaultEnabled, flags, signedIn, production, tab, geo) ==
            MainPage(Strict, flags, signedIn, production, tab, geo)
  {
    var a := Panel(flags, DefaultEnabled, tab, geo);
    var b := Panel(flags, Strict, tab, geo);
    forall j | 0 <= j < |a| ensures a[j] == b[j] {
      SlotsAgree(flags, TabWidgets(tab, geo)[j]);
    }
    assert a == b;
    SlotsAgree(flags, FilterPanel);
    SlotsAgree(flags, ExportData);
  }

  /**
   * After "Dezactivează Tot" on an object holding every flag nothing is
   * mounted: every widget shows its placeholder or is absent.
   */
  lemma DisabledMountsNothing(loader: Loader, flags: FlagSet, signedIn: bool, production: bool, tab: Tab, geo: GeoTab)
    requires HasAllFlags(flags)
    ensures Visible(SetAll(flags, false), signedIn)
    ensures MountedWidgets(MainPage(loader, SetAll(flags, false), signedIn, production, tab, geo)) == {}
  {
    var off := SetAll(flags, false);
    SetAllLookup(flags, false, Name(EnableFirebaseAuth));
    forall w: Widget ensures w !in MountedWidgets(MainPage(loader, off, signedIn, production, tab, geo)) {
      SetAllLookup(flags, false, Name(GateFlag(w)));
      PageMounted(loader, off, signedIn, production, tab, geo, w);
    }
  }

  /**
   * After "Activează Tot" on an object holding every flag, a signed-in
   * user sees the filters, the export and every widget of the active tab,
   * and nothing else.
   */
  lemma EnabledMountsTab(loader: Loader, flags: FlagSet, production: bool, tab: Tab, geo: GeoTab, w: Widget)
    requires HasAllFlags(flags)
    ensures w in MountedWidgets(MainPage(loader, SetAll(flags, true), true, production, tab, geo)) <==>
      Sectioned(w) || w in TabWidgets(tab, geo)
  {
    var on := SetAll(flags, true);
    SetAllLookup(flags, true, Name(EnableFirebaseAuth));
    SetAllLookup(flags, true, Name(GateFlag(w)));
    PageMounted(loader, on, true, production, tab, geo, w);
  }

  /** A key of the object is a plain key when the object's keys are. */
  lemma KeyPlain(fs: FlagSet, key: string)
    requires PlainKeys(fs) && key in Keys(fs)
    ensures PlainKey(key)
  {
    var i :| 0 <= i < |Keys(fs)| && Keys(fs)[i] == key;
    assert fs[i].key == key;
  }

  /**
   * The mounted MainDashboard: its two pieces of state and the provider
   * whose flags it reads.
   */
  class MainDashboard {
    var activeTab: Tab
    var geoTab: GeoTab
    const store: FeatureFlagsProvider

    /** `useState('general')` and `useState('judete')`. */
    constructor (store: FeatureFlagsProvider)
      ensures activeTab == General && geoTab == Judete && this.store == store
    {
      activeTab := General;
      geoTab := Judete;
      this.store := store;
    }

    /** What the page renders now, with the corrected DynamicComponent. */
    function Render(signedIn: bool, production: bool): View
      reads this, store
    {
      MainPage(Strict, store.flags, signedIn, production, activeTab, geoTab)
    }

    /**
     * A click on a control of the page as written. The tab buttons set
     * their state; a checkbox calls the updateFlag taken from the hook at
     * render; the two bulk buttons call useFeatureFlags() inside their
     * click handler, which React rejects, so they change nothing.
     */
    method Click(c: Control, signedIn: bool, production: bool) returns (r: Handled)
      requires store.Valid() && Offers(Render(signedIn, production), c)
      modifies this, store
      ensures store.Valid()
      ensures c.TabButton? ==>
        r == Done && activeTab == c.tab && geoTab == old(geoTab) && store.flags == old(store.flags)
      ensures c.GeoButton? ==>
        r == Done && geoTab == c.geo && activeTab == old(activeTab) && store.flags == old(store.flags)
      ensures c.Checkbox? ==>
        r == Done && activeTab == old(activeTab) && geoTab == old(geoTab) &&
        store.flags == Assign(old(store.flags), c.key, c.checked) &&
        Keys(store.flags) == Keys(old(store.flags))
      ensures c.EnableAllButton? || c.DisableAllButton? ==>
        r == HookError && unchanged(this) && unchanged(store)
    {
      match c
      case TabButton(t) =>
        activeTab := t;
        r := Done;
      case GeoButton(g) =>
        geoTab := g;
        r := Done;
      case Checkbox(key, checked) =>
        KeyPlain(store.flags, key);
        AssignKeys(store.flags, key, checked);
        store.UpdateFlag(key, checked);
        r := Done;
      case EnableAllButton =>
        r := HookError;
      case DisableAllButton =>
        r := HookError;
    }

    /**
     * The same click with the bulk handlers using the enableAllFlags and
     * disableAllFlags taken from the hook at render, as the checkboxes do.
     */
    method ClickCorrected(c: Control, signedIn: bool, production: bool) returns (r: Handled)
      requires store.Valid() && Offers(Render(signedIn, production), c)
      modifies this, store
      ensures store.Valid() && r == Done
      ensures c.TabButton? ==>
        activeTab == c.tab && geoTab == old(geoTab) && store.flags == old(store.flags)
      ensures c.GeoButton? ==>
        geoTab == c.geo && activeTab == old(activeTab) && store.flags == old(store.flags)
      ensures c.Checkbox? ==>
        activeTab == old(activeTab) && geoTab == old(geoTab) &&
        store.flags == Assign(old(store.flags), c.key, c.checked) &&
        Keys(store.flags) == Keys(old(store.flags))
      ensures c.EnableAllButton? ==>
        activeTab == old(activeTab) && geoTab == old(geoTab) &&
        store.flags == SetAll(old(store.flags), true)
      ensures c.DisableAllButton? ==>
        activeTab == old(activeTab) && geoTab == old(geoTab) &&
        store.flags == SetAll(old(store.flags), false)
      ensures c.DisableAllButton? && HasAllFlags(old(store.flags)) ==>
        MountedWidgets(Render(signedIn, production)) == {}
      ensures c.EnableAllButton? && HasAllFlags(old(store.flags)) && signedIn ==>
        forall w :: w in MountedWidgets(Render(signedIn, production)) <==>
          Sectioned(w) || w in TabWidgets(activeTab, geoTab)
    {
      r := Done;
      match c
      case TabButton(t) =>
        activeTab := t;
      case GeoButton(g) =>
        geoTab := g;
      case Checkbox(key, checked) =>
        KeyPlain(store.flags, key);
        AssignKeys(store.flags, key, checked);
        store.UpdateFlag(key, checked);
      case EnableAllButton =>
        var before := store.flags;
        store.EnableAllFlags();
        if HasAllFlags(before) && signedIn {
          forall w ensures w in MountedWidgets(Render(signedIn, production)) <==>
            Sectioned(w) || w in TabWidgets(activeTab, geoTab)
          {
            EnabledMountsTab(Strict, before, production, activeTab, geoTab, w);
          }
        }
      case DisableAllButton =>
        var before := store.flags;
        store.DisableAllFlags();
        if HasAllFlags(before) {
          DisabledMountsNothing(Strict, before, signedIn, production, activeTab, geoTab);
        }
    }
  }
}
