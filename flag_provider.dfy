/// The run-time side of src/utils/featureFlags.ts: getInitialFlags (the
/// boot-time choice between the stored record and the environment's
/// table), the FeatureFlagsProvider store with its three mutators and its
/// persistence effect, and the read primitives withFeatureFlag and
/// useFeatureFlag.
module FlagProvider {
  import opened FeatureFlags
  import opened FlagJson

  /** What getInitialFlags returns. */
  datatype Resolved =
    | Flags(flags: FlagSet)
      /** Stored text that JSON.parse accepts but that is not a flat object
          of booleans; the parsed value is returned unvalidated. */
    | OtherJson(text: string)

  /** `process.env.NODE_ENV === 'production' ? PROD_FLAGS : DEV_FLAGS` */
  function EnvironmentDefault(production: bool): FlagSet {
    if production then ProdFlags else DevFlags
  }

  /**
   * getInitialFlags. `browser` is `typeof window !== 'undefined'`, `saved`
   * is `localStorage.getItem('featureFlags')` (None for null), and
   * `acceptsJson` tells which other texts JSON.parse accepts instead of
   * throwing.
   */
  function GetInitialFlags(browser: bool, production: bool, saved: Option<string>,
                           acceptsJson: string -> bool): (r: Resolved)
    ensures r.OtherJson? ==>
      browser && saved == Some(r.text) && Parse(r.text).None? && acceptsJson(r.text)
    ensures browser && saved.Some? && saved.value != "" && Parse(saved.value).Some? ==>
      r == Flags(Parse(saved.value).value)
    ensures !browser || saved.None? || saved.value == "" ||
            (Parse(saved.value).None? && !acceptsJson(saved.value)) ==>
      r == Flags(EnvironmentDefault(production))
    ensures browser && saved.Some? && saved.value != "" && Parse(saved.value).None? &&
            acceptsJson(saved.value) ==>
      r == OtherJson(saved.value)
  {
    if !browser then Flags(EnvironmentDefault(production))
    else if saved.None? || saved.value == "" then Flags(EnvironmentDefault(production))
    else match Parse(saved.value)
      case Some(fs) => Flags(fs)
      case None =>
        if acceptsJson(saved.value) then OtherJson(saved.value)
        else Flags(EnvironmentDefault(production))
  }

  // ---------------------------------------------------------------------
  // Properties of the resolver
  // ---------------------------------------------------------------------

  lemma NamePlain(f: Flag)
    ensures PlainKey(Name(f))
  {
    if Ordinal(f) < 6 { NamePlainLow(f); } else { NamePlainHigh(f); }
  }

  lemma NamePlainLow(f: Flag)
    requires Ordinal(f) < 6
    ensures PlainKey(Name(f))
  {
    match f
    case EnableCountyMap => {}
    case EnableBucharestMap => {}
    case EnableFinancialAnalysis => {}
    case EnableTimelineChart => {}
    case EnableStatusChart => {}
    case EnableTopExchanges => {}
  }

  lemma NamePlainHigh(f: Flag)
    requires Ordinal(f) >= 6
    ensures PlainKey(Name(f))
  {
    match f
    case EnableFirebaseAuth => {}
    case EnableLLMAnalysis => {}
    case EnableGoogleSheets => {}
    case EnableExport => {}
    case EnableFilters => {}
    case EnableRealTimeSync => {}
  }

  lemma DefaultWellFormed()
    ensures UniqueKeys(DefaultFlags) && PlainKeys(DefaultFlags)
  {
    DefaultFlagsShape();
    forall i | 0 <= i < 12 ensures PlainKey(DefaultFlags[i].key) {
      NamePlain(AllFlags[i]);
    }
  }

  /** The three tables are flag objects the store can hold and persist. */
  lemma TablesWellFormed()
    ensures UniqueKeys(DefaultFlags) && PlainKeys(DefaultFlags)
    ensures UniqueKeys(DevFlags) && PlainKeys(DevFlags)
    ensures UniqueKeys(ProdFlags) && PlainKeys(ProdFlags)
  {
    DefaultWellFormed();
    DevTable();
    ProdTable();
    forall i | 0 <= i < 12 ensures PlainKey(DevFlags[i].key) && PlainKey(ProdFlags[i].key) {
      assert DevFlags[i].key == Keys(DevFlags)[i] == Keys(DefaultFlags)[i];
      assert ProdFlags[i].key == Keys(ProdFlags)[i] == Keys(DefaultFlags)[i];
    }
  }

  /**
   * Without a stored record the environment decides: production reads
   * PROD_FLAGS (authentication, status chart and filters on), any other
   * environment reads DEV_FLAGS (everything on).
   */
  lemma EnvironmentDefaultValues(production: bool, f: Flag)
    ensures Lookup(EnvironmentDefault(production), Name(f)) ==
      if production then Some(f == EnableFirebaseAuth || f == EnableStatusChart || f == EnableFilters)
      else Some(true)
  {
    DevTable();
    ProdTable();
  }

  /**
   * Round trip: what the store persists under `featureFlags` is resolved,
   * on the next boot, to exactly the flags it held, in either environment.
   */
  lemma ResolveStored(fs: FlagSet, production: bool, acceptsJson: string -> bool)
    requires UniqueKeys(fs) && PlainKeys(fs)
    ensures GetInitialFlags(true, production, Some(Stringify(fs)), acceptsJson) == Flags(fs)
  {
    ParseStringify(fs);
  }

  /**
   * Corrupt stored text falls back to the environment's table (and is not
   * an error that escapes).
   */
  lemma CorruptStoredFallsBack(production: bool, acceptsJson: string -> bool)
    requires !acceptsJson("{not json")
    ensures GetInitialFlags(true, production, Some("{not json"), acceptsJson) ==
      Flags(EnvironmentDefault(production))
  {
    var t := "{not json";
    assert SkipWs(t) == t;
    assert SkipWs(t[1..]) == "not json";
    assert ParseMember("not json") == None;
  }

  /**
   * No merge with the tables: a stored empty object resolves to an object
   * that lacks every capability, even in production.
   */
  lemma StoredRecordNotMerged(production: bool, acceptsJson: string -> bool)
    ensures GetInitialFlags(true, production, Some("{}"), acceptsJson) == Flags([])
    ensures forall f: Flag :: Lookup([], Name(f)) == None
  {
    var t := "{}";
    assert SkipWs(t) == t;
    assert SkipWs(t[1..]) == "}";
    assert SkipWs("}"[1..]) == [];
  }

  // ---------------------------------------------------------------------
  // The store
  // ---------------------------------------------------------------------

  /** What withFeatureFlag renders. */
  datatype Rendered = Nothing | Component

  /**
   * FeatureFlagsProvider: the `flags` state, the `featureFlags` entry of
   * the browser's storage, and the effect that rewrites that entry after
   * mount and after every change of `flags`.
   */
  class FeatureFlagsProvider {
    var flags: FlagSet
    /** `localStorage['featureFlags']`; None when nothing is stored. */
    var saved: Option<string>
    /** `typeof window !== 'undefined'`; without a window nothing is persisted. */
    const browser: bool

    ghost predicate Valid()
      reads this
    {
      UniqueKeys(flags) && PlainKeys(flags) &&
      (browser ==> saved == Some(Stringify(flags)))
    }

    /**
     * Mount: `useState(initialFlags || DEFAULT_FLAGS)`, then the effect
     * writes the record to storage when there is a window.
     */
    constructor (initialFlags: Option<FlagSet>, browser: bool, saved: Option<string>)
      requires initialFlags.Some? ==> UniqueKeys(initialFlags.value) && PlainKeys(initialFlags.value)
      ensures Valid() && this.browser == browser
      ensures flags == if initialFlags.Some? then initialFlags.value else DefaultFlags
      ensures this.saved == if browser then Some(Stringify(flags)) else saved
    {
      var initial := if initialFlags.Some? then initialFlags.value else DefaultFlags;
      DefaultWellFormed();
      this.browser := browser;
      this.flags := initial;
      this.saved := saved;
      new;
      Persist();
    }

    /** The effect on `[flags]`. */
    method Persist()
      requires UniqueKeys(flags) && PlainKeys(flags)
      modifies this`saved
      ensures Valid()
      ensures saved == if browser then Some(Stringify(flags)) else old(saved)
    {
      if browser {
        saved := Some(Stringify(flags));
      }
    }

    /** useFeatureFlag: `flags[flagName]`, None for `undefined`. */
    function UseFeatureFlag(flagName: Flag): (r: Option<bool>)
      reads this
      ensures r.Some? <==> Name(flagName) in Keys(flags)
      ensures r.Some? ==> exists i :: 0 <= i < |flags| && flags[i] == Field(Name(flagName), r.value)
    {
      var i := Find(flags, Name(flagName));
      assert i < |flags| ==> Keys(flags)[i] == Name(flagName);
      Lookup(flags, Name(flagName))
    }

    /** withFeatureFlag: nothing unless `flags[flagName]` is truthy. */
    function WithFeatureFlag(flagName: Flag): (r: Rendered)
      reads this
      ensures r == Nothing <==> UseFeatureFlag(flagName) != Some(true)
    {
      if IsOn(flags, Name(flagName)) then Component else Nothing
    }

    /**
     * updateFlag: sets `key` to `value` and leaves every other key as it
     * was; the store is persisted again.
     */
    method UpdateFlag(key: string, value: bool)
      requires Valid() && PlainKey(key)
      modifies this
      ensures Valid()
      ensures flags == Assign(old(flags), key, value)
      ensures Lookup(flags, key) == Some(value)
      ensures forall k :: k != key ==> Lookup(flags, k) == Lookup(old(flags), k)
      ensures Lookup(old(flags), key).Some? ==> Keys(flags) == Keys(old(flags))
    {
      var before := flags;
      AssignKeys(before, key, value);
      flags := Assign(flags, key, value);
      forall k ensures Lookup(flags, k) == if k == key then Some(value) else Lookup(before, k) {
        AssignLookup(before, key, value, k);
      }
      forall i | 0 <= i < |flags| ensures PlainKey(flags[i].key) {
        assert flags[i].key == Keys(flags)[i];
        if i < |before| { assert Keys(before)[i] == before[i].key; }
      }
      Persist();
    }

    /**
     * enableAllFlags: every key of the current record becomes true, no key
     * is added or removed; the store is persisted again.
     */
    method EnableAllFlags()
      requires Valid()
      modifies this
      ensures Valid()
      ensures flags == SetAll(old(flags), true)
      ensures Keys(flags) == Keys(old(flags))
      ensures forall f: Flag :: WithFeatureFlag(f) == if old(UseFeatureFlag(f)).Some? then Component else Nothing
    {
      var before := flags;
      flags := KeysTo(flags, true);
      SetAllWellFormed(before, true);
      forall f: Flag ensures Lookup(flags, Name(f)) == if Lookup(before, Name(f)).Some? then Some(true) else None {
        SetAllLookup(before, true, Name(f));
      }
      Persist();
    }

    /**
     * disableAllFlags: every key of the current record becomes false, no
     * key is added or removed; the store is persisted again.
     */
    method DisableAllFlags()
      requires Valid()
      modifies this
      ensures Valid()
      ensures flags == SetAll(old(flags), false)
      ensures Keys(flags) == Keys(old(flags))
      ensures forall f: Flag :: WithFeatureFlag(f) == Nothing
    {
      var before := flags;
      flags := KeysTo(flags, false);
      SetAllWellFormed(before, false);
      forall f: Flag ensures Lookup(flags, Name(f)) != Some(true) {
        SetAllLookup(before, false, Name(f));
      }
      Persist();
    }
  }

  lemma SetAllWellFormed(fs: FlagSet, value: bool)
    requires UniqueKeys(fs) && PlainKeys(fs)
    ensures UniqueKeys(SetAll(fs, value)) && PlainKeys(SetAll(fs, value))
    ensures Keys(SetAll(fs, value)) == Keys(fs)
  {
    SetAllLookup(fs, value, "");
  }

  /**
   * The `Object.keys(flags).reduce((obj, key) => ({...obj, [key]: value}), {})`
   * of enableAllFlags and disableAllFlags.
   */
  method KeysTo(flags: FlagSet, value: bool) returns (obj: FlagSet)
    requires UniqueKeys(flags)
    ensures obj == SetAll(flags, value)
  {
    var keys := Keys(flags);
    obj := [];
    var i := 0;
    while i < |keys|
      invariant 0 <= i <= |keys|
      invariant obj == SetAll(flags[..i], value)
    {
      forall j | 0 <= j < |obj| ensures obj[j].key != keys[i] {
        assert obj[j].key == flags[j].key;
      }
      AssignFresh(obj, keys[i], value);
      assert SetAll(flags[..i + 1], value) == obj + [Field(keys[i], value)];
      obj := Assign(obj, keys[i], value);
      i := i + 1;
    }
    assert flags[..i] == flags;
  }
}
