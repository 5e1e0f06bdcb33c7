/// The flag records of src/utils/featureFlags.ts: the twelve capability
/// names, a flag record as the JavaScript object it is at run time (an
/// ordered list of keys with boolean values), the object operations the
/// module uses (property read, `{...o, [k]: v}`, object literals with a
/// spread) and the three tables DEFAULT_FLAGS, DEV_FLAGS and PROD_FLAGS.
module FeatureFlags {

  datatype Option<T> = None | Some(value: T)

  /** The twelve capabilities of the FeatureFlags interface, in declaration order. */
  datatype Flag =
    | EnableCountyMap | EnableBucharestMap | EnableFinancialAnalysis
    | EnableTimelineChart | EnableStatusChart | EnableTopExchanges
    | EnableFirebaseAuth | EnableLLMAnalysis | EnableGoogleSheets
    | EnableExport | EnableFilters | EnableRealTimeSync

  /** The property name of each capability. */
  function Name(f: Flag): string {
    match f
    case EnableCountyMap => "enableCountyMap"
    case EnableBucharestMap => "enableBucharestMap"
    case EnableFinancialAnalysis => "enableFinancialAnalysis"
    case EnableTimelineChart => "enableTimelineChart"
    case EnableStatusChart => "enableStatusChart"
    case EnableTopExchanges => "enableTopExchanges"
    case EnableFirebaseAuth => "enableFirebaseAuth"
    case EnableLLMAnalysis => "enableLLMAnalysis"
    case EnableGoogleSheets => "enableGoogleSheets"
    case EnableExport => "enableExport"
    case EnableFilters => "enableFilters"
    case EnableRealTimeSync => "enableRealTimeSync"
  }

  /** One own property of a flag object. */
  datatype Field = Field(key: string, on: bool)

  /**
   * A flag object as it exists at run time: its properties in insertion
   * order. Nothing forces the twelve keys to be there (a record read back
   * from storage is not validated), so keys are strings.
   */
  type FlagSet = seq<Field>

  function On(f: Flag): Field { Field(Name(f), true) }
  function Off(f: Flag): Field { Field(Name(f), false) }

  /** `Object.keys(fs)`: the keys in property order. */
  function Keys(fs: FlagSet): seq<string> {
    seq(|fs|, i requires 0 <= i < |fs| => fs[i].key)
  }

  /** An object never holds the same key twice. */
  predicate UniqueKeys(fs: FlagSet) {
    forall i, j :: 0 <= i < j < |fs| ==> fs[i].key != fs[j].key
  }

  /** Where `key` sits in the object, or |fs| when it is not a property. */
  function Find(fs: FlagSet, key: string): (i: nat)
    ensures i <= |fs|
    ensures i < |fs| ==> fs[i].key == key
    ensures forall j :: 0 <= j < i ==> fs[j].key != key
  {
    if fs == [] then 0
    else if fs[0].key == key then 0
    else 1 + Find(fs[1..], key)
  }

  /** The property read `fs[key]`; None stands for `undefined`. */
  function Lookup(fs: FlagSet, key: string): Option<bool> {
    var i := Find(fs, key);
    if i < |fs| then Some(fs[i].on) else None
  }

  /** `fs[key]` is truthy. */
  predicate IsOn(fs: FlagSet, key: string) {
    Lookup(fs, key) == Some(true)
  }

  /** Every one of the twelve capabilities is a property of the object. */
  predicate HasAllFlags(fs: FlagSet) {
    forall f: Flag :: Lookup(fs, Name(f)).Some?
  }

  /**
   * `{...fs, [key]: value}`: an existing key keeps its place and takes
   * the new value, a new key is appended.
   */
  function Assign(fs: FlagSet, key: string, value: bool): FlagSet {
    var i := Find(fs, key);
    if i < |fs| then fs[i := Field(key, value)] else fs + [Field(key, value)]
  }

  /** The object literal `{...base, k1: v1, k2: v2, ...}`. */
  function Override(base: FlagSet, entries: seq<Field>): FlagSet
    decreases |entries|
  {
    if entries == [] then base
    else Override(Assign(base, entries[0].key, entries[0].on), entries[1..])
  }

  /**
   * The object that the `reduce` over `Object.keys(flags)` in
   * enableAllFlags and disableAllFlags builds: every key of `fs`, in
   * order, mapped to `value`.
   */
  function SetAll(fs: FlagSet, value: bool): FlagSet {
    seq(|fs|, i requires 0 <= i < |fs| => Field(fs[i].key, value))
  }

  const AllFlags: seq<Flag> := [
    EnableCountyMap, EnableBucharestMap, EnableFinancialAnalysis,
    EnableTimelineChart, EnableStatusChart, EnableTopExchanges,
    EnableFirebaseAuth, EnableLLMAnalysis, EnableGoogleSheets,
    EnableExport, EnableFilters, EnableRealTimeSync
  ]

  /** The declaration position of each capability. */
  function Ordinal(f: Flag): (i: nat)
    ensures i < |AllFlags| && AllFlags[i] == f
  {
    match f
    case EnableCountyMap => 0
    case EnableBucharestMap => 1
    case EnableFinancialAnalysis => 2
    case EnableTimelineChart => 3
    case EnableStatusChart => 4
    case EnableTopExchanges => 5
    case EnableFirebaseAuth => 6
    case EnableLLMAnalysis => 7
    case EnableGoogleSheets => 8
    case EnableExport => 9
    case EnableFilters => 10
    case EnableRealTimeSync => 11
  }

  /** DEFAULT_FLAGS: every capability off. */
  const DefaultFlags: FlagSet := [
    Off(EnableCountyMap), Off(EnableBucharestMap), Off(EnableFinancialAnalysis),
    Off(EnableTimelineChart), Off(EnableStatusChart), Off(EnableTopExchanges),
    Off(EnableFirebaseAuth), Off(EnableLLMAnalysis), Off(EnableGoogleSheets),
    Off(EnableExport), Off(EnableFilters), Off(EnableRealTimeSync)
  ]

  /** The entries DEV_FLAGS adds to `...DEFAULT_FLAGS`. */
  const DevEntries: seq<Field> := [
    On(EnableCountyMap), On(EnableBucharestMap), On(EnableFinancialAnalysis),
    On(EnableTimelineChart), On(EnableStatusChart), On(EnableTopExchanges),
    On(EnableFirebaseAuth), On(EnableLLMAnalysis), On(EnableGoogleSheets),
    On(EnableExport), On(EnableFilters), On(EnableRealTimeSync)
  ]

  /** DEV_FLAGS: `{...DEFAULT_FLAGS}` with all twelve turned on. */
  const DevFlags: FlagSet := Override(DefaultFlags, DevEntries)

  /** The entries PROD_FLAGS adds to `...DEFAULT_FLAGS`. */
  const ProdEntries: seq<Field> := [On(EnableFirebaseAuth), On(EnableStatusChart), On(EnableFilters)]

  /** PROD_FLAGS: `{...DEFAULT_FLAGS}` with authentication, the status chart and the filters on. */
  const ProdFlags: FlagSet := Override(DefaultFlags, ProdEntries)

  // ---------------------------------------------------------------------
  // Lemmas about the object operations
  // ---------------------------------------------------------------------

  lemma NameInjective(f: Flag, g: Flag)
    ensures Name(f) == Name(g) ==> f == g
  {
  }

  /** Find is determined by its contract. */
  lemma FindIs(fs: FlagSet, key: string, i: nat)
    requires i <= |fs|
    requires i < |fs| ==> fs[i].key == key
    requires forall j :: 0 <= j < i ==> fs[j].key != key
    ensures Find(fs, key) == i
  {
  }

  /** Two objects with the same key list place every key alike. */
  lemma FindSameKeys(a: FlagSet, b: FlagSet, key: string)
    requires Keys(a) == Keys(b)
    ensures Find(a, key) == Find(b, key)
  {
    assert |a| == |Keys(a)| == |Keys(b)| == |b|;
    forall j | 0 <= j < |a| ensures a[j].key == b[j].key {
      assert Keys(a)[j] == Keys(b)[j];
    }
    FindIs(b, key, Find(a, key));
  }

  lemma FindAppend(fs: FlagSet, e: Field, key: string)
    ensures Find(fs + [e], key) ==
      if Find(fs, key) < |fs| then Find(fs, key)
      else if e.key == key then |fs| else |fs| + 1
  {
    var i := Find(fs, key);
    var r := if i < |fs| then i else if e.key == key then |fs| else |fs| + 1;
    FindIs(fs + [e], key, r);
  }

  /** A read after `{...fs, [key]: value}` sees `value` at `key` and the old value elsewhere. */
  lemma {:induction false} AssignLookup(fs: FlagSet, key: string, value: bool, k: string)
    ensures Lookup(Assign(fs, key, value), k) == if k == key then Some(value) else Lookup(fs, k)
  {
    var i := Find(fs, key);
    var a := Assign(fs, key, value);
    if i < |fs| {
      assert Keys(a) == Keys(fs);
      FindSameKeys(a, fs, k);
    } else {
      FindAppend(fs, Field(key, value), k);
    }
  }

  /** Assigning an existing key keeps the key list; a new key is appended to it. */
  lemma AssignKeys(fs: FlagSet, key: string, value: bool)
    ensures Keys(Assign(fs, key, value)) ==
      if Lookup(fs, key).Some? then Keys(fs) else Keys(fs) + [key]
    ensures UniqueKeys(fs) ==> UniqueKeys(Assign(fs, key, value))
  {
    var a := Assign(fs, key, value);
    if Lookup(fs, key).Some? {
      assert Keys(a) == Keys(fs);
    } else {
      assert Keys(a) == Keys(fs) + [key];
    }
  }

  /**
   * updateFlag(k, v) followed by updateFlag(k, old value) gives back the
   * original object, key order included.
   */
  lemma {:induction false} AssignRestores(fs: FlagSet, key: string, value: bool)
    requires Lookup(fs, key).Some?
    ensures Assign(Assign(fs, key, value), key, Lookup(fs, key).value) == fs
  {
    var i := Find(fs, key);
    var a := Assign(fs, key, value);
    assert Keys(a) == Keys(fs);
    FindSameKeys(a, fs, key);
    assert a[i := Field(key, fs[i].on)] == fs;
  }

  /** Assigning a key that is not there to a unique-keyed object is an append. */
  lemma AssignFresh(fs: FlagSet, key: string, value: bool)
    requires forall j :: 0 <= j < |fs| ==> fs[j].key != key
    ensures Assign(fs, key, value) == fs + [Field(key, value)]
  {
    FindIs(fs, key, |fs|);
  }

  /** An object literal whose keys are all distinct lists its entries in order. */
  lemma {:induction false} OverrideFresh(base: FlagSet, entries: seq<Field>)
    requires UniqueKeys(base + entries)
    ensures Override(base, entries) == base + entries
    decreases |entries|
  {
    if entries != [] {
      var b := base + entries;
      forall j | 0 <= j < |base| ensures base[j].key != entries[0].key {
        assert b[j] == base[j] && b[|base|] == entries[0];
      }
      AssignFresh(base, entries[0].key, entries[0].on);
      assert base + [entries[0]] + entries[1..] == b;
      OverrideFresh(base + [entries[0]], entries[1..]);
    }
  }

  /**
   * In `{...base, k1: v1, ...}` with distinct entry keys, a key named by an
   * entry reads as that entry and any other key as in `base`.
   */
  lemma {:induction false} OverrideLookup(base: FlagSet, entries: seq<Field>, k: string)
    requires UniqueKeys(entries)
    ensures Lookup(Override(base, entries), k) ==
      if Lookup(entries, k).Some? then Lookup(entries, k) else Lookup(base, k)
    decreases |entries|
  {
    if entries != [] {
      var e := entries[0];
      var rest := entries[1..];
      assert Find(entries, k) == if e.key == k then 0 else 1 + Find(rest, k);
      OverrideLookup(Assign(base, e.key, e.on), rest, k);
      AssignLookup(base, e.key, e.on, k);
      if e.key == k {
        HeadKeyNotInRest(entries);
      }
    }
  }

  /** With distinct keys, the first entry's key is not a property of the rest. */
  lemma HeadKeyNotInRest(entries: seq<Field>)
    requires UniqueKeys(entries) && entries != []
    ensures Lookup(entries[1..], entries[0].key).None?
  {
    var rest := entries[1..];
    forall j | 0 <= j < |rest| ensures rest[j].key != entries[0].key {
      assert entries[j + 1] == rest[j];
    }
    FindIs(rest, entries[0].key, |rest|);
  }

  /**
   * An object literal that only overrides keys `base` already has keeps
   * the key list of `base`.
   */
  lemma {:induction false} OverrideKeys(base: FlagSet, entries: seq<Field>)
    requires forall j :: 0 <= j < |entries| ==> Lookup(base, entries[j].key).Some?
    requires UniqueKeys(base)
    ensures Keys(Override(base, entries)) == Keys(base)
    ensures UniqueKeys(Override(base, entries))
    decreases |entries|
  {
    if entries != [] {
      var a := Assign(base, entries[0].key, entries[0].on);
      AssignKeys(base, entries[0].key, entries[0].on);
      forall j | 0 <= j < |entries| - 1 ensures Lookup(a, entries[1..][j].key).Some? {
        assert entries[1..][j] == entries[j + 1];
        AssignLookup(base, entries[0].key, entries[0].on, entries[j + 1].key);
      }
      OverrideKeys(a, entries[1..]);
    }
  }

  /** Mapping every key to one value keeps the keys and reads that value at each. */
  lemma {:induction false} SetAllLookup(fs: FlagSet, value: bool, k: string)
    ensures Keys(SetAll(fs, value)) == Keys(fs)
    ensures |SetAll(fs, value)| == |fs|
    ensures UniqueKeys(fs) ==> UniqueKeys(SetAll(fs, value))
    ensures Lookup(SetAll(fs, value), k) == if Lookup(fs, k).Some? then Some(value) else None
  {
    assert Keys(SetAll(fs, value)) == Keys(fs);
    FindSameKeys(SetAll(fs, value), fs, k);
  }

  // ---------------------------------------------------------------------
  // The tables
  // ---------------------------------------------------------------------

  /** Each capability sits at its declaration position in AllFlags. */
  lemma OrdinalOfPosition(i: nat)
    requires i < 12
    ensures Ordinal(AllFlags[i]) == i
  {
  }

  /** A table that lists every capability once, at its declaration position, has distinct keys. */
  lemma TableUnique(table: seq<Field>, on: bool)
    requires |table| == 12
    requires forall i :: 0 <= i < 12 ==> table[i] == Field(Name(AllFlags[i]), on)
    ensures UniqueKeys(table)
  {
    forall i, j | 0 <= i < j < 12 ensures table[i].key != table[j].key {
      NameInjective(AllFlags[i], AllFlags[j]);
      OrdinalOfPosition(i);
      OrdinalOfPosition(j);
    }
  }

  lemma DefaultFlagsShape()
    ensures |DefaultFlags| == 12 && UniqueKeys(DefaultFlags)
    ensures forall i :: 0 <= i < 12 ==> DefaultFlags[i] == Off(AllFlags[i])
  {
    TableUnique(DefaultFlags, false);
  }

  /** Each capability sits at its declaration position in DEFAULT_FLAGS. */
  lemma DefaultFind(f: Flag)
    ensures Find(DefaultFlags, Name(f)) == Ordinal(f)
  {
    DefaultFlagsShape();
    forall j | 0 <= j < Ordinal(f) ensures DefaultFlags[j].key != Name(f) {
      NameInjective(AllFlags[j], f);
    }
    FindIs(DefaultFlags, Name(f), Ordinal(f));
  }

  /** DEFAULT_FLAGS maps all twelve capabilities to false, and has no other key. */
  lemma DefaultTable()
    ensures |DefaultFlags| == 12 && UniqueKeys(DefaultFlags)
    ensures forall f: Flag :: Lookup(DefaultFlags, Name(f)) == Some(false)
  {
    DefaultFlagsShape();
    forall f: Flag ensures Lookup(DefaultFlags, Name(f)) == Some(false) {
      DefaultFind(f);
    }
  }

  lemma DevEntriesShape()
    ensures |DevEntries| == 12 && UniqueKeys(DevEntries)
    ensures forall i :: 0 <= i < 12 ==> DevEntries[i] == On(AllFlags[i])
  {
    TableUnique(DevEntries, true);
  }

  /**
   * A literal `{...DEFAULT_FLAGS, ...}` whose entries name capabilities
   * only, each once, keeps DEFAULT_FLAGS's keys and reads false at every
   * capability no entry names.
   */
  lemma {:induction false} OverDefault(entries: seq<Field>, f: Flag)
    requires UniqueKeys(entries)
    requires forall j :: 0 <= j < |entries| ==> exists g: Flag :: entries[j].key == Name(g)
    ensures Keys(Override(DefaultFlags, entries)) == Keys(DefaultFlags)
    ensures UniqueKeys(Override(DefaultFlags, entries))
    ensures Lookup(Override(DefaultFlags, entries), Name(f)) ==
      if Lookup(entries, Name(f)).Some? then Lookup(entries, Name(f)) else Some(false)
  {
    DefaultTable();
    forall j | 0 <= j < |entries| ensures Lookup(DefaultFlags, entries[j].key).Some? {
      var g: Flag :| entries[j].key == Name(g);
    }
    OverrideKeys(DefaultFlags, entries);
    OverrideLookup(DefaultFlags, entries, Name(f));
  }

  lemma DevLookup(f: Flag)
    ensures Lookup(DevEntries, Name(f)) == Some(true)
  {
    DevEntriesShape();
    forall j | 0 <= j < Ordinal(f) ensures DevEntries[j].key != Name(f) {
      NameInjective(AllFlags[j], f);
    }
    FindIs(DevEntries, Name(f), Ordinal(f));
  }

  lemma DevEntriesNamed()
    ensures UniqueKeys(DevEntries)
    ensures forall j :: 0 <= j < |DevEntries| ==> exists g: Flag :: DevEntries[j].key == Name(g)
  {
    DevEntriesShape();
    forall j | 0 <= j < |DevEntries| ensures exists g: Flag :: DevEntries[j].key == Name(g) {
      assert DevEntries[j].key == Name(AllFlags[j]);
    }
  }

  /**
   * DEV_FLAGS maps all twelve capabilities to true and keeps the key list
   * (and order) of DEFAULT_FLAGS.
   */
  lemma DevTable()
    ensures Keys(DevFlags) == Keys(DefaultFlags) && |DevFlags| == 12 && UniqueKeys(DevFlags)
    ensures forall f: Flag :: Lookup(DevFlags, Name(f)) == Some(true)
  {
    DevKeys();
    forall f: Flag ensures Lookup(DevFlags, Name(f)) == Some(true) {
      DevValue(f);
    }
  }

  lemma DevValue(f: Flag)
    ensures Lookup(DevFlags, Name(f)) == Some(true)
  {
    DevEntriesNamed();
    OverDefault(DevEntries, f);
    DevLookup(f);
  }

  lemma DevKeys()
    ensures Keys(DevFlags) == Keys(DefaultFlags) && |DevFlags| == 12 && UniqueKeys(DevFlags)
  {
    DevEntriesNamed();
    DefaultTable();
    OverDefault(DevEntries, EnableCountyMap);
    assert |Keys(DevFlags)| == |DevFlags| && |Keys(DefaultFlags)| == |DefaultFlags|;
  }

  lemma ProdLookup(f: Flag)
    ensures Lookup(ProdEntries, Name(f)) ==
      if f == EnableFirebaseAuth || f == EnableStatusChart || f == EnableFilters then Some(true) else None
  {
    NameInjective(f, EnableFirebaseAuth);
    NameInjective(f, EnableStatusChart);
    NameInjective(f, EnableFilters);
    if f == EnableFirebaseAuth {
      FindIs(ProdEntries, Name(f), 0);
    } else if f == EnableStatusChart {
      FindIs(ProdEntries, Name(f), 1);
    } else if f == EnableFilters {
      FindIs(ProdEntries, Name(f), 2);
    } else {
      FindIs(ProdEntries, Name(f), 3);
    }
  }

  /**
   * PROD_FLAGS equals DEFAULT_FLAGS except that authentication, the status
   * chart and the filters are on; it keeps DEFAULT_FLAGS's keys and order.
   */
  lemma ProdTable()
    ensures Keys(ProdFlags) == Keys(DefaultFlags) && UniqueKeys(ProdFlags)
    ensures forall f: Flag ::
      Lookup(ProdFlags, Name(f)) == Some(f == EnableFirebaseAuth || f == EnableStatusChart || f == EnableFilters)
  {
    var es := ProdEntries;
    assert UniqueKeys(es);
    assert es[0].key == Name(EnableFirebaseAuth) && es[1].key == Name(EnableStatusChart) && es[2].key == Name(EnableFilters);
    OverDefault(es, EnableCountyMap);
    forall f: Flag ensures
      Lookup(ProdFlags, Name(f)) == Some(f == EnableFirebaseAuth || f == EnableStatusChart || f == EnableFilters)
    {
      OverDefault(es, f);
      ProdLookup(f);
    }
  }
}
