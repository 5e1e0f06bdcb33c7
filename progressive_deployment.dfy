/// The rewriting half of scripts/progressive-deployment.js: the four
/// cumulative stages, the rendering of a stage as a new PROD_FLAGS block,
/// and the textual replacement of the first block that matches
/// `/export const PROD_FLAGS: FeatureFlags = \{([^}]+)\};/` in the flags
/// source file.
module ProgressiveDeployment {
  import opened FeatureFlags

  /**
   * One entry of the `stages` table. Every value in the source's `flags`
   * objects is `true`, so a stage is the list of capabilities it turns
   * on, in the order its object lists them.
   */
  datatype Stage = Stage(name: string, description: string, capabilities: seq<Flag>)

  /** The stage's `flags` object. */
  function StageFlags(s: Stage): seq<Field> {
    seq(|s.capabilities|, j requires 0 <= j < |s.capabilities| => On(s.capabilities[j]))
  }

  const Stages: seq<Stage> := [
    Stage("Minimal",
          "Deployment minimal cu doar structura de bază și autentificare",
          [EnableFirebaseAuth, EnableStatusChart, EnableFilters]),
    Stage("Basic Visualizations",
          "Adaugă vizualizări de bază fără hărți complexe",
          [EnableFirebaseAuth, EnableStatusChart, EnableFilters,
           EnableTopExchanges, EnableTimelineChart]),
    Stage("Complete Visualizations",
          "Adaugă toate vizualizările inclusiv hărți",
          [EnableFirebaseAuth, EnableStatusChart, EnableFilters,
           EnableTopExchanges, EnableTimelineChart,
           EnableCountyMap, EnableBucharestMap, EnableFinancialAnalysis]),
    Stage("Full App",
          "Activează toate funcționalitățile aplicației",
          [EnableFirebaseAuth, EnableStatusChart, EnableFilters,
           EnableTopExchanges, EnableTimelineChart,
           EnableCountyMap, EnableBucharestMap, EnableFinancialAnalysis,
           EnableLLMAnalysis, EnableGoogleSheets, EnableExport, EnableRealTimeSync])
  ]

  /**
   * The order in which the stages switch capabilities on: each stage's
   * `flags` object lists a prefix of it.
   */
  const Rollout: seq<Flag> := [
    EnableFirebaseAuth, EnableStatusChart, EnableFilters,
    EnableTopExchanges, EnableTimelineChart,
    EnableCountyMap, EnableBucharestMap, EnableFinancialAnalysis,
    EnableLLMAnalysis, EnableGoogleSheets, EnableExport, EnableRealTimeSync
  ]

  /** How many capabilities of the rollout order stage i lists. */
  function StageSize(i: nat): nat
    requires i < 4
  {
    [3, 5, 8, 12][i]
  }

  lemma StagePrefix(i: nat)
    requires i < 4
    ensures |Stages| == 4 && StageSize(i) <= |Rollout|
    ensures Stages[i].capabilities == Rollout[..StageSize(i)]
  {
  }

  /** The capabilities a stage turns on. */
  function Enabled(s: Stage): set<Flag> {
    set f | f in s.capabilities
  }

  predicate Distinct(caps: seq<Flag>) {
    forall a, b :: 0 <= a < b < |caps| ==> caps[a] != caps[b]
  }

  // ---------------------------------------------------------------------
  // The stage table
  // ---------------------------------------------------------------------

  /** The number of stages, without unfolding their contents. */
  lemma StageCount()
    ensures |Stages| == 4
  {
  }

  /** The rollout order names every capability, each once. */
  lemma RolloutDistinct()
    ensures |Rollout| == 12 && Distinct(Rollout)
    ensures forall f: Flag :: f in Rollout
  {
    forall f: Flag ensures f in Rollout {
      match f
      case EnableFirebaseAuth => assert Rollout[0] == f;
      case EnableStatusChart => assert Rollout[1] == f;
      case EnableFilters => assert Rollout[2] == f;
      case EnableTopExchanges => assert Rollout[3] == f;
      case EnableTimelineChart => assert Rollout[4] == f;
      case EnableCountyMap => assert Rollout[5] == f;
      case EnableBucharestMap => assert Rollout[6] == f;
      case EnableFinancialAnalysis => assert Rollout[7] == f;
      case EnableLLMAnalysis => assert Rollout[8] == f;
      case EnableGoogleSheets => assert Rollout[9] == f;
      case EnableExport => assert Rollout[10] == f;
      case EnableRealTimeSync => assert Rollout[11] == f;
    }
  }

  /**
   * There are four stages, each turning on a strict superset of the
   * capabilities of the one before, and the last turns on all twelve.
   */
  lemma StagesCumulative()
    ensures |Stages| == 4
    ensures Enabled(Stages[0]) == {EnableFirebaseAuth, EnableStatusChart, EnableFilters}
    ensures forall i :: 0 <= i < 3 ==> Enabled(Stages[i]) < Enabled(Stages[i + 1])
    ensures forall f: Flag :: f in Enabled(Stages[3])
  {
    StagePrefix(0);
    assert Enabled(Stages[0]) == {EnableFirebaseAuth, EnableStatusChart, EnableFilters} by {
      assert Stages[0].capabilities == [EnableFirebaseAuth, EnableStatusChart, EnableFilters];
    }
    forall i | 0 <= i < 3 ensures Enabled(Stages[i]) < Enabled(Stages[i + 1]) {
      Grows(i);
    }
    StagePrefix(3);
    RolloutDistinct();
    assert Rollout[..12] == Rollout;
  }

  /** Stage i + 1 lists the capabilities of stage i and the next one in the rollout order. */
  lemma Grows(i: nat)
    requires i < 3
    ensures Enabled(Stages[i]) < Enabled(Stages[i + 1])
  {
    StagePrefix(i);
    StagePrefix(i + 1);
    RolloutDistinct();
    var n, m := StageSize(i), StageSize(i + 1);
    var g := Rollout[n];
    assert n < m;
    assert g in Stages[i + 1].capabilities by { assert Rollout[..m][n] == g; }
    assert g !in Stages[i].capabilities by {
      forall x | 0 <= x < n ensures Rollout[..n][x] != g {
        assert Rollout[..n][x] == Rollout[x];
      }
    }
    forall f | f in Enabled(Stages[i]) ensures f in Enabled(Stages[i + 1]) {
      var x :| 0 <= x < n && Rollout[..n][x] == f;
      assert Rollout[..m][x] == f;
    }
    assert g in Enabled(Stages[i + 1]) - Enabled(Stages[i]);
  }

  /** No stage names a capability twice. */
  lemma StagesDistinct(i: nat)
    requires i < |Stages|
    ensures Distinct(Stages[i].capabilities)
  {
    StageCount();
    StagePrefix(i);
    RolloutDistinct();
    var caps := Stages[i].capabilities;
    forall a, b | 0 <= a < b < |caps| ensures caps[a] != caps[b] {
      assert caps[a] == Rollout[a] && caps[b] == Rollout[b];
    }
  }

  /**
   * A stage's `flags` object has one key per capability, and looking a
   * capability up in it gives true exactly when the stage names it.
   */
  lemma StageFlagsLookup(caps: seq<Flag>, f: Flag)
    requires Distinct(caps)
    ensures UniqueKeys(StageFlags(Stage("", "", caps)))
    ensures Lookup(StageFlags(Stage("", "", caps)), Name(f)) == if f in caps then Some(true) else None
  {
    var es := StageFlags(Stage("", "", caps));
    forall a, b | 0 <= a < b < |es| ensures es[a].key != es[b].key {
      NameInjective(caps[a], caps[b]);
    }
    if f in caps {
      var j :| 0 <= j < |caps| && caps[j] == f;
      forall x | 0 <= x < j ensures es[x].key != Name(f) {
        NameInjective(caps[x], f);
      }
      FindIs(es, Name(f), j);
    } else {
      forall x | 0 <= x < |es| ensures es[x].key != Name(f) {
        NameInjective(caps[x], f);
      }
      FindIs(es, Name(f), |es|);
    }
  }

  // ---------------------------------------------------------------------
  // Rendering a stage
  // ---------------------------------------------------------------------

  /** The fixed start of the pattern, up to its `{`. */
  const PatternHead: string := "export const PROD_FLAGS: FeatureFlags = {"

  /** What the block adds after the pattern's head before the entries. */
  const SpreadLine: string := "\n  ...DEFAULT_FLAGS,\n"

  /** The start of every rendered block. */
  const BlockHead: string := PatternHead + SpreadLine

  /** The line written for an entry: `  key: true,` for a true value, nothing for a false one. */
  function LineOf(e: Field): string {
    if e.on then "  " + e.key + ": true,\n" else ""
  }

  /** The lines written for the entries, in order. */
  function EntryLines(entries: seq<Field>): string
    decreases |entries|
  {
    if entries == [] then "" else LineOf(entries[0]) + EntryLines(entries[1..])
  }

  /** The block that takes the place of PROD_FLAGS. */
  function ProdBlock(entries: seq<Field>): string {
    BlockHead + EntryLines(entries) + "};"
  }

  /** The true entries, in order. */
  function TrueEntries(entries: seq<Field>): (r: seq<Field>)
    ensures forall j :: 0 <= j < |r| ==> r[j].on && r[j] in entries
    ensures forall e :: e in entries && e.on ==> e in r
    decreases |entries|
  {
    if entries == [] then []
    else (if entries[0].on then [entries[0]] else []) + TrueEntries(entries[1..])
  }

  lemma {:induction false} EntryLinesSnoc(entries: seq<Field>, e: Field)
    ensures EntryLines(entries + [e]) == EntryLines(entries) + LineOf(e)
    decreases |entries|
  {
    var s := entries + [e];
    if entries == [] {
      assert s == [e] && s[1..] == [];
      assert EntryLines(s) == LineOf(e) + "";
    } else {
      assert s[0] == entries[0];
      assert s[1..] == entries[1..] + [e];
      EntryLinesSnoc(entries[1..], e);
      assert EntryLines(s) == LineOf(entries[0]) + (EntryLines(entries[1..]) + LineOf(e));
    }
  }

  /**
   * The loop of updateFeatureFlags that builds `newProdFlags`: the head,
   * a line per true entry, then `};`.
   */
  method RenderProdFlags(stageFlags: seq<Field>) returns (block: string)
    ensures block == ProdBlock(stageFlags)
  {
    block := BlockHead;
    var i := 0;
    while i < |stageFlags|
      invariant 0 <= i <= |stageFlags|
      invariant block == BlockHead + EntryLines(stageFlags[..i])
    {
      ghost var before := block;
      if stageFlags[i].on {
        block := block + ("  " + stageFlags[i].key + ": true,\n");
      } else {
        assert before + LineOf(stageFlags[i]) == before;
      }
      RenderStep(stageFlags, i, before);
      i := i + 1;
    }
    assert stageFlags[..i] == stageFlags;
    block := block + "};";
  }

  /** One more entry rendered: its line follows the lines of the entries before it. */
  lemma RenderStep(entries: seq<Field>, i: nat, block: string)
    requires i < |entries|
    requires block == BlockHead + EntryLines(entries[..i])
    ensures block + LineOf(entries[i]) == BlockHead + EntryLines(entries[..i + 1])
  {
    EntryLinesSnoc(entries[..i], entries[i]);
    assert entries[..i + 1] == entries[..i] + [entries[i]];
    AppendAssoc(BlockHead, EntryLines(entries[..i]), LineOf(entries[i]));
  }

  lemma AppendAssoc(a: string, b: string, c: string)
    ensures (a + b) + c == a + (b + c)
  {
  }

  // ---------------------------------------------------------------------
  // Reading a block back
  // ---------------------------------------------------------------------

  /** A key that can stand on an entry line and inside the pattern's braces. */
  predicate LineKey(k: string) {
    forall i :: 0 <= i < |k| ==> k[i] != ':' && k[i] != '}'
  }

  predicate LineKeys(entries: seq<Field>) {
    forall j :: 0 <= j < |entries| ==> LineKey(entries[j].key)
  }

  /** The first occurrence of c at or after k, or |s| when there is none. */
  function FirstAt(s: string, k: nat, c: char): (p: nat)
    requires k <= |s|
    ensures k <= p <= |s|
    ensures p < |s| ==> s[p] == c
    ensures forall x :: k <= x < p ==> s[x] != c
    decreases |s| - k
  {
    if k == |s| || s[k] == c then k else FirstAt(s, k + 1, c)
  }

  lemma FirstAtIs(s: string, k: nat, c: char, p: nat)
    requires k <= p <= |s|
    requires p < |s| ==> s[p] == c
    requires forall x :: k <= x < p ==> s[x] != c
    ensures FirstAt(s, k, c) == p
    decreases p - k
  {
    if k < p {
      FirstAtIs(s, k + 1, c, p);
    }
  }

  const LineEnd: string := ": true,\n"

  /** The entries written by lines `  key: true,\n`; None when the text has another shape. */
  function ReadLines(body: string): Option<seq<Field>>
    decreases |body|
  {
    if body == [] then Some([])
    else if |body| < 2 || body[..2] != "  " then None
    else
      var p := FirstAt(body, 2, ':');
      var tail := body[p..];
      if |tail| >= |LineEnd| && tail[..|LineEnd|] == LineEnd then
        match ReadLines(tail[|LineEnd|..])
        case None => None
        case Some(es) => Some([Field(body[2..p], true)] + es)
      else None
  }

  /**
   * The object a block denotes once it is compiled: a block
   * `{...DEFAULT_FLAGS, k: true, ...}` read back into its entries and laid
   * over DEFAULT_FLAGS.
   */
  function BlockValue(block: string): Option<FlagSet> {
    if |block| >= |BlockHead| + 2 && block[..|BlockHead|] == BlockHead && block[|block| - 2..] == "};" then
      match ReadLines(block[|BlockHead|..|block| - 2])
      case None => None
      case Some(es) => Some(Override(DefaultFlags, es))
    else None
  }

  lemma ReadLine(k: string, rest: string)
    requires LineKey(k)
    ensures ReadLines(LineOf(Field(k, true)) + rest) ==
      match ReadLines(rest)
      case None => None
      case Some(es) => Some([Field(k, true)] + es)
  {
    var s := LineOf(Field(k, true)) + rest;
    assert s == "  " + k + (LineEnd + rest);
    assert s[..2] == "  ";
    assert s[2 + |k|] == ':';
    forall x | 2 <= x < 2 + |k| ensures s[x] != ':' {
      assert s[x] == k[x - 2];
    }
    FirstAtIs(s, 2, ':', 2 + |k|);
    assert s[2..2 + |k|] == k;
    assert s[2 + |k|..] == LineEnd + rest;
    assert (LineEnd + rest)[..|LineEnd|] == LineEnd;
    assert (LineEnd + rest)[|LineEnd|..] == rest;
  }

  lemma LineKeysTail(entries: seq<Field>)
    requires LineKeys(entries) && entries != []
    ensures LineKeys(entries[1..])
  {
    forall j | 0 <= j < |entries| - 1 ensures LineKey(entries[1..][j].key) {
      assert entries[1..][j] == entries[j + 1];
    }
  }

  lemma {:induction false} ReadEntryLines(entries: seq<Field>)
    requires LineKeys(entries)
    ensures ReadLines(EntryLines(entries)) == Some(TrueEntries(entries))
    decreases |entries|
  {
    if entries != [] {
      var e := entries[0];
      LineKeysTail(entries);
      ReadEntryLines(entries[1..]);
      if e.on {
        assert e == Field(e.key, true);
        ReadLine(e.key, EntryLines(entries[1..]));
      } else {
        var rest := EntryLines(entries[1..]);
        assert "" + rest == rest;
        assert EntryLines(entries) == rest;
        var later := TrueEntries(entries[1..]);
        assert [] + later == later;
        assert TrueEntries(entries) == later;
      }
    }
  }

  /**
   * Reading a rendered block back: it denotes DEFAULT_FLAGS with exactly
   * the true entries laid over it, in order.
   */
  lemma BlockValueOfRender(entries: seq<Field>)
    requires LineKeys(entries)
    ensures BlockValue(ProdBlock(entries)) == Some(Override(DefaultFlags, TrueEntries(entries)))
  {
    var b := ProdBlock(entries);
    assert b[..|BlockHead|] == BlockHead;
    assert b[|b| - 2..] == "};";
    assert b[|BlockHead|..|b| - 2] == EntryLines(entries);
    ReadEntryLines(entries);
  }

  lemma {:induction false} AllOnFilter(es: seq<Field>)
    requires forall j :: 0 <= j < |es| ==> es[j].on
    ensures TrueEntries(es) == es
    decreases |es|
  {
    if es != [] {
      AllOnFilter(es[1..]);
      assert [es[0]] + es[1..] == es;
    }
  }

  lemma NameLineKey(f: Flag)
    ensures LineKey(Name(f))
  {
    if Ordinal(f) < 6 { NameLineKeyLow(f); } else { NameLineKeyHigh(f); }
  }

  lemma NameLineKeyLow(f: Flag)
    requires Ordinal(f) < 6
    ensures LineKey(Name(f))
  {
    match f
    case EnableCountyMap => {}
    case EnableBucharestMap => {}
    case EnableFinancialAnalysis => {}
    case EnableTimelineChart => {}
    case EnableStatusChart => {}
    case EnableTopExchanges => {}
  }

  lemma NameLineKeyHigh(f: Flag)
    requires Ordinal(f) >= 6
    ensures LineKey(Name(f))
  {
    match f
    case EnableFirebaseAuth => {}
    case EnableLLMAnalysis => {}
    case EnableGoogleSheets => {}
    case EnableExport => {}
    case EnableFilters => {}
    case EnableRealTimeSync => {}
  }

  lemma StageLineKeys(s: Stage)
    ensures LineKeys(StageFlags(s))
  {
    forall j | 0 <= j < |s.capabilities| ensures LineKey(StageFlags(s)[j].key) {
      NameLineKey(s.capabilities[j]);
    }
  }

  /**
   * Compiling the rendered block of any stage turns on exactly that
   * stage's capabilities and leaves the others false; for the first stage
   * that is the current PROD_FLAGS.
   */
  lemma StageBlockValue(i: nat, f: Flag)
    requires i < |Stages|
    ensures BlockValue(ProdBlock(StageFlags(Stages[i]))).Some?
    ensures Lookup(BlockValue(ProdBlock(StageFlags(Stages[i]))).value, Name(f)) == Some(f in Enabled(Stages[i]))
    ensures i == 0 ==> BlockValue(ProdBlock(StageFlags(Stages[i]))).value == ProdFlags
  {
    var es := StageFlags(Stages[i]);
    StageBlockRead(i);
    StageEntries(i, f);
    OverDefault(es, f);
    if i == 0 {
      StagePrefix(0);
      assert es == ProdEntries;
    }
  }

  /** A stage's block reads back as its `flags` object laid over DEFAULT_FLAGS. */
  lemma StageBlockRead(i: nat)
    requires i < |Stages|
    ensures BlockValue(ProdBlock(StageFlags(Stages[i]))) == Some(Override(DefaultFlags, StageFlags(Stages[i])))
  {
    var es := StageFlags(Stages[i]);
    StageLineKeys(Stages[i]);
    BlockValueOfRender(es);
    AllOnFilter(es);
  }

  /** A stage's `flags` object: distinct capability keys, true exactly at the stage's capabilities. */
  lemma StageEntries(i: nat, f: Flag)
    requires i < |Stages|
    ensures UniqueKeys(StageFlags(Stages[i]))
    ensures forall j :: 0 <= j < |StageFlags(Stages[i])| ==> exists g: Flag :: StageFlags(Stages[i])[j].key == Name(g)
    ensures Lookup(StageFlags(Stages[i]), Name(f)) == if f in Enabled(Stages[i]) then Some(true) else None
  {
    var caps := Stages[i].capabilities;
    var es := StageFlags(Stages[i]);
    assert es == StageFlags(Stage("", "", caps));
    StagesDistinct(i);
    StageFlagsLookup(caps, f);
    forall j | 0 <= j < |es| ensures exists g: Flag :: es[j].key == Name(g) {
      assert es[j].key == Name(caps[j]);
    }
  }

  // ---------------------------------------------------------------------
  // Locating and replacing PROD_FLAGS
  // ---------------------------------------------------------------------

  /** The pattern's head stands at j. */
  predicate HeadAt(t: string, j: nat) {
    j + |PatternHead| <= |t| && t[j..j + |PatternHead|] == PatternHead
  }

  /**
   * Where a match of the pattern that starts at j ends: the head, one or
   * more characters other than `}`, then `};`. The class `[^}]` cannot
   * step over a `}`, so the only candidate end is just after the first
   * `}` that follows the head.
   */
  function MatchEnd(t: string, j: nat): (r: Option<nat>)
    ensures r.Some? ==> HeadAt(t, j) && j + |PatternHead| + 3 <= r.value <= |t|
    ensures r.Some? ==> t[r.value - 2] == '}' && t[r.value - 1] == ';'
    ensures r.Some? ==> forall x :: j + |PatternHead| <= x < r.value - 2 ==> t[x] != '}'
  {
    if HeadAt(t, j) then
      var h := j + |PatternHead|;
      var p := FirstAt(t, h, '}');
      if h < p && p + 1 < |t| && t[p + 1] == ';' then Some(p + 2) else None
    else None
  }

  /**
   * The converse: the head, a non-empty run without `}`, then `};` is a
   * match that ends just after the `;`.
   */
  lemma MatchEndOf(t: string, j: nat, p: nat)
    requires HeadAt(t, j) && j + |PatternHead| < p && p + 1 < |t|
    requires forall x :: j + |PatternHead| <= x < p ==> t[x] != '}'
    requires t[p] == '}' && t[p + 1] == ';'
    ensures MatchEnd(t, j) == Some(p + 2)
  {
    FirstAtIs(t, j + |PatternHead|, '}', p);
  }

  /** The leftmost match at or after `from`, as `String.prototype.match` finds it. */
  function FirstMatch(t: string, from: nat): (r: Option<(nat, nat)>)
    ensures r.Some? ==> from <= r.value.0 && MatchEnd(t, r.value.0) == Some(r.value.1)
    ensures r.Some? ==> forall j: nat :: from <= j < r.value.0 ==> MatchEnd(t, j).None?
    ensures r.None? ==> forall j: nat :: from <= j ==> MatchEnd(t, j).None?
    decreases |t| - from
  {
    if from >= |t| then None
    else match MatchEnd(t, from)
      case Some(e) => Some((from, e))
      case None => FirstMatch(t, from + 1)
  }

  /**
   * `content.replace(prodFlagsRegex, block)`, or None when the pattern is
   * not found anywhere. The block holds no `$`, so it is inserted
   * literally.
   */
  function ReplaceFirst(t: string, block: string): (r: Option<string>)
    ensures r.None? <==> forall j: nat :: MatchEnd(t, j).None?
  {
    match FirstMatch(t, 0)
    case None => None
    case Some((i, e)) => Some(t[..i] + block + t[e..])
  }

  /**
   * Replacing changes nothing before the first match and nothing after
   * its `};`.
   */
  lemma ReplaceKeepsRest(t: string, block: string)
    requires ReplaceFirst(t, block).Some?
    ensures exists i: nat, e: nat ::
      (i <= e <= |t| && MatchEnd(t, i) == Some(e) &&
       (forall j: nat :: j < i ==> MatchEnd(t, j).None?) &&
       ReplaceFirst(t, block).value == t[..i] + block + t[e..])
  {
    var i, e := FirstMatch(t, 0).value.0, FirstMatch(t, 0).value.1;
    assert MatchEnd(t, i) == Some(e);
  }

  /**
   * updateFeatureFlags: render the stage, then replace the first
   * PROD_FLAGS block with it; None when the block is not found (the
   * script exits with 1 and writes nothing).
   */
  method UpdateFeatureFlags(content: string, stageFlags: seq<Field>) returns (updated: Option<string>)
    ensures updated == ReplaceFirst(content, ProdBlock(stageFlags))
  {
    var m := FirstMatch(content, 0);
    if m.None? {
      return None;
    }
    var newProdFlags := RenderProdFlags(stageFlags);
    updated := Some(content[..m.value.0] + newProdFlags + content[m.value.1..]);
  }

  // ---------------------------------------------------------------------
  // Applying a stage twice
  // ---------------------------------------------------------------------

  lemma PatternHeadShape()
    ensures |PatternHead| == 41
    ensures PatternHead[40] == '{' && PatternHead[0] == 'e'
    ensures forall k :: 0 <= k < 40 ==> PatternHead[k] != '{'
    ensures forall k :: 0 <= k < 41 ==> PatternHead[k] != '}'
  {
  }

  lemma {:induction false} EntryLinesNoBrace(entries: seq<Field>)
    requires LineKeys(entries)
    ensures forall x :: 0 <= x < |EntryLines(entries)| ==> EntryLines(entries)[x] != '}'
    decreases |entries|
  {
    if entries != [] {
      LineKeysTail(entries);
      EntryLinesNoBrace(entries[1..]);
      var k := entries[0].key;
      var line := LineOf(entries[0]);
      forall x | 0 <= x < |line| ensures line[x] != '}' {
        if 2 <= x < 2 + |k| { assert line[x] == k[x - 2]; }
      }
      var rest := EntryLines(entries[1..]);
      forall x | 0 <= x < |line + rest| ensures (line + rest)[x] != '}' {
        if x >= |line| { assert (line + rest)[x] == rest[x - |line|]; }
      }
    }
  }

  /** The shape of a rendered block that makes it match the pattern. */
  predicate BlockShape(b: string) {
    |b| >= |PatternHead| + 3 &&
    b[..|PatternHead|] == PatternHead &&
    (forall x :: |PatternHead| <= x < |b| - 2 ==> b[x] != '}') &&
    b[|b| - 2] == '}' && b[|b| - 1] == ';'
  }

  lemma SpreadLineNoBrace()
    ensures |SpreadLine| >= 1
    ensures forall x :: 0 <= x < |SpreadLine| ==> SpreadLine[x] != '}'
  {
  }

  lemma ProdBlockShape(entries: seq<Field>)
    requires LineKeys(entries)
    ensures BlockShape(ProdBlock(entries))
  {
    BodyNoBrace(entries);
    ProdBlockSplit(entries);
    ShapeOf(SpreadLine + EntryLines(entries));
  }

  lemma ProdBlockSplit(entries: seq<Field>)
    ensures ProdBlock(entries) == PatternHead + (SpreadLine + EntryLines(entries)) + "};"
  {
  }

  /** What a block puts between the head's `{` and the closing `};` holds no `}`. */
  lemma BodyNoBrace(entries: seq<Field>)
    requires LineKeys(entries)
    ensures |SpreadLine + EntryLines(entries)| >= 1
    ensures forall x :: 0 <= x < |SpreadLine + EntryLines(entries)| ==> (SpreadLine + EntryLines(entries))[x] != '}'
  {
    var lines := EntryLines(entries);
    var body := SpreadLine + lines;
    SpreadLineNoBrace();
    EntryLinesNoBrace(entries);
    forall x | 0 <= x < |body| ensures body[x] != '}' {
      if x >= |SpreadLine| {
        assert body[x] == lines[x - |SpreadLine|];
      }
    }
  }

  /** The head, a body without `}`, and `};` make a block of the matching shape. */
  lemma ShapeOf(body: string)
    requires |body| >= 1
    requires forall x :: 0 <= x < |body| ==> body[x] != '}'
    ensures BlockShape(PatternHead + body + "};")
  {
    var b := PatternHead + body + "};";
    PatternHeadShape();
    assert b[..41] == PatternHead;
    forall x | 41 <= x < |b| - 2 ensures b[x] != '}' {
      assert b[x] == body[x - 41];
    }
  }

  /** A block of that shape, put at i, is a match that ends with it. */
  lemma BlockMatches(t: string, i: nat, b: string)
    requires BlockShape(b) && i + |b| <= |t| && t[i..i + |b|] == b
    ensures MatchEnd(t, i) == Some(i + |b|)
  {
    var h := i + |PatternHead|;
    assert t[i..h] == b[..|PatternHead|];
    forall x | h <= x < i + |b| - 2 ensures t[x] != '}' {
      assert t[x] == b[x - i];
    }
    assert t[i + |b| - 2] == b[|b| - 2];
    assert t[i + |b| - 1] == b[|b| - 1];
    MatchEndOf(t, i, i + |b| - 2);
  }

  /** Two heads cannot overlap: the `{` ending the first would fall inside the second. */
  lemma HeadsApart(t: string, j: nat, i: nat)
    requires HeadAt(t, j) && HeadAt(t, i) && j < i
    ensures j + |PatternHead| <= i
  {
    HeadBrace(t, j);
    HeadBrace(t, i);
  }

  /** Where a head stands, its only `{` is its last character. */
  lemma HeadBrace(t: string, j: nat)
    requires HeadAt(t, j)
    ensures t[j + 40] == '{'
    ensures forall k :: j <= k < j + 40 ==> t[k] != '{'
  {
    PatternHeadShape();
    assert t[j + 40] == t[j..j + 41][40];
    forall k | j <= k < j + 40 ensures t[k] != '{' {
      assert t[k] == t[j..j + 41][k - j];
    }
  }

  /** A match that ends within a prefix two texts share is a match in both. */
  lemma MatchInPrefix(t: string, u: string, n: nat, j: nat)
    requires n <= |t| && n <= |u| && t[..n] == u[..n]
    requires MatchEnd(u, j).Some? && MatchEnd(u, j).value <= n
    ensures MatchEnd(t, j) == MatchEnd(u, j)
  {
    var e := MatchEnd(u, j).value;
    var h := j + |PatternHead|;
    forall x | 0 <= x < n ensures t[x] == u[x] {
      assert t[x] == t[..n][x] && u[x] == u[..n][x];
    }
    assert t[j..h] == u[j..h];
    var p := FirstAt(u, h, '}');
    assert p == e - 2;
    FirstAtIs(t, h, '}', p);
  }

  /**
   * A head at j whose run of non-`}` reaches a match at i is itself a
   * match, ending where that match ends.
   */
  lemma MatchRunsThrough(t: string, j: nat, i: nat)
    requires HeadAt(t, j) && j + |PatternHead| <= i
    requires MatchEnd(t, i).Some?
    requires forall x :: j + |PatternHead| <= x < i ==> t[x] != '}'
    ensures MatchEnd(t, j) == MatchEnd(t, i)
  {
    HeadNoClose(t, i);
    var q := FirstAt(t, i + 41, '}');
    assert forall x :: j + 41 <= x < q ==> t[x] != '}';
    FirstAtIs(t, j + 41, '}', q);
  }

  /** A head holds no `}`. */
  lemma HeadNoClose(t: string, j: nat)
    requires HeadAt(t, j)
    ensures |PatternHead| == 41
    ensures forall x :: j <= x < j + 41 ==> t[x] != '}'
  {
    PatternHeadShape();
    forall x | j <= x < j + 41 ensures t[x] != '}' {
      assert t[x] == t[j..j + 41][x - j];
    }
  }

  /**
   * After the first match at i has been replaced by a block, no earlier
   * position matches: a match there would have matched the original text
   * too.
   */
  lemma NoEarlierMatch(t: string, i: nat, e: nat, b: string, j: nat)
    requires MatchEnd(t, i) == Some(e)
    requires forall k: nat :: k < i ==> MatchEnd(t, k).None?
    requires BlockShape(b)
    requires j < i
    ensures MatchEnd(t[..i] + b + t[e..], j).None?
  {
    var u := t[..i] + b + t[e..];
    PatternHeadShape();
    assert u[..i] == t[..i];
    if MatchEnd(u, j).Some? {
      assert u[i..i + 41] == b[..41];
      HeadsApart(u, j, i);
      var p := FirstAt(u, j + 41, '}');
      // p + 1 == i cannot be: the character after a match's `}` is `;`,
      // while the block starts with `e`.
      if p + 2 <= i {
        MatchInPrefix(t, u, i, j);
        assert false;
      } else if p >= i {
        forall x | j + 41 <= x < i ensures t[x] != '}' {
          assert t[x] == t[..i][x] == u[..i][x] == u[x];
        }
        assert t[j..j + 41] == u[j..j + 41] by {
          forall x | j <= x < j + 41 ensures t[x] == u[x] {
            assert t[x] == t[..i][x] && u[x] == u[..i][x];
          }
        }
        MatchRunsThrough(t, j, i);
        assert false;
      }
    }
  }

  lemma {:induction false} FirstMatchIs(t: string, from: nat, i: nat)
    requires from <= i && MatchEnd(t, i).Some?
    requires forall j: nat :: from <= j < i ==> MatchEnd(t, j).None?
    ensures FirstMatch(t, from) == Some((i, MatchEnd(t, i).value))
    decreases i - from
  {
    if from < i {
      FirstMatchIs(t, from + 1, i);
    }
  }

  /**
   * Applying the same stage twice gives the same file as applying it once:
   * the block written the first time is the first match the second time,
   * and it is replaced by itself.
   */
  lemma ApplyTwice(content: string, stageFlags: seq<Field>)
    requires LineKeys(stageFlags)
    requires ReplaceFirst(content, ProdBlock(stageFlags)).Some?
    ensures ReplaceFirst(ReplaceFirst(content, ProdBlock(stageFlags)).value, ProdBlock(stageFlags)) ==
      ReplaceFirst(content, ProdBlock(stageFlags))
  {
    var b := ProdBlock(stageFlags);
    ProdBlockShape(stageFlags);
    var i, e := FirstMatch(content, 0).value.0, FirstMatch(content, 0).value.1;
    var u := content[..i] + b + content[e..];
    assert ReplaceFirst(content, b) == Some(u);
    assert u[i..i + |b|] == b;
    BlockMatches(u, i, b);
    forall j: nat | j < i ensures MatchEnd(u, j).None? {
      NoEarlierMatch(content, i, e, b, j);
    }
    FirstMatchIs(u, 0, i);
    assert u[..i] == content[..i];
    assert u[i + |b|..] == content[e..];
  }
}
