/// The command-line half of scripts/progressive-deployment.js: the
/// argument handling of `main`, JavaScript's `parseInt(text, 10)` and
/// `Array.prototype.indexOf` as it uses them, and the order of its steps
/// (help, listing, backup, stage selection, rewrite, build and publish).
/// The file system and the two shell commands are parameters.
module DeploymentCli {
  import opened FeatureFlags
  import opened ProgressiveDeployment

  // ---------------------------------------------------------------------
  // parseInt(text, 10)
  // ---------------------------------------------------------------------

  /**
   * The characters parseInt skips before the number: the white space and
   * line terminators of ECMAScript (ECMA-262, sections 12.2 and 12.3),
   * which include every space separator of Unicode category Zs and the
   * byte order mark.
   */
  predicate IsJsWhiteSpace(c: char) {
    var n := c as int;
    n == 0x09 || n == 0x0A || n == 0x0B || n == 0x0C || n == 0x0D ||
    n == 0x20 || n == 0xA0 || n == 0x1680 || (0x2000 <= n <= 0x200A) ||
    n == 0x2028 || n == 0x2029 || n == 0x202F || n == 0x205F || n == 0x3000 || n == 0xFEFF
  }

  predicate IsDigit(c: char) {
    '0' <= c <= '9'
  }

  function TrimStart(s: string): (r: string)
    ensures |r| <= |s| && r == s[|s| - |r|..]
    ensures forall k :: 0 <= k < |s| - |r| ==> IsJsWhiteSpace(s[k])
    ensures r != [] ==> !IsJsWhiteSpace(r[0])
  {
    if s != [] && IsJsWhiteSpace(s[0]) then
      var r := TrimStart(s[1..]);
      assert s[1..][|s| - 1 - |r|..] == s[|s| - |r|..];
      r
    else s
  }

  /** How many decimal digits `s` starts with. */
  function DigitRun(s: string): (n: nat)
    ensures n <= |s|
    ensures forall k :: 0 <= k < n ==> IsDigit(s[k])
    ensures n < |s| ==> !IsDigit(s[n])
  {
    if s != [] && IsDigit(s[0]) then 1 + DigitRun(s[1..]) else 0
  }

  function DigitValue(c: char): nat
    requires IsDigit(c)
  {
    c as int - '0' as int
  }

  /** The value of a string of decimal digits, most significant first. */
  function DigitsValue(ds: string): nat
    requires forall k :: 0 <= k < |ds| ==> IsDigit(ds[k])
    decreases |ds|
  {
    if ds == [] then 0
    else DigitsValue(ds[..|ds| - 1]) * 10 + DigitValue(ds[|ds| - 1])
  }

  predicate HasSign(t: string) {
    t != [] && (t[0] == '-' || t[0] == '+')
  }

  /** The text after an optional sign. */
  function Unsigned(t: string): string {
    if HasSign(t) then t[1..] else t
  }

  predicate Negative(t: string) {
    t != [] && t[0] == '-'
  }

  /**
   * `parseInt(text, 10)`: skip white space, read an optional sign, then
   * the longest run of decimal digits; what follows the digits is
   * ignored. None is NaN, when no digit follows the sign.
   */
  function ParseInt(text: string): (r: Option<int>)
    ensures r.Some? <==> Unsigned(TrimStart(text)) != [] && IsDigit(Unsigned(TrimStart(text))[0])
  {
    var t := TrimStart(text);
    var u := Unsigned(t);
    var n := DigitRun(u);
    if n == 0 then None
    else
      var v: int := DigitsValue(u[..n]);
      Some(if Negative(t) then -v else v)
  }

  function DigitChar(d: nat): char
    requires d < 10
  {
    ('0' as int + d) as char
  }

  /** `String(n)` for a natural number: its decimal digits, no leading zero. */
  function Decimal(n: nat): (s: string)
    ensures s != [] && forall k :: 0 <= k < |s| ==> IsDigit(s[k])
    ensures |s| > 1 ==> s[0] != '0'
  {
    if n < 10 then [DigitChar(n)] else Decimal(n / 10) + [DigitChar(n % 10)]
  }

  lemma {:induction false} DecimalValue(n: nat)
    ensures DigitsValue(Decimal(n)) == n
  {
    if n >= 10 {
      var s := Decimal(n);
      DecimalValue(n / 10);
      assert s[..|s| - 1] == Decimal(n / 10);
    }
  }

  lemma {:induction false} DigitRunIs(s: string, k: nat)
    requires k <= |s|
    requires forall x :: 0 <= x < k ==> IsDigit(s[x])
    requires k < |s| ==> !IsDigit(s[k])
    ensures DigitRun(s) == k
    decreases k
  {
    if k > 0 {
      DigitRunIs(s[1..], k - 1);
    }
  }

  /**
   * parseInt reads back what `String(n)` writes, whatever non-digit text
   * follows it (as in `parseInt("2abc", 10) === 2`).
   */
  lemma ParseIntDecimal(n: nat, rest: string)
    requires rest == [] || !IsDigit(rest[0])
    ensures ParseInt(Decimal(n) + rest) == Some(n)
  {
    var d := Decimal(n);
    DecimalValue(n);
    ParseDigits(d, rest);
  }

  /** parseInt of digits followed by non-digit text. */
  lemma ParseDigits(d: string, rest: string)
    requires d != [] && forall k :: 0 <= k < |d| ==> IsDigit(d[k])
    requires rest == [] || !IsDigit(rest[0])
    ensures ParseInt(d + rest) == Some(DigitsValue(d))
  {
    var s := d + rest;
    DigitsThenRest(d, rest);
    assert s[0] == d[0];
    NotSpace(s[0]);
    assert TrimStart(s) == s;
    assert Unsigned(s) == s && !Negative(s);
  }

  /** A minus in front of a number read by parseInt negates it. */
  lemma ParseMinus(s: string)
    requires s != [] && IsDigit(s[0])
    ensures ParseInt(s).Some? && ParseInt("-" + s).Some?
    ensures ParseInt("-" + s).value == -ParseInt(s).value
  {
    var m := "-" + s;
    NotSpace(s[0]);
    NotSpace(m[0]);
    var t := TrimStart(s);
    assert t == s;
    assert TrimStart(m) == m;
    assert Unsigned(m) == s;
  }

  lemma NotSpace(c: char)
    requires IsDigit(c) || c == '-'
    ensures !IsJsWhiteSpace(c)
  {
  }

  /** The run of digits at the start of `d + rest` is exactly d. */
  lemma DigitsThenRest(d: string, rest: string)
    requires forall k :: 0 <= k < |d| ==> IsDigit(d[k])
    requires rest == [] || !IsDigit(rest[0])
    ensures DigitRun(d + rest) == |d| && (d + rest)[..|d|] == d
  {
    var s := d + rest;
    assert |d| < |s| ==> s[|d|] == rest[0];
    DigitRunIs(s, |d|);
    assert s[..|d|] == d;
  }

  // ---------------------------------------------------------------------
  // Arguments
  // ---------------------------------------------------------------------

  /** `args.indexOf(x)`: the first position holding x, -1 when there is none. */
  function IndexOf(args: seq<string>, x: string): (r: int)
    ensures -1 <= r < |args|
    ensures r == -1 <==> x !in args
    ensures r >= 0 ==> args[r] == x && forall k :: 0 <= k < r ==> args[k] != x
  {
    if args == [] then -1
    else if args[0] == x then 0
    else
      var r := IndexOf(args[1..], x);
      if r == -1 then -1 else r + 1
  }

  predicate WantsHelp(args: seq<string>) {
    "--help" in args || "-h" in args
  }

  /**
   * The stage index main goes on with: the argument after the first
   * `--stage`, read by parseInt, minus one. None when `--stage` is missing
   * or last, or the number is NaN or outside 1..4; main then exits with 1
   * before touching the flags file.
   */
  function SelectedStage(args: seq<string>): (r: Option<nat>)
    ensures r.Some? ==> r.value < |Stages|
    ensures r.Some? ==> "--stage" in args
    ensures "--stage" !in args ==> r.None?
  {
    var k := IndexOf(args, "--stage");
    if k != -1 && |args| > k + 1 then StageOf(args[k + 1]) else None
  }

  /** The stage index a `--stage` word names: its parseInt value minus one, when that is a stage. */
  function StageOf(word: string): (r: Option<nat>)
    ensures r.Some? ==> r.value < |Stages|
  {
    match ParseInt(word)
    case None => None
    case Some(n) => if 1 <= n <= |Stages| then Some(n - 1) else None
  }

  /**
   * `--stage n`, with n written in decimal, selects stage n for every n
   * from 1 to 4, wherever the pair stands among the other options.
   */
  lemma SelectStage(before: seq<string>, n: nat, after: seq<string>)
    requires "--stage" !in before && 1 <= n <= 4
    ensures SelectedStage(before + ["--stage", Decimal(n)] + after) == Some(n - 1)
  {
    var args := before + ["--stage", Decimal(n)] + after;
    assert args[|before|] == "--stage" && args[|before| + 1] == Decimal(n);
    assert forall k :: 0 <= k < |before| ==> args[k] == before[k];
    assert IndexOf(args, "--stage") == |before|;
    ParseIntDecimal(n, "");
    assert Decimal(n) + "" == Decimal(n);
  }

  /** A stage number outside 1..4 is refused. */
  lemma RejectStage(before: seq<string>, n: nat, after: seq<string>)
    requires "--stage" !in before && (n == 0 || n > 4)
    ensures SelectedStage(before + ["--stage", Decimal(n)] + after).None?
  {
    var args := before + ["--stage", Decimal(n)] + after;
    assert args[|before|] == "--stage" && args[|before| + 1] == Decimal(n);
    assert forall k :: 0 <= k < |before| ==> args[k] == before[k];
    assert IndexOf(args, "--stage") == |before|;
    ParseIntDecimal(n, "");
    assert Decimal(n) + "" == Decimal(n);
  }

  /**
   * Whatever word follows the first `--stage`, the stage is the one its
   * parseInt value names when that value is 1 to 4, and none otherwise
   * (NaN included): " 3", "+3", "3x" and "03" all select stage 3.
   */
  lemma StageArgument(before: seq<string>, v: string, after: seq<string>)
    requires "--stage" !in before
    ensures SelectedStage(before + ["--stage", v] + after) ==
      if ParseInt(v).Some? && 1 <= ParseInt(v).value <= 4 then Some(ParseInt(v).value - 1) else None
  {
    var args := before + ["--stage", v] + after;
    StageOptionAt(before, ["--stage", v] + after);
    assert args == before + (["--stage", v] + after);
    assert args[|before| + 1] == v;
    StageOptionFollowedBy(args, |before|);
    StageWord(v);
  }

  /** Once a word follows the first `--stage`, that word alone decides. */
  lemma StageOptionFollowedBy(args: seq<string>, k: nat)
    requires IndexOf(args, "--stage") == k && k + 1 < |args|
    ensures SelectedStage(args) == StageOf(args[k + 1])
  {
    var r := SelectedStage(args);
    assert k != -1 && |args| > k + 1;
  }

  /** The stage a word names is the one its parseInt value numbers, when that is 1 to 4. */
  lemma StageWord(v: string)
    ensures StageOf(v) ==
      if ParseInt(v).Some? && 1 <= ParseInt(v).value <= 4 then Some(ParseInt(v).value - 1) else None
  {
    StageCount();
  }

  /** `--stage` as the last argument selects no stage. */
  lemma StageOptionLast(before: seq<string>)
    requires "--stage" !in before
    ensures SelectedStage(before + ["--stage"]).None?
  {
    StageOptionAt(before, ["--stage"]);
  }

  /** The first `--stage` of `before + rest` is the head of rest when before has none. */
  lemma StageOptionAt(before: seq<string>, rest: seq<string>)
    requires "--stage" !in before && rest != [] && rest[0] == "--stage"
    ensures IndexOf(before + rest, "--stage") == |before|
  {
    var args := before + rest;
    assert args[|before|] == "--stage";
    assert forall k :: 0 <= k < |before| ==> args[k] == before[k];
  }

  // ---------------------------------------------------------------------
  // main
  // ---------------------------------------------------------------------

  /**
   * What a run of the script leaves behind: its exit code, the flags
   * source file, the copy written to `<file>.backup` (None when none is
   * written), NEXT_PUBLIC_APP_VERSION as the build sees it, and whether
   * `npm run build` and `npx vercel --prod` were started.
   */
  datatype Outcome = Outcome(exitCode: int, flagsFile: string, backup: Option<string>,
                             version: Option<string>, buildRun: bool, publishRun: bool)

  /** The PROD_FLAGS block of the stage with index i. */
  function StageBlock(i: nat): string
    requires i < |Stages|
  {
    ProdBlock(StageFlags(Stages[i]))
  }

  /** What `--deploy` adds once the flags file is written. */
  function Deploy(args: seq<string>, i: nat, updated: string, backup: Option<string>,
                  buildOk: bool, publishOk: bool): (o: Outcome)
    ensures o.flagsFile == updated && o.backup == backup
    ensures o.buildRun <==> "--deploy" in args
    ensures o.version == if "--deploy" in args then Some("1.0.0-stage" + Decimal(i + 1)) else None
    ensures o.publishRun <==> o.buildRun && buildOk
    ensures o.exitCode == if !o.buildRun || (buildOk && publishOk) then 0 else 1
  {
    if "--deploy" !in args then Outcome(0, updated, backup, None, false, false)
    else
      var version := Some("1.0.0-stage" + Decimal(i + 1));
      if !buildOk then Outcome(1, updated, backup, version, true, false)
      else Outcome(if publishOk then 0 else 1, updated, backup, version, true, true)
  }

  predicate Informational(args: seq<string>) {
    WantsHelp(args) || "--list" in args
  }

  /**
   * The flags file after a run: rewritten with the selected stage's block
   * when a valid stage is given and the PROD_FLAGS block is found, as it
   * was otherwise.
   */
  function NewFile(args: seq<string>, flagsFile: string): (r: string)
    ensures r != flagsFile ==> !Informational(args) && SelectedStage(args).Some?
  {
    if Informational(args) then flagsFile
    else match SelectedStage(args)
      case None => flagsFile
      case Some(i) =>
        match ReplaceFirst(flagsFile, StageBlock(i))
        case None => flagsFile
        case Some(updated) => updated
  }

  /**
   * The run as a whole. `buildOk` and `publishOk` say whether the two
   * shell commands succeed.
   */
  function Run(args: seq<string>, flagsFile: string, buildOk: bool, publishOk: bool): (o: Outcome)
    ensures o.exitCode == 0 || o.exitCode == 1
    ensures o.flagsFile == NewFile(args, flagsFile)
    ensures Informational(args) ==> o == Outcome(0, flagsFile, None, None, false, false)
    ensures !Informational(args) ==> o.backup == if "--backup" in args then Some(flagsFile) else None
    ensures !Informational(args) && SelectedStage(args).None? ==> o.exitCode == 1 && !o.buildRun
    ensures o.buildRun ==>
      ("--deploy" in args && SelectedStage(args).Some? &&
       ReplaceFirst(flagsFile, StageBlock(SelectedStage(args).value)).Some? &&
       o.version == Some("1.0.0-stage" + Decimal(SelectedStage(args).value + 1)))
    ensures o.publishRun ==> o.buildRun && buildOk
    ensures o.exitCode == 0 && o.buildRun ==> o.publishRun && publishOk
    ensures !Informational(args) && SelectedStage(args).Some? &&
            ReplaceFirst(flagsFile, StageBlock(SelectedStage(args).value)).None? ==>
      o.exitCode == 1 && o.flagsFile == flagsFile && !o.buildRun
    ensures !Informational(args) && SelectedStage(args).Some? &&
            ReplaceFirst(flagsFile, StageBlock(SelectedStage(args).value)).Some? && "--deploy" !in args ==>
      o.exitCode == 0 && !o.buildRun && !o.publishRun &&
      o.flagsFile == ReplaceFirst(flagsFile, StageBlock(SelectedStage(args).value)).value
  {
    if Informational(args) then Outcome(0, flagsFile, None, None, false, false)
    else Proceed(args, flagsFile, if "--backup" in args then Some(flagsFile) else None, buildOk, publishOk)
  }

  /** The run after the backup step. */
  function Proceed(args: seq<string>, flagsFile: string, backup: Option<string>,
                   buildOk: bool, publishOk: bool): Outcome
  {
    match SelectedStage(args)
    case None => Outcome(1, flagsFile, backup, None, false, false)
    case Some(i) =>
      match ReplaceFirst(flagsFile, StageBlock(i))
      case None => Outcome(1, flagsFile, backup, None, false, false)
      case Some(updated) => Deploy(args, i, updated, backup, buildOk, publishOk)
  }

  /**
   * main, step by step, as the script runs it with its early exits; Run
   * is the specification it is proved against. Help and the listing exit
   * with 0 before anything else, the backup is taken before the stage is checked, an invalid
   * stage or a missing PROD_FLAGS block exits with 1 and leaves the file
   * as it was, and the build is started only after the file is written,
   * the publish only after a successful build.
   */
  method RunScript(args: seq<string>, flagsFile: string, buildOk: bool, publishOk: bool) returns (o: Outcome)
    ensures o == Run(args, flagsFile, buildOk, publishOk)
  {
    if "--help" in args || "-h" in args {
      return Outcome(0, flagsFile, None, None, false, false);
    }
    if "--list" in args {
      return Outcome(0, flagsFile, None, None, false, false);
    }
    var backup: Option<string> := None;
    if "--backup" in args {
      backup := Some(flagsFile);
    }
    o := SelectAndApply(args, flagsFile, backup, buildOk, publishOk);
  }

  /** main from the stage selection on, proved against the function Proceed. */
  method SelectAndApply(args: seq<string>, flagsFile: string, backup: Option<string>,
                        buildOk: bool, publishOk: bool) returns (o: Outcome)
    ensures o == Proceed(args, flagsFile, backup, buildOk, publishOk)
  {
    var selected := ReadStageArgument(args);
    if selected.None? {
      return Outcome(1, flagsFile, backup, None, false, false);
    }
    var stageIndex := selected.value;
    var updated := UpdateFeatureFlags(flagsFile, StageFlags(Stages[stageIndex]));
    if updated.None? {
      return Outcome(1, flagsFile, backup, None, false, false);
    }
    o := DeployStep(args, stageIndex, updated.value, backup, buildOk, publishOk);
  }

  /**
   * The stage argument: the word after the first `--stage`, read with
   * parseInt, minus one; None when main reports a missing or invalid
   * stage. The imperative reading of the function SelectedStage.
   */
  method ReadStageArgument(args: seq<string>) returns (stageIndex: Option<nat>)
    ensures stageIndex == SelectedStage(args)
  {
    StageCount();
    var stageArgIndex := IndexOf(args, "--stage");
    if stageArgIndex == -1 || |args| <= stageArgIndex + 1 {
      return None;
    }
    var parsed := ParseInt(args[stageArgIndex + 1]);
    if parsed.None? || parsed.value - 1 < 0 || parsed.value - 1 >= |Stages| {
      return None;
    }
    return Some(parsed.value - 1);
  }

  /**
   * The `--deploy` step as the script performs it: set the version,
   * build, and publish only after a successful build. Deploy is its
   * specification.
   */
  method DeployStep(args: seq<string>, stageIndex: nat, updated: string, backup: Option<string>,
                    buildOk: bool, publishOk: bool) returns (o: Outcome)
    ensures o == Deploy(args, stageIndex, updated, backup, buildOk, publishOk)
  {
    o := Outcome(0, updated, backup, None, false, false);
    if "--deploy" in args {
      o := o.(version := Some("1.0.0-stage" + Decimal(stageIndex + 1)), buildRun := true);
      if !buildOk {
        o := o.(exitCode := 1);
      } else {
        o := o.(publishRun := true);
        if !publishOk {
          o := o.(exitCode := 1);
        }
      }
    }
  }

  /**
   * Running the script twice with the same arguments leaves the flags
   * file as the first run left it.
   */
  lemma RunTwice(args: seq<string>, flagsFile: string)
    ensures NewFile(args, NewFile(args, flagsFile)) == NewFile(args, flagsFile)
  {
    if !Informational(args) && SelectedStage(args).Some? {
      var i := SelectedStage(args).value;
      var es := StageFlags(Stages[i]);
      if ReplaceFirst(flagsFile, ProdBlock(es)).Some? {
        StageLineKeys(Stages[i]);
        ApplyTwice(flagsFile, es);
      }
    }
  }
}
