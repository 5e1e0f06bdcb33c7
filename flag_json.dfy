/// The JSON text of a flag object as it is kept under the `featureFlags`
/// storage key: `JSON.stringify` of a flat object of booleans, and the
/// part of `JSON.parse` that reads such an object back (RFC 8259,
/// section 4, objects whose values are the literals `true` and `false`).
module FlagJson {
  import opened FeatureFlags

  /** A key JSON.stringify writes without escapes. */
  predicate PlainKey(k: string) {
    forall i :: 0 <= i < |k| ==> k[i] != '"' && k[i] != '\\' && k[i] >= ' '
  }

  predicate PlainKeys(fs: FlagSet) {
    forall i :: 0 <= i < |fs| ==> PlainKey(fs[i].key)
  }

  function Literal(b: bool): string {
    if b then "true" else "false"
  }

  function Member(f: Field): string {
    "\"" + f.key + "\":" + Literal(f.on)
  }

  function Members(fs: FlagSet): string
    decreases |fs|
  {
    if |fs| == 0 then ""
    else if |fs| == 1 then Member(fs[0])
    else Member(fs[0]) + "," + Members(fs[1..])
  }

  /** `JSON.stringify(flags)`: no white space, keys in insertion order. */
  function Stringify(fs: FlagSet): string
    requires PlainKeys(fs)
  {
    "{" + Members(fs) + "}"
  }

  /** The four JSON white-space characters. */
  predicate IsWs(c: char) {
    c == ' ' || c == '\t' || c == '\n' || c == '\r'
  }

  function SkipWs(s: string): (r: string)
    ensures |r| <= |s|
    ensures r != [] ==> !IsWs(r[0])
  {
    if s != [] && IsWs(s[0]) then SkipWs(s[1..]) else s
  }

  /**
   * The characters of a key up to its closing quote (the opening quote is
   * already consumed) and what follows the closing quote. An escape or a
   * control character is not read here.
   */
  function ScanKey(s: string): (r: Option<(string, string)>)
    ensures r.Some? ==> |r.value.1| < |s| && PlainKey(r.value.0)
  {
    if s == [] then None
    else if s[0] == '"' then Some(([], s[1..]))
    else if s[0] == '\\' || s[0] < ' ' then None
    else match ScanKey(s[1..])
      case None => None
      case Some((k, rest)) => Some(([s[0]] + k, rest))
  }

  function ParseLiteral(s: string): (r: Option<(bool, string)>)
    ensures r.Some? ==> |r.value.1| < |s|
  {
    if |s| >= 4 && s[..4] == "true" then Some((true, s[4..]))
    else if |s| >= 5 && s[..5] == "false" then Some((false, s[5..]))
    else None
  }

  /** `"key" ws : ws literal` */
  function ParseMember(s: string): (r: Option<(Field, string)>)
    ensures r.Some? ==> |r.value.1| < |s| && PlainKey(r.value.0.key)
  {
    if s == [] || s[0] != '"' then None
    else match ScanKey(s[1..])
      case None => None
      case Some((key, rest)) =>
        var t := SkipWs(rest);
        if t == [] || t[0] != ':' then None
        else match ParseLiteral(SkipWs(t[1..]))
          case None => None
          case Some((b, rest')) => Some((Field(key, b), rest'))
  }

  /** `member ws (, ws member ws)* }`: the members of an object and what follows its `}`. */
  function ParseMembers(s: string): (r: Option<(seq<Field>, string)>)
    ensures r.Some? ==> PlainKeys(r.value.0)
    decreases |s|
  {
    match ParseMember(s)
    case None => None
    case Some((f, rest)) =>
      var t := SkipWs(rest);
      if t != [] && t[0] == ',' then
        match ParseMembers(SkipWs(t[1..]))
        case None => None
        case Some((fs, rest')) => PlainCons(f, fs); Some(([f] + fs, rest'))
      else if t != [] && t[0] == '}' then Some(([f], t[1..]))
      else None
  }

  lemma PlainCons(f: Field, fs: FlagSet)
    requires PlainKey(f.key) && PlainKeys(fs)
    ensures PlainKeys([f] + fs)
  {
    forall i | 0 <= i < |fs| + 1 ensures PlainKey(([f] + fs)[i].key) {
      if i > 0 { assert ([f] + fs)[i] == fs[i - 1]; }
    }
  }

  /**
   * `JSON.parse(text)` when the text is a flat object of booleans: the
   * object it builds, where a repeated key keeps its first place and its
   * last value. None when the text is anything else.
   */
  function Parse(text: string): (r: Option<FlagSet>)
    ensures r.Some? ==> UniqueKeys(r.value) && PlainKeys(r.value)
  {
    var t := SkipWs(text);
    if t == [] || t[0] != '{' then None
    else
      var u := SkipWs(t[1..]);
      if u != [] && u[0] == '}' then
        if SkipWs(u[1..]) == [] then Some([]) else None
      else match ParseMembers(u)
        case None => None
        case Some((fields, rest)) =>
          if SkipWs(rest) == [] then ParsedObject(fields) else None
  }

  function ParsedObject(fields: seq<Field>): (r: Option<FlagSet>)
    requires PlainKeys(fields)
    ensures r.Some? && UniqueKeys(r.value) && PlainKeys(r.value)
  {
    ObjectKeys([], fields);
    Some(Override([], fields))
  }

  /** The object built from parsed members has distinct keys, all of them read from the text. */
  lemma {:induction false} ObjectKeys(base: FlagSet, fields: seq<Field>)
    requires UniqueKeys(base) && PlainKeys(base) && PlainKeys(fields)
    ensures UniqueKeys(Override(base, fields)) && PlainKeys(Override(base, fields))
    decreases |fields|
  {
    if fields != [] {
      var a := Assign(base, fields[0].key, fields[0].on);
      AssignKeys(base, fields[0].key, fields[0].on);
      assert Keys(a) == Keys(base) || Keys(a) == Keys(base) + [fields[0].key];
      forall i | 0 <= i < |a| ensures PlainKey(a[i].key) {
        assert a[i].key == Keys(a)[i];
        if i < |base| { assert Keys(base)[i] == base[i].key; }
      }
      assert PlainKeys(fields[1..]) by {
        forall i | 0 <= i < |fields| - 1 ensures PlainKey(fields[1..][i].key) {
          assert fields[1..][i] == fields[i + 1];
        }
      }
      ObjectKeys(a, fields[1..]);
    }
  }

  // ---------------------------------------------------------------------
  // Round trip
  // ---------------------------------------------------------------------

  lemma {:induction false} ScanKeyPlain(k: string, rest: string)
    requires PlainKey(k)
    ensures ScanKey(k + "\"" + rest) == Some((k, rest))
    decreases |k|
  {
    var s := k + "\"" + rest;
    if k == [] {
      assert s == "\"" + rest;
    } else {
      assert s[0] == k[0];
      assert s[1..] == k[1..] + "\"" + rest;
      ScanKeyPlain(k[1..], rest);
      assert [k[0]] + k[1..] == k;
    }
  }

  lemma MemberRoundTrip(f: Field, rest: string)
    requires PlainKey(f.key)
    ensures ParseMember(Member(f) + rest) == Some((f, rest))
  {
    var s := Member(f) + rest;
    var lit := Literal(f.on);
    assert s == "\"" + (f.key + "\"" + (":" + lit + rest));
    assert s[1..] == f.key + "\"" + (":" + lit + rest);
    ScanKeyPlain(f.key, ":" + lit + rest);
    var t := ":" + lit + rest;
    assert SkipWs(t) == t;
    assert t[1..] == lit + rest;
    assert SkipWs(lit + rest) == lit + rest;
    if f.on {
      assert (lit + rest)[..4] == "true" && (lit + rest)[4..] == rest;
    } else {
      assert (lit + rest)[..4] != "true" by { assert (lit + rest)[0] == 'f'; }
      assert (lit + rest)[..5] == "false" && (lit + rest)[5..] == rest;
    }
  }

  lemma MembersHead(fs: FlagSet)
    requires |fs| >= 1
    ensures Members(fs)[0] == '"'
  {
    assert Members(fs) == if |fs| == 1 then Member(fs[0]) else Member(fs[0]) + "," + Members(fs[1..]);
  }

  /** The last member, then the closing brace. */
  lemma ParseMembersLast(f: Field, rest: string)
    requires PlainKey(f.key)
    ensures ParseMembers(Member(f) + "}" + rest) == Some(([f], rest))
  {
    MemberRoundTrip(f, "}" + rest);
    assert Member(f) + "}" + rest == Member(f) + ("}" + rest);
    assert SkipWs("}" + rest) == "}" + rest;
    assert ("}" + rest)[1..] == rest;
  }

  /** One member and a comma before members that parse. */
  lemma ParseMembersStep(f: Field, tail: string, fs: FlagSet, rest: string)
    requires PlainKey(f.key)
    requires tail != [] && tail[0] == '"'
    requires ParseMembers(tail) == Some((fs, rest))
    ensures ParseMembers(Member(f) + "," + tail) == Some(([f] + fs, rest))
  {
    var t := "," + tail;
    MemberRoundTrip(f, t);
    CommaThenMembers(tail);
    assert Member(f) + "," + tail == Member(f) + t;
  }

  /** A comma, then members: white-space skipping stops at each. */
  lemma CommaThenMembers(tail: string)
    requires tail != [] && tail[0] == '"'
    ensures SkipWs("," + tail) == "," + tail
    ensures ("," + tail)[1..] == tail && SkipWs(tail) == tail
  {
  }

  lemma PlainKeysTail(fs: FlagSet)
    requires |fs| >= 1 && PlainKeys(fs)
    ensures PlainKey(fs[0].key) && PlainKeys(fs[1..])
  {
    forall i | 0 <= i < |fs| - 1 ensures PlainKey(fs[1..][i].key) {
      assert fs[1..][i] == fs[i + 1];
    }
  }

  lemma MembersCons(fs: FlagSet, rest: string)
    requires |fs| >= 2
    ensures Members(fs) + "}" + rest == Member(fs[0]) + "," + (Members(fs[1..]) + "}" + rest)
  {
  }

  lemma {:induction false} MembersRoundTrip(fs: FlagSet, rest: string)
    requires |fs| >= 1 && PlainKeys(fs)
    ensures ParseMembers(Members(fs) + "}" + rest) == Some((fs, rest))
    decreases |fs|
  {
    PlainKeysTail(fs);
    if |fs| == 1 {
      ParseMembersLast(fs[0], rest);
      assert [fs[0]] == fs;
    } else {
      MembersRoundTrip(fs[1..], rest);
      MembersHead(fs[1..]);
      MembersCons(fs, rest);
      ParseMembersStep(fs[0], Members(fs[1..]) + "}" + rest, fs[1..], rest);
      assert [fs[0]] + fs[1..] == fs;
    }
  }

  /**
   * Parsing what JSON.stringify wrote gives back the same object: the
   * same keys in the same order with the same values.
   */
  lemma ParseStringify(fs: FlagSet)
    requires UniqueKeys(fs) && PlainKeys(fs)
    ensures Parse(Stringify(fs)) == Some(fs)
  {
    var text := Stringify(fs);
    OpenBrace(Members(fs) + "}");
    if fs == [] {
      assert text[1..] == "}";
    } else {
      MembersHead(fs);
      MembersRoundTrip(fs, "");
      assert text[1..] == Members(fs) + "}" + "";
      OverrideFresh([], fs);
      assert [] + fs == fs;
    }
  }

  /** White-space skipping stops at the opening brace and at the next character. */
  lemma OpenBrace(body: string)
    requires body != [] && (body[0] == '"' || body[0] == '}')
    ensures SkipWs("{" + body) == "{" + body
    ensures ("{" + body)[1..] == body && SkipWs(body) == body
  {
  }

}
