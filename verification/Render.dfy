/**
 `render`: a command template plus request parameters becomes one command line
 (internal/actions/engine.go:264-318, internal/actions/catalog.go:80-95).

 Main results: sequential rendering equals one simultaneous substitution exactly
 when no value contains the placeholder of a parameter declared after its own;
 then rendering succeeds exactly when every parameter is declared once, used and
 valid, and the order of the parameters does not matter.
 */
module Render {
  import opened Base
  import opened Numbers
  import opened Substitution

  // ---- Parameters -----------------------------------------------------------

  /** The allowlist regular expressions the catalog shares between parameters. */
  datatype Pattern = UnitName | Pid | SmallInt | AbsPath | ObjectName | HostName | HttpUrl

  predicate IsAlnum(c: char) { IsDigit(c) || 'A' <= c <= 'Z' || 'a' <= c <= 'z' }

  predicate AllOf(s: Text, allowed: char -> bool) {
    forall c <- s :: allowed(c)
  }

  predicate Among(c: char, extra: Text) { IsAlnum(c) || c in extra }

  /** One character of one class, then between `lo` and `hi` of another. */
  predicate HeadAndTail(s: Text, head: char -> bool, tail: char -> bool, lo: nat, hi: nat) {
    s != [] && head(s[0]) && lo <= |s| - 1 <= hi && AllOf(s[1..], tail)
  }

  const URL_CHARS: Text := "._~:/?#@!$&'()*+,;=%-"

  /** `MatchString` of each pattern. */
  predicate Matches(p: Pattern, v: Text) {
    match p
    case UnitName => HeadAndTail(v, IsAlnum, c => Among(c, "@._:\\-"), 0, 254)
    case Pid => 1 <= |v| <= 10 && AllOf(v, IsDigit)
    case SmallInt => 1 <= |v| <= 6 && AllOf(v, IsDigit)
    case AbsPath => HeadAndTail(v, c => c == '/', c => Among(c, "._/-"), 0, 255)
    case ObjectName => HeadAndTail(v, IsAlnum, c => Among(c, "@._:/-"), 0, 127)
    case HostName => HeadAndTail(v, IsAlnum, c => Among(c, ".-"), 0, 253)
    case HttpUrl => MatchesUrl(v, "http://") || MatchesUrl(v, "https://")
  }

  predicate MatchesUrl(v: Text, scheme: Text) {
    scheme <= v && 1 <= |v| - |scheme| <= 1000 && AllOf(v[|scheme|..], c => Among(c, URL_CHARS))
  }

  datatype Param = Param(name: Text, pattern: Option<Pattern>)

  datatype RenderError = NotUsed(name: Text) | Missing(name: Text) | BadValue(name: Text)

  type Values = map<Text, Text>

  // ---- Free-text parameters -------------------------------------------------

  /** Bytes of one character in UTF-8; the length cap counts bytes. */
  function ByteLength(c: char): nat {
    if c as int < 0x80 then 1 else if c as int < 0x800 then 2 else if c as int < 0x10000 then 3 else 4
  }

  function BytesOf(s: Text): nat {
    if s == [] then 0 else ByteLength(s[0]) + BytesOf(s[1..])
  }

  predicate IsControl(c: char) {
    (c as int < 0x20 && c != '\t') || c as int == 0x7f
  }

  predicate FreeTextOk(v: Text) {
    BytesOf(v) <= 512 && forall c <- v :: !IsControl(c)
  }

  /** `safeFreeParam`: caps the length and scans for control characters. */
  method SafeFreeParam(v: Text) returns (ok: bool)
    ensures ok <==> FreeTextOk(v)
  {
    if BytesOf(v) > 512 {
      return false;
    }
    for i := 0 to |v|
      invariant forall c <- v[..i] :: !IsControl(c)
    {
      if IsControl(v[i]) {
        return false;
      }
      assert v[..i + 1] == v[..i] + [v[i]];
    }
    assert v[..|v|] == v;
    return true;
  }

  predicate ValueOk(p: Param, v: Text) {
    match p.pattern
    case Some(re) => Matches(re, v)
    case None => FreeTextOk(v)
  }

  // ---- Quoting and rendering ------------------------------------------------

  const QUOTE: Text := "'"
  /** Leave the quotes, one escaped quote, back into the quotes. */
  const ESCAPED_QUOTE: Text := "'\\''"

  function ShellQuote(v: Text): Text {
    QUOTE + ReplaceAll(v, QUOTE, ESCAPED_QUOTE) + QUOTE
  }

  /** The rendering loop from some point on: `cmd` so far, `params` still to do. */
  function RenderFrom(cmd: Text, params: seq<Param>, values: Values): Result<Text, RenderError>
    decreases params
  {
    if params == [] then Ok(cmd)
    else
      var p := params[0];
      if !Contains(cmd, Placeholder(p.name)) then Err(NotUsed(p.name))
      else if p.name !in values || values[p.name] == "" then Err(Missing(p.name))
      else if !ValueOk(p, values[p.name]) then Err(BadValue(p.name))
      else RenderFrom(ReplaceAll(cmd, Placeholder(p.name), ShellQuote(values[p.name])), params[1..], values)
  }

  /** `render` for an action: script actions show the transport, others their template. */
  function RenderAction(script: Text, command: Text, params: seq<Param>, values: Values): Result<Text, RenderError> {
    if script != "" then Ok("sh -s") else RenderFrom(command, params, values)
  }

  method Render(script: Text, command: Text, params: seq<Param>, values: Values)
    returns (res: Result<Text, RenderError>)
    ensures res == RenderAction(script, command, params, values)
  {
    if script != "" {
      return Ok("sh -s");
    }
    var cmd := command;
    for i := 0 to |params|
      invariant RenderFrom(command, params, values) == RenderFrom(cmd, params[i..], values)
    {
      var p := params[i];
      var ph := Placeholder(p.name);
      if !Contains(cmd, ph) {
        return Err(NotUsed(p.name));
      }
      if p.name !in values || values[p.name] == "" {
        return Err(Missing(p.name));
      }
      var v := values[p.name];
      if p.pattern.Some? {
        if !Matches(p.pattern.value, v) {
          return Err(BadValue(p.name));
        }
      } else {
        var ok := SafeFreeParam(v);
        if !ok {
          return Err(BadValue(p.name));
        }
      }
      cmd := ReplaceAll(cmd, ph, ShellQuote(v));
      assert params[i..][1..] == params[i + 1..];
    }
    return Ok(cmd);
  }

  // ---- The simultaneous substitution ----------------------------------------

  function Names(params: seq<Param>): (names: seq<Text>)
    ensures |names| == |params|
    ensures forall i :: 0 <= i < |params| ==> names[i] == params[i].name
  {
    if params == [] then [] else [params[0].name] + Names(params[1..])
  }

  predicate Distinct(names: seq<Text>) {
    forall i, j :: 0 <= i < j < |names| ==> names[i] != names[j]
  }

  predicate Provided(params: seq<Param>, values: Values) {
    forall p <- params :: p.name in values
  }

  /** What each placeholder is replaced by. */
  type Texts = map<Text, Text>

  function QuoteAll(values: Values): Texts {
    map n | n in values :: ShellQuote(values[n])
  }

  function Filling(item: Item, texts: Texts): Text {
    match item
    case Lit(c) => [c]
    case Hole(n) => if n in texts then texts[n] else ""
  }

  function Fill(items: Items, texts: Texts): Text {
    if items == [] then [] else Filling(items[0], texts) + Fill(items[1..], texts)
  }

  /** The reference: one pass over the template, every hole filled at once. */
  function Simultaneous(template: Text, params: seq<Param>, values: Values): Text {
    Fill(Parse(template, Names(params)), QuoteAll(values))
  }

  /** What the loop computes when no check fails: one `ReplaceAll` per parameter. */
  function Sequential(cmd: Text, params: seq<Param>, values: Values): Text
    requires Provided(params, values)
    decreases params
  {
    if params == [] then cmd
    else
      var p := params[0];
      Sequential(ReplaceAll(cmd, Placeholder(p.name), ShellQuote(values[p.name])), params[1..], values)
  }

  lemma {:induction false} RenderedIsSequential(cmd: Text, params: seq<Param>, values: Values)
    requires RenderFrom(cmd, params, values).Ok?
    ensures Provided(params, values)
    ensures RenderFrom(cmd, params, values).value == Sequential(cmd, params, values)
    decreases params
  {
    if params != [] {
      var p := params[0];
      RenderedIsSequential(ReplaceAll(cmd, Placeholder(p.name), ShellQuote(values[p.name])), params[1..], values);
      assert params == [p] + params[1..];
    }
  }

  /** No value mentions the placeholder of a parameter that is substituted after it. */
  predicate NoLaterPlaceholder(params: seq<Param>, values: Values) {
    forall i, j :: 0 <= i < j < |params| && params[i].name in values ==>
      !Contains(values[params[i].name], Placeholder(params[j].name))
  }

  lemma NoLaterTail(params: seq<Param>, values: Values)
    requires params != [] && NoLaterPlaceholder(params, values)
    ensures NoLaterPlaceholder(params[1..], values)
  {
    var tail := params[1..];
    forall i, j | 0 <= i < j < |tail| && tail[i].name in values
      ensures !Contains(values[tail[i].name], Placeholder(tail[j].name))
    {
      assert params[i + 1] == tail[i] && params[j + 1] == tail[j];
    }
  }

  // ---- Occurrences and holes ------------------------------------------------

  /** A placeholder occurs in a text exactly when reading the text finds that hole. */
  lemma {:induction false} OccursIffHole(s: Text, name: Text, names: seq<Text>)
    requires PlainNames(names) && name in names
    ensures Contains(s, Placeholder(name)) <==> Hole(name) in Parse(s, names)
    decreases |s|
  {
    var ph := Placeholder(name);
    if s != [] {
      var k := HoleIndex(s, names);
      ParseFirst(s, names);
      if k < |names| && names[k] != name {
        var other := names[k];
        var n := |Placeholder(other)|;
        OccursIffHole(s[n..], name, names);
        forall i | 0 <= i < n ensures !(ph <= s[i..]) {
          NoOverlap(s, other, name, i);
        }
        OccursAfter(s, ph, n);
      } else if k < |names| {
        assert s[0..] == s;
      } else {
        OccursIffHole(s[1..], name, names);
        assert s[0..] == s;
        OccursAfter(s, ph, 1);
      }
    }
  }

  lemma OccursAfter(s: Text, ph: Text, n: nat)
    requires n <= |s| && forall i :: 0 <= i < n ==> !(ph <= s[i..])
    ensures OccursIn(ph, s) <==> OccursIn(ph, s[n..])
  {
    forall i | 0 <= i <= |s| - n ensures s[n..][i..] == s[n + i..] {
    }
    if OccursIn(ph, s) {
      var i :| 0 <= i <= |s| && ph <= s[i..];
      assert ph <= s[n..][i - n..];
    }
    if OccursIn(ph, s[n..]) {
      var i :| 0 <= i <= |s[n..]| && ph <= s[n..][i..];
      assert ph <= s[n + i..];
    }
  }

  /** What quoting does to a reading: each quote becomes its escape, holes stay. */
  function EscapeItems(items: Items): Items {
    if items == [] then []
    else (if items[0] == Lit('\'') then Lits(ESCAPED_QUOTE) else [items[0]]) + EscapeItems(items[1..])
  }

  lemma NoBraceNoHole(s: Text, name: Text)
    requires s != [] && s[0] != '{'
    ensures !(Placeholder(name) <= s)
  {
  }

  lemma ParseEscaped(names: seq<Text>)
    requires PlainNames(names)
    ensures Parse(ESCAPED_QUOTE, names) == Lits(ESCAPED_QUOTE)
    ensures Parse(QUOTE, names) == Lits(QUOTE)
  {
    ParseNoBrace(ESCAPED_QUOTE, names);
    ParseNoBrace(QUOTE, names);
  }

  lemma {:induction false} ParseNoBrace(s: Text, names: seq<Text>)
    requires '{' !in s
    ensures Parse(s, names) == Lits(s)
  {
    if s != [] {
      assert s[0] in s;
      forall n | n in names ensures !(Placeholder(n) <= s) {
        NoBraceNoHole(s, n);
      }
      ParseNoBrace(s[1..], names);
    }
  }

  /** Escaping the quotes of a text that starts with a placeholder. */
  lemma EscapeAtHole(v: Text, names: seq<Text>)
    requires PlainNames(names) && v != [] && HoleIndex(v, names) < |names|
    ensures var n := FirstLength(v, names);
            Parse(ReplaceAll(v, QUOTE, ESCAPED_QUOTE), names)
            == [FirstItem(v, names)] + Parse(ReplaceAll(v[n..], QUOTE, ESCAPED_QUOTE), names)
  {
    var name := names[HoleIndex(v, names)];
    var ph := Placeholder(name);
    var t := v[|ph|..];
    var rest := ReplaceAll(t, QUOTE, ESCAPED_QUOTE);
    PlaceholderChars(name);
    forall i | 0 <= i < |ph| ensures !(QUOTE <= ph[i..] + t) {
      assert (ph[i..] + t)[0] == ph[i];
    }
    assert v == ph + t;
    ReplaceSkips(ph, t, QUOTE, ESCAPED_QUOTE);
    ParseStepHole(ph + rest, name, names);
    assert (ph + rest)[|ph|..] == rest;
  }

  /** Escaping the quotes of a text that starts with an ordinary character. */
  lemma EscapeAtChar(v: Text, names: seq<Text>)
    requires PlainNames(names) && v != [] && v[0] != '\'' && HoleIndex(v, names) == |names|
    ensures Parse(ReplaceAll(v, QUOTE, ESCAPED_QUOTE), names)
         == [Lit(v[0])] + Parse(ReplaceAll(v[1..], QUOTE, ESCAPED_QUOTE), names)
  {
    var rest := ReplaceAll(v[1..], QUOTE, ESCAPED_QUOTE);
    var out := [v[0]] + rest;
    assert ReplaceAll(v, QUOTE, ESCAPED_QUOTE) == out;
    forall m | m in names ensures !(Placeholder(m) <= out) {
      PlaceholderChars(m);
      if Placeholder(m) <= out {
        PrefixSurvives(Placeholder(m), v, QUOTE, ESCAPED_QUOTE);
      }
    }
    assert HoleIndex(out, names) == |names|;
    assert out[1..] == rest;
  }

  lemma {:induction false} ParseQuoted(v: Text, names: seq<Text>)
    requires PlainNames(names)
    ensures Parse(ReplaceAll(v, QUOTE, ESCAPED_QUOTE), names) == EscapeItems(Parse(v, names))
    decreases |v|
  {
    if v != [] {
      var n := FirstLength(v, names);
      ParseFirst(v, names);
      ParseQuoted(v[n..], names);
      assert ([FirstItem(v, names)] + Parse(v[n..], names))[1..] == Parse(v[n..], names);
      if HoleIndex(v, names) < |names| {
        EscapeAtHole(v, names);
      } else if v[0] == '\'' {
        ParseEscaped(names);
        ParseAtSeam(ESCAPED_QUOTE, ReplaceAll(v[1..], QUOTE, ESCAPED_QUOTE), names);
      } else {
        EscapeAtChar(v, names);
      }
    }
  }

  /** The reading of a quoted value: the quotes, around the escaped reading of the value. */
  lemma ParseShellQuote(v: Text, names: seq<Text>)
    requires PlainNames(names)
    ensures Parse(ShellQuote(v), names) == Lits(QUOTE) + EscapeItems(Parse(v, names)) + Lits(QUOTE)
  {
    var body := ReplaceAll(v, QUOTE, ESCAPED_QUOTE);
    ParseEscaped(names);
    ParseQuoted(v, names);
    ParseAtSeam(QUOTE + body, QUOTE, names);
    ParseAtSeam(QUOTE, body, names);
  }

  lemma {:induction false} EscapeKeepsHoles(items: Items, name: Text)
    ensures Hole(name) in EscapeItems(items) <==> Hole(name) in items
  {
    if items != [] {
      EscapeKeepsHoles(items[1..], name);
      assert items == [items[0]] + items[1..];
      assert Hole(name) !in Lits(ESCAPED_QUOTE);
    }
  }

  /** Quoting a value neither adds nor removes a placeholder. */
  lemma QuoteKeepsHoles(v: Text, name: Text, names: seq<Text>)
    requires PlainNames(names) && name in names
    ensures Hole(name) in Parse(ShellQuote(v), names) <==> Contains(v, Placeholder(name))
  {
    ParseShellQuote(v, names);
    EscapeKeepsHoles(Parse(v, names), name);
    OccursIffHole(v, name, names);
  }
}
