/**
 Which actions can be rendered into something else than their template: exactly
 those with a free-text parameter that another parameter follows
 (internal/actions/engine.go:278-296, internal/api/custom_actions.go:60-69).
 */
module RenderSafety {
  import opened Base
  import opened Substitution
  import opened Numbers
  import opened Render
  import opened RenderOrder
  import opened RenderMeaning
  import opened ShellWords

  // ---- What a saved action looks like ----------------------------------------

  predicate NameChar(c: char) { 'a' <= c <= 'z' || IsDigit(c) || c == '_' }

  /** `reParamName`. */
  predicate ParamNameOk(name: Text) {
    HeadAndTail(name, c => 'a' <= c <= 'z', NameChar, 0, 31)
  }

  /** The checks `createCustomAction` makes on parameters. */
  predicate Saveable(template: Text, params: seq<Param>) {
    (forall p <- params :: ParamNameOk(p.name)) && AllUsed(template, params)
  }

  lemma {:induction false} AsciiBytes(s: Text)
    requires forall c <- s :: c as int < 0x80
    ensures BytesOf(s) == |s|
  {
    if s != [] {
      assert s[0] in s && forall c <- s[1..] :: c in s;
      AsciiBytes(s[1..]);
    }
  }

  lemma NameChars(name: Text)
    requires ParamNameOk(name)
    ensures |name| <= 32 && forall c <- name :: NameChar(c)
  {
    assert name == [name[0]] + name[1..];
  }

  /** A saved parameter's placeholder is itself acceptable free text. */
  lemma PlaceholderIsFreeText(name: Text)
    requires ParamNameOk(name)
    ensures PlainName(name) && FreeTextOk(Placeholder(name))
  {
    NameChars(name);
    var ph := Placeholder(name);
    forall c | c in ph ensures c as int < 0x80 && !IsControl(c) {
      assert c in "{{" || c in name || c in "}}";
    }
    AsciiBytes(ph);
  }

  lemma SaveableIsPlain(template: Text, params: seq<Param>)
    requires Saveable(template, params)
    ensures PlainParams(params)
  {
    forall p | p in params ensures PlainName(p.name) {
      PlaceholderIsFreeText(p.name);
    }
  }

  // ---- A request whose value spells the next placeholder ---------------------

  /** Characters that mean themselves to the shell, quoted or not. */
  predicate BareChar(c: char) { IsAlnum(c) || c == '/' || c == ':' }

  predicate BareText(v: Text) {
    v != "" && forall c <- v :: BareChar(c)
  }

  /** Parameter i is given the placeholder of parameter i + 1, the others bare text. */
  predicate Spells(params: seq<Param>, i: nat, values: Values) {
    && i + 1 < |params| && Provided(params, values)
    && values[params[i].name] == Placeholder(params[i + 1].name)
    && forall j :: 0 <= j < |params| && j != i ==> BareText(values[params[j].name])
  }

  lemma {:induction false} NothingToEscape(v: Text)
    requires '\'' !in v
    ensures ReplaceAll(v, QUOTE, ESCAPED_QUOTE) == v
  {
    if v != [] {
      assert v[0] in v;
      assert !(QUOTE <= v);
      NothingToEscape(v[1..]);
    }
  }

  /** A text without braces goes through the remaining parameters unchanged. */
  lemma BracelessStays(s: Text, params: seq<Param>, values: Values)
    requires PlainParams(params) && Provided(params, values) && '{' !in s
    ensures Sequential(s, params, values) == s
  {
    ParseNoBrace(s, Names(params));
    UnmentionedStays(s, params, values);
  }

  lemma BareQuoted(v: Text)
    requires BareText(v)
    ensures ShellQuote(v) == QUOTE + v + QUOTE && '{' !in ShellQuote(v)
  {
    NothingToEscape(v);
  }

  lemma SpelledPass(b: Text, ins: Text)
    requires PlainName(b)
    ensures ReplaceAll(ShellQuote(Placeholder(b)), Placeholder(b), ins) == QUOTE + ins + QUOTE
  {
    var ph := Placeholder(b);
    PlaceholderChars(b);
    NothingToEscape(ph);
    assert ShellQuote(ph) == QUOTE + (ph + QUOTE);
    forall k | 0 <= k < |QUOTE| ensures !(ph <= QUOTE[k..] + (ph + QUOTE)) {
      assert (QUOTE[k..] + (ph + QUOTE))[0] == '\'';
    }
    ReplaceSkips(QUOTE, ph + QUOTE, ph, ins);
    assert (ph + QUOTE)[|ph|..] == QUOTE;
    assert ReplaceAll(QUOTE, ph, ins) == QUOTE;
    assert QUOTE + (ins + QUOTE) == QUOTE + ins + QUOTE;
  }

  lemma NamesDiffer(params: seq<Param>, i: nat, j: nat)
    requires i < |params| && j < |params| && i != j && Distinct(Names(params))
    ensures params[i].name != params[j].name
  {
    DistinctAt(Names(params), i, j);
  }

  lemma DistinctAt(names: seq<Text>, i: nat, j: nat)
    requires i < |names| && j < |names| && i != j && Distinct(names)
    ensures names[i] != names[j]
  {
    if i < j {
      assert names[i] != names[j];
    } else {
      assert names[j] != names[i];
    }
  }

  lemma {:induction false} NestedAt(params: seq<Param>, values: Values, j: nat)
    requires j < |params| && Provided(params, values) && Distinct(Names(params))
    ensures params[j].name in values && params[j].name in Nested(params, values)
    ensures forall p <- params[j + 1..] :: p in params
    ensures Nested(params, values)[params[j].name]
         == Sequential(ShellQuote(values[params[j].name]), params[j + 1..], values)
  {
    assert params[j] in params;
    if j > 0 {
      var tail := params[1..];
      NamesTailDistinct(params);
      NestedAt(tail, values, j - 1);
      assert tail[j - 1] == params[j] && tail[j..] == params[j + 1..];
      NamesDiffer(params, 0, j);
    }
  }

  /** The value between two empty quoted stretches: unquoted. */
  function Exposed(v: Text): Text {
    QUOTE + (QUOTE + v + QUOTE) + QUOTE
  }

  lemma NestedBare(params: seq<Param>, values: Values, i: nat, j: nat)
    requires PlainParams(params) && Distinct(Names(params)) && Spells(params, i, values)
    requires j < |params| && j != i
    ensures params[j].name in Nested(params, values)
    ensures Nested(params, values)[params[j].name] == ShellQuote(values[params[j].name])
  {
    NestedAt(params, values, j);
    BareQuoted(values[params[j].name]);
    BracelessStays(ShellQuote(values[params[j].name]), params[j + 1..], values);
  }

  lemma NestedSpelled(params: seq<Param>, values: Values, i: nat)
    requires PlainParams(params) && Distinct(Names(params)) && Spells(params, i, values)
    ensures params[i].name in Nested(params, values)
    ensures Nested(params, values)[params[i].name] == Exposed(values[params[i + 1].name])
  {
    var rest := params[i + 1..];
    var v := values[params[i + 1].name];
    assert params[i + 1] in params && params[i + 1] == rest[0];
    NestedAt(params, values, i);
    SpelledPass(rest[0].name, ShellQuote(v));
    BareQuoted(v);
    BracelessStays(Exposed(v), rest[1..], values);
  }

  // ---- How the shell reads it ------------------------------------------------

  /** Characters that are ordinary inside a word, quoted or not. */
  predicate WordChar(c: char) { BareChar(c) || c == '_' || c == '{' || c == '}' }

  /** In a word, unquoted or between single quotes. */
  predicate InAWord(l: Lexer) {
    l.cur.InWord? && (l.mode == Plain || l.mode == Single)
  }

  lemma {:induction false} RunChars(l: Lexer, s: Text)
    requires InAWord(l) && forall c <- s :: WordChar(c)
    ensures Run(l, s) == Append(l, Chars(s, l.mode == Single))
    decreases |s|
  {
    var quoted := l.mode == Single;
    if s == [] {
      assert l.cur.elems + [] == l.cur.elems;
    } else {
      assert s[0] in s;
      WordCharIsOrdinary(l, s[0]);
      RunChars(Append(l, [Ch(s[0], quoted)]), s[1..]);
      AppendTwice(l, [Ch(s[0], quoted)], Chars(s[1..], quoted));
    }
  }

  lemma WordCharIsOrdinary(l: Lexer, c: char)
    requires InAWord(l) && WordChar(c)
    ensures Step(l, c) == Append(l, [Ch(c, l.mode == Single)])
  {
    assert !IsOperator([c]) && !IsBlank(c);
  }

  lemma RunEmptyQuotes(l: Lexer)
    requires l.mode == Plain
    ensures Run(l, QUOTE + QUOTE) == OpenWord(l)
  {
    assert (QUOTE + QUOTE)[0] == '\'' && (QUOTE + QUOTE)[1..] == QUOTE && QUOTE[1..] == [];
  }

  lemma ExposedIsRead(v: Text)
    requires BareText(v)
    ensures ReadAs(Exposed(v), Chars(v, false))
  {
    var q := QUOTE + QUOTE;
    assert Exposed(v) == q + (v + q);
    forall l: Lexer | l.mode == Plain ensures Run(l, Exposed(v)) == Append(l, Chars(v, false)) {
      RunConcat(l, q, v + q);
      RunEmptyQuotes(l);
      RunConcat(OpenWord(l), v, q);
      RunChars(OpenWord(l), v);
      RunEmptyQuotes(Append(OpenWord(l), Chars(v, false)));
    }
  }

  /** The slots as they are really filled: one of them with unquoted text. */
  function Misread(params: seq<Param>, i: nat, values: Values): Contents
    requires i + 1 < |params| && Provided(params, values)
  {
    assert params[i + 1] in params;
    Literal(values)[params[i].name := Chars(values[params[i + 1].name], false)]
  }

  lemma KeptByUpdate<T>(m: map<Text, T>, at: Text, v: T, n: Text)
    requires n in m && n != at
    ensures n in m[at := v] && m[at := v][n] == m[n]
  {
  }

  lemma SpelledHere(params: seq<Param>, values: Values, i: nat)
    requires PlainParams(params) && Distinct(Names(params)) && Spells(params, i, values)
    ensures var n := params[i].name;
            n in Nested(params, values) && ReadAs(Nested(params, values)[n], Misread(params, i, values)[n])
  {
    assert params[i + 1] in params;
    NestedSpelled(params, values, i);
    ExposedIsRead(values[params[i + 1].name]);
  }

  lemma SpelledElsewhere(params: seq<Param>, values: Values, i: nat, j: nat)
    requires PlainParams(params) && Distinct(Names(params)) && Spells(params, i, values)
    requires j < |params| && j != i
    ensures var n := params[j].name;
            && n in Nested(params, values) && n in Misread(params, i, values)
            && ReadAs(Nested(params, values)[n], Misread(params, i, values)[n])
  {
    assert params[i + 1] in params && params[j] in params;
    NamesDiffer(params, i, j);
    NestedBare(params, values, i, j);
    QuotedIsRead(values[params[j].name]);
    KeptByUpdate(Literal(values), params[i].name, Chars(values[params[i + 1].name], false), params[j].name);
  }

  lemma SpelledIsRead(template: Text, params: seq<Param>, values: Values, i: nat)
    requires PlainParams(params) && Distinct(Names(params)) && Spells(params, i, values)
    ensures AllReadAs(Parse(template, Names(params)), Nested(params, values), Misread(params, i, values))
  {
    HolesAreNames(template, Names(params));
    forall n | n in Names(params)
      ensures n in Nested(params, values) && n in Misread(params, i, values)
      ensures ReadAs(Nested(params, values)[n], Misread(params, i, values)[n])
    {
      var j :| 0 <= j < |params| && Names(params)[j] == n;
      if j == i {
        SpelledHere(params, values, i);
      } else {
        SpelledElsewhere(params, values, i, j);
      }
    }
  }

  /** The tokens of such a request. */
  lemma TokensOfSpelled(template: Text, params: seq<Param>, values: Values, i: nat)
    requires PlainParams(params) && Distinct(Names(params)) && Spells(params, i, values)
    requires WellPlaced(template, params) && TemplateTokens(template, params).Some?
    requires RenderFrom(template, params, values).Ok?
    ensures Tokens(RenderFrom(template, params, values).value)
         == Some(FillTokens(TemplateTokens(template, params).value, Misread(params, i, values)))
  {
    RenderedIsSequential(template, params, values);
    SequentialIsNested(template, params, values);
    SpelledIsRead(template, params, values, i);
    TokensOfFill(template, params, Nested(params, values), Misread(params, i, values));
  }

  // ---- The slot of a used parameter is in some word --------------------------

  predicate WordHas(t: Token, e: Elem) {
    t.Word? && e in t.elems
  }

  predicate LexerHas(l: Lexer, e: Elem) {
    (l.cur.InWord? && e in l.cur.elems) || exists t <- l.out :: WordHas(t, e)
  }

  lemma DelimitKeeps(l: Lexer, e: Elem)
    requires LexerHas(l, e)
    ensures LexerHas(Delimit(l), e)
    ensures exists t <- Delimit(l).out :: WordHas(t, e)
  {
    if l.cur.InWord? && e in l.cur.elems {
      assert WordHas(Word(l.cur.elems), e) && Word(l.cur.elems) in Delimit(l).out;
    } else {
      var t :| t in l.out && WordHas(t, e);
      assert t in Delimit(l).out;
    }
  }

  lemma AppendKeeps(l: Lexer, es: seq<Elem>, e: Elem)
    requires LexerHas(l, e) || e in es
    ensures LexerHas(Append(l, es), e)
  {
    if LexerHas(l, e) {
      OpenKeeps(l, e);
    }
  }

  lemma OpenKeeps(l: Lexer, e: Elem)
    requires LexerHas(l, e)
    ensures LexerHas(OpenWord(l), e)
  {
    DelimitKeeps(l, e);
  }

  lemma StepPlainKeeps(l: Lexer, c: char, e: Elem)
    requires LexerHas(l, e)
    ensures LexerHas(StepPlain(l, c), e)
  {
    DelimitKeeps(l, e);
    OpenKeeps(l, e);
    AppendKeeps(l, [Ch(c, false)], e);
  }

  lemma StepLexerKeeps(l: Lexer, c: char, e: Elem)
    requires LexerHas(l, e)
    ensures LexerHas(Step(l, c), e)
  {
    match l.mode {
      case Plain => StepPlainKeeps(l, c, e);
      case Comment => StepPlainKeeps(l.(mode := Plain), c, e);
      case Escape => AppendKeeps(l, [Ch(c, true)], e);
      case Single => AppendKeeps(l, [Ch(c, true)], e);
      case Double => AppendKeeps(l, [Ch(c, c != '$' && c != '`')], e);
      case DoubleEscape =>
        AppendKeeps(l, [Ch(c, true)], e);
        AppendKeeps(l, [Ch('\\', true), Ch(c, true)], e);
    }
  }

  lemma {:induction false} RunItemsKeeps(l: Lexer, items: Items, n: Text)
    requires LexerHas(l, Slot(n)) || Hole(n) in items
    ensures LexerHas(RunItems(l, items), Slot(n))
    decreases |items|
  {
    if items != [] {
      assert items == [items[0]] + items[1..];
      match items[0] {
        case Lit(c) =>
          if LexerHas(l, Slot(n)) {
            StepLexerKeeps(l, c, Slot(n));
          }
          RunItemsKeeps(Step(l, c), items[1..], n);
        case Hole(m) =>
          if LexerHas(l, Slot(n)) || m == n {
            AppendKeeps(l, [Slot(m)], Slot(n));
          }
          RunItemsKeeps(Append(l, [Slot(m)]), items[1..], n);
      }
    }
  }

  /** A used parameter has a word of the template to itself or with others. */
  lemma UsedParamIsInAWord(template: Text, params: seq<Param>, p: Param)
    requires PlainParams(params) && AllUsed(template, params) && p in params
    requires TemplateTokens(template, params).Some?
    ensures exists t <- TemplateTokens(template, params).value :: WordHas(t, Slot(p.name))
  {
    var items := Parse(template, Names(params));
    PlainParamsNames(params);
    NamesMembers(params, p.name);
    OccursIffHole(template, p.name, Names(params));
    RunItemsKeeps(START, items, p.name);
    DelimitKeeps(RunItems(START, items), Slot(p.name));
  }

  // ---- The two fillings differ -----------------------------------------------

  function BareCount(es: seq<Elem>): nat {
    if es == [] then 0 else (if es[0].Ch? && !es[0].quoted then 1 else 0) + BareCount(es[1..])
  }

  lemma {:induction false} BareCountConcat(a: seq<Elem>, b: seq<Elem>)
    ensures BareCount(a + b) == BareCount(a) + BareCount(b)
  {
    if a == [] {
      assert a + b == b;
    } else {
      assert (a + b)[1..] == a[1..] + b;
      BareCountConcat(a[1..], b);
    }
  }

  lemma {:induction false} BareCountOfChars(v: Text, quoted: bool)
    ensures BareCount(Chars(v, quoted)) == if quoted then 0 else |v|
  {
    if v != [] {
      BareCountOfChars(v[1..], quoted);
      assert Chars(v, quoted)[1..] == Chars(v[1..], quoted);
    }
  }

  /** With more unquoted characters in one slot, a word that has it has more of them. */
  lemma {:induction false} MoreBare(es: seq<Elem>, contents: Contents, n: Text, body: seq<Elem>)
    requires n in contents && BareCount(contents[n]) < BareCount(body)
    ensures BareCount(FillElems(es, contents)) <= BareCount(FillElems(es, contents[n := body]))
    ensures Slot(n) in es ==> BareCount(FillElems(es, contents)) < BareCount(FillElems(es, contents[n := body]))
  {
    if es != [] {
      MoreBare(es[1..], contents, n, body);
      BareCountConcat(FillElem(es[0], contents), FillElems(es[1..], contents));
      BareCountConcat(FillElem(es[0], contents[n := body]), FillElems(es[1..], contents[n := body]));
      assert es == [es[0]] + es[1..];
    }
  }

  lemma FillingsDiffer(ts: seq<Token>, contents: Contents, n: Text, body: seq<Elem>)
    requires n in contents && BareCount(contents[n]) < BareCount(body)
    requires exists t <- ts :: WordHas(t, Slot(n))
    ensures FillTokens(ts, contents) != FillTokens(ts, contents[n := body])
  {
    var t :| t in ts && WordHas(t, Slot(n));
    var k :| 0 <= k < |ts| && ts[k] == t;
    MoreBare(t.elems, contents, n, body);
    assert FillTokens(ts, contents)[k] == Word(FillElems(t.elems, contents));
    assert FillTokens(ts, contents[n := body])[k] == Word(FillElems(t.elems, contents[n := body]));
  }

  /** Whoever spells the next placeholder gets another command than the template's. */
  lemma SpelledChangesMeaning(template: Text, params: seq<Param>, values: Values, i: nat)
    requires PlainParams(params) && Distinct(Names(params)) && AllUsed(template, params)
    requires Spells(params, i, values)
    requires WellPlaced(template, params) && TemplateTokens(template, params).Some?
    requires RenderFrom(template, params, values).Ok?
    ensures !MeansTemplate(RenderFrom(template, params, values).value, template, params, values)
  {
    var v := values[params[i + 1].name];
    assert params[i] in params && params[i + 1] in params;
    TokensOfSpelled(template, params, values, i);
    UsedParamIsInAWord(template, params, params[i]);
    BareCountOfChars(v, false);
    BareCountOfChars(values[params[i].name], true);
    FillingsDiffer(TemplateTokens(template, params).value, Literal(values), params[i].name, Chars(v, false));
  }

  // ---- Such a request is accepted --------------------------------------------

  /** A valid bare value for any parameter. */
  function Sample(p: Param): Text {
    match p.pattern
    case Some(AbsPath) => "/"
    case Some(HttpUrl) => "http://1"
    case _ => "1"
  }

  lemma SampleIsBare(p: Param)
    ensures BareText(Sample(p))
  {
  }

  lemma SampleIsValid(p: Param)
    ensures ValueOk(p, Sample(p))
  {
    match p.pattern {
      case None => AsciiBytes("1");
      case Some(HttpUrl) => assert "http://1"[|"http://"|..] == "1";
      case _ =>
    }
  }

  function Samples(params: seq<Param>): Values {
    if params == [] then map[] else Samples(params[1..])[params[0].name := Sample(params[0])]
  }

  lemma {:induction false} SamplesAt(params: seq<Param>, j: nat)
    requires j < |params| && Distinct(Names(params))
    ensures params[j].name in Samples(params) && Samples(params)[params[j].name] == Sample(params[j])
  {
    if j > 0 {
      NamesTailDistinct(params);
      SamplesAt(params[1..], j - 1);
      NamesDiffer(params, 0, j);
    }
  }

  /** Samples for all parameters but one, which spells the next placeholder. */
  function Spelling(params: seq<Param>, i: nat): Values
    requires i + 1 < |params|
  {
    Samples(params)[params[i].name := Placeholder(params[i + 1].name)]
  }

  lemma SpellingElsewhere(params: seq<Param>, i: nat, j: nat)
    requires i + 1 < |params| && j < |params| && j != i && Distinct(Names(params))
    ensures params[j].name in Spelling(params, i) && Spelling(params, i)[params[j].name] == Sample(params[j])
  {
    SamplesAt(params, j);
    NamesDiffer(params, i, j);
    SampleKept(params, i, j);
  }

  lemma SampleKept(params: seq<Param>, i: nat, j: nat)
    requires i + 1 < |params| && j < |params| && params[i].name != params[j].name
    requires params[j].name in Samples(params) && Samples(params)[params[j].name] == Sample(params[j])
    ensures params[j].name in Spelling(params, i) && Spelling(params, i)[params[j].name] == Sample(params[j])
  {
  }

  lemma SpellingIsAccepted(template: Text, params: seq<Param>, i: nat)
    requires Saveable(template, params) && Distinct(Names(params))
    requires i + 1 < |params| && params[i].pattern.None?
    ensures Spells(params, i, Spelling(params, i))
    ensures RenderFrom(template, params, Spelling(params, i)).Ok?
  {
    var values := Spelling(params, i);
    SaveableIsPlain(template, params);
    assert params[i + 1] in params;
    PlaceholderIsFreeText(params[i + 1].name);
    forall j | 0 <= j < |params| && j != i
      ensures params[j].name in values && BareText(values[params[j].name])
      ensures ValueOk(params[j], values[params[j].name])
    {
      SpellingElsewhere(params, i, j);
      SampleIsBare(params[j]);
      SampleIsValid(params[j]);
    }
    AcceptableSucceeds(template, params, values);
  }

  // ---- The condition ---------------------------------------------------------

  /** Every accepted request is read as the template with literal values. */
  ghost predicate KeepsMeaning(template: Text, params: seq<Param>) {
    forall values: Values :: RenderFrom(template, params, values).Ok? ==>
      MeansTemplate(RenderFrom(template, params, values).value, template, params, values)
  }

  /**
   A saved action with a complete template, each parameter declared once and placed
   in unquoted text, keeps its template's meaning under every accepted request if
   and only if only its last parameter is free text.
   */
  lemma KeepsMeaningIff(template: Text, params: seq<Param>)
    requires Saveable(template, params) && Distinct(Names(params))
    requires WellPlaced(template, params) && TemplateTokens(template, params).Some?
    ensures KeepsMeaning(template, params) <==> FreeOnlyLast(params)
  {
    SaveableIsPlain(template, params);
    if FreeOnlyLast(params) {
      forall values: Values | RenderFrom(template, params, values).Ok?
        ensures MeansTemplate(RenderFrom(template, params, values).value, template, params, values)
      {
        AcceptedValuesAreClean(template, params, values);
        RenderedMeansTemplate(template, params, values);
      }
    } else {
      var i :| 0 <= i < |params| - 1 && params[i].pattern.None?;
      SpellingIsAccepted(template, params, i);
      SpelledChangesMeaning(template, params, Spelling(params, i), i);
    }
  }

  // ---- A value that becomes an operator --------------------------------------

  /** The rendered text of two adjacent free parameters, the first spelling the second, the second a semicolon. */
  lemma SemicolonText(a: Text, b: Text, values: Values)
    requires ParamNameOk(a) && ParamNameOk(b) && a != b
    requires a in values && b in values && values[a] == Placeholder(b) && values[b] == ";"
    ensures RenderFrom(TwoHoles(a, b), TwoParams(a, b), values).Ok?
    ensures RenderFrom(TwoHoles(a, b), TwoParams(a, b), values).value == Exposed(";") + ShellQuote(";")
  {
    var t, params := TwoHoles(a, b), TwoParams(a, b);
    PlaceholderIsFreeText(a);
    PlaceholderIsFreeText(b);
    AsciiBytes(";");
    SpelledPlaceholderIsSubstituted(a, b, values);
    NestedSemicolon(a, b, values);
    RenderedIsSequential(t, params, values);
    SequentialIsNested(t, params, values);
    ReadTwoHoles(a, b);
    FillFirst(Hole(a), [Hole(b)], Nested(params, values));
    FillSingle(Hole(b), Nested(params, values));
  }

  lemma NestedSemicolon(a: Text, b: Text, values: Values)
    requires PlainName(a) && PlainName(b) && a != b
    requires a in values && b in values && values[a] == Placeholder(b) && values[b] == ";"
    ensures Provided(TwoParams(a, b), values)
    ensures var texts := Nested(TwoParams(a, b), values);
            a in texts && texts[a] == Exposed(";") && b in texts && texts[b] == ShellQuote(";")
  {
    var params := TwoParams(a, b);
    var tail := [Param(b, None)];
    TwoParamsFacts(a, b);
    SpelledPass(b, ShellQuote(";"));
    NothingToEscape(";");
    assert Nested(tail, values)[b] == Sequential(ShellQuote(";"), [], values);
    assert Sequential(Exposed(";"), [], values) == Exposed(";");
    assert Sequential(ShellQuote(Placeholder(b)), tail, values) == Exposed(";");
    assert Nested(params, values) == Nested(tail, values)[a := Exposed(";")];
  }

  lemma ReadTwoHoles(a: Text, b: Text)
    requires PlainName(a) && PlainName(b) && a != b
    ensures Parse(TwoHoles(a, b), Names(TwoParams(a, b))) == [Hole(a)] + [Hole(b)]
  {
    TwoParamsFacts(a, b);
    ParseTwoHoles(a, b, Names(TwoParams(a, b)));
  }

  lemma ParseTwoHoles(a: Text, b: Text, names: seq<Text>)
    requires PlainNames(names) && a in names && b in names
    ensures Parse(TwoHoles(a, b), names) == [Hole(a)] + [Hole(b)]
  {
    ParseHoleThen(a, Placeholder(b), names);
    ParseHoleThen(b, [], names);
    assert Placeholder(b) + [] == Placeholder(b);
    assert Parse([], names) == [];
  }

  lemma ParseHoleThen(name: Text, rest: Text, names: seq<Text>)
    requires PlainNames(names) && name in names
    ensures Parse(Placeholder(name) + rest, names) == [Hole(name)] + Parse(rest, names)
  {
    ParseStepHole(Placeholder(name) + rest, name, names);
    assert (Placeholder(name) + rest)[|Placeholder(name)|..] == rest;
  }

  lemma SemicolonTokens()
    ensures Tokens(Exposed(";") + ShellQuote(";")) == Some([Word([]), Operator(";"), Word([Ch(';', true)])])
  {
    var q, quoted := QUOTE + QUOTE, ShellQuote(";");
    var after := Lexer(Plain, InOperator(";"), [Word([])]);
    ExposedThen(";", quoted);
    RunConcat(START, q, ";" + (q + quoted));
    RunEmptyQuotes(START);
    RunConcat(OpenWord(START), ";", q + quoted);
    RunSemicolon();
    RunConcat(after, q, quoted);
    RunEmptyQuotes(after);
    LastWord(OpenWord(after), quoted);
  }

  lemma ExposedThen(v: Text, rest: Text)
    ensures Exposed(v) + rest == (QUOTE + QUOTE) + (v + ((QUOTE + QUOTE) + rest))
  {
  }

  lemma RunSemicolon()
    ensures Run(OpenWord(START), ";") == Lexer(Plain, InOperator(";"), [Word([])])
  {
    assert IsOperator([';']) && ";"[1..] == [];
  }

  lemma LastWord(l: Lexer, quoted: Text)
    requires l == Lexer(Plain, InWord([]), [Word([]), Operator(";")]) && quoted == ShellQuote(";")
    ensures Finish(Run(l, quoted)) == Some([Word([]), Operator(";"), Word([Ch(';', true)])])
  {
    QuotedValueIsLiteral(l, ";");
    assert Quoted(";") == [Ch(';', true)] == [] + [Ch(';', true)];
    var end := Append(l, Quoted(";"));
    assert end.cur == InWord([Ch(';', true)]) && end.out == l.out && end.mode == Plain;
    var last := Word([Ch(';', true)]);
    assert Delimit(end).out == l.out + [last] == [Word([]), Operator(";"), last];
  }

  /**
   For one: the action `{{a}}{{b}}` with a = `{{b}}` and b = `;`. The request is
   accepted, and the shell reads an empty word, the operator `;` and another word.
   */
  lemma ValueBecomesOperator(a: Text, b: Text, values: Values)
    requires ParamNameOk(a) && ParamNameOk(b) && a != b
    requires values == map[a := Placeholder(b), b := ";"]
    ensures var r := RenderFrom(TwoHoles(a, b), TwoParams(a, b), values);
            r.Ok? && Tokens(r.value) == Some([Word([]), Operator(";"), Word([Ch(';', true)])])
  {
    SemicolonText(a, b, values);
    SemicolonTokens();
  }

}
