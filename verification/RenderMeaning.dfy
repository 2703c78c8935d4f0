/**
 What a rendered command means to a shell: the tokens of the template, with every
 placeholder replaced by its value as quoted, literal text
 (internal/actions/engine.go:264-303).
 */
module RenderMeaning {
  import opened Base
  import opened Substitution
  import opened Render
  import opened RenderOrder
  import opened ShellWords

  // ---- A quoted value is one stretch of literal text -------------------------

  /** Inside single quotes, the escaped form of a value contributes exactly the value. */
  lemma {:induction false} EscapedIsLiteral(l: Lexer, v: Text)
    requires l.mode == Single && l.cur.InWord?
    ensures Run(l, ReplaceAll(v, QUOTE, ESCAPED_QUOTE)) == Append(l, Quoted(v))
    decreases |v|
  {
    if v == [] {
      assert l.cur.elems + [] == l.cur.elems;
    } else {
      var rest := ReplaceAll(v[1..], QUOTE, ESCAPED_QUOTE);
      var next := Append(l, [Ch(v[0], true)]);
      EscapedIsLiteral(next, v[1..]);
      AppendTwice(l, [Ch(v[0], true)], Quoted(v[1..]));
      assert [Ch(v[0], true)] + Quoted(v[1..]) == Quoted(v);
      if v[0] == '\'' {
        assert QUOTE <= v;
        RunConcat(l, ESCAPED_QUOTE, rest);
        RunEscapedQuote(l);
      } else {
        assert !(QUOTE <= v);
        assert ([v[0]] + rest)[1..] == rest;
      }
    }
  }

  /** Close, escaped quote, reopen: one literal quote. */
  lemma RunEscapedQuote(l: Lexer)
    requires l.mode == Single && l.cur.InWord?
    ensures Run(l, ESCAPED_QUOTE) == Append(l, [Ch('\'', true)])
  {
    var l1 := Step(l, '\'');
    var l2 := Step(l1, '\\');
    var l3 := Step(l2, '\'');
    var l4 := Step(l3, '\'');
    assert l4 == Append(l, [Ch('\'', true)]);
    assert ESCAPED_QUOTE == ['\'', '\\', '\'', '\''];
    assert Run(l4, []) == l4;
    assert Run(l3, ['\'']) == l4 by { assert ['\''][1..] == []; }
    assert Run(l2, ['\'', '\'']) == l4 by { assert ['\'', '\''][1..] == ['\'']; }
    assert Run(l1, ['\\', '\'', '\'']) == l4 by { assert ['\\', '\'', '\''][1..] == ['\'', '\'']; }
    assert ESCAPED_QUOTE[1..] == ['\\', '\'', '\''];
  }

  /** In unquoted text, a shell-quoted value appends the value, quoted, to the current word. */
  lemma QuotedValueIsLiteral(l: Lexer, v: Text)
    requires l.mode == Plain
    ensures Run(l, ShellQuote(v)) == Append(l, Quoted(v))
  {
    var body := ReplaceAll(v, QUOTE, ESCAPED_QUOTE);
    var inside := OpenWord(l).(mode := Single);
    RunConcat(l, QUOTE + body, QUOTE);
    RunConcat(l, QUOTE, body);
    assert Run(l, QUOTE) == inside by {
      assert QUOTE[1..] == [];
    }
    EscapedIsLiteral(inside, v);
    var closed := Append(inside, Quoted(v));
    assert Run(closed, QUOTE) == closed.(mode := Plain) by {
      assert QUOTE[1..] == [];
    }
  }

  // ---- Templates with their holes left open ---------------------------------

  /** Reads a template as a shell would, a hole becoming a slot of the current word. */
  function RunItems(l: Lexer, items: Items): Lexer
    decreases |items|
  {
    if items == [] then l
    else match items[0]
      case Lit(c) => RunItems(Step(l, c), items[1..])
      case Hole(n) => RunItems(Append(l, [Slot(n)]), items[1..])
  }

  /** Every placeholder stands in unquoted text. */
  predicate HolesUnquoted(l: Lexer, items: Items)
    decreases |items|
  {
    items == [] ||
    match items[0]
    case Lit(c) => HolesUnquoted(Step(l, c), items[1..])
    case Hole(n) => l.mode == Plain && HolesUnquoted(Append(l, [Slot(n)]), items[1..])
  }

  function TemplateTokens(template: Text, params: seq<Param>): Option<seq<Token>> {
    Finish(RunItems(START, Parse(template, Names(params))))
  }

  /** A template whose placeholders all stand in unquoted text. */
  predicate WellPlaced(template: Text, params: seq<Param>) {
    HolesUnquoted(START, Parse(template, Names(params)))
  }

  // ---- Filling slots ----------------------------------------------------------

  /** What each slot holds. */
  type Contents = map<Text, seq<Elem>>

  /** Every value as literal text. */
  function Literal(values: Values): Contents {
    map n | n in values :: Quoted(values[n])
  }

  function FillElem(e: Elem, contents: Contents): seq<Elem> {
    match e
    case Ch(_, _) => [e]
    case Slot(n) => if n in contents then contents[n] else []
  }

  function FillElems(es: seq<Elem>, contents: Contents): seq<Elem> {
    if es == [] then [] else FillElem(es[0], contents) + FillElems(es[1..], contents)
  }

  function FillToken(t: Token, contents: Contents): Token {
    match t
    case Word(es) => Word(FillElems(es, contents))
    case Operator(_) => t
  }

  /** Token by token: the count and the operators do not depend on the values. */
  function FillTokens(ts: seq<Token>, contents: Contents): (r: seq<Token>)
    ensures |r| == |ts|
    ensures forall i :: 0 <= i < |ts| ==> r[i] == FillToken(ts[i], contents)
  {
    if ts == [] then [] else [FillToken(ts[0], contents)] + FillTokens(ts[1..], contents)
  }

  function FillCurrent(c: Current, contents: Contents): Current {
    match c
    case InWord(es) => InWord(FillElems(es, contents))
    case _ => c
  }

  function FillLexer(l: Lexer, contents: Contents): Lexer {
    Lexer(l.mode, FillCurrent(l.cur, contents), FillTokens(l.out, contents))
  }

  lemma {:induction false} FillElemsConcat(a: seq<Elem>, b: seq<Elem>, contents: Contents)
    ensures FillElems(a + b, contents) == FillElems(a, contents) + FillElems(b, contents)
  {
    if a == [] {
      assert a + b == b;
    } else {
      assert (a + b)[1..] == a[1..] + b;
      FillElemsConcat(a[1..], b, contents);
    }
  }

  lemma FillTokensAppend(ts: seq<Token>, t: Token, contents: Contents)
    ensures FillTokens(ts + [t], contents) == FillTokens(ts, contents) + [FillToken(t, contents)]
  {
  }

  lemma FillDelimit(l: Lexer, contents: Contents)
    ensures FillLexer(Delimit(l), contents) == Delimit(FillLexer(l, contents))
  {
    match l.cur {
      case NoToken =>
      case InWord(w) => FillTokensAppend(l.out, Word(w), contents);
      case InOperator(o) => FillTokensAppend(l.out, Operator(o), contents);
    }
  }

  lemma FillOpen(l: Lexer, contents: Contents)
    ensures FillLexer(OpenWord(l), contents) == OpenWord(FillLexer(l, contents))
  {
    FillDelimit(l, contents);
  }

  lemma FillAppend(l: Lexer, es: seq<Elem>, contents: Contents)
    ensures FillLexer(Append(l, es), contents) == Append(FillLexer(l, contents), FillElems(es, contents))
  {
    FillOpen(l, contents);
    FillElemsConcat(OpenWord(l).cur.elems, es, contents);
  }

  lemma {:induction false} FillChars(es: seq<Elem>, contents: Contents)
    requires forall e <- es :: e.Ch?
    ensures FillElems(es, contents) == es
  {
    if es != [] {
      FillChars(es[1..], contents);
    }
  }

  lemma FillAppendChars(l: Lexer, es: seq<Elem>, contents: Contents)
    requires forall e <- es :: e.Ch?
    ensures FillLexer(Append(l, es), contents) == Append(FillLexer(l, contents), es)
  {
    FillAppend(l, es, contents);
    FillChars(es, contents);
  }

  lemma FillStepPlain(l: Lexer, c: char, contents: Contents)
    ensures FillLexer(StepPlain(l, c), contents) == StepPlain(FillLexer(l, contents), c)
  {
    if c == '\\' {
    } else if c == '\'' || c == '"' {
      FillOpen(l, contents);
    } else if l.cur.InOperator? && IsOperator(l.cur.text + [c]) {
    } else if IsOperator([c]) || IsBlank(c) || (c == '#' && !l.cur.InWord?) {
      FillDelimit(l, contents);
    } else {
      FillAppendChars(l, [Ch(c, false)], contents);
    }
  }

  lemma FillStepQuoted(l: Lexer, c: char, contents: Contents)
    requires !l.mode.Plain? && !l.mode.Comment?
    ensures FillLexer(Step(l, c), contents) == Step(FillLexer(l, contents), c)
  {
    FillAppendChars(l, [Ch(c, true)], contents);
    if l.mode.Double? {
      FillAppendChars(l, [Ch(c, c != '$' && c != '`')], contents);
    } else if l.mode.DoubleEscape? {
      FillAppendChars(l, [Ch('\\', true), Ch(c, true)], contents);
    }
  }

  /** Filling the slots and reading one more character can be done in either order. */
  lemma FillStep(l: Lexer, c: char, contents: Contents)
    ensures FillLexer(Step(l, c), contents) == Step(FillLexer(l, contents), c)
  {
    if l.mode.Plain? {
      FillStepPlain(l, c, contents);
    } else if l.mode.Comment? {
      FillStepPlain(l.(mode := Plain), c, contents);
    } else {
      FillStepQuoted(l, c, contents);
    }
  }

  /** In unquoted text, the text appends exactly these elements to the current word. */
  ghost predicate ReadAs(text: Text, es: seq<Elem>) {
    forall l: Lexer :: l.mode == Plain ==> Run(l, text) == Append(l, es)
  }

  ghost predicate AllReadAs(items: Items, texts: Texts, contents: Contents) {
    forall n :: Hole(n) in items ==> n in texts && n in contents && ReadAs(texts[n], contents[n])
  }

  lemma FillSlot(l: Lexer, n: Text, contents: Contents)
    requires n in contents
    ensures FillLexer(Append(l, [Slot(n)]), contents) == Append(FillLexer(l, contents), contents[n])
  {
    FillAppend(l, [Slot(n)], contents);
    assert [Slot(n)][1..] == [];
    assert FillElems([Slot(n)], contents) == contents[n] + [] == contents[n];
  }

  /** Reading the filled template is filling the read template. */
  lemma {:induction false} RunFilled(l: Lexer, items: Items, texts: Texts, contents: Contents)
    requires HolesUnquoted(l, items) && AllReadAs(items, texts, contents)
    ensures Run(FillLexer(l, contents), Fill(items, texts)) == FillLexer(RunItems(l, items), contents)
    decreases |items|
  {
    if items != [] {
      var rest := items[1..];
      assert items[0] in items && forall x <- rest :: x in items;
      RunConcat(FillLexer(l, contents), Filling(items[0], texts), Fill(rest, texts));
      match items[0] {
        case Lit(c) =>
          assert [c][1..] == [];
          FillStep(l, c, contents);
          RunFilled(Step(l, c), rest, texts, contents);
        case Hole(n) =>
          FillSlot(l, n, contents);
          RunFilled(Append(l, [Slot(n)]), rest, texts, contents);
      }
    }
  }

  /** The tokens of a filled template: the template's own, with their slots filled. */
  lemma TokensOfFill(template: Text, params: seq<Param>, texts: Texts, contents: Contents)
    requires WellPlaced(template, params) && AllReadAs(Parse(template, Names(params)), texts, contents)
    ensures var t := TemplateTokens(template, params);
            Tokens(Fill(Parse(template, Names(params)), texts))
            == (if t.Some? then Some(FillTokens(t.value, contents)) else None)
  {
    var items := Parse(template, Names(params));
    RunFilled(START, items, texts, contents);
    assert FillLexer(START, contents) == START;
    FillDelimit(RunItems(START, items), contents);
  }

  lemma QuotedIsRead(v: Text)
    ensures ReadAs(ShellQuote(v), Quoted(v))
  {
    forall l: Lexer | l.mode == Plain ensures Run(l, ShellQuote(v)) == Append(l, Quoted(v)) {
      QuotedValueIsLiteral(l, v);
    }
  }

  lemma QuoteAllIsRead(items: Items, values: Values)
    requires forall n :: Hole(n) in items ==> n in values
    ensures AllReadAs(items, QuoteAll(values), Literal(values))
  {
    forall n | Hole(n) in items ensures ReadAs(QuoteAll(values)[n], Literal(values)[n]) {
      QuotedIsRead(values[n]);
    }
  }

  /** What the shell reads is the template's own tokens, each placeholder being its value as literal text. */
  predicate MeansTemplate(rendered: Text, template: Text, params: seq<Param>, values: Values) {
    var t := TemplateTokens(template, params);
    Tokens(rendered) == if t.Some? then Some(FillTokens(t.value, Literal(values))) else None
  }

  /**
   Rendering preserves meaning. If the placeholders stand in unquoted template
   text and no value mentions a later placeholder, a shell reads the rendered
   command as the template's own tokens, each placeholder being exactly its value
   as literal text.
   */
  lemma RenderedMeansTemplate(template: Text, params: seq<Param>, values: Values)
    requires PlainParams(params) && NoLaterPlaceholder(params, values)
    requires WellPlaced(template, params)
    requires RenderFrom(template, params, values).Ok?
    ensures MeansTemplate(RenderFrom(template, params, values).value, template, params, values)
  {
    var items := Parse(template, Names(params));
    RenderSucceedsIff(template, params, values);
    HolesAreNames(template, Names(params));
    forall n | Hole(n) in items ensures n in values {
      NamesMembers(params, n);
    }
    QuoteAllIsRead(items, values);
    TokensOfFill(template, params, QuoteAll(values), Literal(values));
  }

  /** No value can change how many tokens a command has, or any of its operators. */
  lemma ValuesCannotChangeTheShape(template: Text, params: seq<Param>, v1: Values, v2: Values)
    requires PlainParams(params) && WellPlaced(template, params)
    requires NoLaterPlaceholder(params, v1) && NoLaterPlaceholder(params, v2)
    requires RenderFrom(template, params, v1).Ok? && RenderFrom(template, params, v2).Ok?
    ensures var a := Tokens(RenderFrom(template, params, v1).value);
            var b := Tokens(RenderFrom(template, params, v2).value);
            && (a.Some? <==> b.Some?)
            && (a.Some? ==> |a.value| == |b.value|)
            && (a.Some? ==> forall i :: 0 <= i < |a.value| ==>
                  (a.value[i].Operator? || b.value[i].Operator?) ==> a.value[i] == b.value[i])
  {
    RenderedMeansTemplate(template, params, v1);
    RenderedMeansTemplate(template, params, v2);
  }

  // ---- Templates without quoting of their own --------------------------------

  /** The characters that can take the reader out of unquoted text. */
  predicate LeavesPlain(c: char) { c == '\\' || c == '\'' || c == '"' || c == '#' }

  lemma {:induction false} PlainItems(l: Lexer, items: Items)
    requires l.mode == Plain && forall c :: Lit(c) in items ==> !LeavesPlain(c)
    ensures HolesUnquoted(l, items)
    decreases |items|
  {
    if items != [] {
      assert items[0] in items;
      assert forall x <- items[1..] :: x in items;
      match items[0] {
        case Lit(c) => PlainItems(Step(l, c), items[1..]);
        case Hole(n) => PlainItems(Append(l, [Slot(n)]), items[1..]);
      }
    }
  }

  lemma {:induction false} LitsComeFromText(s: Text, names: seq<Text>)
    ensures forall c :: Lit(c) in Parse(s, names) ==> c in s
    decreases |s|
  {
    if s != [] {
      ParseFirst(s, names);
      var n := FirstLength(s, names);
      LitsComeFromText(s[n..], names);
      assert s == s[..n] + s[n..];
    }
  }

  /** A template that does no quoting itself, as almost all of the catalog's, is well placed. */
  lemma UnquotedTemplatesAreWellPlaced(template: Text, params: seq<Param>)
    requires forall c <- template :: !LeavesPlain(c)
    ensures WellPlaced(template, params)
  {
    LitsComeFromText(template, Names(params));
    PlainItems(START, Parse(template, Names(params)));
  }

  // ---- Templates that quote a stretch of their own ---------------------------

  lemma {:induction false} HolesUnquotedConcat(l: Lexer, a: Items, b: Items)
    requires HolesUnquoted(l, a) && HolesUnquoted(RunItems(l, a), b)
    ensures HolesUnquoted(l, a + b)
    decreases |a|
  {
    if a == [] {
      assert a + b == b;
    } else {
      assert (a + b)[0] == a[0] && (a + b)[1..] == a[1..] + b;
      match a[0] {
        case Lit(c) => HolesUnquotedConcat(Step(l, c), a[1..], b);
        case Hole(n) => HolesUnquotedConcat(Append(l, [Slot(n)]), a[1..], b);
      }
    }
  }

  /** Text that never leaves unquoted text ends there. */
  lemma {:induction false} PlainStaysPlain(l: Lexer, items: Items)
    requires l.mode == Plain && forall c :: Lit(c) in items ==> !LeavesPlain(c)
    ensures RunItems(l, items).mode == Plain
    decreases |items|
  {
    if items != [] {
      assert items[0] in items;
      assert forall x <- items[1..] :: x in items;
      match items[0] {
        case Lit(c) => PlainStaysPlain(Step(l, c), items[1..]);
        case Hole(n) => PlainStaysPlain(Append(l, [Slot(n)]), items[1..]);
      }
    }
  }

  /** Inside single quotes nothing but the quote matters. */
  lemma {:induction false} LitsInQuotes(l: Lexer, q: Text)
    requires l.mode == Single && '\'' !in q
    ensures HolesUnquoted(l, Lits(q)) && RunItems(l, Lits(q)).mode == Single
    decreases |q|
  {
    if q != [] {
      assert q[0] in q;
      assert Lits(q)[1..] == Lits(q[1..]);
      LitsInQuotes(Step(l, q[0]), q[1..]);
    }
  }

  lemma ParseQuoteMark(names: seq<Text>)
    requires PlainNames(names)
    ensures Parse(QUOTE, names) == [Lit('\'')]
  {
    ParseNoBrace(QUOTE, names);
    assert Lits(QUOTE) == [Lit('\'')];
  }

  /** The template falls apart at its quotes. */
  lemma ParseAroundQuotes(pre: Text, q: Text, post: Text, names: seq<Text>)
    requires PlainNames(names)
    ensures Parse(pre + (QUOTE + (q + (QUOTE + post))), names)
         == Parse(pre, names) + ([Lit('\'')] + (Parse(q, names) + ([Lit('\'')] + Parse(post, names))))
  {
    ParseQuoteMark(names);
    ParseAtSeam(QUOTE, post, names);
    ParseAtSeam(q, QUOTE + post, names);
    ParseAtSeam(QUOTE, q + (QUOTE + post), names);
    ParseAtSeam(pre, QUOTE + (q + (QUOTE + post)), names);
  }

  /**
   A template may also quote one stretch that holds no placeholder, as the
   format string of the catalog's URL check does.
   */
  lemma QuotedStretchIsWellPlaced(pre: Text, q: Text, post: Text, params: seq<Param>)
    requires PlainParams(params)
    requires forall c :: c in pre || c in post ==> !LeavesPlain(c)
    requires '\'' !in q && forall p <- params :: !Contains(q, Placeholder(p.name))
    ensures WellPlaced(pre + (QUOTE + (q + (QUOTE + post))), params)
  {
    var names := Names(params);
    PlainParamsNames(params);
    ParseAroundQuotes(pre, q, post, names);
    HolelessStretch(q, params);
    LitsComeFromText(pre, names);
    LitsComeFromText(post, names);
    var l1 := RunItems(START, Parse(pre, names));
    PlainItems(START, Parse(pre, names));
    PlainStaysPlain(START, Parse(pre, names));
    QuotedThenPlain(l1, q, Parse(post, names));
    HolesUnquotedConcat(START, Parse(pre, names), [Lit('\'')] + (Lits(q) + ([Lit('\'')] + Parse(post, names))));
  }

  lemma HolelessStretch(q: Text, params: seq<Param>)
    requires PlainParams(params) && forall p <- params :: !Contains(q, Placeholder(p.name))
    ensures Parse(q, Names(params)) == Lits(q)
  {
    var names := Names(params);
    PlainParamsNames(params);
    forall n | n in names ensures Hole(n) !in Parse(q, names) {
      NamesMembers(params, n);
      OccursIffHole(q, n, names);
    }
    NoHolesIsLits(q, names);
  }

  lemma QuotedThenPlain(l: Lexer, q: Text, rest: Items)
    requires l.mode == Plain && '\'' !in q && forall c :: Lit(c) in rest ==> !LeavesPlain(c)
    ensures HolesUnquoted(l, [Lit('\'')] + (Lits(q) + ([Lit('\'')] + rest)))
  {
    var inside := Step(l, '\'');
    LitsInQuotes(inside, q);
    var before := RunItems(inside, Lits(q));
    var after := Step(before, '\'');
    PlainItems(after, rest);
    assert ([Lit('\'')] + rest)[1..] == rest;
    assert HolesUnquoted(before, [Lit('\'')] + rest);
    HolesUnquotedConcat(inside, Lits(q), [Lit('\'')] + rest);
    assert ([Lit('\'')] + (Lits(q) + ([Lit('\'')] + rest)))[1..] == Lits(q) + ([Lit('\'')] + rest);
  }

  /** Without parameters there is nothing to place. */
  lemma NoParamsIsWellPlaced(template: Text)
    ensures WellPlaced(template, [])
  {
    ParseNothing(template);
    LitsAreUnquoted(START, template);
  }

  lemma {:induction false} LitsAreUnquoted(l: Lexer, s: Text)
    ensures HolesUnquoted(l, Lits(s))
    decreases |s|
  {
    if s != [] {
      assert Lits(s)[1..] == Lits(s[1..]);
      LitsAreUnquoted(Step(l, s[0]), s[1..]);
    }
  }
}
