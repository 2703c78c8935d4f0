/**
 Saved actions, whose parameters are all free text and may repeat a name: which of
 them keep their template's meaning (internal/api/custom_actions.go:60-86,
 internal/actions/engine.go:271-296).
 */
module SavedActions {
  import opened Base
  import opened Substitution
  import opened Numbers
  import opened Render
  import opened RenderOrder
  import opened RenderMeaning
  import opened RenderSafety
  import opened ShellWords

  // ---- Every value spells its own placeholder --------------------------------

  /** The value of each parameter is its own placeholder and one more character. */
  function Own(name: Text): Text {
    Placeholder(name) + "x"
  }

  predicate SpellsItself(params: seq<Param>, values: Values) {
    forall p <- params :: p.name in values && values[p.name] == Own(p.name)
  }

  /** k quotes, and k times the rest of a quoted value. */
  function Openings(k: nat): Text {
    if k == 0 then "" else Openings(k - 1) + QUOTE
  }

  function Closings(k: nat): Text {
    if k == 0 then "" else "x'" + Closings(k - 1)
  }

  /** A placeholder that k passes have wrapped into its own value. */
  function Wrapped(name: Text, k: nat): Text {
    Openings(k) + (Placeholder(name) + Closings(k))
  }

  lemma {:induction false} QuotesOnly(k: nat)
    ensures forall c <- Openings(k) :: c == '\''
    ensures forall c <- Closings(k) :: c == 'x' || c == '\''
  {
    if k > 0 {
      QuotesOnly(k - 1);
    }
  }

  lemma OwnQuoted(name: Text)
    requires PlainName(name)
    ensures ShellQuote(Own(name)) == Wrapped(name, 1)
  {
    PlaceholderChars(name);
    NothingToEscape(Own(name));
    assert Openings(0) + QUOTE == QUOTE && "x'" + Closings(0) == "x'";
    assert Openings(1) == QUOTE && Closings(1) == "x'";
    assert ShellQuote(Own(name)) == QUOTE + (Placeholder(name) + "x") + QUOTE;
  }

  /** Text without an opening brace keeps a placeholder out and is copied. */
  lemma BracelessCopied(pre: Text, rest: Text, what: Text, ins: Text)
    requires what != [] && what[0] == '{' && '{' !in pre
    ensures ReplaceAll(pre + rest, what, ins) == pre + ReplaceAll(rest, what, ins)
  {
    forall k | 0 <= k < |pre| ensures !(what <= pre[k..] + rest) {
      assert (pre[k..] + rest)[0] == pre[k] && pre[k] in pre;
    }
    ReplaceSkips(pre, rest, what, ins);
  }

  lemma BracelessKept(s: Text, what: Text, ins: Text)
    requires what != [] && what[0] == '{' && '{' !in s
    ensures ReplaceAll(s, what, ins) == s
  {
    BracelessCopied(s, [], what, ins);
    assert s + [] == s;
    assert ReplaceAll([], what, ins) == [];
  }

  /** Its own pass wraps a placeholder once more. */
  lemma WrapAgain(name: Text, k: nat)
    requires PlainName(name)
    ensures ReplaceAll(Wrapped(name, k), Placeholder(name), Wrapped(name, 1)) == Wrapped(name, k + 1)
  {
    var ph, ins := Placeholder(name), Wrapped(name, 1);
    QuotesOnly(k);
    BracelessCopied(Openings(k), ph + Closings(k), ph, ins);
    assert (ph + Closings(k))[|ph|..] == Closings(k);
    BracelessKept(Closings(k), ph, ins);
    WrappedInside(name, k);
  }

  lemma WrappedInside(name: Text, k: nat)
    ensures Openings(k) + (Wrapped(name, 1) + Closings(k)) == Wrapped(name, k + 1)
  {
    var ph := Placeholder(name);
    ClosingsCommute(k);
    assert Openings(1) == Openings(0) + QUOTE == QUOTE;
    assert Closings(1) == "x'" + Closings(0) == "x'";
    Regroup(Openings(k), QUOTE, ph, "x'", Closings(k));
  }

  lemma Regroup(a: Text, b: Text, c: Text, d: Text, e: Text)
    ensures a + ((b + (c + d)) + e) == (a + b) + (c + (d + e))
  {
  }

  lemma ClosingsCommute(k: nat)
    ensures "x'" + Closings(k) == Closings(k + 1)
  {
  }

  /** The pass of another parameter leaves it alone. */
  lemma OtherPass(name: Text, other: Text, k: nat, ins: Text)
    requires PlainName(name) && PlainName(other) && name != other
    ensures ReplaceAll(Wrapped(name, k), Placeholder(other), ins) == Wrapped(name, k)
  {
    var ph := Placeholder(name);
    QuotesOnly(k);
    PlaceholderChars(other);
    BracelessCopied(Openings(k), ph + Closings(k), Placeholder(other), ins);
    ReplaceSkipsHole(ph + Closings(k), name, other, ins);
    assert (ph + Closings(k))[|ph|..] == Closings(k);
    BracelessKept(Closings(k), Placeholder(other), ins);
  }

  function Repeats(params: seq<Param>, name: Text): nat {
    if params == [] then 0 else (if params[0].name == name then 1 else 0) + Repeats(params[1..], name)
  }

  lemma TailSpellsItself(params: seq<Param>, values: Values)
    requires params != [] && PlainParams(params) && SpellsItself(params, values)
    ensures PlainParams(params[1..]) && SpellsItself(params[1..], values) && Provided(params, values)
    ensures PlainName(params[0].name) && params[0].name in values
    ensures values[params[0].name] == Own(params[0].name)
  {
    assert params[0] in params && forall q <- params[1..] :: q in params;
  }

  /** A placeholder ends up wrapped as often as its name is declared from there on. */
  lemma {:induction false} WrappedByAll(params: seq<Param>, values: Values, name: Text, k: nat)
    requires PlainParams(params) && PlainName(name) && SpellsItself(params, values)
    ensures Provided(params, values)
    ensures Sequential(Wrapped(name, k), params, values) == Wrapped(name, k + Repeats(params, name))
    decreases params
  {
    if params != [] {
      var p := params[0].name;
      TailSpellsItself(params, values);
      OnePass(name, p, k);
      WrappedByAll(params[1..], values, name, if p == name then k + 1 else k);
    }
  }

  lemma OnePass(name: Text, p: Text, k: nat)
    requires PlainName(name) && PlainName(p)
    ensures ReplaceAll(Wrapped(name, k), Placeholder(p), ShellQuote(Own(p)))
         == Wrapped(name, if p == name then k + 1 else k)
  {
    if p == name {
      OwnQuoted(name);
      WrapAgain(name, k);
    } else {
      OtherPass(name, p, k, ShellQuote(Own(p)));
    }
  }

  lemma {:induction false} NestedItself(params: seq<Param>, values: Values, name: Text)
    requires PlainParams(params) && SpellsItself(params, values) && name in Names(params)
    ensures Provided(params, values) && name in Nested(params, values)
    ensures Repeats(params, name) > 0
    ensures Nested(params, values)[name] == Wrapped(name, Repeats(params, name))
    decreases params
  {
    var p, tail := params[0], params[1..];
    TailSpellsItself(params, values);
    WrappedByAll(tail, values, p.name, 1);
    if p.name == name {
      OwnQuoted(name);
    } else {
      NamesTail(params);
      NestedItself(tail, values, name);
    }
  }

  // ---- Such a request is accepted --------------------------------------------

  /** A pass leaves every placeholder that was there, its own included. */
  lemma PassKeepsAll(s: Text, params: seq<Param>, values: Values)
    requires params != [] && PlainParams(params) && SpellsItself(params, values) && AllUsed(s, params)
    ensures var p := params[0];
            AllUsed(ReplaceAll(s, Placeholder(p.name), ShellQuote(values[p.name])), params[1..])
  {
    var p, tail := params[0], params[1..];
    assert p in params;
    forall t | t in tail
      ensures Contains(ReplaceAll(s, Placeholder(p.name), ShellQuote(values[p.name])), Placeholder(t.name))
    {
      assert t in params;
      PassKeepsOne(s, params, values, t.name);
    }
  }

  lemma PassKeepsOne(s: Text, params: seq<Param>, values: Values, name: Text)
    requires params != [] && PlainParams(params) && params[0].name in values
    requires values[params[0].name] == Own(params[0].name)
    requires exists t <- params[1..] :: t.name == name
    requires Contains(s, Placeholder(name))
    ensures var p := params[0];
            Contains(ReplaceAll(s, Placeholder(p.name), ShellQuote(values[p.name])), Placeholder(name))
  {
    var p, tail := params[0], params[1..];
    var quoted := ShellQuote(values[p.name]);
    NamesMembers(tail, name);
    NamesTail(params);
    PlainParamsNames(params);
    PlainParamsNames(tail);
    PassIsExpand(s, params, values);
    OccursIffHole(s, name, Names(params));
    OccursIffHole(ReplaceAll(s, Placeholder(p.name), quoted), name, Names(tail));
    if name == p.name {
      assert Placeholder(name) <= values[p.name][0..];
      QuoteKeepsHoles(values[p.name], name, Names(tail));
      ExpandBrings(Parse(s, Names(params)), name, Parse(quoted, Names(tail)), name);
    } else {
      ExpandKeeps(Parse(s, Names(params)), p.name, Parse(quoted, Names(tail)), name);
    }
  }

  lemma {:induction false} ExpandBrings(items: Items, name: Text, body: Items, other: Text)
    requires Hole(name) in items && Hole(other) in body
    ensures Hole(other) in Expand(items, name, body)
  {
    assert items == [items[0]] + items[1..];
    if items[0] != Hole(name) {
      ExpandBrings(items[1..], name, body, other);
    }
  }

  lemma OwnIsFreeText(name: Text)
    requires ParamNameOk(name)
    ensures FreeTextOk(Own(name))
  {
    NameChars(name);
    forall c | c in Own(name) ensures c as int < 0x80 && !IsControl(c) {
      assert c in "{{" || c in name || c in "}}" || c == 'x';
    }
    AsciiBytes(Own(name));
  }

  lemma {:induction false} ItselfIsAccepted(template: Text, params: seq<Param>, values: Values)
    requires Saveable(template, params) && SpellsItself(params, values)
    requires forall p <- params :: p.pattern.None?
    ensures RenderFrom(template, params, values).Ok?
    decreases params
  {
    if params != [] {
      var p, tail := params[0], params[1..];
      assert p in params && forall q <- tail :: q in params;
      SaveableIsPlain(template, params);
      OwnIsFreeText(p.name);
      PassKeepsAll(template, params, values);
      ItselfIsAccepted(ReplaceAll(template, Placeholder(p.name), ShellQuote(values[p.name])), tail, values);
    }
  }

  // ---- How the shell reads it ------------------------------------------------

  function Toggled(l: Lexer): Lexer
    requires InAWord(l)
  {
    l.(mode := if l.mode == Plain then Single else Plain)
  }

  lemma RunQuote(l: Lexer)
    requires InAWord(l)
    ensures Run(l, QUOTE) == Toggled(l)
  {
    assert QUOTE[1..] == [];
  }

  /** k quotes: the mode alternates. */
  function AfterQuotes(l: Lexer, k: nat): Lexer
    requires InAWord(l)
  {
    if k % 2 == 0 then l else Toggled(l)
  }

  lemma {:induction false} RunOpenings(l: Lexer, k: nat)
    requires InAWord(l)
    ensures Run(l, Openings(k)) == AfterQuotes(l, k)
  {
    if k > 0 {
      RunOpenings(l, k - 1);
      RunConcat(l, Openings(k - 1), QUOTE);
      RunQuote(AfterQuotes(l, k - 1));
    }
  }

  /** The characters between the closing quotes, every other one quoted. */
  function Between(quoted: bool, k: nat): (r: seq<Elem>)
    ensures |r| == k
    decreases k
  {
    if k == 0 then [] else [Ch('x', quoted)] + Between(!quoted, k - 1)
  }

  lemma {:induction false} RunClosings(l: Lexer, k: nat)
    requires InAWord(l)
    ensures Run(l, Closings(k)) == AfterQuotes(Append(l, Between(l.mode == Single, k)), k)
    decreases k
  {
    if k == 0 {
      assert l.cur.elems + [] == l.cur.elems;
    } else {
      var quoted := l.mode == Single;
      RunConcat(l, "x'", Closings(k - 1));
      RunClosing(l);
      var next := Toggled(Append(l, [Ch('x', quoted)]));
      RunClosings(next, k - 1);
      AppendToggled(Append(l, [Ch('x', quoted)]), Between(!quoted, k - 1));
      AppendTwice(l, [Ch('x', quoted)], Between(!quoted, k - 1));
    }
  }

  lemma RunClosing(l: Lexer)
    requires InAWord(l)
    ensures Run(l, "x'") == Toggled(Append(l, [Ch('x', l.mode == Single)]))
  {
    WordCharIsOrdinary(l, 'x');
    assert "x'"[1..] == QUOTE;
    RunQuote(Append(l, [Ch('x', l.mode == Single)]));
  }

  lemma AppendToggled(l: Lexer, es: seq<Elem>)
    requires InAWord(l)
    ensures Append(Toggled(l), es) == Toggled(Append(l, es))
  {
  }

  /** What a wrapped placeholder adds to a word. */
  function WrappedElems(name: Text, k: nat): (r: seq<Elem>)
    ensures |r| == |Placeholder(name)| + k
  {
    Chars(Placeholder(name), k % 2 == 1) + Between(k % 2 == 1, k)
  }

  lemma RunWrapped(l: Lexer, name: Text, k: nat)
    requires InAWord(l) && l.mode == Plain && ParamNameOk(name)
    ensures Run(l, Wrapped(name, k)) == Append(l, WrappedElems(name, k))
  {
    var ph := Placeholder(name);
    var inside := AfterQuotes(l, k);
    var odd := k % 2 == 1;
    NameChars(name);
    RunConcat(l, Openings(k), ph + Closings(k));
    RunOpenings(l, k);
    RunConcat(inside, ph, Closings(k));
    PlaceholderWordChars(name);
    RunChars(inside, ph);
    var read := Append(inside, Chars(ph, odd));
    RunClosings(read, k);
    AppendTwice(inside, Chars(ph, odd), Between(odd, k));
    assert Append(read, Between(odd, k)) == Append(inside, WrappedElems(name, k));
    if odd {
      AppendToggled(l, WrappedElems(name, k));
    }
  }

  lemma PlaceholderWordChars(name: Text)
    requires ParamNameOk(name)
    ensures forall c <- Placeholder(name) :: WordChar(c)
  {
    NameChars(name);
    forall c | c in Placeholder(name) ensures WordChar(c) {
      assert c in "{{" || c in name || c in "}}";
    }
  }

  /** From unquoted text, the first quote opens the word. */
  lemma WrappedIsRead(name: Text, k: nat)
    requires ParamNameOk(name) && k > 0
    ensures ReadAs(Wrapped(name, k), WrappedElems(name, k))
  {
    OpeningFirst(k);
    var t := Wrapped(name, k);
    forall l: Lexer | l.mode == Plain ensures Run(l, t) == Append(l, WrappedElems(name, k)) {
      assert t[0] == '\'';
      assert Step(l, t[0]) == Step(OpenWord(l), t[0]);
      assert Run(l, t) == Run(OpenWord(l), t);
      RunWrapped(OpenWord(l), name, k);
    }
  }

  lemma {:induction false} OpeningFirst(k: nat)
    requires k > 0
    ensures Openings(k) != [] && Openings(k)[0] == '\''
  {
    if k > 1 {
      OpeningFirst(k - 1);
    }
  }

  // ---- Longer words ----------------------------------------------------------

  /** With contents at least as long everywhere, and longer for one name, a word that has it is longer. */
  lemma {:induction false} LongerWord(es: seq<Elem>, a: Contents, b: Contents, n: Text)
    requires forall m <- a :: m in b && |a[m]| <= |b[m]|
    requires n in a && n in b && |a[n]| < |b[n]|
    ensures |FillElems(es, a)| <= |FillElems(es, b)|
    ensures Slot(n) in es ==> |FillElems(es, a)| < |FillElems(es, b)|
  {
    if es != [] {
      LongerWord(es[1..], a, b, n);
      assert es == [es[0]] + es[1..];
    }
  }

  lemma LongerDiffers(ts: seq<Token>, a: Contents, b: Contents, n: Text)
    requires forall m <- a :: m in b && |a[m]| <= |b[m]|
    requires n in a && |a[n]| < |b[n]|
    requires exists t <- ts :: WordHas(t, Slot(n))
    ensures FillTokens(ts, a) != FillTokens(ts, b)
  {
    var t :| t in ts && WordHas(t, Slot(n));
    var k :| 0 <= k < |ts| && ts[k] == t;
    LongerWord(t.elems, a, b, n);
    assert FillTokens(ts, a)[k] == Word(FillElems(t.elems, a));
    assert FillTokens(ts, b)[k] == Word(FillElems(t.elems, b));
  }

  // ---- Repeated names --------------------------------------------------------

  function Itself(params: seq<Param>): Values {
    map n | n in Names(params) :: Own(n)
  }

  lemma ItselfSpells(params: seq<Param>)
    ensures SpellsItself(params, Itself(params))
  {
    forall p | p in params ensures p.name in Names(params) {
      NamesMembers(params, p.name);
    }
  }

  function WrappedContents(params: seq<Param>): Contents {
    map n | n in Names(params) :: WrappedElems(n, Repeats(params, n))
  }

  lemma ItselfIsRead(template: Text, params: seq<Param>)
    requires Saveable(template, params)
    ensures Provided(params, Itself(params))
    ensures AllReadAs(Parse(template, Names(params)), Nested(params, Itself(params)), WrappedContents(params))
    ensures forall n <- Names(params) :: Repeats(params, n) > 0
  {
    SaveableIsPlain(template, params);
    ItselfSpells(params);
    HolesAreNames(template, Names(params));
    forall n | n in Names(params)
      ensures n in Nested(params, Itself(params)) && Repeats(params, n) > 0
      ensures ReadAs(Nested(params, Itself(params))[n], WrappedContents(params)[n])
    {
      NamesMembers(params, n);
      NestedItself(params, Itself(params), n);
      WrappedIsRead(n, Repeats(params, n));
    }
  }

  lemma {:induction false} RepeatedTwice(params: seq<Param>, j: nat)
    requires j < |params|
    ensures Repeats(params, params[j].name) > 0
    ensures (exists i: nat :: i < j && params[i].name == params[j].name) ==> Repeats(params, params[j].name) > 1
  {
    if j > 0 {
      var tail := params[1..];
      RepeatedTwice(tail, j - 1);
      assert tail[j - 1] == params[j];
      forall i: nat | 0 < i < j ensures tail[i - 1] == params[i] {
      }
      if i: nat :| i < j && params[i].name == params[j].name {
        assert i > 0 ==> tail[i - 1].name == tail[j - 1].name;
      }
    }
  }

  /** With all values spelling themselves, a name declared twice reads as more than its value. */
  lemma RepeatChangesMeaning(template: Text, params: seq<Param>, p: Param)
    requires Saveable(template, params) && WellPlaced(template, params) && TemplateTokens(template, params).Some?
    requires p in params && Repeats(params, p.name) > 1
    requires RenderFrom(template, params, Itself(params)).Ok?
    ensures !MeansTemplate(RenderFrom(template, params, Itself(params)).value, template, params, Itself(params))
  {
    var values := Itself(params);
    SaveableIsPlain(template, params);
    ItselfIsRead(template, params);
    RenderedIsSequential(template, params, values);
    SequentialIsNested(template, params, values);
    TokensOfFill(template, params, Nested(params, values), WrappedContents(params));
    UsedParamIsInAWord(template, params, p);
    NamesMembers(params, p.name);
    LongerDiffers(TemplateTokens(template, params).value, Literal(values), WrappedContents(params), p.name);
  }

  // ---- The condition ---------------------------------------------------------

  /**
   A saved action has no patterns. With a complete template whose placeholders stand
   in unquoted text, it keeps its meaning under every accepted request if and only
   if it has at most one parameter; names may repeat.
   */
  lemma SavedActionIff(template: Text, params: seq<Param>)
    requires Saveable(template, params) && forall p <- params :: p.pattern.None?
    requires WellPlaced(template, params) && TemplateTokens(template, params).Some?
    ensures KeepsMeaning(template, params) <==> |params| <= 1
  {
    if Distinct(Names(params)) {
      KeepsMeaningIff(template, params);
      assert |params| > 1 ==> params[0] in params;
    } else {
      var i, j :| 0 <= i < j < |params| && Names(params)[i] == Names(params)[j];
      RepeatedTwice(params, j);
      ItselfSpells(params);
      ItselfIsAccepted(template, params, Itself(params));
      RepeatChangesMeaning(template, params, params[j]);
    }
  }
}
