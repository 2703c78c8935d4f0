/**
 Sequential rendering against the simultaneous reference, and what follows for
 the order of the parameters (internal/actions/engine.go:271-298).
 */
module RenderOrder {
  import opened Base
  import opened Substitution
  import opened Render

  // ---- Clean values: sequential is simultaneous -----------------------------

  lemma {:induction false} NoHolesIsLits(s: Text, names: seq<Text>)
    requires forall n <- names :: Hole(n) !in Parse(s, names)
    ensures Parse(s, names) == Lits(s)
    decreases |s|
  {
    if s != [] {
      ParseFirst(s, names);
      assert FirstItem(s, names) in Parse(s, names);
      assert HoleIndex(s, names) == |names|;
      assert forall x <- Parse(s[1..], names) :: x in Parse(s, names);
      NoHolesIsLits(s[1..], names);
    }
  }

  /** A quoted value that mentions none of the names reads as plain characters. */
  lemma QuotedValueIsLits(v: Text, names: seq<Text>)
    requires PlainNames(names)
    requires forall n <- names :: !Contains(v, Placeholder(n))
    ensures Parse(ShellQuote(v), names) == Lits(ShellQuote(v))
  {
    forall n | n in names ensures Hole(n) !in Parse(ShellQuote(v), names) {
      QuoteKeepsHoles(v, n, names);
    }
    NoHolesIsLits(ShellQuote(v), names);
  }

  lemma {:induction false} FillLits(s: Text, texts: Texts)
    ensures Fill(Lits(s), texts) == s
  {
    if s != [] {
      FillLits(s[1..], texts);
    }
  }

  lemma FillFirst(item: Item, rest: Items, texts: Texts)
    ensures Fill([item] + rest, texts) == Filling(item, texts) + Fill(rest, texts)
  {
    assert ([item] + rest)[1..] == rest;
  }

  lemma Associative(a: Text, b: Text, c: Text)
    ensures a + (b + c) == (a + b) + c
  {
  }

  lemma {:induction false} FillConcat(a: Items, b: Items, texts: Texts)
    ensures Fill(a + b, texts) == Fill(a, texts) + Fill(b, texts)
  {
    if a == [] {
      assert a + b == b;
    } else {
      FillConcat(a[1..], b, texts);
      FillConcatStep(a[0], a[1..], b, texts);
      assert a == [a[0]] + a[1..];
    }
  }

  lemma FillConcatStep(item: Item, rest: Items, b: Items, texts: Texts)
    requires Fill(rest + b, texts) == Fill(rest, texts) + Fill(b, texts)
    ensures Fill([item] + rest + b, texts) == Fill([item] + rest, texts) + Fill(b, texts)
  {
    assert [item] + rest + b == [item] + (rest + b);
    FillFirst(item, rest + b, texts);
    FillFirst(item, rest, texts);
    Associative(Filling(item, texts), Fill(rest, texts), Fill(b, texts));
  }

  /** Expanding a hole and then filling is filling, with the filled body in that hole. */
  lemma {:induction false} FillExpand(items: Items, name: Text, body: Items, texts: Texts)
    ensures Fill(Expand(items, name, body), texts) == Fill(items, texts[name := Fill(body, texts)])
  {
    if items != [] {
      var first := if items[0] == Hole(name) then body else [items[0]];
      FillExpand(items[1..], name, body, texts);
      FillConcat(first, Expand(items[1..], name, body), texts);
      FillSingle(items[0], texts);
    }
  }

  lemma FillSingle(item: Item, texts: Texts)
    ensures Fill([item], texts) == Filling(item, texts)
  {
    assert [item][1..] == [];
    assert Fill([item], texts) == Filling(item, texts) + [];
  }

  predicate SameFilling(item: Item, a: Texts, b: Texts) {
    item.Hole? ==> item.name in a && item.name in b && a[item.name] == b[item.name]
  }

  /** Only the texts of holes that occur matter. */
  lemma {:induction false} FillAgrees(items: Items, a: Texts, b: Texts)
    requires forall x <- items :: SameFilling(x, a, b)
    ensures Fill(items, a) == Fill(items, b)
  {
    if items != [] {
      assert SameFilling(items[0], a, b);
      FillAgrees(items[1..], a, b);
    }
  }

  predicate PlainParams(params: seq<Param>) {
    forall p <- params :: PlainName(p.name)
  }

  lemma PlainParamsNames(params: seq<Param>)
    requires PlainParams(params)
    ensures PlainNames(Names(params))
  {
    forall n | n in Names(params) ensures PlainName(n) {
      var i :| 0 <= i < |params| && Names(params)[i] == n;
      assert params[i] in params;
    }
  }

  lemma NamesTail(params: seq<Param>)
    requires params != []
    ensures Names(params) == [params[0].name] + Names(params[1..])
  {
  }

  /** The first value mentions none of the names still to come. */
  lemma FirstValueClean(params: seq<Param>, values: Values)
    requires params != [] && NoLaterPlaceholder(params, values) && params[0].name in values
    ensures forall n <- Names(params[1..]) :: !Contains(values[params[0].name], Placeholder(n))
  {
    forall n | n in Names(params[1..]) ensures !Contains(values[params[0].name], Placeholder(n)) {
      var j :| 0 <= j < |params| - 1 && Names(params[1..])[j] == n;
      assert params[j + 1].name == n;
    }
  }

  /** One pass of the loop, read over the names still to come. */
  lemma PassIsExpand(s: Text, params: seq<Param>, values: Values)
    requires params != [] && PlainParams(params) && params[0].name in values
    ensures var p := params[0];
            Parse(ReplaceAll(s, Placeholder(p.name), ShellQuote(values[p.name])), Names(params[1..]))
            == Expand(Parse(s, Names(params)), p.name, Parse(ShellQuote(values[p.name]), Names(params[1..])))
  {
    var p := params[0];
    PlainParamsNames(params[1..]);
    NamesTail(params);
    assert p in params;
    ReplaceIsExpand(s, p.name, Names(params[1..]), ShellQuote(values[p.name]));
  }

  // ---- Sequential rendering fills every hole at once -------------------------

  /** The text a placeholder ends up as: its quoted value, with the later parameters substituted into it. */
  function Nested(params: seq<Param>, values: Values): Texts
    requires Provided(params, values)
  {
    if params == [] then map[]
    else
      var name := params[0].name;
      Nested(params[1..], values)[name := Sequential(ShellQuote(values[name]), params[1..], values)]
  }

  /** Rendering one parameter after the other, as one pass over the template. */
  lemma {:induction false} SequentialIsNested(s: Text, params: seq<Param>, values: Values)
    requires PlainParams(params) && Provided(params, values)
    ensures Sequential(s, params, values) == Fill(Parse(s, Names(params)), Nested(params, values))
    decreases params
  {
    if params == [] {
      ParseNothing(s);
      FillLits(s, map[]);
    } else {
      var p, tail := params[0], params[1..];
      var quoted := ShellQuote(values[p.name]);
      SequentialIsNested(ReplaceAll(s, Placeholder(p.name), quoted), tail, values);
      SequentialIsNested(quoted, tail, values);
      PassIsExpand(s, params, values);
      FillExpand(Parse(s, Names(params)), p.name, Parse(quoted, Names(tail)), Nested(tail, values));
    }
  }

  /** A text that mentions no parameter passes through unchanged. */
  lemma UnmentionedStays(s: Text, params: seq<Param>, values: Values)
    requires PlainParams(params) && Provided(params, values)
    requires Parse(s, Names(params)) == Lits(s)
    ensures Sequential(s, params, values) == s
  {
    SequentialIsNested(s, params, values);
    FillLits(s, Nested(params, values));
  }

  /** Without later placeholders every hole gets its own quoted value and nothing else. */
  lemma {:induction false} CleanNested(params: seq<Param>, values: Values, n: Text)
    requires PlainParams(params) && Provided(params, values) && NoLaterPlaceholder(params, values)
    requires n in Names(params)
    ensures n in values && n in Nested(params, values) && Nested(params, values)[n] == ShellQuote(values[n])
    decreases params
  {
    var p, tail := params[0], params[1..];
    assert p in params;
    NamesTail(params);
    if n == p.name {
      FirstValueClean(params, values);
      PlainParamsNames(tail);
      QuotedValueIsLits(values[n], Names(tail));
      UnmentionedStays(ShellQuote(values[n]), tail, values);
    } else {
      NoLaterTail(params, values);
      CleanNested(tail, values, n);
    }
  }

  lemma CleanSequentialIsFill(s: Text, params: seq<Param>, values: Values)
    requires PlainParams(params) && Provided(params, values) && NoLaterPlaceholder(params, values)
    ensures Sequential(s, params, values) == Fill(Parse(s, Names(params)), QuoteAll(values))
  {
    var items := Parse(s, Names(params));
    SequentialIsNested(s, params, values);
    HolesAreNames(s, Names(params));
    forall x | x in items ensures SameFilling(x, Nested(params, values), QuoteAll(values)) {
      if x.Hole? {
        CleanNested(params, values, x.name);
      }
    }
    FillAgrees(items, Nested(params, values), QuoteAll(values));
  }

  // ---- Only clean values: counting quotes -----------------------------------

  function Quotes(s: Text): nat {
    if s == [] then 0 else (if s[0] == '\'' then 1 else 0) + Quotes(s[1..])
  }

  lemma {:induction false} QuotesConcat(a: Text, b: Text)
    ensures Quotes(a + b) == Quotes(a) + Quotes(b)
  {
    if a == [] {
      assert a + b == b;
    } else {
      QuotesConcat(a[1..], b);
      assert (a + b)[1..] == a[1..] + b;
    }
  }

  lemma {:induction false} NoQuotes(s: Text)
    requires '\'' !in s
    ensures Quotes(s) == 0
  {
    if s != [] {
      assert s[0] in s;
      NoQuotes(s[1..]);
    }
  }

  lemma QuotedHasTwo(v: Text)
    ensures Quotes(ShellQuote(v)) >= 2
  {
    var body := ReplaceAll(v, QUOTE, ESCAPED_QUOTE);
    QuotesConcat(QUOTE + body, QUOTE);
    QuotesConcat(QUOTE, body);
  }

  /** Filling a text's holes keeps its quotes, and adds some wherever there is a hole. */
  lemma {:induction false} FillAddsQuotes(s: Text, names: seq<Text>, values: Values)
    requires PlainNames(names) && forall n <- names :: n in values
    ensures Quotes(Fill(Parse(s, names), QuoteAll(values))) >= Quotes(s)
    ensures (exists n :: Hole(n) in Parse(s, names)) ==> Quotes(Fill(Parse(s, names), QuoteAll(values))) > Quotes(s)
    decreases |s|
  {
    if s != [] {
      ParseFirst(s, names);
      var n, first := FirstLength(s, names), FirstItem(s, names);
      var rest := Parse(s[n..], names);
      FillAddsQuotes(s[n..], names, values);
      assert ([first] + rest)[1..] == rest;
      assert s == s[..n] + s[n..];
      QuotesConcat(s[..n], s[n..]);
      QuotesConcat(Filling(first, QuoteAll(values)), Fill(rest, QuoteAll(values)));
      var k := HoleIndex(s, names);
      if k < |names| {
        PlaceholderChars(names[k]);
        assert s[..n] == Placeholder(names[k]);
        NoQuotes(s[..n]);
        QuotedHasTwo(values[names[k]]);
      } else {
        assert s[..n] == [s[0]] == Filling(first, QuoteAll(values));
        forall m | Hole(m) in Parse(s, names) ensures Hole(m) in rest {
        }
      }
    }
  }

  lemma QuotesOfFillConcat(a: Items, b: Items, texts: Texts)
    ensures Quotes(Fill(a + b, texts)) == Quotes(Fill(a, texts)) + Quotes(Fill(b, texts))
  {
    FillConcat(a, b, texts);
    QuotesConcat(Fill(a, texts), Fill(b, texts));
  }

  /** Filling after one pass has at least the quotes of filling at once. */
  lemma {:induction false} ExpandAddsQuotes(items: Items, name: Text, body: Items, texts: Texts)
    requires name in texts && Quotes(Fill(body, texts)) >= Quotes(texts[name])
    ensures Quotes(Fill(Expand(items, name, body), texts)) >= Quotes(Fill(items, texts))
    ensures Hole(name) in items && Quotes(Fill(body, texts)) > Quotes(texts[name]) ==>
              Quotes(Fill(Expand(items, name, body), texts)) > Quotes(Fill(items, texts))
  {
    if items != [] {
      var first := if items[0] == Hole(name) then body else [items[0]];
      ExpandAddsQuotes(items[1..], name, body, texts);
      QuotesOfFillConcat(first, Expand(items[1..], name, body), texts);
      QuotesOfFillConcat([items[0]], items[1..], texts);
      FillSingle(items[0], texts);
      assert items == [items[0]] + items[1..];
    }
  }

  /** The first value, quoted and read over the later names. */
  lemma FirstBodyAddsQuotes(params: seq<Param>, values: Values)
    requires params != [] && PlainParams(params) && Provided(params, values)
    ensures var v := values[params[0].name];
            var filled := Quotes(Fill(Parse(ShellQuote(v), Names(params[1..])), QuoteAll(values)));
            && filled >= Quotes(ShellQuote(v))
            && ((exists j :: 0 < j < |params| && Contains(v, Placeholder(params[j].name))) ==>
                  filled > Quotes(ShellQuote(v)))
  {
    var v, tail := values[params[0].name], params[1..];
    assert params[0] in params;
    PlainParamsNames(tail);
    forall n | n in Names(tail) ensures n in values {
      NamesMembers(tail, n);
    }
    FillAddsQuotes(ShellQuote(v), Names(tail), values);
    if j :| 0 < j < |params| && Contains(v, Placeholder(params[j].name)) {
      assert Names(tail)[j - 1] == params[j].name;
      QuoteKeepsHoles(v, params[j].name, Names(tail));
    }
  }

  /** A rendered text has the quotes of the simultaneous one, and more if a later placeholder was in a value. */
  lemma {:induction false} RenderAddsQuotes(template: Text, params: seq<Param>, values: Values)
    requires PlainParams(params) && RenderFrom(template, params, values).Ok?
    ensures var r := RenderFrom(template, params, values).value;
            && Quotes(r) >= Quotes(Simultaneous(template, params, values))
            && (!NoLaterPlaceholder(params, values) ==> Quotes(r) > Quotes(Simultaneous(template, params, values)))
    decreases params
  {
    if params == [] {
      ParseNothing(template);
      FillLits(template, QuoteAll(values));
    } else {
      var p, tail := params[0], params[1..];
      var next := ReplaceAll(template, Placeholder(p.name), ShellQuote(values[p.name]));
      RenderedIsSequential(template, params, values);
      RenderAddsQuotes(next, tail, values);
      PassIsExpand(template, params, values);
      FirstBodyAddsQuotes(params, values);
      PlainParamsNames(params);
      assert p in params && Names(params)[0] == p.name;
      OccursIffHole(template, p.name, Names(params));
      ExpandAddsQuotes(Parse(template, Names(params)), p.name, Parse(ShellQuote(values[p.name]), Names(tail)),
                       QuoteAll(values));
      if !NoLaterPlaceholder(params, values) {
        ViolationIsFirstOrLater(params, values);
      }
    }
  }

  lemma ViolationIsFirstOrLater(params: seq<Param>, values: Values)
    requires params != [] && Provided(params, values) && !NoLaterPlaceholder(params, values)
    ensures || (exists j :: 0 < j < |params| && Contains(values[params[0].name], Placeholder(params[j].name)))
            || !NoLaterPlaceholder(params[1..], values)
  {
    var i, j :| 0 <= i < j < |params| && params[i].name in values
                && Contains(values[params[i].name], Placeholder(params[j].name));
    assert params[0] in params;
    if i > 0 {
      assert params[1..][i - 1] == params[i] && params[1..][j - 1] == params[j];
    }
  }

  lemma {:induction false} HolesAreNames(s: Text, names: seq<Text>)
    ensures forall n :: Hole(n) in Parse(s, names) ==> n in names
    decreases |s|
  {
    if s != [] {
      ParseFirst(s, names);
      HolesAreNames(s[FirstLength(s, names)..], names);
    }
  }

  /**
   For every request the loop accepts: it computes the simultaneous substitution
   exactly when no value contains the placeholder of a parameter declared later.
   Names need not be distinct, and a placeholder may come from a value alone.
   */
  lemma SequentialIsSimultaneousIff(template: Text, params: seq<Param>, values: Values)
    requires PlainParams(params) && RenderFrom(template, params, values).Ok?
    ensures RenderFrom(template, params, values).value == Simultaneous(template, params, values)
       <==> NoLaterPlaceholder(params, values)
  {
    RenderedIsSequential(template, params, values);
    if NoLaterPlaceholder(params, values) {
      CleanSequentialIsFill(template, params, values);
    } else {
      RenderAddsQuotes(template, params, values);
    }
  }

  // ---- When rendering succeeds ----------------------------------------------

  lemma NamesMembers(params: seq<Param>, n: Text)
    ensures n in Names(params) <==> exists p <- params :: p.name == n
  {
    if n in Names(params) {
      var i :| 0 <= i < |params| && Names(params)[i] == n;
      assert params[i] in params;
    }
    if p :| p in params && p.name == n {
      var i :| 0 <= i < |params| && params[i] == p;
      assert Names(params)[i] == n;
    }
  }

  /** What a successful request looks like, read off the declaration and the values alone. */
  predicate Acceptable(template: Text, params: seq<Param>, values: Values) {
    && Distinct(Names(params))
    && AllUsed(template, params)
    && (forall p <- params :: p.name in values && values[p.name] != "" && ValueOk(p, values[p.name]))
  }

  lemma {:induction false} ExpandClean(items: Items, name: Text, s: Text, other: Text)
    ensures Hole(other) in Expand(items, name, Lits(s)) <==> other != name && Hole(other) in items
  {
    if items != [] {
      ExpandClean(items[1..], name, s, other);
      assert items == [items[0]] + items[1..];
      assert Hole(other) !in Lits(s);
    }
  }

  /** A pass with a clean value uses up its own placeholder and leaves the later ones. */
  lemma CleanPassKeepsOthers(s: Text, params: seq<Param>, values: Values, other: Text)
    requires params != [] && PlainParams(params) && NoLaterPlaceholder(params, values)
    requires params[0].name in values && other in Names(params[1..])
    ensures var p := params[0];
            Contains(ReplaceAll(s, Placeholder(p.name), ShellQuote(values[p.name])), Placeholder(other))
            <==> other != p.name && Contains(s, Placeholder(other))
  {
    var p := params[0];
    var q := ShellQuote(values[p.name]);
    var tail := Names(params[1..]);
    NamesTail(params);
    PlainParamsNames(params);
    PlainParamsNames(params[1..]);
    FirstValueClean(params, values);
    QuotedValueIsLits(values[p.name], tail);
    PassIsExpand(s, params, values);
    ExpandClean(Parse(s, Names(params)), p.name, q, other);
    OccursIffHole(s, other, Names(params));
    OccursIffHole(ReplaceAll(s, Placeholder(p.name), q), other, tail);
  }

  lemma NamesTailDistinct(params: seq<Param>)
    requires params != []
    ensures Distinct(Names(params)) <==> Distinct(Names(params[1..])) && params[0].name !in Names(params[1..])
  {
    var names, tail := Names(params), Names(params[1..]);
    NamesTail(params);
    assert forall i :: 0 <= i < |tail| ==> names[i + 1] == tail[i];
    if Distinct(tail) && params[0].name !in tail {
      forall i, j | 0 <= i < j < |names| ensures names[i] != names[j] {
        assert names[j] == tail[j - 1] && (i > 0 ==> names[i] == tail[i - 1]);
      }
    }
  }

  predicate AllUsed(s: Text, params: seq<Param>) {
    forall p <- params :: Contains(s, Placeholder(p.name))
  }

  lemma AllUsedTail(s: Text, params: seq<Param>, values: Values)
    requires params != [] && PlainParams(params) && NoLaterPlaceholder(params, values)
    requires params[0].name in values
    ensures var p := params[0];
            var next := ReplaceAll(s, Placeholder(p.name), ShellQuote(values[p.name]));
            Distinct(Names(params)) && AllUsed(s, params) <==>
              Contains(s, Placeholder(p.name)) && Distinct(Names(params[1..])) && AllUsed(next, params[1..])
  {
    var p := params[0];
    var tail := params[1..];
    var next := ReplaceAll(s, Placeholder(p.name), ShellQuote(values[p.name]));
    NamesTailDistinct(params);
    assert params == [p] + tail;
    forall t | t in tail
      ensures t.name in Names(tail)
      ensures Contains(next, Placeholder(t.name)) <==> t.name != p.name && Contains(s, Placeholder(t.name))
    {
      NamesMembers(tail, t.name);
      CleanPassKeepsOthers(s, params, values, t.name);
    }
    NamesMembers(tail, p.name);
  }

  /** A pass leaves the later placeholders in place, whatever the value. */
  lemma PassKeepsUse(s: Text, params: seq<Param>, values: Values)
    requires params != [] && PlainParams(params) && params[0].name in values
    requires Distinct(Names(params)) && AllUsed(s, params)
    ensures var p := params[0];
            AllUsed(ReplaceAll(s, Placeholder(p.name), ShellQuote(values[p.name])), params[1..])
  {
    var p, tail := params[0], params[1..];
    var quoted := ShellQuote(values[p.name]);
    NamesTailDistinct(params);
    PlainParamsNames(params);
    PlainParamsNames(tail);
    PassIsExpand(s, params, values);
    forall t | t in tail ensures Contains(ReplaceAll(s, Placeholder(p.name), quoted), Placeholder(t.name)) {
      assert t in params;
      NamesMembers(tail, t.name);
      NamesMembers(params, t.name);
      OccursIffHole(s, t.name, Names(params));
      ExpandKeeps(Parse(s, Names(params)), p.name, Parse(quoted, Names(tail)), t.name);
      OccursIffHole(ReplaceAll(s, Placeholder(p.name), quoted), t.name, Names(tail));
    }
  }

  /** Parameters declared once, used, given and valid are always enough. */
  lemma {:induction false} AcceptableSucceeds(template: Text, params: seq<Param>, values: Values)
    requires PlainParams(params) && Acceptable(template, params, values)
    ensures RenderFrom(template, params, values).Ok?
    decreases params
  {
    if params != [] {
      var p, tail := params[0], params[1..];
      assert params == [p] + tail;
      NamesTailDistinct(params);
      PassKeepsUse(template, params, values);
      AcceptableSucceeds(ReplaceAll(template, Placeholder(p.name), ShellQuote(values[p.name])), tail, values);
    }
  }

  /** The checks on the rest of the parameters, before and after a clean pass. */
  lemma AcceptableTail(s: Text, params: seq<Param>, values: Values)
    requires params != [] && PlainParams(params) && NoLaterPlaceholder(params, values)
    requires params[0].name in values
    ensures var p := params[0];
            Acceptable(s, params, values) <==>
              && Contains(s, Placeholder(p.name)) && values[p.name] != "" && ValueOk(p, values[p.name])
              && Acceptable(ReplaceAll(s, Placeholder(p.name), ShellQuote(values[p.name])), params[1..], values)
  {
    AllUsedTail(s, params, values);
    assert params == [params[0]] + params[1..];
  }

  /**
   When no value mentions a later placeholder, rendering succeeds exactly when
   every parameter is declared once, used by the template, given and valid; and
   the result is the simultaneous substitution.
   */
  lemma {:induction false} RenderSucceedsIff(template: Text, params: seq<Param>, values: Values)
    requires PlainParams(params) && NoLaterPlaceholder(params, values)
    ensures RenderFrom(template, params, values).Ok? <==> Acceptable(template, params, values)
    ensures RenderFrom(template, params, values).Ok? ==>
              RenderFrom(template, params, values).value == Simultaneous(template, params, values)
    decreases params
  {
    if params != [] {
      var p := params[0];
      assert p in params;
      if p.name in values {
        var next := ReplaceAll(template, Placeholder(p.name), ShellQuote(values[p.name]));
        NoLaterTail(params, values);
        AcceptableTail(template, params, values);
        RenderSucceedsIff(next, params[1..], values);
      }
    }
    if RenderFrom(template, params, values).Ok? {
      RenderedIsSequential(template, params, values);
      CleanSequentialIsFill(template, params, values);
    }
  }

  // ---- The order of the parameters ------------------------------------------

  predicate NoPlaceholderAtAll(params: seq<Param>, values: Values) {
    forall p <- params, q <- params :: p.name in values ==> !Contains(values[p.name], Placeholder(q.name))
  }

  lemma NoPlaceholderIsNoLater(params: seq<Param>, values: Values)
    requires NoPlaceholderAtAll(params, values)
    ensures NoLaterPlaceholder(params, values)
  {
    forall i, j | 0 <= i < j < |params| && params[i].name in values
      ensures !Contains(values[params[i].name], Placeholder(params[j].name))
    {
      assert params[i] in params && params[j] in params;
    }
  }

  /** The reading of a template depends on the set of names only. */
  lemma {:induction false} ParseIgnoresOrder(s: Text, a: seq<Text>, b: seq<Text>)
    requires PlainNames(a) && PlainNames(b)
    requires forall n :: n in a <==> n in b
    ensures Parse(s, a) == Parse(s, b)
    decreases |s|
  {
    if s != [] {
      var i, j := HoleIndex(s, a), HoleIndex(s, b);
      if i < |a| {
        assert a[i] in b;
        PlaceholderAtMostOne(a[i], b[j], s);
        ParseIgnoresOrder(s[|Placeholder(a[i])|..], a, b);
      } else {
        assert forall n <- b :: n in a;
        ParseIgnoresOrder(s[1..], a, b);
      }
    }
  }

  lemma WithoutOne<T>(s: seq<T>, i: nat)
    requires i < |s|
    ensures multiset(s[..i] + s[i + 1..]) == multiset(s) - multiset{s[i]}
    ensures multiset(s) == multiset(s[..i] + s[i + 1..]) + multiset{s[i]}
  {
    assert s == s[..i] + [s[i]] + s[i + 1..];
  }

  lemma NamesOfConcat(a: seq<Param>, b: seq<Param>)
    ensures Names(a + b) == Names(a) + Names(b)
  {
  }

  lemma NamesSplit(b: seq<Param>, i: nat)
    requires i <= |b|
    ensures Names(b)[..i] == Names(b[..i]) && Names(b)[i..] == Names(b[i..])
  {
    NamesOfConcat(b[..i], b[i..]);
    assert b == b[..i] + b[i..];
  }

  lemma NamesWithoutOne(b: seq<Param>, i: nat)
    requires i < |b|
    ensures Names(b[..i] + b[i + 1..]) == Names(b)[..i] + Names(b)[i + 1..]
  {
    NamesOfConcat(b[..i], b[i + 1..]);
    NamesSplit(b, i);
    NamesSplit(b, i + 1);
  }

  lemma NamesPulled(b: seq<Param>, i: nat)
    requires i < |b|
    ensures multiset(Names(b)) == multiset(Names(b[..i] + b[i + 1..])) + multiset{b[i].name}
  {
    NamesWithoutOne(b, i);
    WithoutOne(Names(b), i);
  }

  /** Reordering parameters reorders their names. */
  lemma {:induction false} NamesReordered(a: seq<Param>, b: seq<Param>)
    requires multiset(a) == multiset(b)
    ensures multiset(Names(a)) == multiset(Names(b))
    decreases |a|
  {
    if a == [] {
      assert |b| == |multiset(b)| == 0;
    } else {
      assert a[0] in multiset(b);
      var i :| 0 <= i < |b| && b[i] == a[0];
      FirstPulled(a, b, i);
      NamesReordered(a[1..], b[..i] + b[i + 1..]);
      NamesPulled(b, i);
      NamesTail(a);
    }
  }

  lemma FirstPulled(a: seq<Param>, b: seq<Param>, i: nat)
    requires multiset(a) == multiset(b) && a != [] && i < |b| && b[i] == a[0]
    ensures multiset(a[1..]) == multiset(b[..i] + b[i + 1..])
  {
    assert a == [a[0]] + a[1..];
    WithoutOne(b, i);
  }

  lemma DistinctReordered(a: seq<Text>, b: seq<Text>)
    requires multiset(a) == multiset(b) && Distinct(a)
    ensures Distinct(b)
  {
    forall i, j | 0 <= i < j < |b| ensures b[i] != b[j] {
      if b[i] == b[j] {
        assert b == b[..i] + [b[i]] + b[i + 1..j] + [b[j]] + b[j + 1..];
        assert multiset(a)[b[i]] >= 2;
        AppearsOnce(a, b[i]);
      }
    }
  }

  lemma {:induction false} AppearsOnce(a: seq<Text>, n: Text)
    requires Distinct(a)
    ensures multiset(a)[n] <= 1
  {
    if a != [] {
      assert a == [a[0]] + a[1..];
      assert Distinct(a[1..]);
      AppearsOnce(a[1..], n);
      if a[0] == n {
        assert n !in a[1..];
      }
    }
  }

  lemma AcceptableReordered(template: Text, a: seq<Param>, b: seq<Param>, values: Values)
    requires multiset(a) == multiset(b) && Acceptable(template, a, values)
    ensures Acceptable(template, b, values)
  {
    NamesReordered(a, b);
    DistinctReordered(Names(a), Names(b));
    forall p | p in b ensures p in a {
      assert p in multiset(b);
    }
  }

  /** Reordering the declared parameters changes neither whether rendering succeeds nor its result. */
  lemma OrderDoesNotMatter(template: Text, a: seq<Param>, b: seq<Param>, values: Values)
    requires PlainParams(a) && multiset(a) == multiset(b) && NoPlaceholderAtAll(a, values)
    ensures RenderFrom(template, a, values).Ok? <==> RenderFrom(template, b, values).Ok?
    ensures RenderFrom(template, a, values).Ok? ==> RenderFrom(template, a, values) == RenderFrom(template, b, values)
  {
    forall p ensures p in a <==> p in b {
      assert p in multiset(a) <==> p in multiset(b);
    }
    NoPlaceholderIsNoLater(a, values);
    NoPlaceholderIsNoLater(b, values);
    RenderSucceedsIff(template, a, values);
    RenderSucceedsIff(template, b, values);
    if Acceptable(template, a, values) {
      AcceptableReordered(template, a, b, values);
    } else if Acceptable(template, b, values) {
      AcceptableReordered(template, b, a, values);
    }
    forall n ensures n in Names(a) <==> n in Names(b) {
      NamesMembers(a, n);
      NamesMembers(b, n);
    }
    PlainParamsNames(a);
    PlainParamsNames(b);
    ParseIgnoresOrder(template, Names(a), Names(b));
  }

  // ---- Which values are clean -----------------------------------------------

  lemma PlaceholderHasBrace(v: Text, name: Text)
    requires OccursIn(Placeholder(name), v)
    ensures '{' in v
  {
    var i :| 0 <= i <= |v| && Placeholder(name) <= v[i..];
    assert v[i..][0] == v[i];
  }

  lemma NoBraceNoPlaceholder(v: Text, name: Text)
    requires '{' !in v
    ensures !Contains(v, Placeholder(name))
  {
    if OccursIn(Placeholder(name), v) {
      PlaceholderHasBrace(v, name);
    }
  }

  /** No value a catalog pattern accepts can mention any placeholder. */
  lemma PatternsAreClean(re: Pattern, v: Text)
    requires Matches(re, v)
    ensures '{' !in v
  {
    match re {
      case HttpUrl =>
        var scheme := if MatchesUrl(v, "http://") then "http://" else "https://";
        assert v == scheme + v[|scheme|..];
      case Pid =>
      case SmallInt =>
      case UnitName => assert v == [v[0]] + v[1..];
      case AbsPath => assert v == [v[0]] + v[1..];
      case ObjectName => assert v == [v[0]] + v[1..];
      case HostName => assert v == [v[0]] + v[1..];
    }
  }

  /** So for catalog actions the order of parameters never matters. */
  lemma CatalogValuesAreClean(params: seq<Param>, values: Values)
    requires forall p <- params :: p.name in values && p.pattern.Some? && ValueOk(p, values[p.name])
    ensures NoPlaceholderAtAll(params, values) && NoLaterPlaceholder(params, values)
  {
    forall p, q | p in params && q in params ensures !Contains(values[p.name], Placeholder(q.name)) {
      PatternsAreClean(p.pattern.value, values[p.name]);
      NoBraceNoPlaceholder(values[p.name], q.name);
    }
    NoPlaceholderIsNoLater(params, values);
  }

  /** An accepted request has a valid value for every parameter. */
  lemma {:induction false} AcceptedValuesOk(template: Text, params: seq<Param>, values: Values)
    requires RenderFrom(template, params, values).Ok?
    ensures forall p <- params :: p.name in values && ValueOk(p, values[p.name])
    decreases params
  {
    if params != [] {
      var p := params[0];
      AcceptedValuesOk(ReplaceAll(template, Placeholder(p.name), ShellQuote(values[p.name])), params[1..], values);
      assert params == [p] + params[1..];
    }
  }

  /** Only the last parameter may be free text. */
  predicate FreeOnlyLast(params: seq<Param>) {
    forall i :: 0 <= i < |params| - 1 ==> params[i].pattern.Some?
  }

  /** So an action whose parameters but the last all have patterns renders to the simultaneous substitution. */
  lemma AcceptedValuesAreClean(template: Text, params: seq<Param>, values: Values)
    requires RenderFrom(template, params, values).Ok? && FreeOnlyLast(params)
    ensures NoLaterPlaceholder(params, values)
  {
    AcceptedValuesOk(template, params, values);
    forall i, j | 0 <= i < j < |params| && params[i].name in values
      ensures !Contains(values[params[i].name], Placeholder(params[j].name))
    {
      assert params[i] in params;
      PatternsAreClean(params[i].pattern.value, values[params[i].name]);
      NoBraceNoPlaceholder(values[params[i].name], params[j].name);
    }
  }

  // ---- Free text can break it -----------------------------------------------

  function TwoParams(a: Text, b: Text): seq<Param> {
    [Param(a, None), Param(b, None)]
  }

  function TwoHoles(a: Text, b: Text): Text {
    Placeholder(a) + Placeholder(b)
  }

  lemma TwoParamsFacts(a: Text, b: Text)
    requires PlainName(a) && PlainName(b) && a != b
    ensures Names(TwoParams(a, b)) == [a, b] && TwoParams(a, b)[1..] == [Param(b, None)]
    ensures Names([Param(b, None)]) == [b] && [Param(b, None)][1..] == []
    ensures Distinct([a, b])
    ensures Contains(TwoHoles(a, b), Placeholder(a)) && Contains(TwoHoles(a, b), Placeholder(b))
  {
    assert TwoParams(a, b)[1..] == [Param(b, None)];
    var t := TwoHoles(a, b);
    assert Placeholder(a) <= t[0..];
    assert Placeholder(b) <= t[|Placeholder(a)|..];
  }

  /** After the first pass the second placeholder is still there. */
  lemma SecondStillUsed(a: Text, b: Text, values: Values)
    requires PlainName(a) && PlainName(b) && a != b && a in values
    ensures Contains(ReplaceAll(TwoHoles(a, b), Placeholder(a), ShellQuote(values[a])), Placeholder(b))
  {
    TwoParamsFacts(a, b);
    var t := TwoHoles(a, b);
    PassIsExpand(t, TwoParams(a, b), values);
    OccursIffHole(t, b, [a, b]);
    OccursIffHole(ReplaceAll(t, Placeholder(a), ShellQuote(values[a])), b, [b]);
    ExpandKeeps(Parse(t, [a, b]), a, Parse(ShellQuote(values[a]), [b]), b);
  }

  /** A value that spells a later placeholder is itself substituted: the result is not the reference. */
  lemma SpelledPlaceholderIsSubstituted(a: Text, b: Text, values: Values)
    requires PlainName(a) && PlainName(b) && a != b
    requires a in values && b in values && values[b] != "" && FreeTextOk(values[b])
    requires values[a] == Placeholder(b) && FreeTextOk(values[a])
    ensures RenderFrom(TwoHoles(a, b), TwoParams(a, b), values).Ok?
    ensures RenderFrom(TwoHoles(a, b), TwoParams(a, b), values).value
         != Simultaneous(TwoHoles(a, b), TwoParams(a, b), values)
  {
    var t, params := TwoHoles(a, b), TwoParams(a, b);
    var next := ReplaceAll(t, Placeholder(a), ShellQuote(values[a]));
    TwoParamsFacts(a, b);
    SecondStillUsed(a, b, values);
    assert RenderFrom(next, [Param(b, None)], values).Ok?;
    RenderedIsSequential(t, params, values);
    assert !NoLaterPlaceholder(params, values) by {
      assert Placeholder(b) <= values[a][0..];
      assert Contains(values[params[0].name], Placeholder(params[1].name));
    }
    SequentialIsSimultaneousIff(t, params, values);
  }

  /** A concrete request: `{{a}}{{b}}` with a = `{{b}}` and b = `x`. */
  lemma LaterPlaceholderExample()
    ensures var values := map["a" := "{{b}}", "b" := "x"];
            && RenderFrom("{{a}}{{b}}", TwoParams("a", "b"), values).Ok?
            && RenderFrom("{{a}}{{b}}", TwoParams("a", "b"), values).value
               != Simultaneous("{{a}}{{b}}", TwoParams("a", "b"), values)
  {
    var values := map["a" := "{{b}}", "b" := "x"];
    assert TwoHoles("a", "b") == "{{a}}{{b}}" && Placeholder("b") == "{{b}}";
    assert "{{b}}"[1..] == "{b}}" && "{b}}"[1..] == "b}}" && "b}}"[1..] == "}}" && "}}"[1..] == "}";
    assert BytesOf("{{b}}") == 5;
    SpelledPlaceholderIsSubstituted("a", "b", values);
  }

  lemma {:induction false} ExpandKeeps(items: Items, name: Text, body: Items, other: Text)
    requires other != name && Hole(other) in items
    ensures Hole(other) in Expand(items, name, body)
  {
    assert items == [items[0]] + items[1..];
    if items[0] != Hole(other) {
      ExpandKeeps(items[1..], name, body, other);
    }
  }
}
