/**
 What the reference tokeniser makes of each construct, law by law: sections 2.2.1 to
 2.2.3 and 2.3 of the POSIX.1-2017 Shell Command Language.
 */
module ShellLaws {
  import opened Base
  import opened ShellWords

  lemma RunTwo(l: Lexer, a: char, b: char)
    ensures Run(l, [a, b]) == Step(Step(l, a), b)
  {
    assert [a, b][1..] == [b] && [b][1..] == [];
    assert Run(Step(l, a), [b]) == Run(Step(Step(l, a), b), []);
  }

  /** 2.2.1: a backslash quotes the next character, and before a newline it joins the lines. */
  lemma Backslash(l: Lexer, c: char)
    requires l.mode == Plain
    ensures Run(l, ['\\', c]) == if c == '\n' then l else Append(l, [Ch(c, true)])
  {
    RunTwo(l, '\\', c);
    assert Append(l.(mode := Escape), [Ch(c, true)]).(mode := Plain) == Append(l, [Ch(c, true)]);
  }

  /** What lies between double quotes, without a backslash: literal but for expansions. */
  predicate NoEscapes(v: seq<char>) {
    forall c <- v :: c != '"' && c != '\\'
  }

  /** The characters after '$' and '`' stay open to expansion; all others are literal. */
  function InDoubleQuotes(v: seq<char>): (r: seq<Elem>)
    ensures |r| == |v|
    ensures forall i :: 0 <= i < |v| ==> r[i] == Ch(v[i], v[i] != '$' && v[i] != '`')
  {
    if v == [] then [] else [Ch(v[0], v[0] != '$' && v[0] != '`')] + InDoubleQuotes(v[1..])
  }

  lemma {:induction false} RunDouble(l: Lexer, v: seq<char>)
    requires l.mode == Double && l.cur.InWord? && NoEscapes(v)
    ensures Run(l, v) == Append(l, InDoubleQuotes(v))
    decreases |v|
  {
    if v == [] {
      assert l.cur.elems + [] == l.cur.elems;
    } else {
      var e := Ch(v[0], v[0] != '$' && v[0] != '`');
      assert v[0] in v && forall c <- v[1..] :: c in v;
      RunDouble(Append(l, [e]), v[1..]);
      AppendTwice(l, [e], InDoubleQuotes(v[1..]));
    }
  }

  /** 2.2.3: double quotes keep their text in one word; '$' and '`' keep their meaning. */
  lemma DoubleQuotes(l: Lexer, v: seq<char>)
    requires l.mode == Plain && NoEscapes(v)
    ensures Run(l, "\"" + v + "\"") == Append(l, InDoubleQuotes(v))
  {
    var inside := OpenWord(l).(mode := Double);
    RunConcat(l, "\"" + v, "\"");
    RunConcat(l, "\"", v);
    assert Run(l, "\"") == inside by {
      assert "\""[1..] == [];
    }
    RunDouble(inside, v);
    assert Run(Append(inside, InDoubleQuotes(v)), "\"") == Append(inside, InDoubleQuotes(v)).(mode := Plain) by {
      assert "\""[1..] == [];
    }
  }

  /** In double quotes a backslash quotes '$', '`', '"' and itself, joins lines, and is kept before anything else. */
  lemma BackslashInDouble(l: Lexer, c: char)
    requires l.mode == Double && l.cur.InWord?
    ensures Run(l, ['\\', c]) ==
              if c == '\n' then l
              else if c == '$' || c == '`' || c == '"' || c == '\\' then Append(l, [Ch(c, true)])
              else Append(l, [Ch('\\', true), Ch(c, true)])
  {
    RunTwo(l, '\\', c);
  }

  /** 2.3: a blank ends the token before it and is no part of any. */
  lemma Blank(l: Lexer, c: char)
    requires l.mode == Plain && (c == ' ' || c == '\t') && !l.cur.InOperator?
    ensures var r := Step(l, c);
            && r.mode == Plain && r.cur == NoToken
            && r.out == if l.cur.InWord? then l.out + [Word(l.cur.elems)] else l.out
  {
    assert !IsOperator([c]);
  }

  /** The control and redirection operators of sections 2.9 and 2.7, and the newline. */
  predicate SingleOperator(c: char) {
    c == '&' || c == '(' || c == ')' || c == ';' || c == '\n' || c == '|' || c == '<' || c == '>'
  }

  lemma OneCharOperators(c: char)
    ensures IsOperator([c]) <==> SingleOperator(c)
  {
  }

  /** Which operator two operator characters in a row form, if any. */
  predicate DoubleOperator(c: char, d: char) {
    || (c == '&' && d == '&') || (c == '|' && d == '|') || (c == ';' && d == ';')
    || (c == '<' && (d == '<' || d == '>' || d == '&'))
    || (c == '>' && (d == '>' || d == '&' || d == '|'))
  }

  lemma TwoCharOperators(c: char, d: char)
    ensures IsOperator([c, d]) <==> DoubleOperator(c, d)
  {
    assert [c, d][0] == c && [c, d][1] == d;
  }

  /** 2.3: an operator character ends a word, and starts an operator that is not quoted. */
  lemma OperatorStarts(l: Lexer, c: char)
    requires l.mode == Plain && !l.cur.InOperator? && SingleOperator(c)
    ensures var r := Step(l, c);
            && r.mode == Plain && r.cur == InOperator([c])
            && r.out == if l.cur.InWord? then l.out + [Word(l.cur.elems)] else l.out
  {
    OneCharOperators(c);
  }

  /** The longest operator wins: the second character joins the first when they form one, and ends it if not. */
  lemma OperatorGrows(l: Lexer, c: char, d: char)
    requires l.mode == Plain && l.cur == InOperator([c]) && SingleOperator(d)
    ensures Step(l, d) == if DoubleOperator(c, d) then l.(cur := InOperator([c, d]))
                          else Lexer(Plain, InOperator([d]), l.out + [Operator([c])])
  {
    TwoCharOperators(c, d);
    OneCharOperators(d);
    assert [c] + [d] == [c, d];
  }

  /** A character with no role of its own in unquoted text. */
  predicate Ordinary(c: char) {
    !SingleOperator(c) && c !in " \t\\'\"#"
  }

  /** It joins the word, ending an operator before it. */
  lemma OrdinaryJoins(l: Lexer, c: char)
    requires l.mode == Plain && Ordinary(c) && !(c == '-' && l.cur == InOperator("<<"))
    ensures Step(l, c) == Append(l, [Ch(c, false)])
  {
    OneCharOperators(c);
    if l.cur.InOperator? && IsOperator(l.cur.text + [c]) {
      NoOperatorEndsIn(l.cur.text, c);
    }
  }

  /** The one operator of three characters. */
  lemma DashAfterHereDocument(l: Lexer)
    requires l.mode == Plain && l.cur == InOperator("<<")
    ensures Step(l, '-') == l.(cur := InOperator("<<-"))
  {
    assert "<<" + ['-'] == "<<-";
  }

  /** 2.3: where a word could start, '#' makes the rest of the line a comment. */
  lemma Comments(l: Lexer, c: char)
    ensures l.mode == Plain && !l.cur.InWord? && !l.cur.InOperator? ==>
              Step(l, '#') == l.(mode := Comment)
    ensures l.mode == Comment && c != '\n' ==> Step(l, c) == l
    ensures l.mode == Comment && !l.cur.InOperator? ==>
              Step(l, '\n') == Step(l.(mode := Plain), '\n')
    ensures l.mode == Plain && l.cur.InWord? ==> Step(l, '#') == Append(l, [Ch('#', false)])
  {
    assert !IsOperator(['#']);
  }

  lemma NoOperatorEndsIn(op: seq<char>, c: char)
    requires IsOperator(op + [c])
    ensures SingleOperator(c) || (c == '-' && op == "<<")
  {
    var s := op + [c];
    assert s[|op|] == c && s[..|op|] == op;
    if c == '-' {
      assert s == "<<-";
      assert "<<-"[..2] == "<<";
    }
  }

  lemma {:induction false} RunSingle(l: Lexer, v: seq<char>)
    requires l.mode == Single && l.cur.InWord? && '\'' !in v
    ensures Run(l, v) == Append(l, Quoted(v))
    decreases |v|
  {
    if v == [] {
      assert l.cur.elems + [] == l.cur.elems;
    } else {
      assert v[0] in v && forall c <- v[1..] :: c in v;
      RunSingle(Append(l, [Ch(v[0], true)]), v[1..]);
      AppendTwice(l, [Ch(v[0], true)], Quoted(v[1..]));
      assert [Ch(v[0], true)] + Quoted(v[1..]) == Quoted(v);
    }
  }

  /** 2.2.2: single quotes keep everything literal up to the next one, and must be closed. */
  lemma SingleQuotes(l: Lexer, v: seq<char>)
    requires l.mode == Plain && '\'' !in v
    ensures Run(l, "'" + v + "'") == Append(l, Quoted(v))
    ensures Finish(Run(l, "'" + v)) == None
  {
    var inside := OpenWord(l).(mode := Single);
    RunConcat(l, "'" + v, "'");
    RunConcat(l, "'", v);
    assert Run(l, "'") == inside by {
      assert "'"[1..] == [];
    }
    RunSingle(inside, v);
    assert Run(Append(inside, Quoted(v)), "'") == Append(inside, Quoted(v)).(mode := Plain) by {
      assert "'"[1..] == [];
    }
  }
}
