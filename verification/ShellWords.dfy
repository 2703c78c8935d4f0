/**
 Token recognition of the POSIX.1-2017 Shell Command Language, restricted to
 sections 2.2.1 (escape character), 2.2.2 (single quotes), 2.2.3 (double quotes,
 without nested expansions) and 2.3 (rules 1-4 and 6-10). It is the independent
 reader that rendered commands are measured against.

 Words are sequences of elements that remember whether a character was quoted.
 A `Slot` element stands for a template placeholder whose value is not yet known.
 */
module ShellWords {
  import opened Base

  datatype Elem = Ch(c: char, quoted: bool) | Slot(name: seq<char>)

  datatype Token = Word(elems: seq<Elem>) | Operator(text: seq<char>)

  datatype Mode = Plain | Escape | Single | Double | DoubleEscape | Comment

  /** The token under construction. */
  datatype Current = NoToken | InWord(elems: seq<Elem>) | InOperator(text: seq<char>)

  datatype Lexer = Lexer(mode: Mode, cur: Current, out: seq<Token>)

  const START := Lexer(Plain, NoToken, [])

  /** Control and redirection operators; a newline is a control operator too. */
  predicate IsOperator(s: seq<char>) {
    s in ["&", "&&", "(", ")", ";", ";;", "\n", "|", "||",
          "<", ">", ">|", "<<", ">>", "<&", ">&", "<>", "<<-"]
  }

  predicate IsBlank(c: char) { c == ' ' || c == '\t' }

  /** Ends the token under construction. */
  function Delimit(l: Lexer): Lexer {
    match l.cur
    case NoToken => l
    case InWord(w) => l.(cur := NoToken, out := l.out + [Word(w)])
    case InOperator(o) => l.(cur := NoToken, out := l.out + [Operator(o)])
  }

  /** Makes sure a word is under construction, delimiting an operator first. */
  function OpenWord(l: Lexer): (r: Lexer)
    ensures r.cur.InWord? && r.mode == l.mode
  {
    if l.cur.InWord? then l else Delimit(l).(cur := InWord([]))
  }

  /** Appends elements to the current word, starting one if needed. */
  function Append(l: Lexer, es: seq<Elem>): (r: Lexer)
    ensures r.cur.InWord? && r.mode == l.mode
  {
    var o := OpenWord(l);
    o.(cur := InWord(o.cur.elems + es))
  }

  /** An unquoted character, by the rules of section 2.3 in their order. */
  function StepPlain(l: Lexer, c: char): Lexer {
    if c == '\\' then l.(mode := Escape)
    else if c == '\'' then OpenWord(l).(mode := Single)
    else if c == '"' then OpenWord(l).(mode := Double)
    else if l.cur.InOperator? && IsOperator(l.cur.text + [c]) then l.(cur := InOperator(l.cur.text + [c]))
    else if IsOperator([c]) then Delimit(l).(cur := InOperator([c]))
    else if IsBlank(c) then Delimit(l)
    else if c == '#' && !l.cur.InWord? then Delimit(l).(mode := Comment)
    else Append(l, [Ch(c, false)])
  }

  function Step(l: Lexer, c: char): Lexer {
    match l.mode
    case Plain => StepPlain(l, c)
    case Escape =>
      // A backslash before a newline joins lines; otherwise it quotes the character.
      if c == '\n' then l.(mode := Plain) else Append(l, [Ch(c, true)]).(mode := Plain)
    case Single =>
      if c == '\'' then l.(mode := Plain) else Append(l, [Ch(c, true)])
    case Double =>
      if c == '"' then l.(mode := Plain)
      else if c == '\\' then l.(mode := DoubleEscape)
      else Append(l, [Ch(c, c != '$' && c != '`')])
    case DoubleEscape =>
      if c == '\n' then l.(mode := Double)
      else if c in ['$', '`', '"', '\\'] then Append(l, [Ch(c, true)]).(mode := Double)
      else Append(l, [Ch('\\', true), Ch(c, true)]).(mode := Double)
    case Comment =>
      if c == '\n' then StepPlain(l.(mode := Plain), c) else l
  }

  function Run(l: Lexer, s: seq<char>): Lexer
    decreases |s|
  {
    if s == [] then l else Run(Step(l, s[0]), s[1..])
  }

  /** The tokens of a finished input; None when a quote or an escape is left open. */
  function Finish(l: Lexer): Option<seq<Token>> {
    if l.mode == Plain || l.mode == Comment then Some(Delimit(l).out) else None
  }

  function Tokens(s: seq<char>): Option<seq<Token>> {
    Finish(Run(START, s))
  }

  lemma {:induction false} RunConcat(l: Lexer, a: seq<char>, b: seq<char>)
    ensures Run(l, a + b) == Run(Run(l, a), b)
    decreases |a|
  {
    if a == [] {
      assert a + b == b;
    } else {
      assert (a + b)[1..] == a[1..] + b;
      RunConcat(Step(l, a[0]), a[1..], b);
    }
  }

  /** Every character of a text, quoted or not. */
  function Chars(s: seq<char>, quoted: bool): (r: seq<Elem>)
    ensures |r| == |s|
    ensures forall i :: 0 <= i < |s| ==> r[i] == Ch(s[i], quoted)
  {
    if s == [] then [] else [Ch(s[0], quoted)] + Chars(s[1..], quoted)
  }

  function Quoted(s: seq<char>): (r: seq<Elem>)
    ensures |r| == |s|
    ensures forall i :: 0 <= i < |s| ==> r[i] == Ch(s[i], true)
  {
    Chars(s, true)
  }

  lemma AppendTwice(l: Lexer, a: seq<Elem>, b: seq<Elem>)
    ensures Append(Append(l, a), b) == Append(l, a + b)
  {
    var w := OpenWord(l).cur.elems;
    assert (w + a) + b == w + (a + b);
  }
}
