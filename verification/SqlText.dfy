/**
 How a migration text becomes statements (internal/store/store.go:99-131): comments
 are cut line by line and the rest is split at semicolons, without looking at string
 literals. A scanner that does look at them is the reference.
 */
module SqlText {
  import opened Text
  import Tags

  // ---- What the code does ---------------------------------------------------

  predicate StartsComment(s: Str) {
    |s| >= 2 && s[0] == '-' && s[1] == '-'
  }

  /** The part of a line before its first "--". */
  function CutLine(line: Str): (r: Str)
    ensures r <= line
  {
    if line == [] || StartsComment(line) then [] else [line[0]] + CutLine(line[1..])
  }

  function CutLines(lines: seq<Str>): Str {
    if lines == [] then [] else CutLines(lines[..|lines| - 1]) + (CutLine(lines[|lines| - 1]) + ['\n'])
  }

  /** The statements `execMigration` sends, in order. */
  function Statements(text: Str): seq<Str> {
    Tags.Clean(Split(CutLines(Split(text, '\n')), ';'))
  }

  lemma CutFurther(line: Str, i: nat, cut: Str)
    requires i < |line| && cut == line[..i] + CutLine(line[i..]) && !StartsComment(line[i..])
    ensures cut == line[..i + 1] + CutLine(line[i + 1..])
  {
    CutFirst(line[i..], line[i + 1..]);
    MoveOver(line[..i], line[i], CutLine(line[i + 1..]));
    assert line[..i + 1] == line[..i] + [line[i]];
  }

  lemma MoveOver(a: Str, c: char, b: Str)
    ensures a + ([c] + b) == (a + [c]) + b
  {
  }

  lemma CutFirst(line: Str, rest: Str)
    requires line != [] && rest == line[1..] && !StartsComment(line)
    ensures CutLine(line) == [line[0]] + CutLine(rest)
  {
  }

  /** `strings.Index(line, "--")`; the length of the line if there is none. */
  method IndexOfComment(line: Str) returns (i: nat)
    ensures i <= |line| && line[..i] == CutLine(line)
  {
    i := 0;
    assert line[0..] == line;
    while i < |line| && !StartsComment(line[i..])
      invariant i <= |line| && CutLine(line) == line[..i] + CutLine(line[i..])
    {
      CutFurther(line, i, CutLine(line));
      i := i + 1;
    }
  }

  method SplitMigration(text: Str) returns (statements: seq<Str>)
    ensures statements == Statements(text)
  {
    var lines := Split(text, '\n');
    var clean := [];
    for n := 0 to |lines|
      invariant clean == CutLines(lines[..n])
    {
      var i := IndexOfComment(lines[n]);
      assert lines[..n + 1][..n] == lines[..n];
      clean := clean + (lines[n][..i] + ['\n']);
    }
    assert lines[..|lines|] == lines;
    statements := Tags.CleanTags(Split(clean, ';'));
  }

  // ---- The reference scanner ------------------------------------------------

  datatype Mode = Code | InString | InComment

  /** Where the scanner is after one character; a "--" in code opens a comment. */
  function NextMode(s: Str, mode: Mode): Mode
    requires s != []
  {
    match mode
    case InComment => if s[0] == '\n' then Code else InComment
    case InString => if s[0] == '\'' then Code else InString
    case Code => if StartsComment(s) then InComment else if s[0] == '\'' then InString else Code
  }

  /** Whether that character belongs to a statement (a comment keeps only its newline). */
  predicate Kept(s: Str, mode: Mode)
    requires s != []
  {
    match mode
    case InComment => s[0] == '\n'
    case InString => true
    case Code => !StartsComment(s)
  }

  /** Statement texts: split at semicolons in code, comments left out. */
  function Scan(s: Str, mode: Mode): (parts: seq<Str>)
    ensures parts != []
  {
    if s == [] then [[]]
    else
      var rest := Scan(s[1..], NextMode(s, mode));
      if mode == Code && s[0] == ';' then [[]] + rest
      else if Kept(s, mode) then [[s[0]] + rest[0]] + rest[1..]
      else rest
  }

  function RealStatements(text: Str): seq<Str> {
    Tags.Clean(Scan(text, Code))
  }

  /** No string literal contains "--" or a semicolon. */
  predicate PlainLiterals(s: Str, mode: Mode) {
    s == [] ||
    (&& (mode == InString ==> s[0] != ';' && !StartsComment(s))
     && PlainLiterals(s[1..], NextMode(s, mode)))
  }

  // ---- They agree -----------------------------------------------------------

  /** Comment removal that does not know about literals, one character at a time. */
  function Cut(s: Str, comment: bool): Str {
    if s == [] then []
    else if comment then (if s[0] == '\n' then ['\n'] + Cut(s[1..], false) else Cut(s[1..], true))
    else if StartsComment(s) then Cut(s[1..], true)
    else [s[0]] + Cut(s[1..], false)
  }

  lemma {:induction false} SkipComment(line: Str, rest: Str)
    requires '\n' !in line
    ensures Cut(line + ['\n'] + rest, true) == ['\n'] + Cut(rest, false)
  {
    var s := line + ['\n'] + rest;
    if line == [] {
      assert s[1..] == rest;
    } else {
      assert line[0] in line && s[0] == line[0];
      assert s[1..] == line[1..] + ['\n'] + rest;
      SkipComment(line[1..], rest);
    }
  }

  lemma {:induction false} CutOneLine(line: Str, rest: Str)
    requires '\n' !in line
    ensures Cut(line + ['\n'] + rest, false) == CutLine(line) + ['\n'] + Cut(rest, false)
  {
    var s := line + ['\n'] + rest;
    if line == [] {
      assert s[1..] == rest;
    } else {
      assert line[0] in line && s[0] == line[0];
      assert s[1..] == line[1..] + ['\n'] + rest;
      assert |line| > 1 ==> s[1] == line[1];
      assert StartsComment(s) <==> StartsComment(line);
      if StartsComment(line) {
        SkipComment(line[1..], rest);
      } else {
        CutOneLine(line[1..], rest);
      }
    }
  }

  lemma {:induction false} CutLinesFront(line: Str, lines: seq<Str>)
    ensures CutLines([line] + lines) == CutLine(line) + ['\n'] + CutLines(lines)
  {
    var all := [line] + lines;
    var n := |lines|;
    if n == 0 {
      assert all[..0] == [] && all == [line];
    } else {
      CutLinesFront(line, lines[..n - 1]);
      assert all[..n] == [line] + lines[..n - 1];
    }
  }

  function FirstLine(s: Str): (n: nat)
    ensures n <= |s| && '\n' !in s[..n]
    ensures n < |s| ==> s[n] == '\n'
  {
    if s == [] || s[0] == '\n' then 0
    else
      var n := 1 + FirstLine(s[1..]);
      assert s[..n] == [s[0]] + s[1..][..n - 1];
      n
  }

  /** Cutting line by line is cutting character by character, plus a last newline. */
  lemma {:induction false} CutLinesIsCut(text: Str)
    ensures CutLines(Split(text, '\n')) == Cut(text + ['\n'], false)
    decreases |text|
  {
    var n := FirstLine(text);
    var line := text[..n];
    SplitWithout(line, '\n');
    if n == |text| {
      CutOneLine(line, []);
      assert line == text && text + ['\n'] + [] == text + ['\n'];
      assert CutLines([text][..0]) == [];
    } else {
      var rest := text[n + 1..];
      assert text == line + ['\n'] + rest;
      SplitAt(line, '\n', rest);
      CutLinesIsCut(rest);
      CutOneLine(line, rest + ['\n']);
      assert text + ['\n'] == line + ['\n'] + (rest + ['\n']);
      CutLinesFront(line, Split(rest, '\n'));
    }
  }

  lemma {:induction false} CutThenSplitIsScan(s: Str, mode: Mode)
    requires PlainLiterals(s, mode)
    ensures Split(Cut(s, mode == InComment), ';') == Scan(s, mode)
  {
    if s != [] {
      var next := NextMode(s, mode);
      CutThenSplitIsScan(s[1..], next);
      var r := Cut(s[1..], next == InComment);
      if Kept(s, mode) {
        assert Cut(s, mode == InComment) == [s[0]] + r;
        assert ([s[0]] + r)[1..] == r;
      } else {
        assert Cut(s, mode == InComment) == r;
      }
    }
  }

  // ---- The last newline -----------------------------------------------------

  lemma {:induction false} TrimLastNewline(s: Str)
    ensures TrimSpace(s + ['\n']) == TrimSpace(s)
  {
    var t := s + ['\n'];
    if s == [] {
      assert t[1..] == [];
    } else {
      assert t[0] == s[0] && t[1..] == s[1..] + ['\n'];
      if IsSpace(s[0]) {
        TrimLastNewline(s[1..]);
      } else {
        assert t[..|t| - 1] == s;
      }
    }
  }

  function GrowLast(p: seq<Str>): seq<Str>
    requires p != []
  {
    p[..|p| - 1] + [p[|p| - 1] + ['\n']]
  }

  lemma GrowAfter(head: Str, p: seq<Str>)
    requires p != []
    ensures GrowLast([head] + p) == [head] + GrowLast(p)
    ensures GrowLast([head + p[0]] + p[1..]) == [head + GrowLast(p)[0]] + GrowLast(p)[1..]
  {
    var n := |p| - 1;
    assert ([head] + p)[..n + 1] == [head] + p[..n];
    if n == 0 {
      assert head + (p[0] + ['\n']) == (head + p[0]) + ['\n'];
    } else {
      assert ([head + p[0]] + p[1..])[..n] == [head + p[0]] + p[1..n];
      assert GrowLast(p)[1..] == p[1..n] + [p[n] + ['\n']];
    }
  }

  lemma ScanNewline(mode: Mode)
    ensures Scan(['\n'], mode) == GrowLast(Scan([], mode))
  {
    var end: Str := ['\n'];
    var none: seq<Str> := [[]];
    assert end[1..] == [] && Scan(end[1..], NextMode(end, mode)) == none;
    assert Kept(end, mode);
    assert Scan(end, mode) == [[end[0]] + none[0]] + none[1..];
    assert [end[0]] + none[0] == end && none[1..] == [];
    assert none[..0] == [] && none[0] + end == end;
  }

  /** A final newline only lengthens the last statement text. */
  lemma {:induction false} ScanLastNewline(s: Str, mode: Mode)
    requires PlainLiterals(s, mode)
    ensures PlainLiterals(s + ['\n'], mode)
    ensures Scan(s + ['\n'], mode) == GrowLast(Scan(s, mode))
  {
    var t := s + ['\n'];
    if s == [] {
      assert t == ['\n'];
      ScanNewline(mode);
    } else {
      var next := NextMode(s, mode);
      assert t[0] == s[0] && t[1..] == s[1..] + ['\n'];
      assert |s| > 1 ==> t[1] == s[1];
      assert StartsComment(t) <==> StartsComment(s);
      ScanLastNewline(s[1..], next);
      var r := Scan(s[1..], next);
      GrowAfter([s[0]], r);
      GrowAfter([], r);
    }
  }

  lemma CleanAppend(front: seq<Str>, x: Str, y: Str)
    requires TrimSpace(x) == TrimSpace(y)
    ensures Tags.Clean(front + [x]) == Tags.Clean(front + [y])
  {
    Tags.CleanConcat(front, [x]);
    Tags.CleanConcat(front, [y]);
    Tags.CleanOne(x);
    Tags.CleanOne(y);
  }

  lemma CleanGrown(p: seq<Str>)
    requires p != []
    ensures Tags.Clean(GrowLast(p)) == Tags.Clean(p)
  {
    var n := |p| - 1;
    CleanLongerLast(p[..n], p[n], p, GrowLast(p));
  }

  lemma CleanLongerLast(front: seq<Str>, last: Str, p: seq<Str>, q: seq<Str>)
    requires p == front + [last] && q == front + [last + ['\n']]
    ensures Tags.Clean(q) == Tags.Clean(p)
  {
    TrimLastNewline(last);
    CleanAppend(front, last + ['\n'], last);
  }

  /** For texts whose literals hold neither "--" nor ";", the code runs the real statements. */
  lemma StatementsAreReal(text: Str)
    requires PlainLiterals(text, Code)
    ensures Statements(text) == RealStatements(text)
  {
    ScanLastNewline(text, Code);
    CutLinesIsCut(text);
    CutThenSplitIsScan(text + ['\n'], Code);
    CleanGrown(Scan(text, Code));
  }

  // ---- And only then --------------------------------------------------------

  predicate DashesAt(s: Str, i: nat) {
    i + 1 < |s| && s[i] == '-' && s[i + 1] == '-'
  }

  /** What only a literal can bring into a statement. */
  ghost predicate Marked(s: Str) {
    ';' in s || exists i :: DashesAt(s, i)
  }

  ghost predicate SomeMarked(parts: seq<Str>) {
    exists p <- parts :: Marked(p)
  }

  lemma MarkedAfter(c: char, s: Str)
    ensures Marked([c] + s) <==> c == ';' || (c == '-' && s != [] && s[0] == '-') || Marked(s)
  {
    var t := [c] + s;
    forall i: nat ensures DashesAt(t, i + 1) <==> DashesAt(s, i) {
    }
    if i: nat :| DashesAt(t, i) {
      assert i > 0 ==> DashesAt(s, i - 1);
    }
    if i: nat :| DashesAt(s, i) {
      assert DashesAt(t, i + 1);
    }
    assert c == '-' && s != [] && s[0] == '-' ==> DashesAt(t, 0);
  }

  lemma MarkedBefore(s: Str, c: char)
    ensures Marked(s + [c]) <==> c == ';' || (c == '-' && s != [] && s[|s| - 1] == '-') || Marked(s)
  {
    var t := s + [c];
    if i: nat :| DashesAt(t, i) {
      assert i < |s| - 1 ==> DashesAt(s, i);
    }
    if i: nat :| DashesAt(s, i) {
      assert DashesAt(t, i);
    }
    assert c == '-' && s != [] && s[|s| - 1] == '-' ==> DashesAt(t, |s| - 1);
  }

  lemma {:induction false} TrimLeftKeepsMarks(s: Str)
    ensures Marked(TrimLeft(s, IsSpace)) <==> Marked(s)
  {
    if s != [] && IsSpace(s[0]) {
      assert s == [s[0]] + s[1..];
      MarkedAfter(s[0], s[1..]);
      TrimLeftKeepsMarks(s[1..]);
    }
  }

  lemma {:induction false} TrimRightKeepsMarks(s: Str)
    ensures Marked(TrimRight(s, IsSpace)) <==> Marked(s)
  {
    var n := |s| - 1;
    if s != [] && IsSpace(s[n]) {
      assert s == s[..n] + [s[n]];
      MarkedBefore(s[..n], s[n]);
      TrimRightKeepsMarks(s[..n]);
    }
  }

  lemma TrimKeepsMarks(s: Str)
    ensures Marked(TrimSpace(s)) <==> Marked(s)
  {
    TrimLeftKeepsMarks(s);
    TrimRightKeepsMarks(TrimLeft(s, IsSpace));
  }

  lemma KeptKeepsMarks(p: Str, rest: seq<Str>)
    ensures SomeMarked(Tags.KeptPart(p) + rest) <==> Marked(p) || SomeMarked(rest)
  {
    var t := TrimSpace(p);
    TrimKeepsMarks(p);
    if t == [] {
      assert Tags.KeptPart(p) + rest == rest;
    } else {
      SomeMarkedFirst(t, rest);
    }
  }

  lemma {:induction false} CleanKeepsMarks(parts: seq<Str>)
    ensures SomeMarked(Tags.Clean(parts)) <==> SomeMarked(parts)
  {
    if parts != [] {
      CleanKeepsMarks(parts[1..]);
      KeptKeepsMarks(parts[0], Tags.Clean(parts[1..]));
      SomeMarkedSplit(parts);
    }
  }

  lemma SomeMarkedSplit(parts: seq<Str>)
    requires parts != []
    ensures SomeMarked(parts) <==> Marked(parts[0]) || SomeMarked(parts[1..])
  {
    SomeMarkedFirst(parts[0], parts[1..]);
    assert parts == [parts[0]] + parts[1..];
  }

  lemma SomeMarkedFirst(p: Str, rest: seq<Str>)
    ensures SomeMarked([p] + rest) <==> Marked(p) || SomeMarked(rest)
  {
    assert p in [p] + rest;
    assert forall q <- rest :: q in [p] + rest;
  }

  /** A line cut at its comment has no dashes left, and neither have the lines together. */
  lemma {:induction false} CutLineUndashed(line: Str)
    ensures forall i :: !DashesAt(CutLine(line), i)
  {
    if line != [] && !StartsComment(line) {
      var r := CutLine(line[1..]);
      CutLineUndashed(line[1..]);
      assert r <= line[1..];
      assert r != [] ==> r[0] == line[1];
      forall i: nat ensures !DashesAt([line[0]] + r, i) {
        assert i > 0 ==> !DashesAt(r, i - 1);
      }
    }
  }

  lemma {:induction false} CutLinesUndashed(lines: seq<Str>)
    ensures forall i :: !DashesAt(CutLines(lines), i)
    ensures CutLines(lines) != [] ==> CutLines(lines)[|CutLines(lines)| - 1] == '\n'
  {
    if lines != [] {
      var a, b := CutLines(lines[..|lines| - 1]), CutLine(lines[|lines| - 1]);
      CutLinesUndashed(lines[..|lines| - 1]);
      CutLineUndashed(lines[|lines| - 1]);
      forall i: nat ensures !DashesAt(a + (b + ['\n']), i) {
        assert !DashesAt(a, i) && (i >= |a| ==> !DashesAt(b, i - |a|));
      }
    }
  }

  /** The first part is how the text begins. */
  lemma {:induction false} SplitUnmarked(s: Str)
    requires forall i :: !DashesAt(s, i)
    ensures Split(s, ';')[0] <= s && !SomeMarked(Split(s, ';'))
  {
    if s != [] {
      var rest := Split(s[1..], ';');
      forall i: nat ensures !DashesAt(s[1..], i) {
        assert !DashesAt(s, i + 1);
      }
      SplitUnmarked(s[1..]);
      assert rest == [rest[0]] + rest[1..];
      SomeMarkedFirst(rest[0], rest[1..]);
      assert !DashesAt(s, 0);
      if s[0] == ';' {
        SomeMarkedFirst([], rest);
      } else {
        MarkedAfter(s[0], rest[0]);
        SomeMarkedFirst([s[0]] + rest[0], rest[1..]);
      }
    }
  }

  /** A literal with one of the two shows up in a scanned statement. */
  lemma {:induction false} BadLiteralIsMarked(s: Str, mode: Mode)
    requires !PlainLiterals(s, mode)
    ensures SomeMarked(Scan(s, mode))
  {
    var next := NextMode(s, mode);
    var rest := Scan(s[1..], next);
    assert rest == [rest[0]] + rest[1..];
    SomeMarkedFirst(rest[0], rest[1..]);
    SomeMarkedFirst([s[0]] + rest[0], rest[1..]);
    SomeMarkedFirst([], rest);
    MarkedAfter(s[0], rest[0]);
    if mode == InString && s[0] == ';' {
    } else if mode == InString && StartsComment(s) {
      assert s[1..][0] == '-' && next == InString;
    } else {
      BadLiteralIsMarked(s[1..], next);
    }
  }

  /**
   The code runs the real statements of a text if and only if no string literal
   in it contains "--" or a semicolon.
   */
  lemma StatementsAreRealIff(text: Str)
    ensures Statements(text) == RealStatements(text) <==> PlainLiterals(text, Code)
  {
    if PlainLiterals(text, Code) {
      StatementsAreReal(text);
    } else {
      var lines := Split(text, '\n');
      CutLinesUndashed(lines);
      SplitUnmarked(CutLines(lines));
      CleanKeepsMarks(Split(CutLines(lines), ';'));
      BadLiteralIsMarked(text, Code);
      CleanKeepsMarks(Scan(text, Code));
    }
  }

  /** For one: a statement that ends in the literal ';'. */
  lemma SemicolonInLiteral(before: Str)
    requires '\'' !in before && '-' !in before
    ensures Statements(before + "';'") != RealStatements(before + "';'")
  {
    LiteralAfter(before, "';'");
    assert !PlainLiterals("';'", Code) by {
      assert "';'"[1..] == ";'";
    }
    StatementsAreRealIff(before + "';'");
  }

  lemma {:induction false} LiteralAfter(before: Str, literal: Str)
    requires '\'' !in before && '-' !in before
    ensures PlainLiterals(before + literal, Code) <==> PlainLiterals(literal, Code)
  {
    if before == [] {
      assert before + literal == literal;
    } else {
      assert before[0] in before && (before + literal)[1..] == before[1..] + literal;
      LiteralAfter(before[1..], literal);
    }
  }
}
