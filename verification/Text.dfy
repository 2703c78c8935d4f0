/** The `strings` helpers the store and the handlers use: TrimSpace, Trim, Split and Join. */
module Text {

  type Str = seq<char>

  /** `unicode.IsSpace`. */
  predicate IsSpace(c: char) {
    var n := c as int;
    || 9 <= n <= 13 || n == 0x20 || n == 0x85 || n == 0xA0 || n == 0x1680 || 0x2000 <= n <= 0x200A
    || n == 0x2028 || n == 0x2029 || n == 0x202F || n == 0x205F || n == 0x3000
  }

  function TrimLeft(s: Str, drop: char -> bool): (r: Str)
    ensures r != [] ==> !drop(r[0])
    ensures |r| <= |s| && r == s[|s| - |r|..]
  {
    if s != [] && drop(s[0]) then TrimLeft(s[1..], drop) else s
  }

  function TrimRight(s: Str, drop: char -> bool): (r: Str)
    ensures r != [] ==> !drop(r[|r| - 1])
    ensures r <= s
  {
    if s != [] && drop(s[|s| - 1]) then TrimRight(s[..|s| - 1], drop) else s
  }

  function Trim(s: Str, drop: char -> bool): Str {
    TrimRight(TrimLeft(s, drop), drop)
  }

  /** `strings.TrimSpace`. */
  function TrimSpace(s: Str): Str {
    Trim(s, IsSpace)
  }

  predicate Trimmed(s: Str) {
    s != [] ==> !IsSpace(s[0]) && !IsSpace(s[|s| - 1])
  }

  lemma TrimSpaceFixed(s: Str)
    ensures Trimmed(TrimSpace(s))
    ensures TrimSpace(s) == s <==> Trimmed(s)
    ensures forall c <- TrimSpace(s) :: c in s
  {
    var l := TrimLeft(s, IsSpace);
    var r := TrimRight(l, IsSpace);
    if r != [] {
      assert r[0] == l[0];
    }
  }

  /** `strings.Split` on one character: one part more than there are separators. */
  function Split(s: Str, sep: char): (parts: seq<Str>)
    ensures parts != []
  {
    if s == [] then [[]]
    else
      var rest := Split(s[1..], sep);
      if s[0] == sep then [[]] + rest else [[s[0]] + rest[0]] + rest[1..]
  }

  /** `strings.Join` with one character. */
  function Join(parts: seq<Str>, sep: char): Str {
    if parts == [] then []
    else if |parts| == 1 then parts[0]
    else parts[0] + [sep] + Join(parts[1..], sep)
  }

  lemma {:induction false} SplitWithout(s: Str, sep: char)
    requires sep !in s
    ensures Split(s, sep) == [s]
  {
    if s != [] {
      assert s[0] in s;
      SplitWithout(s[1..], sep);
      assert [s[0]] + s[1..] == s;
    }
  }

  /** A separator between two texts separates their parts. */
  lemma {:induction false} SplitAt(a: Str, sep: char, b: Str)
    ensures Split(a + [sep] + b, sep) == Split(a, sep) + Split(b, sep)
  {
    if a == [] {
      assert a + [sep] + b == [sep] + b;
      assert ([sep] + b)[1..] == b;
    } else {
      assert (a + [sep] + b)[1..] == a[1..] + [sep] + b;
      SplitAt(a[1..], sep, b);
    }
  }

  /** Parts are made of the text's own characters, never of the separator. */
  predicate MadeOf(part: Str, s: Str, sep: char) {
    forall c <- part :: c in s && c != sep
  }

  lemma {:induction false} SplitHasNoSep(s: Str, sep: char)
    ensures forall p <- Split(s, sep) :: MadeOf(p, s, sep)
  {
    if s != [] {
      var rest := Split(s[1..], sep);
      SplitHasNoSep(s[1..], sep);
      assert s == [s[0]] + s[1..];
      forall p | p in rest ensures MadeOf(p, s, sep) {
        assert MadeOf(p, s[1..], sep);
      }
      assert MadeOf(rest[0], s, sep);
    }
  }
}
