/**
 Template substitution as the action engine performs it: one `strings.ReplaceAll`
 pass per declared parameter, each pass inserting a shell-quoted value
 (internal/actions/engine.go:267-303).

 The reference it is compared with is a single left-to-right pass over the
 template that replaces every placeholder at once.
 */
module Substitution {

  type Text = seq<char>

  // ---- strings.ReplaceAll and strings.Contains ------------------------------

  /** Leftmost, non-overlapping replacement, as `strings.ReplaceAll`. */
  function ReplaceAll(s: Text, what: Text, ins: Text): Text
    requires what != []
  {
    if |s| < |what| then s
    else if what <= s then ins + ReplaceAll(s[|what|..], what, ins)
    else [s[0]] + ReplaceAll(s[1..], what, ins)
  }

  ghost predicate OccursIn(what: Text, s: Text) {
    exists i :: 0 <= i <= |s| && what <= s[i..]
  }

  /** `strings.Contains`. */
  predicate Contains(s: Text, what: Text)
    ensures Contains(s, what) <==> OccursIn(what, s)
  {
    if what <= s then
      assert what <= s[0..];
      true
    else if s == [] then
      false
    else
      assert forall i :: 0 <= i <= |s[1..]| ==> s[1..][i..] == s[i + 1..];
      assert forall i :: 1 <= i <= |s| ==> s[i..] == s[1..][i - 1..];
      assert !(what <= s[0..]);
      Contains(s[1..], what)
  }

  // ---- Placeholders ---------------------------------------------------------

  /** What a parameter looks like in a template. */
  function Placeholder(name: Text): (r: Text)
    ensures |r| == |name| + 4
  {
    "{{" + name + "}}"
  }

  /** Names that cannot interfere with the template syntax or with quoting. */
  predicate PlainName(name: Text) {
    '{' !in name && '}' !in name && '\'' !in name && '\\' !in name
  }

  predicate PlainNames(names: seq<Text>) {
    forall n <- names :: PlainName(n)
  }

  lemma PlaceholderChars(name: Text)
    requires PlainName(name)
    ensures var ph := Placeholder(name);
            && ph[0] == ph[1] == '{'
            && ph[|ph| - 1] == ph[|ph| - 2] == '}'
            && (forall k :: 2 <= k < |ph| - 2 ==> ph[k] == name[k - 2] && ph[k] != '}')
            && (forall k :: 2 <= k < |ph| ==> ph[k] != '{')
            && '\'' !in ph && '\\' !in ph
  {
    var ph := Placeholder(name);
    forall k | 2 <= k < |ph| - 2 ensures ph[k] == name[k - 2] && ph[k] in name {
    }
  }

  lemma PrefixAgrees(u: Text, s: Text)
    ensures u <= s ==> forall k :: 0 <= k < |u| ==> u[k] == s[k]
  {
  }

  /** Two placeholders at the same place are the same placeholder. */
  lemma PlaceholderAtMostOne(a: Text, b: Text, s: Text)
    requires PlainName(a) && PlainName(b)
    requires Placeholder(a) <= s && Placeholder(b) <= s
    ensures a == b
  {
    PlaceholderChars(a);
    PlaceholderChars(b);
    var pa, pb := Placeholder(a), Placeholder(b);
    assert s[|a| + 2] == pa[|a| + 2] == '}' && s[|b| + 2] == pb[|b| + 2] == '}';
    assert |a| == |b|;
    forall k | 0 <= k < |a| ensures a[k] == b[k] {
      assert pa[k + 2] == s[k + 2] == pb[k + 2];
    }
  }

  // ---- Templates as items ---------------------------------------------------

  datatype Item = Lit(c: char) | Hole(name: Text)

  type Items = seq<Item>

  /** The position of the first name whose placeholder starts `s`; |names| if none does. */
  function HoleIndex(s: Text, names: seq<Text>): (k: nat)
    ensures k <= |names|
    ensures k < |names| ==> Placeholder(names[k]) <= s
    ensures k == |names| ==> forall n <- names :: !(Placeholder(n) <= s)
  {
    if names == [] then 0
    else if Placeholder(names[0]) <= s then 0
    else 1 + HoleIndex(s, names[1..])
  }

  /** The single left-to-right reading of a template whose holes are `names`. */
  function Parse(s: Text, names: seq<Text>): Items
    decreases |s|
  {
    if s == [] then []
    else
      var k := HoleIndex(s, names);
      if k < |names| then [Hole(names[k])] + Parse(s[|Placeholder(names[k])|..], names)
      else [Lit(s[0])] + Parse(s[1..], names)
  }

  /** What the first step of the reading yields, and how much text it takes. */
  function FirstItem(s: Text, names: seq<Text>): Item
    requires s != []
  {
    var k := HoleIndex(s, names);
    if k < |names| then Hole(names[k]) else Lit(s[0])
  }

  function FirstLength(s: Text, names: seq<Text>): (n: nat)
    requires s != []
    ensures 1 <= n <= |s|
  {
    var k := HoleIndex(s, names);
    if k < |names| then |Placeholder(names[k])| else 1
  }

  lemma ParseFirst(s: Text, names: seq<Text>)
    requires s != []
    ensures Parse(s, names) == [FirstItem(s, names)] + Parse(s[FirstLength(s, names)..], names)
  {
  }

  function Lits(s: Text): (r: Items)
    ensures |r| == |s|
    ensures forall i :: 0 <= i < |s| ==> r[i] == Lit(s[i])
  {
    if s == [] then [] else [Lit(s[0])] + Lits(s[1..])
  }

  /** `items` with every hole called `name` replaced by `body`. */
  function Expand(items: Items, name: Text, body: Items): Items {
    if items == [] then []
    else (if items[0] == Hole(name) then body else [items[0]]) + Expand(items[1..], name, body)
  }

  lemma ParseStepHole(s: Text, name: Text, names: seq<Text>)
    requires PlainNames(names) && name in names && Placeholder(name) <= s
    ensures Parse(s, names) == [Hole(name)] + Parse(s[|Placeholder(name)|..], names)
  {
    var k := HoleIndex(s, names);
    PlaceholderAtMostOne(names[k], name, s);
  }

  /** Without holes, reading a template is the identity. */
  lemma {:induction false} ParseNothing(s: Text)
    ensures Parse(s, []) == Lits(s)
  {
    if s != [] {
      ParseNothing(s[1..]);
    }
  }

  // ---- How replacement interacts with reading -------------------------------

  /** A quote-free prefix of a replaced text was there before the replacement. */
  lemma {:induction false} PrefixSurvives(u: Text, s: Text, what: Text, ins: Text)
    requires what != [] && ins != [] && ins[0] == '\'' && '\'' !in u
    requires u <= ReplaceAll(s, what, ins)
    ensures u <= s
  {
    if u != [] && |what| <= |s| {
      assert u[0] in u;
      if !(what <= s) {
        var r := ReplaceAll(s[1..], what, ins);
        assert ReplaceAll(s, what, ins) == [s[0]] + r;
        assert u[1..] <= r;
        forall c <- u[1..] ensures c in u {}
        PrefixSurvives(u[1..], s[1..], what, ins);
        assert u == [u[0]] + u[1..];
        assert u <= [s[0]] + s[1..] == s;
      }
    }
  }

  /** Placeholders do not overlap. */
  lemma NoOverlap(s: Text, other: Text, name: Text, k: nat)
    requires PlainName(other) && PlainName(name) && other != name
    requires Placeholder(other) <= s && k < |Placeholder(other)|
    ensures !(Placeholder(name) <= s[k..])
  {
    var what, po := Placeholder(name), Placeholder(other);
    PlaceholderChars(name);
    PlaceholderChars(other);
    assert s[0..] == s;
    if k == 0 && what <= s {
      PlaceholderAtMostOne(other, name, s);
    }
    // "{{" occurs in a placeholder only at its start.
    assert k == 1 ==> s[2] == po[2];
    assert k > 1 ==> s[k] == po[k];
    PrefixAgrees(what, s[k..]);
    assert s[k..][0] == s[k];
    assert |s[k..]| > 1 ==> s[k..][1] == s[k + 1];
  }

  /** Replacing copies a stretch of text in which no occurrence begins. */
  lemma {:induction false} ReplaceSkips(p: Text, t: Text, what: Text, ins: Text)
    requires what != []
    requires forall k :: 0 <= k < |p| ==> !(what <= p[k..] + t)
    ensures ReplaceAll(p + t, what, ins) == p + ReplaceAll(t, what, ins)
  {
    if p == [] {
      assert p + t == t;
    } else {
      assert p[0..] == p;
      ReplaceCopies(p + t, what, ins);
      assert (p + t)[1..] == p[1..] + t;
      forall k | 0 <= k < |p[1..]| ensures !(what <= p[1..][k..] + t) {
        assert p[1..][k..] == p[k + 1..];
      }
      ReplaceSkips(p[1..], t, what, ins);
      calc {
        ReplaceAll(p + t, what, ins);
        [p[0]] + (p[1..] + ReplaceAll(t, what, ins));
        ([p[0]] + p[1..]) + ReplaceAll(t, what, ins);
        { assert [p[0]] + p[1..] == p; }
        p + ReplaceAll(t, what, ins);
      }
    }
  }

  /** In particular, replacing one placeholder copies the others verbatim. */
  lemma ReplaceSkipsHole(s: Text, other: Text, name: Text, ins: Text)
    requires PlainName(other) && PlainName(name) && other != name
    requires Placeholder(other) <= s
    ensures ReplaceAll(s, Placeholder(name), ins)
         == Placeholder(other) + ReplaceAll(s[|Placeholder(other)|..], Placeholder(name), ins)
  {
    var po := Placeholder(other);
    var t := s[|po|..];
    assert s == po + t;
    forall k | 0 <= k < |po| ensures !(Placeholder(name) <= po[k..] + t) {
      NoOverlap(s, other, name, k);
      assert po[k..] + t == s[k..];
    }
    ReplaceSkips(po, t, Placeholder(name), ins);
  }

  lemma ReplaceCopies(s: Text, what: Text, ins: Text)
    requires what != [] && s != [] && !(what <= s)
    ensures ReplaceAll(s, what, ins) == [s[0]] + ReplaceAll(s[1..], what, ins)
  {
    if |s| < |what| {
      assert s == [s[0]] + s[1..];
    }
  }

  /** A quote on either side of the join keeps placeholders from straddling it. */
  predicate Seam(q: Text, t: Text) {
    q == [] || t == [] || q[|q| - 1] == '\'' || t[0] == '\''
  }

  /** A placeholder that starts before such a join also ends before it. */
  lemma HoleBeforeSeam(q: Text, t: Text, name: Text)
    requires PlainName(name) && q != [] && Seam(q, t)
    ensures Placeholder(name) <= q + t <==> Placeholder(name) <= q
  {
    PlaceholderChars(name);
    var ph := Placeholder(name);
    PrefixAgrees(ph, q + t);
    assert (q + t)[|q| - 1] == q[|q| - 1];
    assert t != [] ==> (q + t)[|q|] == t[0];
    if ph <= q + t {
      assert ph == (q + t)[..|ph|] == q[..|ph|];
    }
    if ph <= q {
      assert ph == q[..|ph|] == (q + t)[..|ph|];
    }
  }

  lemma {:induction false} HoleIndexBeforeSeam(q: Text, t: Text, names: seq<Text>)
    requires PlainNames(names) && q != [] && Seam(q, t)
    ensures HoleIndex(q + t, names) == HoleIndex(q, names)
  {
    if names != [] {
      HoleBeforeSeam(q, t, names[0]);
      HoleIndexBeforeSeam(q, t, names[1..]);
    }
  }

  lemma SeamSuffix(q: Text, t: Text, k: nat)
    requires Seam(q, t) && k <= |q|
    ensures Seam(q[k..], t) && (q + t)[k..] == q[k..] + t
  {
  }

  lemma ParseFirstAtSeam(q: Text, t: Text, names: seq<Text>)
    requires PlainNames(names) && q != [] && Seam(q, t)
    ensures Parse(q + t, names) == [FirstItem(q, names)] + Parse(q[FirstLength(q, names)..] + t, names)
  {
    HoleIndexBeforeSeam(q, t, names);
    ParseFirst(q + t, names);
    assert (q + t)[0] == q[0];
    SeamSuffix(q, t, FirstLength(q, names));
  }

  /** Text joined at a quote is read piece by piece. */
  lemma {:induction false} ParseAtSeam(q: Text, t: Text, names: seq<Text>)
    requires PlainNames(names) && Seam(q, t)
    ensures Parse(q + t, names) == Parse(q, names) + Parse(t, names)
    decreases |q|
  {
    if q == [] {
      assert q + t == t;
    } else {
      var n := FirstLength(q, names);
      SeamSuffix(q, t, n);
      ParseAtSeam(q[n..], t, names);
      ParseFirst(q, names);
      ParseFirstAtSeam(q, t, names);
      ItemsAssociative([FirstItem(q, names)], Parse(q[n..], names), Parse(t, names));
    }
  }

  lemma ItemsAssociative(a: Items, b: Items, c: Items)
    ensures a + (b + c) == (a + b) + c
  {
  }

  /**
   One `ReplaceAll` pass, seen through the reading of the template: exactly the
   holes of that name are filled, and each is filled with the reading of the
   inserted text (which is where a later placeholder inside a value shows up).
   */
  lemma {:induction false} ReplaceIsExpand(s: Text, name: Text, names: seq<Text>, ins: Text)
    requires PlainName(name) && PlainNames(names)
    requires ins != [] && ins[0] == '\'' && ins[|ins| - 1] == '\''
    ensures Parse(ReplaceAll(s, Placeholder(name), ins), names)
         == Expand(Parse(s, [name] + names), name, Parse(ins, names))
    decreases |s|
  {
    var what, all := Placeholder(name), [name] + names;
    if s == [] {
    } else if what <= s {
      ReplaceIsExpand(s[|what|..], name, names, ins);
      ParseAtSeam(ins, ReplaceAll(s[|what|..], what, ins), names);
      ParseStepHole(s, name, all);
      var rest := Parse(s[|what|..], all);
      assert ([Hole(name)] + rest)[1..] == rest;
    } else {
      var k := HoleIndex(s, all);
      if k < |all| {
        var other := all[k];
        assert other in names;
        var po := Placeholder(other);
        ReplaceSkipsHole(s, other, name, ins);
        ReplaceIsExpand(s[|po|..], name, names, ins);
        ParseStepHole(s, other, all);
        var r := ReplaceAll(s[|po|..], what, ins);
        assert po <= po + r && (po + r)[|po|..] == r;
        ParseStepHole(po + r, other, names);
        var rest := Parse(s[|po|..], all);
        assert ([Hole(other)] + rest)[1..] == rest;
      } else {
        ReplaceIsExpand(s[1..], name, names, ins);
        var out := ReplaceAll(s, what, ins);
        var r := ReplaceAll(s[1..], what, ins);
        ReplaceCopies(s, what, ins);
        assert out == [s[0]] + r;
        forall n | n in names ensures !(Placeholder(n) <= out) {
          PlaceholderChars(n);
          assert n in all;
          if Placeholder(n) <= out {
            PrefixSurvives(Placeholder(n), s, what, ins);
          }
        }
        assert HoleIndex(out, names) == |names|;
        assert out[1..] == r;
        var rest := Parse(s[1..], all);
        assert ([Lit(s[0])] + rest)[1..] == rest;
      }
    }
  }
}
