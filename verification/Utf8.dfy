/** UTF-8 as section 4 of RFC 3629 defines it, and where a character may end. */
module Utf8 {

  type Byte = b: int | 0 <= b < 256

  type Bytes = seq<Byte>

  predicate Tail(b: Byte) { 0x80 <= b <= 0xBF }

  /** `utf8.RuneStart`: the two top bits are not 10. */
  predicate RuneStart(b: Byte) { b / 64 != 2 }

  /** The length of the character at the front of `s`; 0 if there is none. */
  function CharLength(s: Bytes): (n: nat)
    ensures n <= 4 && n <= |s|
    ensures n > 0 ==> RuneStart(s[0]) && forall k :: 0 < k < n ==> Tail(s[k])
  {
    if s == [] then 0
    else if s[0] <= 0x7F then 1
    else if 0xC2 <= s[0] <= 0xDF && |s| >= 2 && Tail(s[1]) then 2
    else if |s| >= 3 && Tail(s[2]) && Triple(s[0], s[1]) then 3
    else if |s| >= 4 && Tail(s[2]) && Tail(s[3]) && Quadruple(s[0], s[1]) then 4
    else 0
  }

  predicate Triple(a: Byte, b: Byte) {
    || (a == 0xE0 && 0xA0 <= b <= 0xBF)
    || (0xE1 <= a <= 0xEC && Tail(b))
    || (a == 0xED && 0x80 <= b <= 0x9F)
    || (0xEE <= a <= 0xEF && Tail(b))
  }

  predicate Quadruple(a: Byte, b: Byte) {
    || (a == 0xF0 && 0x90 <= b <= 0xBF)
    || (0xF1 <= a <= 0xF3 && Tail(b))
    || (a == 0xF4 && 0x80 <= b <= 0x8F)
  }

  /** Nothing but whole characters. */
  predicate Valid(s: Bytes) {
    s == [] || (CharLength(s) > 0 && Valid(s[CharLength(s)..]))
  }

  lemma CharLengthExtends(a: Bytes, b: Bytes)
    requires CharLength(a) > 0
    ensures CharLength(a + b) == CharLength(a)
  {
    assert forall k :: 0 <= k < |a| ==> (a + b)[k] == a[k];
  }

  lemma {:induction false} ValidConcat(a: Bytes, b: Bytes)
    requires Valid(a)
    ensures Valid(a + b) <==> Valid(b)
    decreases |a|
  {
    if a == [] {
      assert a + b == b;
    } else {
      var n := CharLength(a);
      CharLengthExtends(a, b);
      assert (a + b)[n..] == a[n..] + b;
      ValidConcat(a[n..], b);
    }
  }

  /** In valid text, a position is between two characters exactly when a character starts there. */
  lemma {:induction false} BoundaryIff(s: Bytes, k: nat)
    requires Valid(s) && k < |s|
    ensures RuneStart(s[k]) <==> Valid(s[..k])
    decreases |s|
  {
    var n := CharLength(s);
    if k == 0 {
    } else if k < n {
      // Inside the first character.
      PartialCharacter(s, k);
    } else {
      BoundaryIff(s[n..], k - n);
      assert s[..k] == s[..n] + s[n..k] && s[n..][..k - n] == s[n..k];
      WholeCharacter(s);
      ValidConcat(s[..n], s[n..k]);
    }
  }

  lemma WholeCharacter(s: Bytes)
    requires CharLength(s) > 0
    ensures Valid(s[..CharLength(s)])
  {
    var c := s[..CharLength(s)];
    assert CharLength(c) == |c| && c[|c|..] == [];
  }

  lemma PartialCharacter(s: Bytes, k: nat)
    requires 0 < k < CharLength(s)
    ensures Tail(s[k]) && CharLength(s[..k]) == 0
  {
  }

  /** A tail byte run is at most three long. */
  lemma {:induction false} StartNearby(s: Bytes, k: nat)
    requires Valid(s) && k < |s|
    ensures exists j :: 0 <= j <= k < j + 4 && RuneStart(s[j])
    decreases |s|
  {
    var n := CharLength(s);
    if k < n {
      assert 0 <= 0 <= k < 0 + 4 && RuneStart(s[0]);
    } else {
      StartNearby(s[n..], k - n);
      var j :| 0 <= j <= k - n < j + 4 && RuneStart(s[n..][j]);
      assert s[n..][j] == s[n + j];
    }
  }

  // ---- The same text as encoded characters (section 3 of RFC 3629) -----------

  predicate Scalar(c: int) {
    0 <= c < 0xD800 || 0xDFFF < c <= 0x10FFFF
  }

  function Encode(c: int): (s: Bytes)
    requires Scalar(c)
  {
    if c < 0x80 then [c]
    else if c < 0x800 then [0xC0 + c / 64, 0x80 + c % 64]
    else if c < 0x1_0000 then [0xE0 + c / 4096, 0x80 + c / 64 % 64, 0x80 + c % 64]
    else [0xF0 + c / 262144, 0x80 + c / 4096 % 64, 0x80 + c / 64 % 64, 0x80 + c % 64]
  }

  predicate AllScalar(chars: seq<int>) {
    forall i :: 0 <= i < |chars| ==> Scalar(chars[i])
  }

  function EncodeAll(chars: seq<int>): Bytes
    requires AllScalar(chars)
  {
    if chars == [] then [] else Encode(chars[0]) + EncodeAll(chars[1..])
  }

  lemma EncodedLength(c: int)
    requires Scalar(c)
    ensures CharLength(Encode(c)) == |Encode(c)| > 0
  {
    if c < 0x800 {
    } else if c < 0x1_0000 {
      LeadOfThree(c);
    } else {
      LeadOfFour(c);
    }
  }

  lemma LeadOfThree(c: int)
    requires 0x800 <= c < 0x1_0000 && Scalar(c)
    ensures CharLength([0xE0 + c / 4096, 0x80 + c / 64 % 64, 0x80 + c % 64]) == 3
  {
  }

  lemma LeadOfFour(c: int)
    requires 0x1_0000 <= c <= 0x10FFFF
    ensures CharLength([0xF0 + c / 262144, 0x80 + c / 4096 % 64, 0x80 + c / 64 % 64, 0x80 + c % 64]) == 4
  {
  }

  /** The value of a lead digit and up to three groups of six bits. */
  function Digits2(a: int, b: int): int { a * 64 + b }

  function Digits3(a: int, b: int, c: int): int { Digits2(a, b) * 64 + c }

  function Digits4(a: int, b: int, c: int, d: int): int { Digits3(a, b, c) * 64 + d }

  function Decode(s: Bytes): int
    requires CharLength(s) > 0
  {
    var n := CharLength(s);
    if n == 1 then s[0]
    else if n == 2 then Digits2(s[0] as int - 0xC0, s[1] as int - 0x80)
    else if n == 3 then Digits3(s[0] as int - 0xE0, s[1] as int - 0x80, s[2] as int - 0x80)
    else Digits4(s[0] as int - 0xF0, s[1] as int - 0x80, s[2] as int - 0x80, s[3] as int - 0x80)
  }

  lemma DigitsBack(a: int, b: int, c: int, d: int)
    requires 0 <= a && 0 <= b < 64 && 0 <= c < 64 && 0 <= d < 64
    ensures Digits2(a, b) / 64 == a && Digits2(a, b) % 64 == b
    ensures Digits3(a, b, c) / 64 == Digits2(a, b) && Digits3(a, b, c) % 64 == c
    ensures Digits4(a, b, c, d) / 64 == Digits3(a, b, c) && Digits4(a, b, c, d) % 64 == d
  {
  }

  lemma ShiftTwice(x: int)
    requires 0 <= x
    ensures x / 4096 == x / 64 / 64 && x / 262144 == x / 4096 / 64
  {
  }

  lemma Decode2(s: Bytes)
    requires CharLength(s) == 2
    ensures 0x80 <= Decode(s) < 0x800 && Encode(Decode(s)) == s[..2]
  {
    DigitsBack(s[0] as int - 0xC0, s[1] as int - 0x80, 0, 0);
  }

  lemma Decode3(s: Bytes)
    requires CharLength(s) == 3
    ensures 0x800 <= Decode(s) < 0x1_0000 && Scalar(Decode(s)) && Encode(Decode(s)) == s[..3]
  {
    DigitsBack(s[0] as int - 0xE0, s[1] as int - 0x80, s[2] as int - 0x80, 0);
    ShiftTwice(Decode(s));
  }

  lemma Decode4(s: Bytes)
    requires CharLength(s) == 4
    ensures 0x1_0000 <= Decode(s) <= 0x10FFFF && Encode(Decode(s)) == s[..4]
  {
    DigitsBack(s[0] as int - 0xF0, s[1] as int - 0x80, s[2] as int - 0x80, s[3] as int - 0x80);
    ShiftTwice(Decode(s));
  }

  /** The byte ranges of section 4 admit exactly the encodings of section 3. */
  lemma DecodeThenEncode(s: Bytes)
    requires CharLength(s) > 0
    ensures Scalar(Decode(s)) && Encode(Decode(s)) == s[..CharLength(s)]
  {
    var n := CharLength(s);
    if n == 2 {
      Decode2(s);
    } else if n == 3 {
      Decode3(s);
    } else if n == 4 {
      Decode4(s);
    }
  }

  lemma {:induction false} EncodedIsValid(chars: seq<int>)
    requires AllScalar(chars)
    ensures Valid(EncodeAll(chars))
  {
    if chars != [] {
      EncodedLength(chars[0]);
      var c := Encode(chars[0]);
      assert c[|c|..] == [];
      ValidConcat(c, EncodeAll(chars[1..]));
      EncodedIsValid(chars[1..]);
    }
  }

  function DecodeAll(s: Bytes): (chars: seq<int>)
    requires Valid(s)
    decreases |s|
  {
    if s == [] then [] else [Decode(s)] + DecodeAll(s[CharLength(s)..])
  }

  lemma {:induction false} ValidIsEncoded(s: Bytes)
    requires Valid(s)
    ensures AllScalar(DecodeAll(s)) && EncodeAll(DecodeAll(s)) == s
    decreases |s|
  {
    if s != [] {
      var n := CharLength(s);
      ValidIsEncoded(s[n..]);
      FirstEncoded(s, n, DecodeAll(s[n..]));
    }
  }

  lemma FirstEncoded(s: Bytes, n: nat, rest: seq<int>)
    requires n == CharLength(s) > 0 && n <= |s| && AllScalar(rest) && EncodeAll(rest) == s[n..]
    ensures AllScalar([Decode(s)] + rest) && EncodeAll([Decode(s)] + rest) == s
  {
    DecodeThenEncode(s);
    FirstThenRest(Decode(s), rest);
    assert s == s[..n] + s[n..];
  }

  lemma FirstThenRest(c: int, rest: seq<int>)
    requires Scalar(c) && AllScalar(rest)
    ensures AllScalar([c] + rest) && EncodeAll([c] + rest) == Encode(c) + EncodeAll(rest)
  {
    assert ([c] + rest)[1..] == rest;
  }
}
