/** Decimal text, as strconv writes and reads it. */
module Numbers {

  type Digits = s: seq<char> | forall c <- s :: IsDigit(c) witness []

  predicate IsDigit(c: char) { '0' <= c <= '9' }

  function Digit(d: nat): (c: char)
    requires d < 10
    ensures IsDigit(c) && ValueOf(c) == d
  {
    '0' + d as char
  }

  function ValueOf(c: char): nat
    requires IsDigit(c)
  {
    c as int - '0' as int
  }

  function Decimal(s: Digits): nat {
    if s == [] then 0 else 10 * Decimal(s[..|s| - 1]) + ValueOf(s[|s| - 1])
  }

  /** `strconv.Itoa` of a natural number. */
  function Itoa(n: nat): (s: Digits)
    ensures s != []
  {
    if n < 10 then [Digit(n)] else Itoa(n / 10) + [Digit(n % 10)]
  }

  lemma {:induction false} ItoaBack(n: nat)
    ensures Decimal(Itoa(n)) == n
  {
    var s := Itoa(n);
    if n >= 10 {
      ItoaBack(n / 10);
      assert s[..|s| - 1] == Itoa(n / 10);
    } else {
      assert s[..0] == [];
    }
  }

  lemma ItoaInjective(a: nat, b: nat)
    requires Itoa(a) == Itoa(b)
    ensures a == b
  {
    ItoaBack(a);
    ItoaBack(b);
  }
}
