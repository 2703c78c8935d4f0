/**
 What a parameter's value may be, character by character: the shared patterns
 (internal/actions/catalog.go:79-95) and the rule for free text
 (internal/actions/engine.go:308-318).
 */
module ParamLimits {
  import opened Base
  import opened Substitution
  import opened Render
  import Numbers
  import Utf8

  // ---- Free text ------------------------------------------------------------

  /** The length cap counts the bytes of the UTF-8 encoding (section 3 of RFC 3629). */
  function Encoded(v: Text): Utf8.Bytes {
    if v == [] then [] else Utf8.Encode(v[0] as int) + Encoded(v[1..])
  }

  lemma OneCharacter(c: char)
    ensures ByteLength(c) == |Utf8.Encode(c as int)|
  {
  }

  lemma {:induction false} BytesAreEncoded(v: Text)
    ensures BytesOf(v) == |Encoded(v)|
  {
    if v != [] {
      OneCharacter(v[0]);
      BytesAreEncoded(v[1..]);
    }
  }

  /** Free text passes exactly with at most 512 bytes and no character that is a control other than tab. */
  lemma FreeTextIff(v: Text)
    ensures FreeTextOk(v) <==>
              |Encoded(v)| <= 512 && forall c <- v :: c == '\t' || (c >= ' ' && c as int != 127)
  {
    BytesAreEncoded(v);
    forall c: char ensures IsControl(c) <==> !(c == '\t' || (c >= ' ' && c as int != 127)) {
    }
  }

  // ---- The patterns ---------------------------------------------------------

  predicate Letter(c: char) { 'a' <= c <= 'z' || 'A' <= c <= 'Z' }

  predicate Figure(c: char) { '0' <= c <= '9' }

  predicate Plain(c: char) { Letter(c) || Figure(c) }

  /** A number of at most `most` figures. */
  predicate Figures(v: Text, most: nat) {
    1 <= |v| <= most && forall i :: 0 <= i < |v| ==> Figure(v[i])
  }

  /** At most `most` characters, the first a letter or figure, the others also one of `extra`. */
  predicate Name(v: Text, extra: Text, most: nat) {
    && 1 <= |v| <= most && Plain(v[0])
    && forall i :: 1 <= i < |v| ==> Plain(v[i]) || v[i] in extra
  }

  predicate Path(v: Text) {
    && 1 <= |v| <= 256 && v[0] == '/'
    && forall i :: 1 <= i < |v| ==> Plain(v[i]) || v[i] in "._/-"
  }

  predicate Address(v: Text, scheme: Text) {
    && |scheme| < |v| <= |scheme| + 1000 && v[..|scheme|] == scheme
    && forall i :: |scheme| <= i < |v| ==> Plain(v[i]) || v[i] in "._~:/?#@!$&'()*+,;=%-"
  }

  /** What each pattern accepts. */
  predicate Fits(p: Pattern, v: Text) {
    match p
    case UnitName => Name(v, "@._:\\-", 255)
    case Pid => Figures(v, 10)
    case SmallInt => Figures(v, 6)
    case AbsPath => Path(v)
    case ObjectName => Name(v, "@._:/-", 128)
    case HostName => Name(v, ".-", 254)
    case HttpUrl => Address(v, "http://") || Address(v, "https://")
  }

  lemma AllAtIndices(s: Text, ok: char -> bool)
    ensures AllOf(s, ok) <==> forall i :: 0 <= i < |s| ==> ok(s[i])
  {
    if forall i :: 0 <= i < |s| ==> ok(s[i]) {
      forall c | c in s ensures ok(c) {
        var i :| 0 <= i < |s| && s[i] == c;
      }
    }
  }

  lemma TailAtIndices(v: Text, ok: char -> bool, from: nat)
    requires from <= |v|
    ensures AllOf(v[from..], ok) <==> forall i :: from <= i < |v| ==> ok(v[i])
  {
    AllAtIndices(v[from..], ok);
    if AllOf(v[from..], ok) {
      forall i | from <= i < |v| ensures ok(v[i]) {
        assert v[i] == v[from..][i - from];
      }
    }
  }

  lemma FiguresIff(v: Text)
    ensures Matches(Pid, v) <==> Figures(v, 10)
    ensures Matches(SmallInt, v) <==> Figures(v, 6)
  {
    AllAtIndices(v, Numbers.IsDigit);
  }

  lemma NamesIff(v: Text)
    ensures Matches(UnitName, v) <==> Name(v, "@._:\\-", 255)
    ensures Matches(ObjectName, v) <==> Name(v, "@._:/-", 128)
    ensures Matches(HostName, v) <==> Name(v, ".-", 254)
  {
    if v != [] {
      TailAtIndices(v, c => Among(c, "@._:\\-"), 1);
      TailAtIndices(v, c => Among(c, "@._:/-"), 1);
      TailAtIndices(v, c => Among(c, ".-"), 1);
    }
  }

  lemma PathIff(v: Text)
    ensures Matches(AbsPath, v) <==> Path(v)
  {
    if v != [] {
      TailAtIndices(v, c => Among(c, "._/-"), 1);
    }
  }

  lemma AddressIff(v: Text, scheme: Text)
    ensures MatchesUrl(v, scheme) <==> Address(v, scheme)
  {
    if scheme <= v {
      TailAtIndices(v, c => Among(c, URL_CHARS), |scheme|);
    }
  }

  /** Each pattern accepts exactly the texts of its shape. */
  lemma MatchesIff(p: Pattern, v: Text)
    ensures Matches(p, v) <==> Fits(p, v)
  {
    match p {
      case Pid => FiguresIff(v);
      case SmallInt => FiguresIff(v);
      case AbsPath => PathIff(v);
      case HttpUrl =>
        AddressIff(v, "http://");
        AddressIff(v, "https://");
      case _ => NamesIff(v);
    }
  }
}
