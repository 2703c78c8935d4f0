/**
 From the remote command's output to the audit row: the bounded buffer
 (internal/sshx/broker.go:345-362, 451-481) and the stored, truncated text
 (internal/store/queries.go:565-575, 654-663).
 */
module Capture {
  import opened Utf8

  const DEFAULT_MAX_OUTPUT: nat := 0x10_0000
  const MAX_STORED: nat := 65536

  /** "\n… output truncated" and "\n… truncated", as bytes. */
  const BUFFER_MARKER: Bytes := [10, 0xE2, 0x80, 0xA6, 32, 111, 117, 116, 112, 117, 116, 32] + TRUNCATED
  const STORED_MARKER: Bytes := [10, 0xE2, 0x80, 0xA6, 32] + TRUNCATED
  const TRUNCATED: Bytes := [116, 114, 117, 110, 99, 97, 116, 101, 100]

  // ---- The bounded buffer ---------------------------------------------------

  function Min(a: nat, b: nat): nat { if a <= b then a else b }

  class LimitedBuffer {
    const max: nat
    var buf: Bytes
    var truncated: bool
    /** Everything written so far. */
    ghost var written: Bytes

    /** The buffer holds exactly the first `max` bytes. */
    ghost predicate Valid()
      reads this
    {
      buf == written[..Min(|written|, max)]
    }

    constructor (max: nat)
      ensures Valid() && this.max == max && written == [] && !truncated
    {
      this.max := max;
      buf, truncated, written := [], false, [];
    }

    /** Never fails and never refuses a byte; what does not fit is dropped. */
    method Write(p: Bytes) returns (n: nat)
      requires Valid()
      modifies this
      ensures Valid() && n == |p| && written == old(written) + p
      ensures truncated == (old(truncated) || |old(written)| >= max || |written| > max)
    {
      n := |p|;
      var room := max - |buf|;
      ghost var all := written + p;
      assert all[..|written|] == written;
      if room <= 0 {
        truncated := true;
        assert all[..max] == buf;
      } else if |p| > room {
        buf := buf + p[..room];
        truncated := true;
        assert all[..max] == buf;
      } else {
        buf := buf + p;
      }
      written := all;
    }

    method String() returns (s: Bytes)
      requires Valid()
      ensures s == if truncated then written[..Min(|written|, max)] + BUFFER_MARKER else written[..Min(|written|, max)]
    {
      if truncated {
        return buf + BUFFER_MARKER;
      }
      return buf;
    }
  }

  function Concat(writes: seq<Bytes>): Bytes {
    if writes == [] then [] else Concat(writes[..|writes| - 1]) + writes[|writes| - 1]
  }

  /** The flag after a sequence of writes to a fresh buffer. */
  predicate Flag(writes: seq<Bytes>, max: nat) {
    writes != [] &&
    var n := |writes| - 1;
    Flag(writes[..n], max) || |Concat(writes[..n])| >= max || |Concat(writes)| > max
  }

  /** What `String` returns after them. */
  function Captured(writes: seq<Bytes>, max: nat): Bytes {
    var out := Concat(writes);
    out[..Min(|out|, max)] + if Flag(writes, max) then BUFFER_MARKER else []
  }

  method Capture(writes: seq<Bytes>, max: nat) returns (s: Bytes)
    ensures s == Captured(writes, max)
  {
    var b := new LimitedBuffer(max);
    for i := 0 to |writes|
      invariant b.Valid() && b.max == max
      invariant b.written == Concat(writes[..i]) && b.truncated == Flag(writes[..i], max)
    {
      assert writes[..i + 1][..i] == writes[..i];
      var _ := b.Write(writes[i]);
    }
    assert writes[..|writes|] == writes;
    s := b.String();
  }

  /**
   When the flag is set although every byte was kept: exactly when the buffer is
   full and the last write was an empty one. Empty writes before it fills, and
   empty writes that a non-empty one follows, do no harm.
   */
  lemma {:induction false} FalseFlagIff(writes: seq<Bytes>, max: nat)
    ensures Flag(writes, max) && |Concat(writes)| <= max
       <==> |Concat(writes)| == max && writes != [] && writes[|writes| - 1] == []
  {
    if writes != [] {
      FalseFlagIff(writes[..|writes| - 1], max);
    }
  }

  /** Writes that carry bytes, as all that reach the buffer do: the flag is set exactly when some were dropped. */
  lemma FlagMeansDropped(writes: seq<Bytes>, max: nat)
    requires forall w <- writes :: w != []
    ensures Flag(writes, max) <==> |Concat(writes)| > max
  {
    FalseFlagIff(writes, max);
    DroppedSetsFlag(writes, max);
    assert writes != [] ==> writes[|writes| - 1] in writes;
  }

  /** So the captured text is the whole output, or its first `max` bytes and the marker. */
  lemma CapturedIs(writes: seq<Bytes>, max: nat)
    requires forall w <- writes :: w != []
    ensures var out := Concat(writes);
            Captured(writes, max) == if |out| <= max then out else out[..max] + BUFFER_MARKER
  {
    FlagMeansDropped(writes, max);
  }

  /** For any writes: unless an empty one came last and found the buffer just full. */
  lemma FlagMeansDroppedIff(writes: seq<Bytes>, max: nat)
    ensures (Flag(writes, max) <==> |Concat(writes)| > max)
       <==> !(|Concat(writes)| == max && writes != [] && writes[|writes| - 1] == [])
  {
    FalseFlagIff(writes, max);
    DroppedSetsFlag(writes, max);
  }

  lemma DroppedSetsFlag(writes: seq<Bytes>, max: nat)
    ensures |Concat(writes)| > max ==> Flag(writes, max)
  {
  }

  /** For one: an empty write to a buffer that one byte has filled. */
  lemma EmptyWriteSetsFlag(b: Byte)
    ensures Flag([[b], []], 1) && |Concat([[b], []])| == 1
  {
    assert [[b], []][..1] == [[b]] && [[b]][..0] == [];
    assert Concat([]) == [];
    assert Concat([[b]]) == [b];
  }

  // ---- The stored text ------------------------------------------------------

  /** The last position at or before `k` where a character starts, or 0. */
  function BackOff(s: Bytes, k: nat): (j: nat)
    requires k < |s|
    ensures j <= k && (j == 0 || RuneStart(s[j]))
    ensures forall i :: j < i <= k ==> !RuneStart(s[i])
  {
    if k > 0 && !RuneStart(s[k]) then BackOff(s, k - 1) else k
  }

  function Stored(s: Bytes, max: nat): Bytes {
    if |s| <= max then s else s[..BackOff(s, max)] + STORED_MARKER
  }

  method Truncate(s: Bytes, max: nat) returns (r: Bytes)
    ensures r == Stored(s, max)
  {
    if |s| <= max {
      return s;
    }
    var k := max;
    while k > 0 && !RuneStart(s[k])
      invariant 0 <= k <= max && BackOff(s, k) == BackOff(s, max)
    {
      k := k - 1;
    }
    return s[..k] + STORED_MARKER;
  }

  /** The longest prefix of whole characters that is at most `max` long. */
  ghost predicate LongestPrefix(s: Bytes, max: nat, k: nat) {
    && k <= max && k <= |s|
    && Valid(s[..k])
    && forall i :: k < i <= max && i <= |s| ==> !Valid(s[..i])
  }

  lemma BackOffIsLongest(s: Bytes, max: nat)
    requires Valid(s) && max < |s|
    ensures LongestPrefix(s, max, BackOff(s, max))
    ensures max < BackOff(s, max) + 4
  {
    var j := BackOff(s, max);
    BoundaryIff(s, j);
    forall i | j < i <= max ensures !Valid(s[..i]) {
      BoundaryIff(s, i);
    }
    StartNearby(s, max);
  }

  lemma {:induction false} BackOffLocal(s: Bytes, t: Bytes, k: nat)
    requires k < |s| && k < |t| && s[..k + 1] == t[..k + 1]
    ensures BackOff(s, k) == BackOff(t, k)
  {
    assert s[k] == s[..k + 1][k] == t[k];
    if k > 0 {
      assert s[..k] == s[..k + 1][..k] == t[..k];
      BackOffLocal(s, t, k - 1);
    }
  }

  lemma {:induction false} AsciiIsText(s: Bytes)
    requires forall b <- s :: b <= 0x7F
    ensures Valid(s)
  {
    if s != [] {
      assert s[0] in s;
      assert forall b <- s[1..] :: b in s;
      AsciiIsText(s[1..]);
    }
  }

  lemma EllipsisIsText(t: Bytes)
    requires forall b <- t :: b <= 0x7F
    ensures Valid([10, 0xE2, 0x80, 0xA6, 32] + t)
  {
    AsciiIsText(t);
    var dots: Bytes := [0xE2, 0x80, 0xA6];
    assert CharLength([32]) == 1 && [32][1..] == [];
    ValidConcat([32], t);
    assert CharLength(dots) == 3 && dots[3..] == [];
    ValidConcat(dots, [32] + t);
    assert CharLength([10]) == 1 && [10][1..] == [];
    ValidConcat([10], dots + ([32] + t));
    assert [10, 0xE2, 0x80, 0xA6, 32] + t == [10] + (dots + ([32] + t));
  }

  /**
   End to end: however the output was cut into writes, the audit row holds all
   of it, or the longest prefix of whole characters within the limit (at most
   three bytes short of it) and a marker; and it is valid UTF-8 again.
   */
  lemma AuditHoldsOutput(writes: seq<Bytes>)
    requires Valid(Concat(writes))
    ensures var out := Concat(writes);
            var row := Stored(Captured(writes, DEFAULT_MAX_OUTPUT), MAX_STORED);
            && Valid(row)
            && (|out| <= MAX_STORED ==> row == out)
            && (|out| > MAX_STORED ==>
                  exists k: nat :: LongestPrefix(out, MAX_STORED, k) && MAX_STORED - 3 <= k
                                   && row == out[..k] + STORED_MARKER)
  {
    var out, s := Concat(writes), Captured(writes, DEFAULT_MAX_OUTPUT);
    FlagNeedsFullBuffer(writes, DEFAULT_MAX_OUTPUT);
    if |out| <= MAX_STORED {
      assert s == out;
    } else {
      BackOffLocal(s, out, MAX_STORED);
      BackOffIsLongest(out, MAX_STORED);
      var k := BackOff(out, MAX_STORED);
      assert s[..k] == out[..k];
      EllipsisIsText(TRUNCATED);
      ValidConcat(out[..k], STORED_MARKER);
      assert LongestPrefix(out, MAX_STORED, k) && Stored(s, MAX_STORED) == out[..k] + STORED_MARKER;
    }
  }

  lemma {:induction false} FlagNeedsFullBuffer(writes: seq<Bytes>, max: nat)
    ensures Flag(writes, max) ==> |Concat(writes)| >= max
  {
    if writes != [] {
      FlagNeedsFullBuffer(writes[..|writes| - 1], max);
    }
  }
}
