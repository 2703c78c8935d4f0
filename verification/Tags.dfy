/**
 The tag column and the two matchers over it (internal/store/queries.go:624-638,
 726-750; internal/api/groups.go:104-136). Tags are stored comma-joined and read
 back split, trimmed and without empties.
 */
module Tags {
  import opened Text

  type TagList = seq<Str>

  function KeptPart(part: Str): TagList {
    if TrimSpace(part) == [] then [] else [TrimSpace(part)]
  }

  /** Trims every part and drops the empty ones. */
  function Clean(parts: seq<Str>): TagList {
    if parts == [] then [] else KeptPart(parts[0]) + Clean(parts[1..])
  }

  function JoinTags(tags: TagList): Str {
    Join(tags, ',')
  }

  function SplitTags(s: Str): TagList {
    if TrimSpace(s) == [] then [] else Clean(Split(s, ','))
  }

  lemma {:induction false} CleanConcat(a: seq<Str>, b: seq<Str>)
    ensures Clean(a + b) == Clean(a) + Clean(b)
  {
    if a == [] {
      assert a + b == b;
    } else {
      assert (a + b)[0] == a[0] && (a + b)[1..] == a[1..] + b;
      CleanConcat(a[1..], b);
      var first, x, y := KeptPart(a[0]), Clean(a[1..]), Clean(b);
      assert first + (x + y) == (first + x) + y;
    }
  }

  lemma CleanStep(parts: seq<Str>, i: nat)
    requires i < |parts|
    ensures Clean(parts[..i + 1]) == Clean(parts[..i]) + KeptPart(parts[i])
  {
    assert parts[..i + 1] == parts[..i] + [parts[i]];
    CleanSnoc(parts[..i], parts[i]);
  }

  lemma CleanSnoc(parts: seq<Str>, p: Str)
    ensures Clean(parts + [p]) == Clean(parts) + KeptPart(p)
  {
    CleanConcat(parts, [p]);
    CleanOne(p);
  }

  lemma CleanOne(p: Str)
    ensures Clean([p]) == KeptPart(p)
  {
    assert [p][1..] == [];
    assert KeptPart(p) + [] == KeptPart(p);
  }

  /** The loop of `cleanTags`. */
  method CleanTags(parts: seq<Str>) returns (out: TagList)
    ensures out == Clean(parts)
  {
    out := [];
    for i := 0 to |parts|
      invariant out == Clean(parts[..i])
    {
      var t := TrimSpace(parts[i]);
      CleanStep(parts, i);
      if t != [] {
        out := out + [t];
      }
    }
    assert parts[..|parts|] == parts;
  }

  /** `splitTags`. */
  method SplitTagColumn(s: Str) returns (out: TagList)
    ensures out == SplitTags(s)
  {
    if TrimSpace(s) == [] {
      return [];
    }
    out := CleanTags(Split(s, ','));
  }

  // ---- The codec ------------------------------------------------------------

  /** The early return agrees with the general path. */
  lemma BlankSplitsToNothing(s: Str)
    requires TrimSpace(s) == []
    ensures Clean(Split(s, ',')) == []
  {
    BlankHasOnlySpaces(s);
    SplitHasNoSep(s, ',');
    forall p | p in Split(s, ',') ensures AllSpace(p) {
      assert MadeOf(p, s, ',');
    }
    AllBlankCleans(Split(s, ','));
  }

  predicate AllSpace(p: Str) {
    forall c <- p :: IsSpace(c)
  }

  lemma {:induction false} TrimLeftBlank(s: Str, drop: char -> bool)
    requires TrimLeft(s, drop) == []
    ensures forall c <- s :: drop(c)
  {
    if s != [] {
      assert drop(s[0]);
      TrimLeftBlank(s[1..], drop);
      forall c | c in s ensures drop(c) {
        assert c == s[0] || c in s[1..];
      }
    }
  }

  lemma BlankHasOnlySpaces(s: Str)
    requires TrimSpace(s) == []
    ensures forall c <- s :: IsSpace(c)
  {
    var l := TrimLeft(s, IsSpace);
    if l != [] {
      TrimRightKeeps(l);
    }
    TrimLeftBlank(s, IsSpace);
  }

  lemma {:induction false} TrimRightKeeps(s: Str)
    requires s != [] && !IsSpace(s[0])
    ensures TrimRight(s, IsSpace) != []
  {
    if IsSpace(s[|s| - 1]) {
      TrimRightKeeps(s[..|s| - 1]);
    }
  }

  lemma {:induction false} SpacesTrimAway(s: Str)
    requires AllSpace(s)
    ensures TrimSpace(s) == []
  {
    if s != [] {
      assert s[0] in s;
      assert forall c <- s[1..] :: c in s;
      SpacesTrimAway(s[1..]);
    }
  }

  lemma {:induction false} AllBlankCleans(parts: seq<Str>)
    requires forall p <- parts :: AllSpace(p)
    ensures Clean(parts) == []
  {
    if parts != [] {
      assert parts[0] in parts;
      SpacesTrimAway(parts[0]);
      AllBlankCleans(parts[1..]);
    }
  }

  lemma SplitTagsIsClean(s: Str)
    ensures SplitTags(s) == Clean(Split(s, ','))
  {
    if TrimSpace(s) == [] {
      BlankSplitsToNothing(s);
    }
  }

  /** Every tag read back on its own, in order. */
  function Flatten(tags: TagList): TagList {
    if tags == [] then [] else SplitTags(tags[0]) + Flatten(tags[1..])
  }

  /** Storing a list and reading it back reads every tag back on its own. */
  lemma {:induction false} JoinThenSplit(tags: TagList)
    ensures SplitTags(JoinTags(tags)) == Flatten(tags)
  {
    if tags == [] {
    } else if |tags| == 1 {
      assert tags[1..] == [];
      assert Flatten(tags) == SplitTags(tags[0]) + [];
    } else {
      JoinThenSplit(tags[1..]);
      SplitTagsIsClean(JoinTags(tags));
      SplitAt(tags[0], ',', JoinTags(tags[1..]));
      CleanConcat(Split(tags[0], ','), Split(JoinTags(tags[1..]), ','));
      SplitTagsIsClean(tags[0]);
      SplitTagsIsClean(JoinTags(tags[1..]));
    }
  }

  predicate GoodTag(t: Str) {
    t != [] && Trimmed(t) && ',' !in t
  }

  lemma {:induction false} CleanIsGood(parts: seq<Str>)
    requires forall p <- parts :: ',' !in p
    ensures forall t <- Clean(parts) :: GoodTag(t)
  {
    if parts != [] {
      CleanIsGood(parts[1..]);
      TrimSpaceFixed(parts[0]);
      assert parts[0] in parts;
    }
  }

  /** Whatever the column holds, the tags read from it are good. */
  lemma ReadTagsAreGood(s: Str)
    ensures forall t <- SplitTags(s) :: GoodTag(t)
  {
    SplitTagsIsClean(s);
    SplitHasNoSep(s, ',');
    forall p | p in Split(s, ',') ensures ',' !in p {
      assert MadeOf(p, s, ',');
    }
    CleanIsGood(Split(s, ','));
  }

  lemma GoodTagReadsBack(t: Str)
    requires GoodTag(t)
    ensures SplitTags(t) == [t]
  {
    SplitTagsIsClean(t);
    SplitWithout(t, ',');
    TrimSpaceFixed(t);
    CleanOne(t);
  }

  lemma {:induction false} GoodTagsSurvive(tags: TagList)
    requires forall t <- tags :: GoodTag(t)
    ensures Flatten(tags) == tags
  {
    if tags != [] {
      assert tags[0] in tags;
      GoodTagReadsBack(tags[0]);
      GoodTagsSurvive(tags[1..]);
      assert [tags[0]] + tags[1..] == tags;
    }
  }

  /** A tag list survives storage exactly when every tag is non-empty, trimmed and comma-free. */
  lemma TagsRoundTripIff(tags: TagList)
    ensures SplitTags(JoinTags(tags)) == tags <==> forall t <- tags :: GoodTag(t)
  {
    ReadTagsAreGood(JoinTags(tags));
    if forall t <- tags :: GoodTag(t) {
      JoinThenSplit(tags);
      GoodTagsSurvive(tags);
    }
  }

  /** For one: a tag with a comma reads back as two. */
  lemma CommaMakesTwoTags(a: Str, b: Str)
    requires GoodTag(a) && GoodTag(b)
    ensures SplitTags(JoinTags([a + [','] + b])) == [a, b]
  {
    // The column text of the one tag is that of the two.
    assert [a, b][1..] == [b] && Join([b], ',') == b;
    assert JoinTags([a, b]) == a + [','] + b == JoinTags([a + [','] + b]);
    TagsRoundTripIff([a, b]);
  }

  /** Reading, storing and reading again is reading once. */
  lemma SplitJoinSplit(s: Str)
    ensures SplitTags(JoinTags(SplitTags(s))) == SplitTags(s)
  {
    ReadTagsAreGood(s);
    TagsRoundTripIff(SplitTags(s));
  }

  // ---- Group membership -----------------------------------------------------

  datatype Tagged = Tagged(id: int, tags: TagList)

  /** A group selects the machines carrying all of its tags; without tags it selects none. */
  predicate Member(m: Tagged, want: TagList) {
    want != [] && forall w <- want :: w in m.tags
  }

  function Matching(machines: seq<Tagged>, want: TagList): seq<Tagged> {
    if machines == [] then []
    else (if Member(machines[0], want) then [machines[0]] else []) + Matching(machines[1..], want)
  }

  lemma {:induction false} MatchingStep(machines: seq<Tagged>, m: Tagged, want: TagList)
    ensures Matching(machines + [m], want) == Matching(machines, want) + (if Member(m, want) then [m] else [])
  {
    if machines == [] {
      assert [m][1..] == [];
      assert machines + [m] == [m];
    } else {
      assert (machines + [m])[1..] == machines[1..] + [m];
      MatchingStep(machines[1..], m, want);
    }
  }

  /** The inner loops shared by both matchers: all wanted tags are among the machine's. */
  method CarriesAll(m: Tagged, want: TagList) returns (ok: bool)
    ensures ok <==> forall w <- want :: w in m.tags
  {
    var have := set t | t in m.tags;
    ok := true;
    for i := 0 to |want|
      invariant ok
      invariant forall w <- want[..i] :: w in m.tags
    {
      if want[i] !in have {
        ok := false;
        assert want[i] in want;
        break;
      }
      assert want[..i + 1] == want[..i] + [want[i]];
    }
    if ok {
      assert want[..|want|] == want;
    }
  }

  /** `matchAll`. */
  method MatchAll(machines: seq<Tagged>, want: TagList) returns (out: seq<Tagged>)
    ensures out == Matching(machines, want)
  {
    out := [];
    if want == [] {
      NoTagsNoMembers(machines);
      return;
    }
    for i := 0 to |machines|
      invariant out == Matching(machines[..i], want)
    {
      MatchingStep(machines[..i], machines[i], want);
      assert machines[..i + 1] == machines[..i] + [machines[i]];
      var ok := CarriesAll(machines[i], want);
      if ok {
        out := out + [machines[i]];
      }
    }
    assert machines[..|machines|] == machines;
  }

  /** `countMatching`, the second implementation of the same match. */
  method CountMatching(machines: seq<Tagged>, want: TagList) returns (n: nat)
    ensures n == |Matching(machines, want)|
  {
    n := 0;
    if want == [] {
      NoTagsNoMembers(machines);
      return;
    }
    for i := 0 to |machines|
      invariant n == |Matching(machines[..i], want)|
    {
      MatchingStep(machines[..i], machines[i], want);
      assert machines[..i + 1] == machines[..i] + [machines[i]];
      var ok := CarriesAll(machines[i], want);
      if ok {
        n := n + 1;
      }
    }
    assert machines[..|machines|] == machines;
  }

  lemma {:induction false} NoTagsNoMembers(machines: seq<Tagged>)
    ensures Matching(machines, []) == []
  {
    if machines != [] {
      NoTagsNoMembers(machines[1..]);
    }
  }

  /** The match keeps every member as often as it is listed, and nothing else. */
  lemma {:induction false} MatchingSelects(machines: seq<Tagged>, want: TagList, m: Tagged)
    ensures multiset(Matching(machines, want))[m] == (if Member(m, want) then multiset(machines)[m] else 0)
  {
    if machines != [] {
      MatchingSelects(machines[1..], want, m);
      var head := if Member(machines[0], want) then [machines[0]] else [];
      assert machines == [machines[0]] + machines[1..];
      assert multiset(Matching(machines, want)) == multiset(head) + multiset(Matching(machines[1..], want));
    }
  }
}
