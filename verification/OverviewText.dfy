/** Printing in the probe's format and parsing it back (internal/actions/parsers.go:88-157). */
module OverviewText {
  import opened Base
  import opened Text
  import opened Backoff
  import opened Numbers
  import opened Overview

  /** A disk as the probe prints it, in kB. */
  datatype Mount = Mount(source: Str, total: int, used: int, avail: int, path: Str)

  /**
   One line of the probe: a number, the value of a tool that printed nothing, the
   reboot flag, a disk, or the load averages, which are text with blanks.
   */
  datatype Item = Measure(key: Key, n: int) | Blank(key: Key) | Flag(on: bool) | Mounted(disk: Mount) | Load(text: Str)

  /** The probe's fields are words without the field separator. */
  predicate FieldOk(s: Str) {
    NoSpace(s) && '|' !in s
  }

  predicate FitsInBytes(n: int) {
    MIN_INT64 <= n * 1024 <= MAX_INT64
  }

  predicate ItemOk(item: Item) {
    match item
    case Measure(key, n) => (Counts(key) && MIN_INT64 <= n <= MAX_INT64) || (Sizes(key) && FitsInBytes(n))
    case Blank(key) => Scalar(key)
    case Flag(_) => true
    case Load(text) => '\n' !in text
    case Mounted(d) =>
      FieldOk(d.source) && FieldOk(d.path) && FitsInBytes(d.total) && FitsInBytes(d.used) && FitsInBytes(d.avail)
  }

  function DiskText(d: Mount): Str {
    d.source + ['|'] + (Number(d.total) + ['|'] + (Number(d.used) + ['|'] + (Number(d.avail) + ['|'] + d.path)))
  }

  function EntryOf(item: Item): Entry {
    match item
    case Measure(key, n) => Entry(key, Number(n))
    case Blank(key) => Entry(key, "")
    case Flag(on) => Entry(Reboot, if on then "1" else "0")
    case Load(text) => Entry(Other, text)
    case Mounted(d) => Entry(OneDisk, DiskText(d))
  }

  function LineOf(e: Entry): Str {
    KeyText(e.key) + ['='] + e.value
  }

  function LinesOf(items: seq<Item>): (lines: seq<Str>)
    ensures |lines| == |items|
    ensures forall i :: 0 <= i < |items| ==> lines[i] == LineOf(EntryOf(items[i]))
  {
    if items == [] then [] else [LineOf(EntryOf(items[0]))] + LinesOf(items[1..])
  }

  /** The whole output of the probe: every line is terminated. */
  function Print(items: seq<Item>): Str {
    if items == [] then [] else LineOf(EntryOf(items[0])) + ['\n'] + Print(items[1..])
  }

  // ---- What should come back ------------------------------------------------

  /** Bytes for sizes, 0 or 1 for the flag, 0 for what was not printed. */
  function Shown(item: Item): int {
    match item
    case Measure(key, n) => if Sizes(key) then n * 1024 else n
    case Flag(on) => if on then 1 else 0
    case _ => 0
  }

  /** The last item with that key, or 0. */
  function Expected(items: seq<Item>, key: Key): int {
    if items == [] then 0
    else
      var last := items[|items| - 1];
      if EntryOf(last).key == key then Shown(last) else Expected(items[..|items| - 1], key)
  }

  function Kept(items: seq<Item>): seq<Disk> {
    if items == [] then [] else Kept(items[..|items| - 1]) + KeptOne(items[|items| - 1])
  }

  function KeptOne(item: Item): seq<Disk> {
    if item.Mounted? && !PseudoFs(item.disk.source) then
      var d := item.disk;
      [NewDisk(d.source, d.path, d.total * 1024, d.used * 1024, d.avail * 1024)]
    else []
  }

  /** What the overview should show; the used figures are those of `free`. */
  function ExpectedReport(items: seq<Item>): Report {
    var total, swap := Expected(items, MemTotal), Expected(items, SwapTotal);
    Report(
      Expected(items, Now), Expected(items, UptimeS), Expected(items, Cpus), total,
      MemUsed(total, Expected(items, MemAvail), Expected(items, MemFree), Expected(items, MemBuffers),
              Expected(items, MemCached)),
      swap, SwapUsed(swap, Expected(items, SwapFree)), Kept(items), Expected(items, Users),
      Expected(items, Reboot) == 1)
  }

  /** While the figures are sizes that fit, the used ones are exact. */
  lemma UsedIsExact(total: int, avail: int, free: int, buffers: int, cached: int)
    requires 0 <= total <= MAX_INT64 && 0 <= avail <= MAX_INT64
    requires 0 <= free && 0 <= buffers && 0 <= cached && free + buffers + cached <= MAX_INT64
    ensures MemUsed(total, avail, free, buffers, cached) ==
              if total == 0 then 0 else total - if avail == 0 then free + buffers + cached else avail
    ensures SwapUsed(total, free) == if total == 0 then 0 else total - free
  {
  }

  // ---- One line -------------------------------------------------------------

  lemma {:induction false} FirstEqualsAt(a: Str, b: Str)
    requires '=' !in a
    ensures FirstEquals(a + ['='] + b) == |a|
  {
    var s := a + ['='] + b;
    if a != [] {
      assert s[0] == a[0] && a[0] in a;
      assert s[1..] == a[1..] + ['='] + b;
      FirstEqualsAt(a[1..], b);
    }
  }

  lemma TrimWord(s: Str)
    requires NoSpace(s)
    ensures TrimSpace(s) == s
  {
    TrimSpaceFixed(s);
  }

  lemma WordConcat(a: Str, b: Str)
    requires NoSpace(a) && NoSpace(b)
    ensures NoSpace(a + b)
  {
    forall c | c in a + b ensures !IsSpace(c) {
      assert c in a || c in b;
    }
  }

  lemma CutBack(k: Str, v: Str)
    requires NoSpace(k) && NoSpace(v) && '=' !in k
    ensures var s := k + ['='] + v;
            NoSpace(s) && FirstEquals(s) == |k| && s[..|k|] == k && s[|k| + 1..] == v
  {
    assert NoSpace(['=']);
    WordConcat(k, ['=']);
    WordConcat(k + ['='], v);
    FirstEqualsAt(k, v);
  }

  lemma CutLine(line: Str, k: Str, v: Str)
    requires FirstEquals(line) == |k| < |line| && line[..|k|] == k && line[|k| + 1..] == v
    ensures CutEntry(line) == Some(Entry(KeyOf(k), v))
  {
  }

  lemma EntryBack(e: Entry)
    requires NoSpace(e.value)
    ensures CutEntry(LineOf(e)) == Some(e) && NoSpace(LineOf(e))
  {
    var k := KeyText(e.key);
    KeyIsWord(e.key);
    KeyBack(e.key);
    CutBack(k, e.value);
    CutLine(LineOf(e), k, e.value);
  }

  lemma LineBack(line: Str)
    requires NoSpace(line)
    ensures ParseLine(line) == CutEntry(line)
  {
    TrimWord(line);
  }

  lemma SplitPart(a: Str, b: Str)
    requires '|' !in a
    ensures Split(a + ['|'] + b, '|') == [a] + Split(b, '|')
  {
    SplitAt(a, '|', b);
    SplitWithout(a, '|');
  }

  lemma DiskSplit(d: Mount)
    requires FieldOk(d.source) && FieldOk(d.path)
    ensures Split(DiskText(d), '|') == [d.source, Number(d.total), Number(d.used), Number(d.avail), d.path]
    ensures NoSpace(DiskText(d))
  {
    NumberIsWord(d.total);
    NumberIsWord(d.used);
    NumberIsWord(d.avail);
    var r3 := Number(d.avail) + ['|'] + d.path;
    var r2 := Number(d.used) + ['|'] + r3;
    var r1 := Number(d.total) + ['|'] + r2;
    SplitPart(d.source, r1);
    SplitPart(Number(d.total), r2);
    SplitPart(Number(d.used), r3);
    SplitPart(Number(d.avail), d.path);
    SplitWithout(d.path, '|');
  }

  lemma KilobytesBack(n: int)
    requires FitsInBytes(n)
    ensures Kilobytes(Number(n)) == n * 1024
  {
    NumberBack(n);
  }

  lemma DiskParts(v: Str, p: seq<Str>, total: int, used: int, avail: int)
    requires |p| == 5 && Split(v, '|') == p
    requires Kilobytes(p[1]) == total && Kilobytes(p[2]) == used && Kilobytes(p[3]) == avail
    ensures ParseDisk(v) == if PseudoFs(p[0]) then None else Some(NewDisk(p[0], p[4], total, used, avail))
  {
  }

  lemma DiskNumbers(d: Mount, p: seq<Str>)
    requires ItemOk(Mounted(d)) && |p| == 5
    requires p[1] == Number(d.total) && p[2] == Number(d.used) && p[3] == Number(d.avail)
    ensures Kilobytes(p[1]) == d.total * 1024 && Kilobytes(p[2]) == d.used * 1024 && Kilobytes(p[3]) == d.avail * 1024
  {
    KilobytesBack(d.total);
    KilobytesBack(d.used);
    KilobytesBack(d.avail);
  }

  lemma DiskValue(d: Mount, v: Str, p: seq<Str>)
    requires ItemOk(Mounted(d)) && |p| == 5 && Split(v, '|') == p && p[0] == d.source && p[4] == d.path
    requires p[1] == Number(d.total) && p[2] == Number(d.used) && p[3] == Number(d.avail)
    ensures ParseDisk(v) == if PseudoFs(d.source) then None
                            else Some(NewDisk(d.source, d.path, d.total * 1024, d.used * 1024, d.avail * 1024))
  {
    DiskNumbers(d, p);
    DiskParts(v, p, d.total * 1024, d.used * 1024, d.avail * 1024);
  }

  lemma DiskParsed(d: Mount)
    requires ItemOk(Mounted(d))
    ensures ParseDisk(DiskText(d)) ==
              if PseudoFs(d.source) then None
              else Some(NewDisk(d.source, d.path, d.total * 1024, d.used * 1024, d.avail * 1024))
  {
    DiskSplit(d);
    DiskValue(d, DiskText(d), Split(DiskText(d), '|'));
  }

  lemma DiskBack(d: Mount)
    requires ItemOk(Mounted(d))
    ensures DiskIn(Some(EntryOf(Mounted(d)))) == KeptOne(Mounted(d))
  {
    DiskParsed(d);
  }

  /** A full disk of 2^47 kB, as the probe prints it: the parser accepts the line and shows another percentage. */
  lemma FullDiskMisreported()
    ensures var d := Mount("/dev/vda", 0x8000_0000_0000, 0x8000_0000_0000, 0, "/");
            var parsed := ParseDisk(DiskText(d));
            && CutEntry(LineOf(Entry(OneDisk, DiskText(d)))) == Some(Entry(OneDisk, DiskText(d)))
            && parsed.Some? && parsed.value.used == parsed.value.total > 0
            && parsed.value.usedPct != 100
  {
    DeviceIsAField();
    FullDisk(Mount("/dev/vda", 0x8000_0000_0000, 0x8000_0000_0000, 0, "/"), 0x8000_0000_0000);
  }

  lemma FullDisk(d: Mount, kb: int)
    requires d.total == d.used == kb == 0x8000_0000_0000 && d.avail == 0
    requires FieldOk(d.source) && FieldOk(d.path) && !PseudoFs(d.source)
    ensures var parsed := ParseDisk(DiskText(d));
            && CutEntry(LineOf(Entry(OneDisk, DiskText(d)))) == Some(Entry(OneDisk, DiskText(d)))
            && parsed.Some? && parsed.value.used == parsed.value.total > 0
            && parsed.value.usedPct != 100
  {
    DiskParsed(d);
    ItemIsWord(Mounted(d));
    EntryBack(EntryOf(Mounted(d)));
    FullDiskPercent(kb * 1024);
  }

  lemma FullDiskPercent(bytes: int)
    requires bytes == 0x8000_0000_0000 * 1024
    ensures Percent(bytes, bytes) != 100
  {
    PercentIsFloorIff(bytes, bytes);
    assert 100 * bytes / bytes == 100;
  }

  lemma DeviceIsAField()
    ensures FieldOk("/dev/vda") && FieldOk("/") && !PseudoFs("/dev/vda")
  {
    assert !("/dev/loop" <= "/dev/vda");
  }

  lemma ItemIsWord(item: Item)
    requires ItemOk(item) && !item.Load?
    ensures NoSpace(EntryOf(item).value)
  {
    match item {
      case Measure(_, n) => NumberIsWord(n);
      case Mounted(d) => DiskSplit(d);
      case _ =>
    }
  }

  lemma NothingReadsAsZero(key: Key)
    ensures Meaning(key, "") == 0
  {
    assert TrimSpace([]) == [];
  }

  lemma MeasureBack(key: Key, n: int)
    requires ItemOk(Measure(key, n))
    ensures Scalar(key) && Meaning(key, Number(n)) == Shown(Measure(key, n))
  {
    if Sizes(key) {
      assert !Counts(key);
      KilobytesBack(n);
    } else {
      CountBack(key, n);
    }
  }

  lemma CountBack(key: Key, n: int)
    requires Counts(key) && MIN_INT64 <= n <= MAX_INT64
    ensures Scalar(key) && Meaning(key, Number(n)) == n && !Sizes(key)
  {
    NumberBack(n);
  }

  lemma MeaningBack(item: Item)
    requires ItemOk(item) && !item.Mounted? && !item.Load?
    ensures Scalar(EntryOf(item).key) && Meaning(EntryOf(item).key, EntryOf(item).value) == Shown(item)
  {
    if item.Measure? {
      MeasureBack(item.key, item.n);
    } else if item.Blank? {
      NothingReadsAsZero(item.key);
    }
  }

  // ---- The line with blanks in its value -------------------------------------

  lemma {:induction false} TrimRightKeeps(s: Str, j: nat)
    requires j < |s| && !IsSpace(s[j])
    ensures |TrimRight(s, IsSpace)| > j
  {
    if IsSpace(s[|s| - 1]) {
      TrimRightKeeps(s[..|s| - 1], j);
    }
  }

  /** Trimming a text that starts with a word keeps at least what comes before a later non-blank. */
  lemma TrimKeepsFront(s: Str, j: nat)
    requires j < |s| && !IsSpace(s[0]) && !IsSpace(s[j])
    ensures s[..j + 1] <= TrimSpace(s)
  {
    TrimRightKeeps(s, j);
    var r := TrimRight(s, IsSpace);
    assert TrimSpace(s) == r && r == s[..|r|];
  }

  /** Trimming takes at most the end of the value away. */
  lemma TrimKeepsKey(k: Str, v: Str) returns (w: Str)
    requires k != [] && NoSpace(k)
    ensures TrimSpace(k + ['='] + v) == k + ['='] + w
  {
    var s := k + ['='] + v;
    assert s[0] == k[0] && s[|k|] == '=' && s[..|k| + 1] == k + ['='];
    TrimKeepsFront(s, |k|);
    w := TrimSpace(s)[|k| + 1..];
  }

  lemma LoadBack(text: Str)
    ensures ParseLine(LineOf(Entry(Other, text))).Some?
    ensures ParseLine(LineOf(Entry(Other, text))).value.key == Other
  {
    var k := KeyText(Other);
    KeyIsWord(Other);
    KeyBack(Other);
    var w := TrimKeepsKey(k, text);
    FirstEqualsAt(k, w);
    CutLine(k + ['='] + w, k, w);
  }

  // ---- The whole text -------------------------------------------------------

  /** The parser reads the item back; of the load averages only that they are none of its keys. */
  predicate Reads(e: Option<Entry>, item: Item) {
    if item.Load? then e.Some? && e.value.key == Other else e == Some(EntryOf(item))
  }

  predicate ItemsOk(items: seq<Item>) {
    forall i :: 0 <= i < |items| ==> ItemOk(items[i])
  }

  predicate AllRead(es: Entries, items: seq<Item>) {
    |es| == |items| && forall i :: 0 <= i < |items| ==> Reads(es[i], items[i])
  }

  lemma OneLineBack(item: Item)
    requires ItemOk(item)
    ensures Reads(ParseLine(LineOf(EntryOf(item))), item) && '\n' !in LineOf(EntryOf(item))
  {
    if item.Load? {
      LoadBack(item.text);
      NoNewline(Entry(Other, item.text));
    } else {
      ItemIsWord(item);
      WordLineBack(EntryOf(item));
    }
  }

  lemma NoNewline(e: Entry)
    requires '\n' !in e.value
    ensures '\n' !in LineOf(e)
  {
    KeyIsWord(e.key);
    assert IsSpace('\n');
  }

  lemma WordLineBack(e: Entry)
    requires NoSpace(e.value)
    ensures ParseLine(LineOf(e)) == Some(e) && '\n' !in LineOf(e)
  {
    EntryBack(e);
    LineBack(LineOf(e));
    assert IsSpace('\n');
  }

  lemma LinesBack(items: seq<Item>)
    requires ItemsOk(items)
    ensures AllRead(EntriesOf(LinesOf(items)), items)
  {
    forall i | 0 <= i < |items| ensures Reads(EntriesOf(LinesOf(items))[i], items[i]) {
      OneLineBack(items[i]);
    }
  }

  lemma SplitFirstLine(line: Str, rest: Str, lines: seq<Str>)
    requires '\n' !in line && Split(rest, '\n') == lines + [[]]
    ensures Split(line + ['\n'] + rest, '\n') == [line] + lines + [[]]
  {
    SplitAt(line, '\n', rest);
    SplitWithout(line, '\n');
  }

  lemma PrintFirst(items: seq<Item>)
    requires items != []
    ensures Print(items) == LineOf(EntryOf(items[0])) + ['\n'] + Print(items[1..])
    ensures LinesOf(items) == [LineOf(EntryOf(items[0]))] + LinesOf(items[1..])
  {
  }

  /** Splitting the output gives its lines and the empty piece after the last newline. */
  lemma {:induction false} SplitPrint(items: seq<Item>)
    requires ItemsOk(items)
    ensures Split(Print(items), '\n') == LinesOf(items) + [[]]
  {
    if items != [] {
      SplitPrint(items[1..]);
      PrintFirst(items);
      OneLineBack(items[0]);
      SplitFirstLine(LineOf(EntryOf(items[0])), Print(items[1..]), LinesOf(items[1..]));
    }
  }

  lemma EmptyLineIsIgnored()
    ensures ParseLine([]) == None
  {
    assert TrimSpace([]) == [];
  }

  lemma EntriesSnoc(lines: seq<Str>, line: Str)
    ensures EntriesOf(lines + [line]) == EntriesOf(lines) + [ParseLine(line)]
  {
    assert (lines + [line])[..|lines|] == lines;
  }

  lemma NoneAddsNothing(es: Entries)
    ensures ReportOf(es + [None]) == ReportOf(es)
  {
    assert (es + [None])[..|es|] == es;
    assert SumsOf(es + [None]) == SumsOf(es);
    assert DisksOf(es + [None]) == DisksOf(es) + [] == DisksOf(es);
  }

  lemma SumStepBack(sums: Sums, e: Option<Entry>, item: Item, key: Key)
    requires ItemOk(item) && Reads(e, item) && OneDisk !in sums && Other !in sums
    ensures Sum(AddEntry(sums, e), key) == if EntryOf(item).key == key then Shown(item) else Sum(sums, key)
  {
    if !item.Mounted? && !item.Load? {
      MeaningBack(item);
    }
  }

  lemma DiskStepBack(e: Option<Entry>, item: Item)
    requires ItemOk(item) && Reads(e, item)
    ensures DiskIn(e) == KeptOne(item)
  {
    if item.Mounted? {
      DiskBack(item.disk);
    } else {
      NotADisk(item);
    }
  }

  lemma NotADisk(item: Item)
    requires ItemOk(item) && !item.Mounted?
    ensures EntryOf(item).key != OneDisk && KeptOne(item) == []
  {
  }

  lemma {:induction false} SumsBack(items: seq<Item>, es: Entries, key: Key)
    requires ItemsOk(items) && AllRead(es, items)
    ensures Sum(SumsOf(es), key) == Expected(items, key)
  {
    if items != [] {
      var n := |items| - 1;
      SumsBack(items[..n], es[..n], key);
      SumIsSomeLine(es[..n], OneDisk);
      SumIsSomeLine(es[..n], Other);
      SumStepBack(SumsOf(es[..n]), es[n], items[n], key);
    }
  }

  lemma {:induction false} DisksBack(items: seq<Item>, es: Entries)
    requires ItemsOk(items) && AllRead(es, items)
    ensures DisksOf(es) == Kept(items)
  {
    if items != [] {
      var n := |items| - 1;
      DisksBack(items[..n], es[..n]);
      DiskStepBack(es[n], items[n]);
    }
  }

  /**
   Round trip: whatever the probe prints, line by line and in any order, the
   report `ParseOverview` returns shows the printed numbers (sizes in bytes), the
   used figures that follow from them, and the disks that are no pseudo file
   systems, in order.
   */
  lemma ParseOfPrint(items: seq<Item>)
    requires ItemsOk(items)
    ensures ReportOf(EntriesOf(Split(Print(items), '\n'))) == ExpectedReport(items)
  {
    var lines := LinesOf(items);
    SplitPrint(items);
    EntriesSnoc(lines, []);
    EmptyLineIsIgnored();
    LinesBack(items);
    ReportBack(items, EntriesOf(lines));
  }

  lemma ReportBack(items: seq<Item>, es: Entries)
    requires ItemsOk(items) && AllRead(es, items)
    ensures ReportOf(es + [None]) == ExpectedReport(items)
  {
    NoneAddsNothing(es);
    forall key ensures Sum(SumsOf(es), key) == Expected(items, key) {
      SumsBack(items, es, key);
    }
    DisksBack(items, es);
  }
}
