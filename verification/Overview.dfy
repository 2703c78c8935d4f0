/**
 The overview parser (internal/actions/parsers.go:76-157, 321-324): key=value lines in
 any order, sizes in kB, one line per mounted disk. The load averages are floating
 point and are not modelled.
 */
module Overview {
  import opened Base
  import opened Text
  import opened Backoff
  import opened Numbers

  // ---- Numbers --------------------------------------------------------------

  const MAX_INT64: int := 0x7FFF_FFFF_FFFF_FFFF
  const MIN_INT64: int := -0x8000_0000_0000_0000

  function Clamp(n: int): int {
    if n > MAX_INT64 then MAX_INT64 else if n < MIN_INT64 then MIN_INT64 else n
  }

  predicate AllDigits(s: Str) {
    s != [] && forall c <- s :: IsDigit(c)
  }

  /** `strconv.ParseInt(s, 10, 64)` with the error ignored: 0 for no number, the nearest bound for a large one. */
  function ParseInt(s: Str): int {
    if AllDigits(s) then Clamp(Decimal(s))
    else if s != [] && s[0] == '+' && AllDigits(s[1..]) then Clamp(Decimal(s[1..]))
    else if s != [] && s[0] == '-' && AllDigits(s[1..]) then Clamp(-(Decimal(s[1..]) as int))
    else 0
  }

  function Atoi64(s: Str): int {
    ParseInt(TrimSpace(s))
  }

  function Number(n: int): Str {
    if n < 0 then ['-'] + Itoa(-n) else Itoa(n)
  }

  predicate NoSpace(s: Str) {
    forall c <- s :: !IsSpace(c)
  }

  lemma NumberIsWord(n: int)
    ensures Number(n) != [] && NoSpace(Number(n)) && '|' !in Number(n)
  {
    var digits := Itoa(if n < 0 then -n else n);
    assert forall c <- digits :: IsDigit(c);
  }

  lemma NumberBack(n: int)
    requires MIN_INT64 <= n <= MAX_INT64
    ensures Atoi64(Number(n)) == n
  {
    NumberIsWord(n);
    TrimSpaceFixed(Number(n));
    ItoaBack(if n < 0 then -n else n);
    if n < 0 {
      assert Number(n)[1..] == Itoa(-n);
      assert Number(n)[0] == '-' && !IsDigit('-');
    }
  }

  /** Whatever is printed is read as the nearest 64-bit integer. */
  lemma NumberClamped(n: int)
    ensures Atoi64(Number(n)) == if n > MAX_INT64 then MAX_INT64 else if n < MIN_INT64 then MIN_INT64 else n
  {
    NumberIsWord(n);
    TrimSpaceFixed(Number(n));
    ItoaBack(if n < 0 then -n else n);
    if n < 0 {
      assert Number(n)[1..] == Itoa(-n);
      assert Number(n)[0] == '-' && !IsDigit('-');
    }
  }

  /** An optional sign and digits. */
  predicate Numeral(s: Str) {
    AllDigits(s) || (s != [] && (s[0] == '+' || s[0] == '-') && AllDigits(s[1..]))
  }

  /** Text that is no number reads as 0, and a plus sign changes nothing. */
  lemma OtherTexts(s: Str)
    ensures !Numeral(TrimSpace(s)) ==> Atoi64(s) == 0
    ensures AllDigits(s) ==> ParseInt(['+'] + s) == ParseInt(s)
  {
    assert (['+'] + s)[1..] == s;
    assert !IsDigit('+') && '+' in ['+'] + s;
  }

  /** Kilobytes to bytes, in 64 bits. */
  function Kilobytes(v: Str): int {
    Wrap64(Atoi64(v) * 1024)
  }

  // ---- Lines ----------------------------------------------------------------

  datatype Key =
    | Now | UptimeS | Cpus | MemTotal | MemAvail | MemFree | MemBuffers | MemCached | SwapTotal | SwapFree
    | Users | Reboot | OneDisk | Other

  function KeyOf(k: Str): Key {
    if k == "now" then Now
    else if k == "uptime_s" then UptimeS
    else if k == "cpus" then Cpus
    else if k == "mem_total_kb" then MemTotal
    else if k == "mem_avail_kb" then MemAvail
    else if k == "mem_free_kb" then MemFree
    else if k == "mem_buffers_kb" then MemBuffers
    else if k == "mem_cached_kb" then MemCached
    else if k == "swap_total_kb" then SwapTotal
    else if k == "swap_free_kb" then SwapFree
    else if k == "users" then Users
    else if k == "reboot_required" then Reboot
    else if k == "disk" then OneDisk
    else Other
  }

  function KeyText(key: Key): Str {
    match key
    case Now => "now"
    case UptimeS => "uptime_s"
    case Cpus => "cpus"
    case MemTotal => "mem_total_kb"
    case MemAvail => "mem_avail_kb"
    case MemFree => "mem_free_kb"
    case MemBuffers => "mem_buffers_kb"
    case MemCached => "mem_cached_kb"
    case SwapTotal => "swap_total_kb"
    case SwapFree => "swap_free_kb"
    case Users => "users"
    case Reboot => "reboot_required"
    case OneDisk => "disk"
    case Other => "load"
  }

  lemma KeyBack(key: Key)
    ensures KeyOf(KeyText(key)) == key
  {
  }

  predicate WordWithoutEquals(s: Str) {
    s != [] && forall i :: 0 <= i < |s| ==> !IsSpace(s[i]) && s[i] != '='
  }

  lemma ShortKeys()
    ensures WordWithoutEquals("now") && WordWithoutEquals("uptime_s") && WordWithoutEquals("cpus")
    ensures WordWithoutEquals("users") && WordWithoutEquals("disk") && WordWithoutEquals("load")
  {
  }

  lemma SizeKeys()
    ensures WordWithoutEquals("mem_total_kb") && WordWithoutEquals("mem_avail_kb")
    ensures WordWithoutEquals("mem_free_kb") && WordWithoutEquals("swap_free_kb")
  {
  }

  lemma LongKeys()
    ensures WordWithoutEquals("mem_buffers_kb") && WordWithoutEquals("mem_cached_kb")
    ensures WordWithoutEquals("swap_total_kb") && WordWithoutEquals("reboot_required")
  {
  }

  lemma KeyIsWord(key: Key)
    ensures KeyText(key) != [] && NoSpace(KeyText(key)) && '=' !in KeyText(key)
  {
    ShortKeys();
    SizeKeys();
    LongKeys();
    assert WordWithoutEquals(KeyText(key));
  }

  function FirstEquals(s: Str): (n: nat)
    ensures n <= |s|
    ensures n < |s| ==> s[n] == '='
  {
    if s == [] || s[0] == '=' then 0 else 1 + FirstEquals(s[1..])
  }

  datatype Entry = Entry(key: Key, value: Str)

  /** One line, trimmed and cut at its first '='; None when it has none. */
  function ParseLine(line: Str): Option<Entry> {
    CutEntry(TrimSpace(line))
  }

  function CutEntry(t: Str): Option<Entry> {
    var n := FirstEquals(t);
    if n == |t| then None else Some(Entry(KeyOf(t[..n]), t[n + 1..]))
  }

  // ---- Disks ----------------------------------------------------------------

  datatype Disk = Disk(source: Str, mount: Str, total: int, used: int, avail: int, usedPct: int)

  predicate PseudoFs(source: Str) {
    || source in {"tmpfs", "devtmpfs", "overlay", "squashfs", "udev", "efivarfs", "cgroup", "cgroup2", "proc", "sysfs",
                  "devpts", "shm", "none"}
    || "/dev/loop" <= source
  }

  /** Division that truncates towards zero. */
  function Quotient(a: int, b: int): int
    requires b > 0
  {
    if a >= 0 then a / b else -(-a / b)
  }

  function Percent(used: int, total: int): int {
    if total > 0 then Quotient(Wrap64(used * 100), total) else 0
  }

  /** source|total_kb|used_kb|avail_kb|mount */
  function ParseDisk(v: Str): Option<Disk> {
    var p := Split(v, '|');
    if |p| != 5 || PseudoFs(p[0]) then None
    else Some(NewDisk(p[0], p[4], Kilobytes(p[1]), Kilobytes(p[2]), Kilobytes(p[3])))
  }

  function Bars(v: Str): nat {
    if v == [] then 0 else (if v[0] == '|' then 1 else 0) + Bars(v[1..])
  }

  lemma {:induction false} BarsSeparate(v: Str)
    ensures |Split(v, '|')| == Bars(v) + 1
  {
    if v != [] {
      BarsSeparate(v[1..]);
    }
  }

  /** A disk line counts exactly when it has five fields and its source is no pseudo file system. */
  lemma DiskIff(v: Str)
    ensures ParseDisk(v).Some? <==> Bars(v) == 4 && !PseudoFs(Split(v, '|')[0])
    ensures ParseDisk(v).Some? && ParseDisk(v).value.total <= 0 ==> ParseDisk(v).value.usedPct == 0
  {
    BarsSeparate(v);
  }

  function NewDisk(source: Str, mount: Str, total: int, used: int, avail: int): Disk {
    Disk(source, mount, total, used, avail, Percent(used, total))
  }

  // ---- The report -----------------------------------------------------------

  function DiskIn(e: Option<Entry>): seq<Disk> {
    if e.None? || e.value.key != OneDisk then []
    else
      var d := ParseDisk(e.value.value);
      if d.Some? then [d.value] else []
  }

  type Entries = seq<Option<Entry>>

  function EntriesOf(lines: seq<Str>): (es: Entries)
    ensures |es| == |lines|
    ensures forall i :: 0 <= i < |lines| ==> es[i] == ParseLine(lines[i])
  {
    if lines == [] then [] else EntriesOf(lines[..|lines| - 1]) + [ParseLine(lines[|lines| - 1])]
  }

  function DisksOf(es: Entries): seq<Disk> {
    if es == [] then [] else DisksOf(es[..|es| - 1]) + DiskIn(es[|es| - 1])
  }

  datatype Report = Report(
    now: int, uptime: int, cpus: int, memTotal: int, memUsed: int, swapTotal: int, swapUsed: int,
    disks: seq<Disk>, users: int, reboot: bool)

  /** Kernels without MemAvailable report free memory, buffers and cache instead. */
  function MemUsed(total: int, avail: int, free: int, buffers: int, cached: int): int {
    if total > 0 then Wrap64(total - if avail == 0 then Wrap64(Wrap64(free + buffers) + cached) else avail) else 0
  }

  function SwapUsed(total: int, free: int): int {
    if total > 0 then Wrap64(total - free) else 0
  }

  predicate Counts(key: Key) {
    key in {Now, UptimeS, Cpus, Users}
  }

  predicate Sizes(key: Key) {
    key in {MemTotal, MemAvail, MemFree, MemBuffers, MemCached, SwapTotal, SwapFree}
  }

  /** What a value of that key means; sizes are printed in kB and the flag as 0 or 1. */
  function Meaning(key: Key, v: Str): int {
    if Counts(key) then Atoi64(v)
    else if Sizes(key) then Kilobytes(v)
    else if key == Reboot && v == "1" then 1
    else 0
  }

  /** The scalar accumulators of `parseOverview`, all 0 at first. */
  type Sums = map<Key, int>

  function Sum(sums: Sums, key: Key): int {
    if key in sums then sums[key] else 0
  }

  predicate Scalar(key: Key) {
    key != OneDisk && key != Other
  }

  /** A later line with the same key overwrites an earlier one. */
  function AddEntry(sums: Sums, e: Option<Entry>): Sums {
    if e.Some? && Scalar(e.value.key) then sums[e.value.key := Meaning(e.value.key, e.value.value)] else sums
  }

  function SumsOf(es: Entries): Sums {
    if es == [] then map[] else AddEntry(SumsOf(es[..|es| - 1]), es[|es| - 1])
  }

  function Finish(sums: Sums, disks: seq<Disk>): Report {
    var total, swap := Sum(sums, MemTotal), Sum(sums, SwapTotal);
    Report(
      Sum(sums, Now), Sum(sums, UptimeS), Sum(sums, Cpus), total,
      MemUsed(total, Sum(sums, MemAvail), Sum(sums, MemFree), Sum(sums, MemBuffers), Sum(sums, MemCached)),
      swap, SwapUsed(swap, Sum(sums, SwapFree)), disks, Sum(sums, Users), Sum(sums, Reboot) == 1)
  }

  function ReportOf(es: Entries): Report {
    Finish(SumsOf(es), DisksOf(es))
  }

  method ReadEntry(sums: Sums, disks: seq<Disk>, e: Option<Entry>) returns (newSums: Sums, newDisks: seq<Disk>)
    ensures newSums == AddEntry(sums, e) && newDisks == disks + DiskIn(e)
  {
    newSums, newDisks := sums, disks;
    if e.None? {
      return;
    }
    var key, v := e.value.key, e.value.value;
    if key == OneDisk {
      var d := ParseDisk(v);
      if d.Some? {
        newDisks := disks + [d.value];
      }
    } else if key != Other {
      newSums := sums[key := Meaning(key, v)];
    }
  }

  method ReadEntries(es: Entries) returns (sums: Sums, disks: seq<Disk>)
    ensures sums == SumsOf(es) && disks == DisksOf(es)
  {
    sums, disks := map[], [];
    for n := 0 to |es|
      invariant sums == SumsOf(es[..n]) && disks == DisksOf(es[..n])
    {
      sums, disks := ReadEntry(sums, disks, es[n]);
      assert es[..n + 1][..n] == es[..n];
    }
    assert es[..|es|] == es;
  }

  method ParseOverview(out: Str) returns (o: Report)
    ensures o == ReportOf(EntriesOf(Split(out, '\n')))
  {
    var sums, disks := ReadEntries(EntriesOf(Split(out, '\n')));
    o := Derive(sums, disks);
  }

  method Derive(sums: Sums, disks: seq<Disk>) returns (o: Report)
    ensures o == Finish(sums, disks)
  {
    var total, swap := Sum(sums, MemTotal), Sum(sums, SwapTotal);
    var memUsed, swapUsed := 0, 0;
    if total > 0 {
      var avail := Sum(sums, MemAvail);
      if avail == 0 {
        avail := Wrap64(Wrap64(Sum(sums, MemFree) + Sum(sums, MemBuffers)) + Sum(sums, MemCached));
      }
      memUsed := Wrap64(total - avail);
    }
    if swap > 0 {
      swapUsed := Wrap64(swap - Sum(sums, SwapFree));
    }
    o := Report(Sum(sums, Now), Sum(sums, UptimeS), Sum(sums, Cpus), total, memUsed, swap, swapUsed,
                disks, Sum(sums, Users), Sum(sums, Reboot) == 1);
  }

  // ---- The order of the lines -----------------------------------------------

  predicate HasKey(e: Option<Entry>, key: Key) {
    e.Some? && e.value.key == key
  }

  /** No two different lines set the same scalar. */
  predicate DistinctKeys(es: Entries) {
    forall a <- es, b <- es :: a != b && a.Some? && Scalar(a.value.key) ==> !HasKey(b, a.value.key)
  }

  /** `e` is an entry that gives a key that value. */
  predicate Gives(e: Option<Entry>, key: Key, n: int) {
    HasKey(e, key) && n == Meaning(key, e.value.value)
  }

  lemma {:induction false} SumIsSomeLine(es: Entries, key: Key)
    ensures key in SumsOf(es) <==> Scalar(key) && exists e <- es :: HasKey(e, key)
    ensures key in SumsOf(es) ==> exists e <- es :: Gives(e, key, SumsOf(es)[key])
  {
    if es != [] {
      var n := |es| - 1;
      SumIsSomeLine(es[..n], key);
      assert es == es[..n] + [es[n]];
      assert forall e <- es[..n] :: e in es;
      assert es[n] in es;
      SumStep(SumsOf(es[..n]), es[n], key);
    }
  }

  lemma SumStep(sums: Sums, e: Option<Entry>, key: Key)
    ensures key in AddEntry(sums, e) <==> key in sums || (Scalar(key) && HasKey(e, key))
    ensures key in AddEntry(sums, e) ==>
              Gives(e, key, AddEntry(sums, e)[key]) || (key in sums && AddEntry(sums, e)[key] == sums[key])
  {
  }

  lemma SumOfLine(es: Entries, e: Option<Entry>, key: Key)
    requires DistinctKeys(es) && e in es && HasKey(e, key) && Scalar(key)
    ensures key in SumsOf(es) && Gives(e, key, SumsOf(es)[key])
  {
    SumIsSomeLine(es, key);
    var l :| l in es && Gives(l, key, SumsOf(es)[key]);
    assert l == e;
  }

  /** The scalars depend on which lines there are, not on their order. */
  lemma OrderOfLinesDoesNotMatter(a: Entries, b: Entries)
    requires DistinctKeys(a) && DisksOf(a) == DisksOf(b)
    requires forall e :: e in a <==> e in b
    ensures ReportOf(a) == ReportOf(b)
  {
    forall key ensures key in SumsOf(a) <==> key in SumsOf(b) {
      SumIsSomeLine(a, key);
      SumIsSomeLine(b, key);
    }
    forall key | key in SumsOf(a) ensures SumsOf(a)[key] == SumsOf(b)[key] {
      SumIsSomeLine(a, key);
      var e :| e in a && Gives(e, key, SumsOf(a)[key]);
      SumOfLine(b, e, key);
    }
    assert SumsOf(a) == SumsOf(b);
  }

  // ---- Percentages ----------------------------------------------------------

  lemma DivisionBounds(a: int, b: int)
    requires a >= 0 && b > 0
    ensures 0 <= a / b && a / b * b <= a < (a / b + 1) * b
  {
    assert a == a / b * b + a % b;
  }

  lemma DivisionApart(a: int, b: int, total: int)
    requires 0 <= a && total > 0 && a + total <= b
    ensures a / total < b / total
  {
    DivisionBounds(a, total);
    DivisionBounds(b, total);
    assert (a / total) * total + total <= b;
    assert (a / total + 1) * total < (b / total + 1) * total;
  }

  /** The percentage is the floor of the exact one if and only if the product fits 64 bits. */
  lemma PercentIsFloorIff(used: int, total: int)
    requires 0 <= used <= total && 0 < total <= MAX_INT64
    ensures Percent(used, total) == 100 * used / total <==> used * 100 <= MAX_INT64
  {
    WrappedIffTooLarge(used * 100, total);
  }

  lemma NegativeQuotient(a: int, total: int)
    requires a < 0 < total
    ensures Quotient(a, total) <= 0
  {
    DivisionBounds(-a, total);
  }

  lemma WrappedIffTooLarge(product: int, total: int)
    requires 0 <= product && 0 < total <= MAX_INT64
    ensures Quotient(Wrap64(product), total) == product / total <==> product <= MAX_INT64
  {
    if product > MAX_INT64 {
      DivisionBounds(product, total);
      if Wrap64(product) >= 0 {
        DivisionApart(Wrap64(product), product, total);
      } else {
        NegativeQuotient(Wrap64(product), total);
        DivisionApart(0, product, total);
      }
    }
  }

  /** And then it lies between 0 and 100. */
  lemma PercentInRange(used: int, total: int)
    requires 0 <= used <= total && total > 0 && used * 100 <= MAX_INT64
    ensures 0 <= Percent(used, total) <= 100
  {
    DivisionBounds(used * 100, total);
    assert used * 100 / total * total <= 100 * total;
  }
}
