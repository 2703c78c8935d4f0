/** What the poller guarantees over every run of sweeps. */
module PollerSpacing {
  import opened Backoff
  import opened FleetModel
  import opened Poller

  // ---- The checks of one machine --------------------------------------------

  function History(log: seq<Check>, id: Id): (h: seq<Check>) {
    if log == [] then []
    else
      var n := |log| - 1;
      History(log[..n], id) + if log[n].id == id then [log[n]] else []
  }

  /** How many of the last checks failed in a row. */
  function Failures(h: seq<Check>): nat {
    if h == [] || h[|h| - 1].ok then 0 else 1 + Failures(h[..|h| - 1])
  }

  /** How long to leave a machine alone after such a history. */
  function WaitAfter(h: seq<Check>): int
    requires h != []
  {
    if h[|h| - 1].ok then HEALTHY else Delay(Failures(h))
  }

  predicate Spaced(h: seq<Check>) {
    forall k :: 0 < k < |h| ==> h[k].start >= h[k - 1].end + WaitAfter(h[..k])
  }

  /** The entry says what the history says. */
  predicate Tracks(sc: Sched, h: seq<Check>) {
    h != [] && sc == Sched(h[|h| - 1].end + WaitAfter(h), Failures(h))
  }

  lemma HistorySnoc(log: seq<Check>, c: Check, id: Id)
    ensures History(log + [c], id) == History(log, id) + if c.id == id then [c] else []
  {
    assert (log + [c])[..|log|] == log;
  }

  // ---- One row --------------------------------------------------------------

  /** A schedule agrees with the log about one machine, whose checks were spaced. */
  predicate Sound(sched: Schedule, h: seq<Check>, id: Id) {
    Spaced(h) && (id in sched ==> Tracks(sched[id], h))
  }

  lemma CheckExtends(h: seq<Check>, sc: Sched, c: Check)
    requires Spaced(h) && sc.next <= c.start
    requires if h == [] then sc.fails == 0 else Tracks(sc, h)
    ensures Spaced(h + [c]) && Tracks(Rescheduled(sc, c.end, c.ok), h + [c])
  {
    var g := h + [c];
    assert g[..|h|] == h;
    forall k | 0 < k < |g| ensures g[k].start >= g[k - 1].end + WaitAfter(g[..k]) {
      assert k < |h| ==> g[..k] == h[..k];
    }
  }

  lemma VisitKeeps(sched: Schedule, h: seq<Check>, now: int, row: Row, out: Outcome)
    requires Sound(sched, h, row.id) && now <= out.start
    requires row.id in sched || h == []
    ensures Sound(Visit(sched, now, row, out), h + ChecksOf(sched, now, row, out), row.id)
  {
    if Due(sched, now, row) {
      CheckExtends(h, Entry(sched, now, row.id), Check(row.id, out.start, out.end, out.ok));
    } else {
      assert h + [] == h;
    }
  }

  // ---- One sweep ------------------------------------------------------------

  /** A row touches nobody else's entry or history. */
  lemma {:induction false} VisitAllOthers(sched: Schedule, now: int, rows: seq<Row>, outs: seq<Outcome>, id: Id)
    requires |rows| <= |outs| && id !in Listed(rows)
    ensures var (s, checks) := VisitAll(sched, now, rows, outs);
            && (id in s <==> id in sched)
            && (id in sched ==> s[id] == sched[id])
            && History(checks, id) == []
  {
    if rows != [] {
      var n := |rows| - 1;
      assert rows[n].id != id;
      assert forall r <- rows[..n] :: r in rows;
      VisitAllOthers(sched, now, rows[..n], outs, id);
      var (s, checks) := VisitAll(sched, now, rows[..n], outs);
      if Due(s, now, rows[n]) {
        HistorySnoc(checks, ChecksOf(s, now, rows[n], outs[n])[0], id);
      } else {
        assert checks + [] == checks;
      }
    }
  }

  lemma {:induction false} HistoryConcat(a: seq<Check>, b: seq<Check>, id: Id)
    ensures History(a + b, id) == History(a, id) + History(b, id)
  {
    if b == [] {
      assert a + b == a;
    } else {
      var init, last := b[..|b| - 1], b[|b| - 1];
      HistoryConcat(a, init, id);
      HistoryOneMore(a, init, last, id);
      assert init + [last] == b;
    }
  }

  lemma HistoryOneMore(a: seq<Check>, b: seq<Check>, c: Check, id: Id)
    requires History(a + b, id) == History(a, id) + History(b, id)
    ensures History(a + (b + [c]), id) == History(a, id) + History(b + [c], id)
  {
    assert a + (b + [c]) == (a + b) + [c];
    HistorySnoc(a + b, c, id);
    HistorySnoc(b, c, id);
  }

  predicate DistinctIds(rows: seq<Row>) {
    forall i, j :: 0 <= i < j < |rows| ==> rows[i].id != rows[j].id
  }

  lemma LastIsNew(rows: seq<Row>)
    requires rows != [] && DistinctIds(rows)
    ensures rows[|rows| - 1].id !in Listed(rows[..|rows| - 1]) && DistinctIds(rows[..|rows| - 1])
  {
  }

  predicate SameEntry(s: Schedule, t: Schedule, id: Id) {
    (id in s <==> id in t) && (id in s ==> s[id] == t[id])
  }

  /** What a sweep does to one row's machine: the checks it makes of it and the entry it leaves. */
  predicate VisitedOnce(sched: Schedule, now: int, row: Row, out: Outcome, s: Schedule, checks: seq<Check>) {
    && History(checks, row.id) == ChecksOf(sched, now, row, out)
    && SameEntry(s, Visit(sched, now, row, out), row.id)
  }

  lemma OneCheckHistory(s: Schedule, now: int, row: Row, out: Outcome, id: Id)
    ensures History(ChecksOf(s, now, row, out), id) == if row.id == id then ChecksOf(s, now, row, out) else []
  {
    if Due(s, now, row) {
      var c := ChecksOf(s, now, row, out)[0];
      HistorySnoc([], c, id);
      assert [] + [c] == [c];
    }
  }

  /** A later visit to another machine. */
  lemma OtherVisited(s: Schedule, checks: seq<Check>, now: int, row: Row, out: Outcome, id: Id)
    requires row.id != id
    ensures History(checks + ChecksOf(s, now, row, out), id) == History(checks, id)
    ensures SameEntry(Visit(s, now, row, out), s, id)
  {
    HistoryConcat(checks, ChecksOf(s, now, row, out), id);
    OneCheckHistory(s, now, row, out, id);
    assert History(checks, id) + [] == History(checks, id);
  }

  /** The visit to the machine itself, untouched so far. */
  lemma OwnVisited(sched: Schedule, s: Schedule, checks: seq<Check>, now: int, row: Row, out: Outcome)
    requires History(checks, row.id) == [] && SameEntry(s, sched, row.id)
    ensures VisitedOnce(sched, now, row, out, Visit(s, now, row, out), checks + ChecksOf(s, now, row, out))
  {
    HistoryConcat(checks, ChecksOf(s, now, row, out), row.id);
    OneCheckHistory(s, now, row, out, row.id);
    var own := ChecksOf(s, now, row, out);
    assert [] + own == own == ChecksOf(sched, now, row, out);
  }

  lemma VisitAllLast(sched: Schedule, now: int, rows: seq<Row>, outs: seq<Outcome>)
    requires rows != [] && |rows| <= |outs|
    ensures var n := |rows| - 1;
            var before := VisitAll(sched, now, rows[..n], outs);
            VisitAll(sched, now, rows, outs)
            == (Visit(before.0, now, rows[n], outs[n]), before.1 + ChecksOf(before.0, now, rows[n], outs[n]))
  {
  }

  lemma EarlierIsOther(rows: seq<Row>, i: nat)
    requires DistinctIds(rows) && i < |rows| - 1
    ensures rows[..|rows| - 1][i] == rows[i] && rows[|rows| - 1].id != rows[i].id
  {
  }

  /** The last row visits another machine than an earlier one. */
  lemma EarlierVisited(sched: Schedule, now: int, rows: seq<Row>, outs: seq<Outcome>, i: nat)
    requires |rows| <= |outs| && DistinctIds(rows) && i < |rows| - 1
    requires var before := VisitAll(sched, now, rows[..|rows| - 1], outs);
             VisitedOnce(sched, now, rows[i], outs[i], before.0, before.1)
    ensures var swept := VisitAll(sched, now, rows, outs);
            VisitedOnce(sched, now, rows[i], outs[i], swept.0, swept.1)
  {
    var n := |rows| - 1;
    var before := VisitAll(sched, now, rows[..n], outs);
    EarlierIsOther(rows, i);
    VisitAllLast(sched, now, rows, outs);
    StillVisitedOnce(sched, now, rows[i], outs[i], before.0, before.1, rows[n], outs[n]);
  }

  lemma LastVisited(sched: Schedule, now: int, rows: seq<Row>, outs: seq<Outcome>)
    requires rows != [] && |rows| <= |outs| && DistinctIds(rows)
    ensures var n := |rows| - 1;
            var swept := VisitAll(sched, now, rows, outs);
            VisitedOnce(sched, now, rows[n], outs[n], swept.0, swept.1)
  {
    var n := |rows| - 1;
    var before := VisitAll(sched, now, rows[..n], outs);
    LastIsNew(rows);
    VisitAllLast(sched, now, rows, outs);
    VisitAllOthers(sched, now, rows[..n], outs, rows[n].id);
    OwnVisited(sched, before.0, before.1, now, rows[n], outs[n]);
  }

  /** Each machine that is due when the sweep begins is checked once, and no other is. */
  lemma {:induction false} DueCheckedOnce(sched: Schedule, now: int, rows: seq<Row>, outs: seq<Outcome>, i: nat)
    requires |rows| <= |outs| && DistinctIds(rows) && i < |rows|
    ensures var swept := VisitAll(sched, now, rows, outs);
            VisitedOnce(sched, now, rows[i], outs[i], swept.0, swept.1)
  {
    var n := |rows| - 1;
    if i < n {
      LastIsNew(rows);
      EarlierIsOther(rows, i);
      DueCheckedOnce(sched, now, rows[..n], outs, i);
      EarlierVisited(sched, now, rows, outs, i);
    } else {
      LastVisited(sched, now, rows, outs);
    }
  }

  lemma StillVisitedOnce(
    sched: Schedule, now: int, row: Row, out: Outcome, s: Schedule, checks: seq<Check>, last: Row, lastOut: Outcome)
    requires VisitedOnce(sched, now, row, out, s, checks) && last.id != row.id
    ensures VisitedOnce(sched, now, row, out, Visit(s, now, last, lastOut), checks + ChecksOf(s, now, last, lastOut))
  {
    OtherVisited(s, checks, now, last, lastOut, row.id);
  }

  lemma SweepKeeps(sched: Schedule, log: seq<Check>, t: Tick, id: Id)
    requires TickOk(t) && Sound(sched, History(log, id), id)
    requires t.listing.Some? && id in Listed(t.listing.value) ==> id in sched || History(log, id) == []
    ensures var (s, checks) := Sweep(sched, t); Sound(s, History(log + checks, id), id)
  {
    if t.listing.None? {
      assert log + [] == log;
    } else {
      var rows := t.listing.value;
      HistoryConcat(log, VisitAll(sched, t.now, rows, t.outcomes).1, id);
      if id in Listed(rows) {
        var i :| 0 <= i < |rows| && rows[i].id == id;
        DueCheckedOnce(sched, t.now, rows, t.outcomes, i);
        assert t.outcomes[i] in t.outcomes;
        VisitKeeps(sched, History(log, id), t.now, rows[i], t.outcomes[i]);
      } else {
        VisitAllOthers(sched, t.now, rows, t.outcomes, id);
        assert History(log, id) + [] == History(log, id);
      }
    }
  }

  /** A sweep leaves entries only for machines it listed. */
  lemma OnlyListedStay(sched: Schedule, t: Tick)
    requires TickOk(t) && t.listing.Some?
    ensures Sweep(sched, t).0.Keys <= Listed(t.listing.value)
  {
  }

  /** A sweep checks exactly the machines that are due, once each. */
  lemma SweepChecksDueOnce(sched: Schedule, t: Tick, id: Id)
    requires TickOk(t)
    ensures |History(Sweep(sched, t).1, id)| <= 1
    ensures |History(Sweep(sched, t).1, id)| == 1 <==>
              t.listing.Some? && exists row <- t.listing.value :: row.id == id && Due(sched, t.now, row)
  {
    if t.listing.Some? {
      var rows := t.listing.value;
      if id in Listed(rows) {
        var i :| 0 <= i < |rows| && rows[i].id == id;
        DueCheckedOnce(sched, t.now, rows, t.outcomes, i);
        OnlyRow(sched, t.now, rows, i);
      } else {
        VisitAllOthers(sched, t.now, rows, t.outcomes, id);
      }
    }
  }

  lemma OnlyRow(sched: Schedule, now: int, rows: seq<Row>, i: nat)
    requires DistinctIds(rows) && i < |rows|
    ensures (exists row <- rows :: row.id == rows[i].id && Due(sched, now, row)) <==> Due(sched, now, rows[i])
  {
    forall row | row in rows && row.id == rows[i].id ensures row == rows[i] {
      var j :| 0 <= j < |rows| && rows[j] == row;
      assert !(i < j) && !(j < i);
    }
    assert rows[i] in rows;
  }

  /** The same check: row i of one order is row j of the other. */
  predicate SameCheck(rows: seq<Row>, outs: seq<Outcome>, i: nat, rows2: seq<Row>, outs2: seq<Outcome>, j: nat) {
    i < |rows| <= |outs| && j < |rows2| <= |outs2| && rows2[j] == rows[i] && outs2[j] == outs[i]
  }

  ghost predicate HasTwin(rows: seq<Row>, outs: seq<Outcome>, i: nat, rows2: seq<Row>, outs2: seq<Outcome>) {
    exists j: nat :: SameCheck(rows, outs, i, rows2, outs2, j)
  }

  /** The same rows with the same outcomes, in whatever order the checks came back. */
  ghost predicate SameChecks(rows: seq<Row>, outs: seq<Outcome>, rows2: seq<Row>, outs2: seq<Outcome>) {
    && (forall i: nat :: i < |rows| ==> HasTwin(rows, outs, i, rows2, outs2))
    && Listed(rows) == Listed(rows2)
  }

  lemma EntryAgrees(
    sched: Schedule, now: int, rows: seq<Row>, outs: seq<Outcome>, i: nat, rows2: seq<Row>, outs2: seq<Outcome>, j: nat)
    requires SameCheck(rows, outs, i, rows2, outs2, j) && DistinctIds(rows) && DistinctIds(rows2)
    ensures SameEntry(VisitAll(sched, now, rows, outs).0, VisitAll(sched, now, rows2, outs2).0, rows[i].id)
  {
    DueCheckedOnce(sched, now, rows, outs, i);
    DueCheckedOnce(sched, now, rows2, outs2, j);
  }

  lemma EntryIgnoresOrder(
    sched: Schedule, now: int, rows: seq<Row>, outs: seq<Outcome>, rows2: seq<Row>, outs2: seq<Outcome>, id: Id)
    requires |rows| <= |outs| && |rows2| <= |outs2| && DistinctIds(rows) && DistinctIds(rows2)
    requires SameChecks(rows, outs, rows2, outs2)
    ensures SameEntry(VisitAll(sched, now, rows, outs).0, VisitAll(sched, now, rows2, outs2).0, id)
  {
    if id in Listed(rows) {
      var i: nat :| i < |rows| && rows[i].id == id;
      assert HasTwin(rows, outs, i, rows2, outs2);
      var j: nat :| SameCheck(rows, outs, i, rows2, outs2, j);
      EntryAgrees(sched, now, rows, outs, i, rows2, outs2, j);
    } else {
      VisitAllOthers(sched, now, rows, outs, id);
      VisitAllOthers(sched, now, rows2, outs2, id);
    }
  }

  lemma SameSchedule(s: Schedule, t: Schedule)
    requires forall id :: SameEntry(s, t, id)
    ensures s == t
  {
    forall id ensures id in s <==> id in t {
      assert SameEntry(s, t, id);
    }
    forall id | id in s ensures s[id] == t[id] {
      assert SameEntry(s, t, id);
    }
  }

  /** The checks of a sweep may come back in any order: the schedule is the one of the listing's order. */
  lemma ScheduleIgnoresOrder(
    sched: Schedule, now: int, rows: seq<Row>, outs: seq<Outcome>, rows2: seq<Row>, outs2: seq<Outcome>)
    requires |rows| <= |outs| && |rows2| <= |outs2| && DistinctIds(rows) && DistinctIds(rows2)
    requires SameChecks(rows, outs, rows2, outs2)
    ensures VisitAll(sched, now, rows, outs).0 == VisitAll(sched, now, rows2, outs2).0
  {
    var s, t := VisitAll(sched, now, rows, outs).0, VisitAll(sched, now, rows2, outs2).0;
    forall id ensures SameEntry(s, t, id) {
      EntryIgnoresOrder(sched, now, rows, outs, rows2, outs2, id);
    }
    SameSchedule(s, t);
  }

  // ---- Every run ------------------------------------------------------------

  predicate Lists(t: Tick, id: Id) {
    t.listing.Some? && id in Listed(t.listing.value)
  }

  /** Machine ids are never reused: once a listing lacks one, no later listing has it. */
  ghost predicate NeverReused(ticks: seq<Tick>) {
    forall i, j, k, id ::
      0 <= i < j < k < |ticks| && Lists(ticks[i], id) && Lists(ticks[k], id) && ticks[j].listing.Some?
      ==> Lists(ticks[j], id)
  }

  ghost predicate WasListed(ticks: seq<Tick>, id: Id) {
    exists i :: 0 <= i < |ticks| && Lists(ticks[i], id)
  }

  /** Listed once, and later not. */
  ghost predicate Vanished(ticks: seq<Tick>, id: Id) {
    exists i, j :: 0 <= i < j < |ticks| && Lists(ticks[i], id) && ticks[j].listing.Some? && !Lists(ticks[j], id)
  }

  /** A machine with a history has an entry, or has disappeared from a listing. */
  ghost predicate EntryOrGone(ticks: seq<Tick>, sched: Schedule, h: seq<Check>, id: Id) {
    h != [] ==> WasListed(ticks, id) && (id in sched || Vanished(ticks, id))
  }

  lemma ListedSnoc(ticks: seq<Tick>, t: Tick, id: Id)
    ensures WasListed(ticks, id) || Lists(t, id) ==> WasListed(ticks + [t], id)
    ensures Vanished(ticks, id) || (WasListed(ticks, id) && t.listing.Some? && !Lists(t, id)) ==>
              Vanished(ticks + [t], id)
  {
    var all := ticks + [t];
    assert all[|ticks|] == t;
    if WasListed(ticks, id) {
      var i :| 0 <= i < |ticks| && Lists(ticks[i], id);
      assert Lists(all[i], id);
    }
    if Vanished(ticks, id) {
      var i, j :| 0 <= i < j < |ticks| && Lists(ticks[i], id) && ticks[j].listing.Some? && !Lists(ticks[j], id);
      assert Lists(all[i], id) && !Lists(all[j], id);
    }
  }

  lemma SweepEntries(ticks: seq<Tick>, sched: Schedule, log: seq<Check>, t: Tick, id: Id)
    requires TickOk(t) && EntryOrGone(ticks, sched, History(log, id), id)
    ensures var (s, checks) := Sweep(sched, t); EntryOrGone(ticks + [t], s, History(log + checks, id), id)
  {
    ListedSnoc(ticks, t, id);
    if t.listing.None? {
      assert log + [] == log;
    } else {
      var rows := t.listing.value;
      HistoryConcat(log, VisitAll(sched, t.now, rows, t.outcomes).1, id);
      if id in Listed(rows) {
        var i :| 0 <= i < |rows| && rows[i].id == id;
        DueCheckedOnce(sched, t.now, rows, t.outcomes, i);
      } else {
        VisitAllOthers(sched, t.now, rows, t.outcomes, id);
      }
    }
  }

  lemma {:induction false} RunKeeps(ticks: seq<Tick>, id: Id)
    requires TicksOk(ticks) && NeverReused(ticks)
    ensures var w := RunTicks(ticks);
            && Sound(w.sched, History(w.log, id), id)
            && EntryOrGone(ticks, w.sched, History(w.log, id), id)
  {
    if ticks != [] {
      var n := |ticks| - 1;
      var prefix, t := ticks[..n], ticks[n];
      assert ticks == prefix + [t];
      assert NeverReused(prefix) by {
        forall i, j, k, x | 0 <= i < j < k < n && Lists(prefix[i], x) && Lists(prefix[k], x) && prefix[j].listing.Some?
          ensures Lists(prefix[j], x)
        {
          assert Lists(ticks[i], x) && Lists(ticks[k], x) && ticks[j] == prefix[j];
        }
      }
      RunKeeps(prefix, id);
      var w := RunTicks(prefix);
      assert !(Lists(t, id) && Vanished(prefix, id)) by {
        forall i, j | 0 <= i < j < n && Lists(prefix[i], id) && prefix[j].listing.Some? && Lists(ticks[n], id)
          ensures Lists(prefix[j], id)
        {
          assert Lists(ticks[i], id) && ticks[j] == prefix[j];
        }
      }
      SweepKeeps(w.sched, w.log, t, id);
      SweepEntries(prefix, w.sched, w.log, t, id);
    }
  }

  /**
   Spacing: over every run, a machine is left alone for a minute after a check
   that succeeded, and after f failures in a row for min(60 s * 2^f, 15 min).
   */
  lemma ChecksAreSpaced(ticks: seq<Tick>, id: Id, k: nat)
    requires TicksOk(ticks) && NeverReused(ticks)
    ensures var h := History(RunTicks(ticks).log, id);
            0 < k < |h| ==>
              && (h[k - 1].ok ==> h[k].start >= h[k - 1].end + HEALTHY)
              && (!h[k - 1].ok ==> h[k].start >= h[k - 1].end + Min(HEALTHY * Pow2(Failures(h[..k])), CAP))
  {
    RunKeeps(ticks, id);
    var h := History(RunTicks(ticks).log, id);
    if 0 < k < |h| {
      DelayIsExactMinimum(Failures(h[..k]));
      assert h[..k][k - 1] == h[k - 1];
    }
  }

  /** The schedule is a function of the checks made: it says when the last wait ends and why. */
  lemma ScheduleFollowsHistory(ticks: seq<Tick>, id: Id)
    requires TicksOk(ticks) && NeverReused(ticks)
    ensures var w := RunTicks(ticks);
            id in w.sched ==> Tracks(w.sched[id], History(w.log, id))
  {
    RunKeeps(ticks, id);
  }
}
