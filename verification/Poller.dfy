/**
 The reachability poller (internal/api/reach.go:37-140): which machines a sweep
 checks, and how far apart the checks of one machine are over any run of sweeps.
 */
module Poller {
  import opened Base
  import opened Backoff
  import opened FleetModel

  /** `reachSched`. Times are nanoseconds on the clock the source compares. */
  datatype Sched = Sched(next: int, fails: nat)

  type Schedule = map<Id, Sched>

  /** One check: when it began, when it rescheduled itself, and how it went. */
  datatype Check = Check(id: Id, start: int, end: int, ok: bool)

  datatype Outcome = Outcome(start: int, end: int, ok: bool)

  datatype Row = Row(id: Id, machine: Machine)

  /** What one tick finds: the table (None if listing failed) and how each check would go. */
  datatype Tick = Tick(now: int, listing: Option<seq<Row>>, outcomes: seq<Outcome>)

  const STOPPED := "stopped"

  /** Has an address to dial, and is not known to be off. */
  predicate Checkable(m: Machine) {
    m.HasHost() && !(m.HasCloud() && m.power == STOPPED)
  }

  predicate Due(sched: Schedule, now: int, row: Row) {
    Checkable(row.machine) && (row.id in sched ==> sched[row.id].next <= now)
  }

  /** `scheduleNext`. */
  function Rescheduled(sc: Sched, end: int, ok: bool): Sched {
    if ok then Sched(end + HEALTHY, 0) else Sched(end + Delay(sc.fails + 1), sc.fails + 1)
  }

  function Entry(sched: Schedule, now: int, id: Id): Sched {
    if id in sched then sched[id] else Sched(now, 0)
  }

  /** One row of the sweep. */
  function Visit(sched: Schedule, now: int, row: Row, out: Outcome): Schedule {
    if Due(sched, now, row) then sched[row.id := Rescheduled(Entry(sched, now, row.id), out.end, out.ok)] else sched
  }

  function ChecksOf(sched: Schedule, now: int, row: Row, out: Outcome): seq<Check> {
    if Due(sched, now, row) then [Check(row.id, out.start, out.end, out.ok)] else []
  }

  /** The schedule after the first rows, and the checks they made. */
  function VisitAll(sched: Schedule, now: int, rows: seq<Row>, outs: seq<Outcome>): (r: (Schedule, seq<Check>))
    requires |rows| <= |outs|
  {
    if rows == [] then (sched, [])
    else
      var n := |rows| - 1;
      var (s, checks) := VisitAll(sched, now, rows[..n], outs);
      (Visit(s, now, rows[n], outs[n]), checks + ChecksOf(s, now, rows[n], outs[n]))
  }

  function Listed(rows: seq<Row>): set<Id> {
    set r | r in rows :: r.id
  }

  /** Forgets what is no longer listed. */
  function Pruned(sched: Schedule, seen: set<Id>): Schedule {
    map id | id in sched && id in seen :: sched[id]
  }

  /** What the environment guarantees of a tick: distinct ids, and time runs forwards. */
  predicate TickOk(t: Tick) {
    t.listing.Some? ==>
      var rows := t.listing.value;
      && |rows| <= |t.outcomes|
      && (forall i, j :: 0 <= i < j < |rows| ==> rows[i].id != rows[j].id)
      && (forall o <- t.outcomes :: t.now <= o.start <= o.end)
  }

  function Sweep(sched: Schedule, t: Tick): (Schedule, seq<Check>)
    requires TickOk(t)
  {
    if t.listing.None? then (sched, [])
    else
      var (s, checks) := VisitAll(sched, t.now, t.listing.value, t.outcomes);
      (Pruned(s, Listed(t.listing.value)), checks)
  }

  datatype World = World(sched: Schedule, log: seq<Check>)

  predicate TicksOk(ticks: seq<Tick>) {
    forall t <- ticks :: TickOk(t)
  }

  function RunTicks(ticks: seq<Tick>): World
    requires TicksOk(ticks)
  {
    if ticks == [] then World(map[], [])
    else
      var w := RunTicks(ticks[..|ticks| - 1]);
      var (s, checks) := Sweep(w.sched, ticks[|ticks| - 1]);
      World(s, w.log + checks)
  }

  class ReachPoller {
    var sched: Schedule
    /** Every check made so far. */
    ghost var log: seq<Check>

    constructor ()
      ensures sched == map[] && log == []
    {
      sched, log := map[], [];
    }

    method ScheduleNext(id: Id, end: int, ok: bool)
      requires id in sched
      modifies this`sched
      ensures sched == old(sched)[id := Rescheduled(old(sched)[id], end, ok)]
    {
      var sc := sched[id];
      if ok {
        sched := sched[id := Sched(end + HEALTHY, 0)];
        return;
      }
      var fails := sc.fails + 1;
      var d := ShiftLeft(HEALTHY, fails);
      if d > CAP || d <= 0 {
        d := CAP;
      }
      sched := sched[id := Sched(end + d, fails)];
    }

    method VisitRow(m: Row, now: int, out: Outcome)
      modifies this
      ensures sched == Visit(old(sched), now, m, out)
      ensures log == old(log) + ChecksOf(old(sched), now, m, out)
    {
      if !Checkable(m.machine) {
        return;
      }
      if m.id !in sched {
        // A host seen for the first time is checked at once.
        sched := sched[m.id := Sched(now, 0)];
      }
      if now < sched[m.id].next {
        return;
      }
      ScheduleNext(m.id, out.end, out.ok);
      log := log + [Check(m.id, out.start, out.end, out.ok)];
    }

    method ReachSweep(t: Tick)
      requires TickOk(t)
      modifies this
      ensures sched == Sweep(old(sched), t).0
      ensures log == old(log) + Sweep(old(sched), t).1
    {
      if t.listing.None? {
        return;
      }
      var rows, now := t.listing.value, t.now;
      var seen := {};
      assert rows[..0] == [];
      for n := 0 to |rows|
        invariant seen == Listed(rows[..n])
        invariant sched == VisitAll(old(sched), now, rows[..n], t.outcomes).0
        invariant log == old(log) + VisitAll(old(sched), now, rows[..n], t.outcomes).1
      {
        assert rows[..n + 1][..n] == rows[..n];
        assert Listed(rows[..n + 1]) == Listed(rows[..n]) + {rows[n].id};
        seen := seen + {rows[n].id};
        VisitRow(rows[n], now, t.outcomes[n]);
      }
      assert rows[..|rows|] == rows;
      sched := map id | id in sched && id in seen :: sched[id];
    }

    /** The loop of `StartReachPoller`. */
    method Poll(ticks: seq<Tick>)
      requires TicksOk(ticks) && sched == map[] && log == []
      modifies this
      ensures World(sched, log) == RunTicks(ticks)
    {
      for n := 0 to |ticks|
        invariant World(sched, log) == RunTicks(ticks[..n])
      {
        assert ticks[..n + 1][..n] == ticks[..n];
        ReachSweep(ticks[n]);
      }
      assert ticks[..|ticks|] == ticks;
    }
  }
}
