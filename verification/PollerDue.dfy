/**
 Which machines a sweep checks, read off the table's columns and the checks made so
 far: neither earlier than allowed nor later than the next tick after it
 (internal/api/reach.go:59-140).
 */
module PollerDue {
  import opened Backoff
  import opened FleetModel
  import opened Poller
  import opened PollerSpacing

  const MINUTE: int := 60_000_000_000

  const QUARTER: int := 900_000_000_000

  /** An address, a user and a credential, and not a linked machine that is known to be stopped. */
  predicate WorthChecking(m: Machine) {
    && m.host != "" && m.user != "" && m.credential.Some?
    && !(m.instance != "" && m.account.Some? && m.power == "stopped")
  }

  /** How long a machine is left alone after such a history. */
  function Pause(h: seq<Check>): int
    requires h != []
  {
    if h[|h| - 1].ok then MINUTE else Min(MINUTE * Pow2(Failures(h)), QUARTER)
  }

  /** Never checked, or left alone for long enough. */
  predicate Rested(h: seq<Check>, now: int) {
    h == [] || h[|h| - 1].end + Pause(h) <= now
  }

  lemma PauseIsWait(h: seq<Check>)
    requires h != []
    ensures Pause(h) == WaitAfter(h)
  {
    if !h[|h| - 1].ok {
      DelayIsExactMinimum(Failures(h));
    }
  }

  /** While a machine stays listed, its entry is what its checks say. */
  lemma EntryIsHistory(ticks: seq<Tick>, t: Tick, row: Row)
    requires TicksOk(ticks + [t]) && NeverReused(ticks + [t])
    requires t.listing.Some? && row in t.listing.value
    ensures TicksOk(ticks)
    ensures var w := RunTicks(ticks);
            && (row.id in w.sched <==> History(w.log, row.id) != [])
            && (row.id in w.sched ==> Tracks(w.sched[row.id], History(w.log, row.id)))
  {
    var all, n := ticks + [t], |ticks|;
    assert all[..n] == ticks;
    PrefixNeverReused(ticks, t);
    RunKeeps(ticks, row.id);
    NotVanished(ticks, t, row);
  }

  lemma PrefixIsOk(ticks: seq<Tick>, t: Tick)
    requires TicksOk(ticks + [t])
    ensures TicksOk(ticks) && TickOk(t)
  {
    assert t in ticks + [t] && forall x <- ticks :: x in ticks + [t];
  }

  lemma PrefixNeverReused(ticks: seq<Tick>, t: Tick)
    requires TicksOk(ticks + [t]) && NeverReused(ticks + [t])
    ensures TicksOk(ticks) && NeverReused(ticks)
  {
    var all := ticks + [t];
    forall x | x in ticks ensures TickOk(x) {
      assert x in all;
    }
    forall i, j, k, x |
      0 <= i < j < k < |ticks| && Lists(ticks[i], x) && Lists(ticks[k], x) && ticks[j].listing.Some?
      ensures Lists(ticks[j], x)
    {
      assert all[i] == ticks[i] && all[j] == ticks[j] && all[k] == ticks[k];
    }
  }

  lemma NotVanished(ticks: seq<Tick>, t: Tick, row: Row)
    requires NeverReused(ticks + [t]) && t.listing.Some? && row in t.listing.value
    ensures !Vanished(ticks, row.id)
  {
    var all, n := ticks + [t], |ticks|;
    assert all[n] == t && Lists(all[n], row.id);
    forall i, j | 0 <= i < j < n && Lists(ticks[i], row.id) && ticks[j].listing.Some?
      ensures Lists(ticks[j], row.id)
    {
      assert all[i] == ticks[i] && all[j] == ticks[j];
    }
  }

  /** A listed row is due exactly when it is worth checking and rested. */
  lemma DueIff(ticks: seq<Tick>, t: Tick, row: Row)
    requires TicksOk(ticks + [t]) && NeverReused(ticks + [t])
    requires t.listing.Some? && row in t.listing.value
    ensures TicksOk(ticks)
    ensures var w := RunTicks(ticks);
            Due(w.sched, t.now, row) <==> WorthChecking(row.machine) && Rested(History(w.log, row.id), t.now)
  {
    EntryIsHistory(ticks, t, row);
    var h := History(RunTicks(ticks).log, row.id);
    if h != [] {
      PauseIsWait(h);
    }
  }

  /** The checks of one machine after one more tick. */
  lemma HistoryAfter(ticks: seq<Tick>, t: Tick, id: Id)
    requires TicksOk(ticks + [t])
    ensures TicksOk(ticks) && TickOk(t)
    ensures var w := RunTicks(ticks);
            History(RunTicks(ticks + [t]).log, id) == History(w.log, id) + History(Sweep(w.sched, t).1, id)
  {
    var all := ticks + [t];
    assert all[..|ticks|] == ticks && all[|ticks|] == t && t in all;
    assert forall x <- ticks :: x in all;
    HistoryConcat(RunTicks(ticks).log, Sweep(RunTicks(ticks).sched, t).1, id);
  }

  /**
   Over every run: a sweep makes exactly one check of a machine it lists, worth
   checking and rested, and none of any other; and it changes no earlier check.
   */
  lemma ChecksExactlyWhenDue(ticks: seq<Tick>, t: Tick, id: Id)
    requires TicksOk(ticks + [t]) && NeverReused(ticks + [t])
    ensures TicksOk(ticks)
    ensures var h := History(RunTicks(ticks).log, id);
            var g := History(RunTicks(ticks + [t]).log, id);
            && h <= g
            && |g| == |h| + if t.listing.Some? && exists row <- t.listing.value ::
                                 row.id == id && WorthChecking(row.machine) && Rested(h, t.now)
                            then 1 else 0
  {
    PrefixIsOk(ticks, t);
    var w := RunTicks(ticks);
    HistoryAfter(ticks, t, id);
    SweepChecksDueOnce(w.sched, t, id);
    if t.listing.Some? {
      forall row | row in t.listing.value && row.id == id
        ensures Due(w.sched, t.now, row) <==> WorthChecking(row.machine) && Rested(History(w.log, id), t.now)
      {
        DueIff(ticks, t, row);
      }
    }
  }

  /** Whatever a due check comes back with is on record with that machine. */
  lemma CheckIsItsOutcome(ticks: seq<Tick>, t: Tick, k: nat)
    requires TicksOk(ticks + [t]) && NeverReused(ticks + [t])
    requires t.listing.Some? && k < |t.listing.value|
    ensures TicksOk(ticks) && |t.listing.value| <= |t.outcomes|
    ensures var row, out := t.listing.value[k], t.outcomes[k];
            var h := History(RunTicks(ticks).log, row.id);
            WorthChecking(row.machine) && Rested(h, t.now) ==>
              History(RunTicks(ticks + [t]).log, row.id) == h + [Check(row.id, out.start, out.end, out.ok)]
  {
    PrefixIsOk(ticks, t);
    var w := RunTicks(ticks);
    var row := t.listing.value[k];
    HistoryAfter(ticks, t, row.id);
    DueIff(ticks, t, row);
    DueCheckedOnce(w.sched, t.now, t.listing.value, t.outcomes, k);
  }
}
