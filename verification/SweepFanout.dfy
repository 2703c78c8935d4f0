/**
 A sweep as its goroutines run it: the due checks behind the semaphore, each
 rescheduling its own machine when it comes back (internal/api/reach.go:64-140).
 */
module SweepFanout {
  import opened Base
  import opened FleetModel
  import opened Poller
  import opened PollerSpacing
  import Fanout

  const REACH_FANOUT: nat := 4

  type Fan = Fanout.Fan<Row, Outcome>
  type Moves = seq<Fanout.Move<Outcome>>

  /** The rows a goroutine is started for. */
  function DueRows(sched: Schedule, now: int, rows: seq<Row>): (due: seq<Row>)
    ensures forall r :: r in due <==> r in rows && Due(sched, now, r)
  {
    if rows == [] then []
    else
      var n := |rows| - 1;
      DueRows(sched, now, rows[..n]) + if Due(sched, now, rows[n]) then [rows[n]] else []
  }

  /** A machine seen for the first time gets its entry before its goroutine starts. */
  function Seeded(sched: Schedule, now: int, due: seq<Row>): (s: Schedule)
    ensures forall id :: id in sched ==> id in s && s[id] == sched[id]
    ensures forall r <- due :: r.id in s && s[r.id] == Entry(sched, now, r.id)
    ensures forall id :: id in s && id !in sched ==> id in Listed(due)
  {
    map id | id in sched.Keys + Listed(due) :: Entry(sched, now, id)
  }

  function Goroutines(due: seq<Row>, moves: Moves): Fan {
    Fanout.Run(Fanout.Start<Row, Outcome>(due), moves, REACH_FANOUT)
  }

  /** A goroutine whose check has returned reschedules its machine. */
  function Reported(s: Schedule, f: Fan, m: Fanout.Move<Outcome>): Schedule {
    if Fanout.Enabled(f, m.thread, REACH_FANOUT) && f.threads[m.thread].Returned?
       && f.threads[m.thread].target.id in s then
      var pc := f.threads[m.thread];
      s[pc.target.id := Rescheduled(s[pc.target.id], pc.reply.end, pc.reply.ok)]
    else s
  }

  /** The schedule after the given moves of the goroutines. */
  function Scheduled(s: Schedule, due: seq<Row>, moves: Moves): Schedule {
    if moves == [] then s
    else
      var n := |moves| - 1;
      Reported(Scheduled(s, due, moves[..n]), Goroutines(due, moves[..n]), moves[n])
  }

  // ---- Each goroutine keeps to its own entry ----------------------------------

  /** Where goroutine `pc` has put its machine's entry. */
  predicate EntryOf(s0: Schedule, s: Schedule, pc: Fanout.Pc<Row, Outcome>) {
    var id := pc.target.id;
    && id in s0 && id in s
    && s[id] == if Fanout.HasStored(pc) then Rescheduled(s0[id], pc.reply.end, pc.reply.ok) else s0[id]
  }

  /** All entries are where their goroutines put them, and the others where they were. */
  ghost predicate Progress(s0: Schedule, s: Schedule, due: seq<Row>, f: Fan) {
    && |f.threads| == |due|
    && (forall i :: 0 <= i < |due| ==> f.threads[i].target == due[i] && EntryOf(s0, s, f.threads[i]))
    && (forall id :: id !in Listed(due) ==> SameEntry(s0, s, id))
  }

  lemma {:induction false} ProgressKept(s0: Schedule, due: seq<Row>, moves: Moves)
    requires DistinctIds(due) && forall r <- due :: r.id in s0
    ensures Progress(s0, Scheduled(s0, due, moves), due, Goroutines(due, moves))
  {
    Fanout.StartInv<Row, Outcome>(due, REACH_FANOUT);
    if moves != [] {
      var n := |moves| - 1;
      ProgressKept(s0, due, moves[..n]);
      Fanout.RunKeeps(Fanout.Start<Row, Outcome>(due), moves[..n], due, REACH_FANOUT);
      MoveKeepsProgress(s0, Scheduled(s0, due, moves[..n]), due, Goroutines(due, moves[..n]), moves[n]);
    }
  }

  lemma MoveKeepsProgress(s0: Schedule, s: Schedule, due: seq<Row>, f: Fan, m: Fanout.Move<Outcome>)
    requires DistinctIds(due) && Progress(s0, s, due, f)
    ensures Progress(s0, Reported(s, f, m), due, Fanout.Step(f, m, REACH_FANOUT))
  {
    var g, t := Fanout.Step(f, m, REACH_FANOUT), Reported(s, f, m);
    forall i | 0 <= i < |due| ensures g.threads[i].target == due[i] && EntryOf(s0, t, g.threads[i]) {
      assert i != m.thread ==> g.threads[i] == f.threads[i];
      if i != m.thread && m.thread < |due| {
        OtherId(due, i, m.thread);
      }
    }
  }

  lemma OtherId(due: seq<Row>, i: nat, j: nat)
    requires DistinctIds(due) && i < |due| && j < |due| && i != j
    ensures due[i].id != due[j].id
  {
    if i < j {
      assert due[i].id != due[j].id;
    } else {
      assert due[j].id != due[i].id;
    }
  }

  // ---- What the sweep's specification says of it ------------------------------

  lemma {:induction false} DueAreDistinct(sched: Schedule, now: int, rows: seq<Row>)
    requires DistinctIds(rows)
    ensures DistinctIds(DueRows(sched, now, rows))
  {
    if rows != [] {
      LastIsNew(rows);
      DueAreDistinct(sched, now, rows[..|rows| - 1]);
    }
  }

  predicate IsReply(row: Row, out: Outcome, pc: Fanout.Pc<Row, Outcome>) {
    pc.Finished? && pc.target == row ==> out == pc.reply
  }

  /** The outcome listed for a row is the reply its goroutine came back with. */
  predicate RepliesAre(rows: seq<Row>, outs: seq<Outcome>, f: Fan) {
    && |rows| <= |outs|
    && forall k, i :: 0 <= k < |rows| && 0 <= i < |f.threads| ==> IsReply(rows[k], outs[k], f.threads[i])
  }

  predicate Answers(f: Fan, i: nat, row: Row) {
    i < |f.threads| && f.threads[i].Finished? && f.threads[i].target == row
  }

  /** The reply of the goroutine for that row; any outcome if there is none. */
  ghost function ReplyTo(f: Fan, row: Row): Outcome {
    if i: nat :| Answers(f, i, row) then f.threads[i].reply else Outcome(0, 0, false)
  }

  ghost function Replies(f: Fan, rows: seq<Row>): (outs: seq<Outcome>)
    ensures |outs| == |rows|
    ensures forall k :: 0 <= k < |rows| ==> outs[k] == ReplyTo(f, rows[k])
  {
    if rows == [] then [] else Replies(f, rows[..|rows| - 1]) + [ReplyTo(f, rows[|rows| - 1])]
  }

  lemma ReplyIsUnique(due: seq<Row>, f: Fan, i: nat, row: Row)
    requires DistinctIds(due) && Fanout.OwnTargets(f.threads, due) && Answers(f, i, row)
    ensures ReplyTo(f, row) == f.threads[i].reply
  {
    forall j: nat | Answers(f, j, row) ensures j == i {
      if j != i {
        OtherId(due, j, i);
      }
    }
  }

  lemma RepliesFit(due: seq<Row>, f: Fan, rows: seq<Row>)
    requires DistinctIds(due) && Fanout.OwnTargets(f.threads, due)
    ensures RepliesAre(rows, Replies(f, rows), f)
  {
    forall k, i | 0 <= k < |rows| && 0 <= i < |f.threads|
      ensures IsReply(rows[k], Replies(f, rows)[k], f.threads[i])
    {
      if Answers(f, i, rows[k]) {
        ReplyIsUnique(due, f, i, rows[k]);
      }
    }
  }

  predicate AllDone(f: Fan) {
    forall i :: 0 <= i < |f.threads| ==> f.threads[i].Finished?
  }

  lemma RowAgrees(
    sched: Schedule, now: int, rows: seq<Row>, outs: seq<Outcome>, due: seq<Row>, s: Schedule, f: Fan, k: nat)
    requires DistinctIds(rows) && k < |rows| && due == DueRows(sched, now, rows)
    requires Progress(Seeded(sched, now, due), s, due, f) && AllDone(f) && RepliesAre(rows, outs, f)
    ensures SameEntry(s, VisitAll(sched, now, rows, outs).0, rows[k].id)
  {
    var row := rows[k];
    DueCheckedOnce(sched, now, rows, outs, k);
    if Due(sched, now, row) {
      var i :| 0 <= i < |due| && due[i] == row;
      assert EntryOf(Seeded(sched, now, due), s, f.threads[i]);
    } else {
      NotDueNotListed(sched, now, rows, k);
    }
  }

  lemma NotDueNotListed(sched: Schedule, now: int, rows: seq<Row>, k: nat)
    requires DistinctIds(rows) && k < |rows| && !Due(sched, now, rows[k])
    ensures rows[k].id !in Listed(DueRows(sched, now, rows))
  {
    forall r | r in DueRows(sched, now, rows) ensures r.id != rows[k].id {
      var j :| 0 <= j < |rows| && rows[j] == r;
      OtherId(rows, j, k);
    }
  }

  lemma EntryAgreesWithSweep(
    sched: Schedule, now: int, rows: seq<Row>, outs: seq<Outcome>, due: seq<Row>, s: Schedule, f: Fan, id: Id)
    requires DistinctIds(rows) && due == DueRows(sched, now, rows)
    requires Progress(Seeded(sched, now, due), s, due, f) && AllDone(f) && RepliesAre(rows, outs, f)
    ensures SameEntry(s, VisitAll(sched, now, rows, outs).0, id)
  {
    if id in Listed(rows) {
      var k :| 0 <= k < |rows| && rows[k].id == id;
      RowAgrees(sched, now, rows, outs, due, s, f, k);
    } else {
      VisitAllOthers(sched, now, rows, outs, id);
      assert id !in Listed(due);
    }
  }

  /**
   Under every schedule of the goroutines at most four checks are in flight, no
   machine is checked twice, and once all are done every due machine was checked
   and the schedule is the sweep's own with the replies that came back.
   */
  lemma SweepUnderAnySchedule(sched: Schedule, now: int, rows: seq<Row>, moves: Moves, i: nat)
    requires DistinctIds(rows)
    ensures var due := DueRows(sched, now, rows);
            var f := Goroutines(due, moves);
            && Fanout.InFlight(f.threads) <= 4
            && Fanout.Times(f.started, i) <= 1
            && (AllDone(f) && i < |due| ==> Fanout.Times(f.started, i) == 1)
            && (AllDone(f) ==> Scheduled(Seeded(sched, now, due), due, moves)
                               == VisitAll(sched, now, rows, Replies(f, rows)).0)
  {
    var due := DueRows(sched, now, rows);
    Fanout.BoundedAndOnce<Row, Outcome>(due, moves, REACH_FANOUT, i);
    if i < |due| {
      Fanout.DoneMeansAll<Row, Outcome>(due, moves, REACH_FANOUT, i);
    }
    if AllDone(Goroutines(due, moves)) {
      DoneIsSwept(sched, now, rows, moves);
    }
  }

  lemma DoneIsSwept(sched: Schedule, now: int, rows: seq<Row>, moves: Moves)
    requires DistinctIds(rows) && AllDone(Goroutines(DueRows(sched, now, rows), moves))
    ensures var due := DueRows(sched, now, rows);
            Scheduled(Seeded(sched, now, due), due, moves)
            == VisitAll(sched, now, rows, Replies(Goroutines(due, moves), rows)).0
  {
    var due := DueRows(sched, now, rows);
    var f := Goroutines(due, moves);
    var s, t := Scheduled(Seeded(sched, now, due), due, moves), VisitAll(sched, now, rows, Replies(f, rows)).0;
    DueAreDistinct(sched, now, rows);
    Fanout.StartInv<Row, Outcome>(due, REACH_FANOUT);
    Fanout.RunKeeps(Fanout.Start<Row, Outcome>(due), moves, due, REACH_FANOUT);
    RepliesFit(due, f, rows);
    ProgressKept(Seeded(sched, now, due), due, moves);
    forall id ensures SameEntry(s, t, id) {
      EntryAgreesWithSweep(sched, now, rows, Replies(f, rows), due, s, f, id);
    }
    SameSchedule(s, t);
  }
}
