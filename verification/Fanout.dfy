/**
 Goroutines behind a counting semaphore, one per target: the bulk run
 (internal/api/bulk.go:109-141) and the reachability sweep (internal/api/reach.go:66-97).
 Any goroutine may take the next step, and an execution ends with any reply.
 */
module Fanout {
  import opened Base

  /** Where a goroutine is; it carries the index and the target its closure captured. */
  datatype Pc<T, R> =
    | Waiting(index: nat, target: T)
    | Admitted(index: nat, target: T)
    | Executing(index: nat, target: T)
    | Returned(index: nat, target: T, reply: R)
    | Stored(index: nat, target: T, reply: R)
    | Finished(index: nat, target: T, reply: R)

  datatype Execution<T> = Execution(index: nat, target: T)

  datatype Report<T, R> = Report(target: T, reply: R)

  /** `slots` counts the tokens in the channel; `started` is the history of executions. */
  datatype Fan<T, R> = Fan(
    threads: seq<Pc<T, R>>, slots: nat, started: seq<Execution<T>>, results: seq<Option<Report<T, R>>>)

  datatype Move<R> = Move(thread: nat, reply: R)

  function Spawned<T, R>(targets: seq<T>): (s: seq<Pc<T, R>>)
    ensures |s| == |targets|
    ensures forall i :: 0 <= i < |s| ==> s[i] == Waiting(i, targets[i])
  {
    if targets == [] then []
    else Spawned(targets[..|targets| - 1]) + [Waiting(|targets| - 1, targets[|targets| - 1])]
  }

  function Blank<T, R>(n: nat): (s: seq<Option<Report<T, R>>>)
    ensures |s| == n
    ensures forall i :: 0 <= i < n ==> s[i] == None
  {
    if n == 0 then [] else Blank(n - 1) + [None]
  }

  function Start<T, R>(targets: seq<T>): Fan<T, R> {
    Fan(Spawned(targets), 0, [], Blank(|targets|))
  }

  predicate Enabled<T, R>(f: Fan<T, R>, i: nat, cap: nat) {
    && i < |f.threads| && !f.threads[i].Finished?
    && (f.threads[i].Waiting? ==> f.slots < cap)
    && (f.threads[i].Stored? ==> 0 < f.slots)
  }

  /** One step of one goroutine; a goroutine at a full semaphore stays where it is. */
  function Step<T, R>(f: Fan<T, R>, m: Move<R>, cap: nat): Fan<T, R> {
    if !Enabled(f, m.thread, cap) then f
    else
      var i := m.thread;
      match f.threads[i]
      case Waiting(k, t) => f.(threads := f.threads[i := Admitted(k, t)], slots := f.slots + 1)
      case Admitted(k, t) =>
        f.(threads := f.threads[i := Executing(k, t)], started := f.started + [Execution(k, t)])
      case Executing(k, t) => f.(threads := f.threads[i := Returned(k, t, m.reply)])
      case Returned(k, t, r) =>
        f.(threads := f.threads[i := Stored(k, t, r)],
           results := if k < |f.results| then f.results[k := Some(Report(t, r))] else f.results)
      case Stored(k, t, r) => f.(threads := f.threads[i := Finished(k, t, r)], slots := f.slots - 1)
      case Finished(_, _, _) => f
  }

  function Run<T, R>(f: Fan<T, R>, moves: seq<Move<R>>, cap: nat): Fan<T, R> {
    if moves == [] then f else Step(Run(f, moves[..|moves| - 1], cap), moves[|moves| - 1], cap)
  }

  // ---- The invariant --------------------------------------------------------

  predicate HoldsSlot<T, R>(pc: Pc<T, R>) {
    !pc.Waiting? && !pc.Finished?
  }

  function Holders<T, R>(threads: seq<Pc<T, R>>): nat {
    if threads == [] then 0
    else Holders(threads[..|threads| - 1]) + if HoldsSlot(threads[|threads| - 1]) then 1 else 0
  }

  function InFlight<T, R>(threads: seq<Pc<T, R>>): nat {
    if threads == [] then 0
    else InFlight(threads[..|threads| - 1]) + if threads[|threads| - 1].Executing? then 1 else 0
  }

  predicate HasStarted<T, R>(pc: Pc<T, R>) {
    !pc.Waiting? && !pc.Admitted?
  }

  predicate HasStored<T, R>(pc: Pc<T, R>) {
    pc.Stored? || pc.Finished?
  }

  /** Every goroutine still has its own index and target. */
  predicate OwnTargets<T(==), R>(threads: seq<Pc<T, R>>, targets: seq<T>) {
    && |threads| == |targets|
    && forall i :: 0 <= i < |threads| ==> threads[i].index == i && threads[i].target == targets[i]
  }

  /** How often an index was executed. */
  function Times<T>(started: seq<Execution<T>>, i: nat): nat {
    if started == [] then 0
    else Times(started[..|started| - 1], i) + if started[|started| - 1].index == i then 1 else 0
  }

  predicate OnceStarted<T(==), R>(f: Fan<T, R>, targets: seq<T>)
    requires |f.threads| == |targets|
  {
    && (forall e <- f.started :: e.index < |targets| && e.target == targets[e.index])
    && forall i :: 0 <= i < |targets| ==> Times(f.started, i) == if HasStarted(f.threads[i]) then 1 else 0
  }

  predicate ResultsMatch<T(==), R(==)>(f: Fan<T, R>, targets: seq<T>)
    requires |f.threads| == |targets|
  {
    && |f.results| == |targets|
    && forall i :: 0 <= i < |targets| ==>
         f.results[i] == if HasStored(f.threads[i]) then Some(Report(targets[i], f.threads[i].reply)) else None
  }

  predicate Inv<T(==), R(==)>(f: Fan<T, R>, targets: seq<T>, cap: nat) {
    && OwnTargets(f.threads, targets)
    && f.slots == Holders(f.threads) && f.slots <= cap
    && OnceStarted(f, targets)
    && ResultsMatch(f, targets)
  }

  // ---- Counting -------------------------------------------------------------

  lemma {:induction false} HoldersUpdate<T, R>(threads: seq<Pc<T, R>>, i: nat, pc: Pc<T, R>)
    requires i < |threads|
    ensures Holders(threads[i := pc]) + (if HoldsSlot(threads[i]) then 1 else 0)
            == Holders(threads) + if HoldsSlot(pc) then 1 else 0
  {
    var n := |threads| - 1;
    if i < n {
      HoldersUpdate(threads[..n], i, pc);
      assert threads[i := pc][..n] == threads[..n][i := pc];
    } else {
      assert threads[i := pc][..n] == threads[..n];
    }
  }

  lemma {:induction false} InFlightHoldSlots<T, R>(threads: seq<Pc<T, R>>)
    ensures InFlight(threads) <= Holders(threads)
  {
    if threads != [] {
      InFlightHoldSlots(threads[..|threads| - 1]);
    }
  }

  lemma TimesSnoc<T>(started: seq<Execution<T>>, e: Execution<T>, i: nat)
    ensures Times(started + [e], i) == Times(started, i) + if e.index == i then 1 else 0
  {
    assert (started + [e])[..|started|] == started;
  }

  lemma {:induction false} NothingWaits<T, R>(threads: seq<Pc<T, R>>)
    requires forall i :: 0 <= i < |threads| ==> !HoldsSlot(threads[i])
    ensures Holders(threads) == 0
  {
    if threads != [] {
      NothingWaits(threads[..|threads| - 1]);
    }
  }

  // ---- Every step keeps it --------------------------------------------------

  lemma StartInv<T, R>(targets: seq<T>, cap: nat)
    ensures Inv(Start<T, R>(targets), targets, cap)
  {
    var f := Start<T, R>(targets);
    NothingWaits(f.threads);
    forall i: nat | i < |targets|
      ensures f.threads[i] == Waiting(i, targets[i]) && f.results[i] == None && Times(f.started, i) == 0
    {
    }
    assert OwnTargets(f.threads, targets);
    assert OnceStarted(f, targets) && ResultsMatch(f, targets);
  }

  lemma StepKeepsTargets<T, R>(f: Fan<T, R>, m: Move<R>, targets: seq<T>, cap: nat)
    requires OwnTargets(f.threads, targets)
    ensures OwnTargets(Step(f, m, cap).threads, targets)
  {
  }

  lemma StepKeepsStarted<T, R>(f: Fan<T, R>, m: Move<R>, targets: seq<T>, cap: nat)
    requires Inv(f, targets, cap)
    ensures OwnTargets(Step(f, m, cap).threads, targets) && OnceStarted(Step(f, m, cap), targets)
  {
    StepKeepsTargets(f, m, targets, cap);
    if Enabled(f, m.thread, cap) && f.threads[m.thread].Admitted? {
      var e := Execution(f.threads[m.thread].index, f.threads[m.thread].target);
      forall i: nat | i < |targets|
        ensures Times(f.started + [e], i) == Times(f.started, i) + if e.index == i then 1 else 0
      {
        TimesSnoc(f.started, e, i);
      }
    }
  }

  lemma StepKeepsSlots<T, R>(f: Fan<T, R>, m: Move<R>, targets: seq<T>, cap: nat)
    requires Inv(f, targets, cap)
    ensures var g := Step(f, m, cap); g.slots == Holders(g.threads) && g.slots <= cap
  {
    if Enabled(f, m.thread, cap) {
      var g := Step(f, m, cap);
      HoldersUpdate(f.threads, m.thread, g.threads[m.thread]);
    }
  }

  lemma StepKeeps<T, R>(f: Fan<T, R>, m: Move<R>, targets: seq<T>, cap: nat)
    requires Inv(f, targets, cap)
    ensures Inv(Step(f, m, cap), targets, cap)
  {
    StepKeepsStarted(f, m, targets, cap);
    StepKeepsSlots(f, m, targets, cap);
  }

  lemma {:induction false} RunKeeps<T, R>(f: Fan<T, R>, moves: seq<Move<R>>, targets: seq<T>, cap: nat)
    requires Inv(f, targets, cap)
    ensures Inv(Run(f, moves, cap), targets, cap)
  {
    if moves != [] {
      RunKeeps(f, moves[..|moves| - 1], targets, cap);
      StepKeeps(Run(f, moves[..|moves| - 1], cap), moves[|moves| - 1], targets, cap);
    }
  }

  // ---- What holds over every schedule ---------------------------------------

  /** At most `cap` executions at a time, at most one per index, each of its own target. */
  lemma BoundedAndOnce<T, R>(targets: seq<T>, moves: seq<Move<R>>, cap: nat, i: nat)
    ensures var f := Run(Start<T, R>(targets), moves, cap);
            && InFlight(f.threads) <= cap
            && Times(f.started, i) <= 1
            && (forall e <- f.started :: e.index < |targets| && e.target == targets[e.index])
  {
    StartInv<T, R>(targets, cap);
    RunKeeps(Start<T, R>(targets), moves, targets, cap);
    var f := Run(Start<T, R>(targets), moves, cap);
    InFlightHoldSlots(f.threads);
    if i >= |targets| {
      NeverStarted(f.started, i);
    }
  }

  lemma {:induction false} NeverStarted<T>(started: seq<Execution<T>>, i: nat)
    requires forall e <- started :: e.index < i
    ensures Times(started, i) == 0
  {
    if started != [] {
      assert started[|started| - 1] in started;
      assert forall e <- started[..|started| - 1] :: e in started;
      NeverStarted(started[..|started| - 1], i);
    }
  }

  /** When all goroutines are done, every target was executed once and result i is about target i. */
  lemma DoneMeansAll<T, R>(targets: seq<T>, moves: seq<Move<R>>, cap: nat, i: nat)
    requires i < |targets|
    ensures var f := Run(Start<T, R>(targets), moves, cap);
            |f.threads| == |f.results| == |targets|
            && ((forall j :: 0 <= j < |f.threads| ==> f.threads[j].Finished?) ==>
                  && Times(f.started, i) == 1
                  && f.results[i] == Some(Report(targets[i], f.threads[i].reply)))
  {
    StartInv<T, R>(targets, cap);
    RunKeeps(Start<T, R>(targets), moves, targets, cap);
  }

  /** The semaphore never deadlocks: until all are done, some goroutine can move. */
  lemma NeverStuck<T, R>(targets: seq<T>, moves: seq<Move<R>>, cap: nat)
    requires cap > 0
    ensures var f := Run(Start<T, R>(targets), moves, cap);
            (forall i :: 0 <= i < |f.threads| ==> f.threads[i].Finished?)
            || exists i: nat :: i < |f.threads| && Enabled(f, i, cap)
  {
    StartInv<T, R>(targets, cap);
    RunKeeps(Start<T, R>(targets), moves, targets, cap);
    var f := Run(Start<T, R>(targets), moves, cap);
    if exists i :: 0 <= i < |f.threads| && HoldsSlot(f.threads[i]) {
      var i: nat :| i < |f.threads| && HoldsSlot(f.threads[i]);
      SomeHolder(f.threads, i);
      assert Enabled(f, i, cap);
    } else {
      NothingWaits(f.threads);
      FreeSlot(f, cap);
    }
  }

  lemma FreeSlot<T, R>(f: Fan<T, R>, cap: nat)
    requires f.slots == 0 < cap && forall i :: 0 <= i < |f.threads| ==> !HoldsSlot(f.threads[i])
    ensures (forall i :: 0 <= i < |f.threads| ==> f.threads[i].Finished?)
            || exists i: nat :: i < |f.threads| && Enabled(f, i, cap)
  {
    if i: nat :| i < |f.threads| && !f.threads[i].Finished? {
      assert Enabled(f, i, cap);
    }
  }

  lemma {:induction false} SomeHolder<T, R>(threads: seq<Pc<T, R>>, i: nat)
    requires i < |threads| && HoldsSlot(threads[i])
    ensures Holders(threads) > 0
  {
    var n := |threads| - 1;
    if i < n {
      SomeHolder(threads[..n], i);
    }
  }
}
