/** What Drop and Close achieve, whatever the other goroutines do meanwhile. */
module BrokerClose {
  import opened Base
  import opened BrokerModel
  import opened BrokerOwnership

  // ---- Drop -----------------------------------------------------------------

  ghost predicate Offered(s: State, c: Client) {
    exists i :: 0 <= i < |s.threads| && s.threads[i].Holding? && s.threads[i].client == c
  }

  /** Client c will not enter the pool again, and Drop k is still ahead or c is out. */
  ghost predicate Dropping(s: State, k: nat, c: Client) {
    && k < |s.threads| && c < |s.pool.clients| && !Offered(s, c)
    && (!Pooled(s, c) || s.threads[k] == DropStart(s.pool.clients[c], Return))
  }

  lemma NotOfferedAgain(s: State, a: Action, c: Client)
    requires c < |s.pool.clients| && !Offered(s, c)
    ensures !Offered(Step(s, a), c)
    ensures Pooled(Step(s, a), c) ==> Pooled(s, c)
  {
    var t := Step(s, a);
    forall i | 0 <= i < |t.threads| && t.threads[i].Holding? ensures t.threads[i].client != c {
      assert i < |s.threads| && s.threads[i].Holding? ==> s.threads[i].client != c;
    }
    forall id | id in t.pool.conns && t.pool.conns[id] == c ensures Pooled(s, c) {
      assert id in s.pool.conns && s.pool.conns[id] == c;
    }
  }

  lemma DropRemoves(s: State, k: nat, choice: Choice, c: Client)
    requires Inv(s) && k < |s.threads| && c < |s.pool.clients|
    requires s.threads[k] == DropStart(s.pool.clients[c], Return)
    ensures !Pooled(Step(s, Advance(k, choice)), c)
  {
    PooledUnderItsMachine(s, c);
    assert forall id <- s.pool.conns :: s.pool.conns[id] == c ==> id == s.pool.clients[c];
  }

  lemma DroppingStays(s: State, a: Action, k: nat, c: Client)
    requires Inv(s) && Dropping(s, k, c)
    ensures Dropping(Step(s, a), k, c)
  {
    NotOfferedAgain(s, a, c);
    if a.Advance? && a.thread == k && Pooled(s, c) {
      DropRemoves(s, k, a.choice, c);
    }
  }

  lemma {:induction false} DroppingRuns(s: State, actions: seq<Action>, k: nat, c: Client)
    requires Inv(s) && Dropping(s, k, c)
    ensures Dropping(Run(s, actions), k, c)
  {
    if actions != [] {
      var prefix := actions[..|actions| - 1];
      DroppingRuns(s, prefix, k, c);
      RunKeeps(s, prefix);
      DroppingStays(Run(s, prefix), actions[|actions| - 1], k, c);
    }
  }

  /**
   Once a Drop that began while client c was pooled has returned, c is out of the
   pool for good: no Get still under way can put it back.
   */
  lemma DropIsFinal(before: seq<Action>, id: Id, after: seq<Action>)
    ensures var s := Run(INITIAL, before);
            var t := Run(Step(s, Spawn(DropStart(id, Return))), after);
            id in s.pool.conns ==>
              && |s.threads| < |t.threads|
              && (t.threads[|s.threads|].Ended? ==> !Pooled(t, s.pool.conns[id]))
  {
    var s := Run(INITIAL, before);
    RunKeeps(INITIAL, before);
    if id in s.pool.conns {
      var c := s.pool.conns[id];
      var d := Step(s, Spawn(DropStart(id, Return)));
      StepKeeps(s, Spawn(DropStart(id, Return)));
      forall i | 0 <= i < |d.threads| && d.threads[i].Holding? ensures d.threads[i].client != c {
        assert ThreadSound(d.pool, d.threads[i]);
      }
      DroppingRuns(d, after, |s.threads|, c);
    }
  }

  // ---- Close ----------------------------------------------------------------

  /** The program counters of a Close, from its snapshot on. */
  predicate InClose(pc: Pc) {
    || pc.Closing?
    || pc.Ended?
    || ((pc.DropStart? || pc.Signalling? || pc.HangingUp?) && pc.after.KeepClosing?)
  }

  /** The ids it still has to look at. */
  function Left(pc: Pc): set<Id>
    requires InClose(pc)
  {
    match pc
    case Closing(ids) => ids
    case DropStart(id, after) => after.ids + {id}
    case Signalling(_, after) => after.ids
    case HangingUp(_, after) => after.ids
    case Ended => {}
  }

  /** Close k has yet to take its snapshot, or whatever is pooled is on its list. */
  ghost predicate Covering(s: State, k: nat) {
    && k < |s.threads| && NonePools(s)
    && (s.threads[k].CloseStart? || (InClose(s.threads[k]) && s.pool.conns.Keys <= Left(s.threads[k])))
  }

  predicate StartsGet(a: Action) {
    a.Spawn? && a.pc.GetStart?
  }

  lemma NonePoolsStays(s: State, a: Action)
    requires NonePools(s) && !StartsGet(a)
    ensures NonePools(Step(s, a)) && Step(s, a).pool.conns.Keys <= s.pool.conns.Keys
    ensures Step(s, a).pool.clients == s.pool.clients
  {
  }

  lemma CoveringStays(s: State, a: Action, k: nat)
    requires Covering(s, k) && !StartsGet(a)
    ensures Covering(Step(s, a), k)
  {
    NonePoolsStays(s, a);
  }

  lemma {:induction false} CoveringRuns(s: State, actions: seq<Action>, k: nat)
    requires Covering(s, k) && forall a <- actions :: !StartsGet(a)
    ensures Covering(Run(s, actions), k)
    ensures Run(s, actions).pool.clients == s.pool.clients
  {
    if actions != [] {
      var prefix := actions[..|actions| - 1];
      CoveringRuns(s, prefix, k);
      CoveringStays(Run(s, prefix), actions[|actions| - 1], k);
      NonePoolsStays(Run(s, prefix), actions[|actions| - 1]);
    }
  }

  lemma CoveredAndQuiet(t: State, k: nat, c: Client)
    requires Inv(t) && Covering(t, k) && Quiet(t)
    ensures t.pool.conns == map[]
    ensures c < |t.pool.clients| ==> t.pool.closes[c] == 1
  {
    assert t.pool.conns.Keys == {};
    if c < |t.pool.clients| {
      PlacesAreDistinct(t, c);
    }
  }

  lemma CloseFrom(s: State, k: nat, after: seq<Action>)
    requires Inv(s) && Covering(s, k) && forall a <- after :: !StartsGet(a)
    ensures var t := Run(s, after);
            Quiet(t) ==>
              && t.pool.conns == map[]
              && t.pool.clients == s.pool.clients
              && forall c :: 0 <= c < |t.pool.clients| ==> t.pool.closes[c] == 1
  {
    var t := Run(s, after);
    RunKeeps(s, after);
    CoveringRuns(s, after, k);
    if Quiet(t) {
      CoveredAndQuiet(t, k, 0);
      forall c | 0 <= c < |t.pool.clients| ensures t.pool.closes[c] == 1 {
        CoveredAndQuiet(t, k, c);
      }
    }
  }

  /**
   Close with no Get under way that could still pool a client, and none started later: once all threads are done, the
   pool is empty and every client ever dialled was closed exactly once, whatever
   drops, keepalives and other Closes ran alongside.
   */
  lemma CloseClosesEverything(before: seq<Action>, after: seq<Action>)
    requires NonePools(Run(INITIAL, before)) && forall a <- after :: !StartsGet(a)
    ensures var s := Step(Run(INITIAL, before), Spawn(CloseStart));
            var t := Run(s, after);
            Quiet(t) ==>
              && t.pool.conns == map[]
              && t.pool.clients == s.pool.clients
              && forall c :: 0 <= c < |t.pool.clients| ==> t.pool.closes[c] == 1
  {
    var r := Run(INITIAL, before);
    var s := Step(r, Spawn(CloseStart));
    RunKeeps(INITIAL, before);
    StepKeeps(r, Spawn(CloseStart));
    CloseFrom(s, |r.threads|, after);
  }

  lemma RunTwo(s: State, a: Action, b: Action)
    ensures Run(s, [a, b]) == Step(Step(s, a), b)
  {
    assert [a, b][..1] == [a] && [a][..0] == [];
    assert Run(s, [a]) == Step(Run(s, []), a);
  }

  lemma RunSnoc(s: State, before: seq<Action>, a: Action)
    ensures Run(s, before + [a]) == Step(Run(s, before), a)
  {
    assert (before + [a])[..|before|] == before;
  }

  lemma RunFour(s: State, a: Action, b: Action, c: Action, d: Action)
    ensures Run(s, [a, b, c, d]) == Step(Step(Step(Step(s, a), b), c), d)
  {
    RunTwo(s, a, b);
    RunSnoc(s, [a, b], c);
    RunSnoc(s, [a, b] + [c], d);
    assert [a, b] + [c] + [d] == [a, b, c, d];
  }

  /** A Close begins while a Get is dialling. */
  const OVERLAP_START := [Spawn(GetStart(1)), Advance(0, Succeeds), Spawn(CloseStart)]

  function Overlap(): State {
    State(FRESH, [Dialling(1), CloseStart])
  }

  lemma OverlapIsReachable()
    ensures Run(INITIAL, OVERLAP_START) == Overlap()
  {
    RunTwo(INITIAL, OVERLAP_START[0], OVERLAP_START[1]);
    assert OVERLAP_START[..2] == [OVERLAP_START[0], OVERLAP_START[1]];
  }

  /** The hypothesis is needed: a Get that is still dialling outlives the Close. */
  lemma OverlappingGetSurvives()
    ensures var a0, a1 := Advance(0, Succeeds), Advance(1, Succeeds);
            var t := Run(Overlap(), [a1, a1, a0, a0]);
            Quiet(t) && t.pool.conns == map[1 := 0] && t.pool.closes == multiset{}
  {
    var a0, a1 := Advance(0, Succeeds), Advance(1, Succeeds);
    var s1 := State(FRESH, [Dialling(1), Closing({})]);
    var s2 := State(FRESH, [Dialling(1), Ended]);
    var s3 := State(Dialled(FRESH, 1), [Holding(1, 0), Ended]);
    SnapshotThenDial(1, Overlap(), s1, s2, s3);
    RunFour(Overlap(), a1, a1, a0, a0);
    LastStep(s3, 1);
  }

  lemma SnapshotThenDial(id: Id, s: State, s1: State, s2: State, s3: State)
    requires s == State(FRESH, [Dialling(id), CloseStart]) && s1 == State(FRESH, [Dialling(id), Closing({})])
    requires s2 == State(FRESH, [Dialling(id), Ended]) && s3 == State(Dialled(FRESH, id), [Holding(id, 0), Ended])
    ensures Step(s, Advance(1, Succeeds)) == s1
    ensures Step(s1, Advance(1, Succeeds)) == s2
    ensures Step(s2, Advance(0, Succeeds)) == s3
  {
    assert FRESH.conns.Keys == {};
    assert Step(s, Advance(1, Succeeds)).threads == s1.threads;
    assert Step(s1, Advance(1, Succeeds)).threads == s2.threads;
    assert Step(s2, Advance(0, Succeeds)).threads == s3.threads;
  }

  lemma LastStep(s: State, id: Id)
    requires s == State(Dialled(FRESH, id), [Holding(id, 0), Ended])
    ensures var t := Step(s, Advance(0, Succeeds));
            Quiet(t) && t.pool.conns == map[id := 0] && t.pool.closes == multiset{}
  {
  }

  // ---- And only then --------------------------------------------------------

  predicate Idle(pc: Pc) {
    pc.Ended? || pc.Got? || pc.Watching?
  }

  /** How much work a drop and the rest of its Close are, at most. */
  function AfterWork(after: After): nat {
    match after
    case Return => 0
    case KeepClosing(ids) => 1 + 4 * |ids|
  }

  /** Steps until a thread is idle, with a dial that fails and no id chosen twice. */
  function Work(p: Pool, pc: Pc): nat {
    match pc
    case GetStart(_) => 4
    case Dialling(_) => 3
    case Holding(_, _) => 2
    case Losing(_, _, _) => 1
    case DropStart(_, after) => 3 + AfterWork(after)
    case Signalling(_, after) => 2 + AfterWork(after)
    case HangingUp(_, after) => 1 + AfterWork(after)
    case CloseStart => 2 + 4 * |p.conns.Keys|
    case Closing(ids) => 1 + 4 * |ids|
    case _ => 0
  }

  /** The choice that brings a thread on. */
  ghost function Onward(pc: Pc): Choice {
    if pc.Closing? && pc.ids != {} then
      EmptyWhenNoneIn(pc.ids);
      var id :| id in pc.ids;
      Next(id)
    else Fails
  }

  lemma StartedIsIdle(p: Pool, pc: Pc, choice: Choice)
    ensures var e := StepOf(p, pc, choice); e.started.Some? ==> Idle(e.started.value)
  {
  }

  lemma OnwardWorks(p: Pool, pc: Pc)
    requires !Idle(pc)
    ensures var e := StepOf(p, pc, Onward(pc));
            Work(e.pool, e.pc) < Work(p, pc) && (e.started.Some? ==> Idle(e.started.value))
  {
    StartedIsIdle(p, pc, Onward(pc));
    if pc.Closing? && pc.ids != {} {
      OneIdLess(p, pc, Onward(pc).id);
    }
  }

  lemma OneIdLess(p: Pool, pc: Pc, id: Id)
    requires pc.Closing? && id in pc.ids
    ensures var e := StepOf(p, pc, Next(id)); Work(e.pool, e.pc) < Work(p, pc)
  {
    assert |pc.ids - {id}| == |pc.ids| - 1;
  }

  /** Runs one thread to its end; the others stand still, and only keepalives are added. */
  lemma {:induction false} RunThread(s: State, j: nat) returns (moves: seq<Action>)
    requires j < |s.threads|
    ensures forall a <- moves :: a.Advance?
    ensures var t := RunFrom(s, moves);
            && |s.threads| <= |t.threads| && Idle(t.threads[j])
            && (forall k :: 0 <= k < |s.threads| && k != j ==> t.threads[k] == s.threads[k])
            && (forall k :: |s.threads| <= k < |t.threads| ==> Idle(t.threads[k]))
    decreases Work(s.pool, s.threads[j])
  {
    if Idle(s.threads[j]) {
      moves := [];
    } else {
      var a := Advance(j, Onward(s.threads[j]));
      OnwardWorks(s.pool, s.threads[j]);
      var rest := RunThread(Step(s, a), j);
      moves := [a] + rest;
      assert moves[1..] == rest;
    }
  }

  /** The run from the front, for schedules built step by step. */
  function RunFrom(s: State, moves: seq<Action>): State
    decreases moves
  {
    if moves == [] then s else RunFrom(Step(s, moves[0]), moves[1..])
  }

  lemma {:induction false} RunFromConcat(s: State, a: seq<Action>, b: seq<Action>)
    ensures RunFrom(s, a + b) == RunFrom(RunFrom(s, a), b)
    decreases a
  {
    if a == [] {
      assert a + b == b;
    } else {
      assert (a + b)[1..] == a[1..] + b;
      RunFromConcat(Step(s, a[0]), a[1..], b);
    }
  }

  lemma {:induction false} RunIsRunFrom(s: State, moves: seq<Action>)
    ensures Run(s, moves) == RunFrom(s, moves)
  {
    if moves != [] {
      var n := |moves| - 1;
      RunIsRunFrom(s, moves[..n]);
      RunFromConcat(s, moves[..n], [moves[n]]);
      assert moves == moves[..n] + [moves[n]] && [moves[n]][1..] == [];
    }
  }

  /** The first n threads but one, from thread j on, run to their ends; those beyond are idle. */
  lemma {:induction false} RunOthers(s: State, i: nat, j: nat, n: nat) returns (moves: seq<Action>)
    requires i < n && j <= n <= |s.threads|
    requires forall k :: 0 <= k < |s.threads| && (k < j || k >= n) && k != i ==> Idle(s.threads[k])
    ensures forall a <- moves :: a.Advance?
    ensures var t := RunFrom(s, moves);
            && |s.threads| <= |t.threads| && t.threads[i] == s.threads[i]
            && forall k :: 0 <= k < |t.threads| && k != i ==> Idle(t.threads[k])
    decreases n - j
  {
    if j == n {
      moves := [];
    } else if j == i {
      moves := RunOthers(s, i, j + 1, n);
    } else {
      var first := RunThread(s, j);
      var rest := RunOthers(RunFrom(s, first), i, j + 1, n);
      RunFromConcat(s, first, rest);
      moves := first + rest;
    }
  }

  /** A Get, or a Get that lost against a pooled client, run to its end: its machine has a pooled client then. */
  lemma {:induction false} FinishGet(s: State, i: nat) returns (moves: seq<Action>)
    requires i < |s.threads|
    requires MayPool(s.threads[i]) || (s.threads[i].Losing? && s.threads[i].id in s.pool.conns)
    ensures forall a <- moves :: a.Advance?
    ensures var t := RunFrom(s, moves);
            && s.threads[i].id in t.pool.conns
            && |s.threads| <= |t.threads| && Idle(t.threads[i])
            && (forall k :: 0 <= k < |s.threads| && k != i ==> t.threads[k] == s.threads[k])
            && (forall k :: |s.threads| <= k < |t.threads| ==> Idle(t.threads[k]))
    decreases Work(s.pool, s.threads[i])
  {
    var a := Advance(i, Succeeds);
    var t := Step(s, a);
    if Idle(t.threads[i]) {
      moves := [a];
      assert moves[1..] == [];
    } else {
      var rest := FinishGet(t, i);
      moves := [a] + rest;
      assert moves[1..] == rest;
    }
  }

  /** Any Get that may still pool a client can outlive a Close that starts now, and leave that client open. */
  lemma GetCanOutliveClose(before: seq<Action>, i: nat) returns (after: seq<Action>)
    requires i < |Run(INITIAL, before).threads| && MayPool(Run(INITIAL, before).threads[i])
    ensures forall a <- after :: !StartsGet(a)
    ensures var t := Run(Step(Run(INITIAL, before), Spawn(CloseStart)), after);
            Quiet(t) && exists c: Client :: c < |t.pool.clients| && Pooled(t, c) && !Closed(t, c)
  {
    var s := Step(Run(INITIAL, before), Spawn(CloseStart));
    var first := RunOthers(s, i, 0, |s.threads|);
    var rest := FinishGet(RunFrom(s, first), i);
    after := first + rest;
    RunFromConcat(s, first, rest);
    RunIsRunFrom(s, after);
    RunKeeps(INITIAL, before);
    StepKeeps(Run(INITIAL, before), Spawn(CloseStart));
    RunKeeps(s, after);
    var t := Run(s, after);
    var c := t.pool.conns[s.threads[i].id];
    assert c < |t.pool.clients| && Pooled(t, c) && !Closed(t, c);
  }

  predicate AllClosed(s: State) {
    s.pool.conns == map[] && forall c :: 0 <= c < |s.pool.clients| ==> s.pool.closes[c] == 1
  }

  /** After a Close that starts now, every quiet state has all clients closed, unless a later Get reopens the pool. */
  ghost predicate CloseSuffices(s: State) {
    forall after :: (forall a <- after :: !StartsGet(a)) && Quiet(Run(Step(s, Spawn(CloseStart)), after)) ==>
      AllClosed(Run(Step(s, Spawn(CloseStart)), after))
  }

  /** Close is complete if and only if no Get is under way that could still pool a client. */
  lemma CloseSufficesIff(before: seq<Action>)
    ensures CloseSuffices(Run(INITIAL, before)) <==> NonePools(Run(INITIAL, before))
  {
    var s := Run(INITIAL, before);
    if NonePools(s) {
      forall after: seq<Action> | (forall a <- after :: !StartsGet(a)) && Quiet(Run(Step(s, Spawn(CloseStart)), after))
        ensures AllClosed(Run(Step(s, Spawn(CloseStart)), after))
      {
        CloseClosesEverything(before, after);
      }
    } else {
      var i: nat :| i < |s.threads| && MayPool(s.threads[i]);
      var after := GetCanOutliveClose(before, i);
      assert Quiet(Run(Step(s, Spawn(CloseStart)), after));
    }
  }
}
