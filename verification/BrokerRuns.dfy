/**
 What each operation of the broker does to the pool, step by step and from any
 state, when nobody else moves in between (internal/sshx/broker.go:101-188); and,
 over every interleaving, that a Get dials only for a machine it found unpooled.
 */
module BrokerRuns {
  import opened Base
  import opened BrokerModel
  import opened BrokerOwnership
  import BrokerClose

  // ---- Running a few steps ---------------------------------------------------

  lemma UpdateTwice(threads: seq<Pc>, i: nat, a: Pc, b: Pc)
    requires i < |threads|
    ensures threads[i := a][i := b] == threads[i := b]
  {
  }

  lemma UpdateLast(threads: seq<Pc>, a: Pc, b: Pc)
    ensures (threads + [a])[|threads| := b] == threads + [b]
  {
  }

  lemma NothingAdded(threads: seq<Pc>)
    ensures threads + [] == threads
  {
  }

  lemma RunOne(s: State, a: Action)
    ensures Run(s, [a]) == Step(s, a)
  {
    BrokerClose.RunSnoc(s, [], a);
    assert [] + [a] == [a];
  }

  /** One thread moves and starts nothing. */
  lemma Moved(s: State, i: nat, choice: Choice, p: Pool, pc: Pc)
    requires i < |s.threads| && StepOf(s.pool, s.threads[i], choice) == Effect(p, pc, None)
    ensures Run(s, [Advance(i, choice)]) == State(p, s.threads[i := pc])
  {
    RunOne(s, Advance(i, choice));
    NothingAdded(s.threads[i := pc]);
  }

  /** A new thread's first move. */
  lemma FirstMove(s: State, start: Pc, choice: Choice, p: Pool, pc: Pc)
    requires Startable(start) && StepOf(s.pool, start, choice) == Effect(p, pc, None)
    ensures Run(s, [Spawn(start), Advance(|s.threads|, choice)]) == State(p, s.threads + [pc])
  {
    var t := State(s.pool, s.threads + [start]);
    RunOne(s, Spawn(start));
    Moved(t, |s.threads|, choice, p, pc);
    UpdateLast(s.threads, start, pc);
    RunOnFrom(s, [Spawn(start)], [Advance(|s.threads|, choice)]);
    assert [Spawn(start)] + [Advance(|s.threads|, choice)] == [Spawn(start), Advance(|s.threads|, choice)];
  }

  /** Two moves of one thread. */
  lemma MovedTwice(
    s: State, i: nat, first: Choice, second: Choice, p: Pool, pc: Pc, q: Pool, qc: Pc)
    requires i < |s.threads| && StepOf(s.pool, s.threads[i], first) == Effect(p, pc, None)
    requires StepOf(p, pc, second) == Effect(q, qc, None)
    ensures Run(s, [Advance(i, first), Advance(i, second)]) == State(q, s.threads[i := qc])
  {
    var t := State(p, s.threads[i := pc]);
    Moved(s, i, first, p, pc);
    Moved(t, i, second, q, qc);
    UpdateTwice(s.threads, i, pc, qc);
    RunOnFrom(s, [Advance(i, first)], [Advance(i, second)]);
    assert [Advance(i, first)] + [Advance(i, second)] == [Advance(i, first), Advance(i, second)];
  }

  lemma {:induction false} RunOnFrom(s: State, a: seq<Action>, b: seq<Action>)
    ensures Run(s, a + b) == Run(Run(s, a), b)
  {
    if b == [] {
      assert a + b == a;
    } else {
      var init, last := b[..|b| - 1], b[|b| - 1];
      RunOnFrom(s, a, init);
      BrokerClose.RunSnoc(s, a + init, last);
      assert (a + init) + [last] == a + b;
    }
  }

  // ---- Get ------------------------------------------------------------------

  /** A Get of a pooled machine returns that connection at once, and nothing else changes. */
  lemma PooledGet(s: State, id: Id, choice: Choice)
    requires id in s.pool.conns
    ensures Run(s, [Spawn(GetStart(id)), Advance(|s.threads|, choice)])
         == State(s.pool, s.threads + [Got(id, s.pool.conns[id])])
  {
    FirstMove(s, GetStart(id), choice, s.pool, Got(id, s.pool.conns[id]));
  }

  /** Otherwise it goes on to dial. */
  lemma UnpooledGet(s: State, id: Id, choice: Choice)
    requires id !in s.pool.conns
    ensures Run(s, [Spawn(GetStart(id)), Advance(|s.threads|, choice)])
         == State(s.pool, s.threads + [Dialling(id)])
  {
    FirstMove(s, GetStart(id), choice, s.pool, Dialling(id));
  }

  /** A dial that fails ends the Get with an error and leaves the pool alone. */
  lemma FailedDial(s: State, i: nat, id: Id, choice: Choice)
    requires i < |s.threads| && s.threads[i] == Dialling(id) && !choice.Succeeds?
    ensures Run(s, [Advance(i, choice)]) == State(s.pool, s.threads[i := Ended])
  {
    Moved(s, i, choice, s.pool, Ended);
  }

  /** A dial that succeeds, with no one having pooled another client: ours is pooled, watched and returned. */
  lemma SuccessfulDial(s: State, i: nat, id: Id, choice: Choice)
    requires i < |s.threads| && s.threads[i] == Dialling(id) && id !in s.pool.conns
    ensures var c := |s.pool.clients|;
            Run(s, [Advance(i, Succeeds), Advance(i, choice)])
            == State(Pool(s.pool.conns[id := c], s.pool.clients + [id], s.pool.signals, s.pool.closes),
                     s.threads[i := Got(id, c)] + [Watching(id, c)])
  {
    var c := |s.pool.clients|;
    var t := State(Dialled(s.pool, id), s.threads[i := Holding(id, c)]);
    Moved(s, i, Succeeds, t.pool, Holding(id, c));
    RunOne(t, Advance(i, choice));
    UpdateTwice(s.threads, i, Holding(id, c), Got(id, c));
    RunOnFrom(s, [Advance(i, Succeeds)], [Advance(i, choice)]);
    assert [Advance(i, Succeeds)] + [Advance(i, choice)] == [Advance(i, Succeeds), Advance(i, choice)];
  }

  /** When somebody else was faster, theirs is returned and only our own client is closed. */
  lemma LostRace(s: State, i: nat, id: Id, c: Client, first: Choice, second: Choice)
    requires i < |s.threads| && s.threads[i] == Holding(id, c) && id in s.pool.conns
    ensures Run(s, [Advance(i, first), Advance(i, second)])
         == State(s.pool.(closes := s.pool.closes + multiset{c}), s.threads[i := Got(id, s.pool.conns[id])])
  {
    var theirs := s.pool.conns[id];
    MovedTwice(s, i, first, second, s.pool, Losing(id, c, theirs), HungUp(s.pool, c), Got(id, theirs));
  }

  /** A Get started on an unpooled machine by itself pools and returns the client it dials. */
  lemma GetAlone(s: State, id: Id, choice: Choice)
    requires id !in s.pool.conns
    ensures var n, c := |s.threads|, |s.pool.clients|;
            Run(s, [Spawn(GetStart(id)), Advance(n, choice), Advance(n, Succeeds), Advance(n, choice)])
            == State(Pool(s.pool.conns[id := c], s.pool.clients + [id], s.pool.signals, s.pool.closes),
                     s.threads + [Got(id, c), Watching(id, c)])
  {
    var n, c := |s.threads|, |s.pool.clients|;
    var first := [Spawn(GetStart(id)), Advance(n, choice)];
    UnpooledGet(s, id, choice);
    SuccessfulDial(Run(s, first), n, id, choice);
    RunOnFrom(s, first, [Advance(n, Succeeds), Advance(n, choice)]);
    assert first + [Advance(n, Succeeds), Advance(n, choice)]
        == [Spawn(GetStart(id)), Advance(n, choice), Advance(n, Succeeds), Advance(n, choice)];
    assert (s.threads + [Dialling(id)])[n := Got(id, c)] + [Watching(id, c)]
        == s.threads + [Got(id, c), Watching(id, c)];
  }

  // ---- Drop and the keepalive ------------------------------------------------

  /** From the start of a drop on, a pooled connection is forgotten, its channel and its client closed. */
  lemma DropOnward(s: State, i: nat, id: Id, after: After, choice: Choice)
    requires i < |s.threads| && s.threads[i] == DropStart(id, after) && id in s.pool.conns
    ensures var c := s.pool.conns[id];
            Run(s, [Advance(i, choice), Advance(i, choice), Advance(i, choice)])
            == State(Pool(s.pool.conns - {id}, s.pool.clients, s.pool.signals + multiset{c},
                          s.pool.closes + multiset{c}),
                     s.threads[i := Resume(after)])
  {
    var c, a := s.pool.conns[id], Advance(i, choice);
    var p := Removed(s.pool, id);
    MovedTwice(s, i, choice, choice, p, Signalling(c, after), Signalled(p, c), HangingUp(c, after));
    var t := State(Signalled(p, c), s.threads[i := HangingUp(c, after)]);
    assert t.threads[i] == HangingUp(c, after);
    Moved(t, i, choice, HungUp(t.pool, c), Resume(after));
    UpdateTwice(s.threads, i, HangingUp(c, after), Resume(after));
    RunOnFrom(s, [a, a], [a]);
    ThreeTimes(a);
  }

  /** A Drop that anyone may start at any time, run by itself. */
  lemma DropAlone(s: State, id: Id, choice: Choice)
    requires id in s.pool.conns
    ensures var n, c := |s.threads|, s.pool.conns[id];
            Run(s, [Spawn(DropStart(id, Return))] + [Advance(n, choice), Advance(n, choice), Advance(n, choice)])
            == State(Pool(s.pool.conns - {id}, s.pool.clients, s.pool.signals + multiset{c},
                          s.pool.closes + multiset{c}),
                     s.threads + [Ended])
  {
    var n, start := |s.threads|, DropStart(id, Return);
    RunOne(s, Spawn(start));
    DropOnward(State(s.pool, s.threads + [start]), n, id, Return, choice);
    UpdateLast(s.threads, start, Ended);
    RunOnFrom(s, [Spawn(start)], [Advance(n, choice), Advance(n, choice), Advance(n, choice)]);
  }

  lemma ThreeTimes(a: Action)
    ensures [a, a] + [a] == [a, a, a]
  {
  }

  lemma DropOfNothing(s: State, i: nat, id: Id, choice: Choice)
    requires i < |s.threads| && s.threads[i] == DropStart(id, Return) && id !in s.pool.conns
    ensures Run(s, [Advance(i, choice)]) == State(s.pool, s.threads[i := Ended])
  {
    Moved(s, i, choice, s.pool, Ended);
  }

  /**
   A keepalive whose request fails or stays unanswered becomes a drop of its machine;
   one whose channel was closed ends; any other goes on watching, and none touches the pool.
   */
  lemma KeepaliveStep(s: State, i: nat, id: Id, c: Client, choice: Choice)
    requires i < |s.threads| && s.threads[i] == Watching(id, c)
    ensures Run(s, [Advance(i, choice)])
         == State(s.pool, s.threads[i := if choice.Fails? then DropStart(id, Return)
                                         else if c in s.pool.signals then Ended
                                         else Watching(id, c)])
  {
    Moved(s, i, choice, s.pool, if choice.Fails? then DropStart(id, Return)
                                else if c in s.pool.signals then Ended
                                else Watching(id, c));
  }

  // ---- Close ----------------------------------------------------------------

  /** Close drops its snapshot in some order, four steps for each connection. */
  function CloseMoves(i: nat, order: seq<Id>): seq<Action> {
    if order == [] then [Advance(i, Fails)]
    else
      [Advance(i, Next(order[0]))] + [Advance(i, Fails), Advance(i, Fails), Advance(i, Fails)]
      + CloseMoves(i, order[1..])
  }

  function IdsIn(order: seq<Id>): set<Id> {
    set x | x in order
  }

  predicate Enumerates(order: seq<Id>, ids: set<Id>) {
    && IdsIn(order) == ids
    && (forall j, k :: 0 <= j < k < |order| ==> order[j] != order[k])
  }

  function Occurrences(conns: map<Id, Client>, order: seq<Id>): multiset<Client> {
    if order == [] then multiset{}
    else (if order[0] in conns then multiset{conns[order[0]]} else multiset{}) + Occurrences(conns, order[1..])
  }

  /** The loop takes the next connection. */
  lemma CloseTakes(s: State, i: nat, ids: set<Id>, id: Id)
    requires i < |s.threads| && s.threads[i] == Closing(ids) && id in ids
    ensures Run(s, [Advance(i, Next(id))])
         == State(s.pool, s.threads[i := DropStart(id, KeepClosing(ids - {id}))])
  {
    Moved(s, i, Next(id), s.pool, DropStart(id, KeepClosing(ids - {id})));
  }

  /** One round of the loop. */
  lemma CloseRound(s: State, i: nat, ids: set<Id>, id: Id)
    requires i < |s.threads| && s.threads[i] == Closing(ids) && id in ids && id in s.pool.conns
    ensures var c := s.pool.conns[id];
            Run(s, [Advance(i, Next(id))] + [Advance(i, Fails), Advance(i, Fails), Advance(i, Fails)])
            == State(Pool(s.pool.conns - {id}, s.pool.clients, s.pool.signals + multiset{c},
                          s.pool.closes + multiset{c}),
                     s.threads[i := Closing(ids - {id})])
  {
    var after := KeepClosing(ids - {id});
    CloseTakes(s, i, ids, id);
    DropOnward(Run(s, [Advance(i, Next(id))]), i, id, after, Fails);
    RunOnFrom(s, [Advance(i, Next(id))], [Advance(i, Fails), Advance(i, Fails), Advance(i, Fails)]);
    UpdateTwice(s.threads, i, DropStart(id, after), Closing(ids - {id}));
  }

  lemma CloseEnds(s: State, i: nat)
    requires i < |s.threads| && s.threads[i] == Closing({})
    ensures Run(s, [Advance(i, Fails)]) == State(s.pool, s.threads[i := Ended])
  {
    Moved(s, i, Fails, s.pool, Ended);
  }

  lemma {:induction false} CloseOnward(s: State, i: nat, order: seq<Id>)
    requires i < |s.threads| && s.threads[i] == Closing(IdsIn(order))
    requires Enumerates(order, s.pool.conns.Keys)
    ensures Run(s, CloseMoves(i, order))
         == State(Pool(map[], s.pool.clients, s.pool.signals + Occurrences(s.pool.conns, order),
                       s.pool.closes + Occurrences(s.pool.conns, order)),
                  s.threads[i := Ended])
    decreases |order|
  {
    if order == [] {
      CloseEnds(s, i);
      assert s.pool.conns == map[];
    } else {
      var id, rest := order[0], order[1..];
      var round := [Advance(i, Next(id))] + [Advance(i, Fails), Advance(i, Fails), Advance(i, Fails)];
      RestOf(order, s.pool.conns);
      CloseRound(s, i, IdsIn(order), id);
      var c := s.pool.conns[id];
      var t := State(Pool(s.pool.conns - {id}, s.pool.clients, s.pool.signals + multiset{c},
                          s.pool.closes + multiset{c}),
                     s.threads[i := Closing(IdsIn(rest))]);
      CloseOnward(t, i, rest);
      RunOnFrom(s, round, CloseMoves(i, rest));
      UpdateTwice(s.threads, i, Closing(IdsIn(rest)), Ended);
      Regrouped(s.pool.signals, c, Occurrences(s.pool.conns, rest));
      Regrouped(s.pool.closes, c, Occurrences(s.pool.conns, rest));
    }
  }

  lemma Regrouped(a: multiset<Client>, c: Client, b: multiset<Client>)
    ensures (a + multiset{c}) + b == a + (multiset{c} + b)
  {
  }

  lemma RestOf(order: seq<Id>, conns: map<Id, Client>)
    requires order != [] && Enumerates(order, conns.Keys)
    ensures order[0] in conns && IdsIn(order) - {order[0]} == IdsIn(order[1..])
    ensures Enumerates(order[1..], (conns - {order[0]}).Keys)
    ensures Occurrences(conns - {order[0]}, order[1..]) == Occurrences(conns, order[1..])
    ensures Occurrences(conns, order) == multiset{conns[order[0]]} + Occurrences(conns, order[1..])
  {
    assert order[0] in IdsIn(order);
    assert order == [order[0]] + order[1..];
    SameOccurrences(conns, order[0], order[1..]);
  }

  lemma {:induction false} SameOccurrences(conns: map<Id, Client>, id: Id, rest: seq<Id>)
    requires id !in rest
    ensures Occurrences(conns - {id}, rest) == Occurrences(conns, rest)
  {
    if rest != [] {
      assert rest[0] in rest && forall x <- rest[1..] :: x in rest;
      SameOccurrences(conns, id, rest[1..]);
    }
  }

  lemma CloseStarts(s: State, choice: Choice)
    ensures Run(s, [Spawn(CloseStart), Advance(|s.threads|, choice)])
         == State(s.pool, s.threads + [Closing(s.pool.conns.Keys)])
  {
    FirstMove(s, CloseStart, choice, s.pool, Closing(s.pool.conns.Keys));
  }

  /**
   A Close nobody interferes with, in whatever order it takes the connections,
   empties the pool and closes each pooled client and its channel.
   */
  lemma CloseAlone(s: State, order: seq<Id>, choice: Choice)
    requires Enumerates(order, s.pool.conns.Keys)
    ensures var n, pooled := |s.threads|, Occurrences(s.pool.conns, order);
            Run(s, [Spawn(CloseStart), Advance(n, choice)] + CloseMoves(n, order))
            == State(Pool(map[], s.pool.clients, s.pool.signals + pooled, s.pool.closes + pooled),
                     s.threads + [Ended])
  {
    var n := |s.threads|;
    var first := [Spawn(CloseStart), Advance(n, choice)];
    CloseStarts(s, choice);
    CloseOnward(Run(s, first), n, order);
    RunOnFrom(s, first, CloseMoves(n, order));
    UpdateLast(s.threads, Closing(s.pool.conns.Keys), Ended);
  }

  // ---- Who dials ------------------------------------------------------------

  /** Action k of the run is the lookup of thread i, which finds the machine unpooled. */
  ghost predicate LookedUp(actions: seq<Action>, k: nat, i: nat, id: Id) {
    && k < |actions| && actions[k].Advance? && actions[k].thread == i
    && var s := Run(INITIAL, actions[..k]);
    && i < |s.threads| && s.threads[i] == GetStart(id) && id !in s.pool.conns
  }

  /** Over every run, a thread that dials a machine looked it up and found it unpooled. */
  lemma {:induction false} DialsOnlyUnpooled(actions: seq<Action>, i: nat, id: Id)
    requires var s := Run(INITIAL, actions); i < |s.threads| && s.threads[i] == Dialling(id)
    ensures exists k: nat :: LookedUp(actions, k, i, id)
  {
    if actions != [] {
      var n := |actions| - 1;
      var s := Run(INITIAL, actions[..n]);
      if i < |s.threads| && s.threads[i] == Dialling(id) {
        DialsOnlyUnpooled(actions[..n], i, id);
        var k: nat :| LookedUp(actions[..n], k, i, id);
        assert actions[..n][..k] == actions[..k];
        assert LookedUp(actions, k, i, id);
      } else {
        NewDialler(s, actions[n], i, id);
        assert LookedUp(actions, n, i, id);
      }
    }
  }

  lemma NewDialler(s: State, a: Action, i: nat, id: Id)
    requires i < |Step(s, a).threads| && Step(s, a).threads[i] == Dialling(id)
    requires !(i < |s.threads| && s.threads[i] == Dialling(id))
    ensures a.Advance? && a.thread == i && i < |s.threads|
    ensures s.threads[i] == GetStart(id) && id !in s.pool.conns
  {
  }

  /** Over every run, each dialled client was dialled by a Get that found its machine unpooled. */
  lemma {:induction false} EveryClientWasMissing(actions: seq<Action>, c: Client)
    requires c < |Run(INITIAL, actions).pool.clients|
    ensures exists k: nat, i: nat :: LookedUp(actions, k, i, Run(INITIAL, actions).pool.clients[c])
  {
    if actions != [] {
      var n := |actions| - 1;
      var s, t := Run(INITIAL, actions[..n]), Run(INITIAL, actions);
      if c < |s.pool.clients| {
        EveryClientWasMissing(actions[..n], c);
        ClientsStay(s, actions[n], c);
        var k: nat, i: nat :| LookedUp(actions[..n], k, i, s.pool.clients[c]);
        assert actions[..n][..k] == actions[..k];
        assert LookedUp(actions, k, i, t.pool.clients[c]);
      } else {
        NewClient(s, actions[n], c);
        var i := actions[n].thread;
        DialsOnlyUnpooled(actions[..n], i, t.pool.clients[c]);
        var k: nat :| LookedUp(actions[..n], k, i, t.pool.clients[c]);
        assert actions[..n][..k] == actions[..k];
        assert LookedUp(actions, k, i, t.pool.clients[c]);
      }
    }
  }

  lemma ClientsStay(s: State, a: Action, c: Client)
    requires c < |s.pool.clients|
    ensures c < |Step(s, a).pool.clients| && Step(s, a).pool.clients[c] == s.pool.clients[c]
  {
  }

  lemma NewClient(s: State, a: Action, c: Client)
    requires |s.pool.clients| <= c < |Step(s, a).pool.clients|
    ensures a.Advance? && a.thread < |s.threads| && s.threads[a.thread] == Dialling(Step(s, a).pool.clients[c])
  {
  }
}
