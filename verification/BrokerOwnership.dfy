/**
 What every interleaving of Get, Drop, Close and the keepalives keeps: each
 dialled client is in exactly one place and is closed at most once.
 */
module BrokerOwnership {
  import opened Base
  import opened BrokerModel

  /** A client the pool knows was dialled for that machine and is still open. */
  ghost predicate ConnsSound(p: Pool) {
    forall id <- p.conns ::
      p.conns[id] < |p.clients| && p.clients[p.conns[id]] == id
      && p.conns[id] !in p.closes && p.conns[id] !in p.signals
  }

  /** Nothing is closed twice. */
  ghost predicate ClosedOnce(p: Pool) {
    && (forall c <- p.closes :: c < |p.clients| && p.closes[c] == 1)
    && (forall c <- p.signals :: c < |p.clients| && p.signals[c] == 1)
  }

  ghost predicate PoolSound(p: Pool) {
    ConnsSound(p) && ClosedOnce(p)
  }

  /** The client a thread alone is responsible for is open and in nobody else's hands. */
  ghost predicate HandsSound(p: Pool, pc: Pc) {
    Carried(pc).Some? ==>
      var c := Carried(pc).value;
      && c < |p.clients| && c !in p.closes
      && (p.clients[c] in p.conns ==> p.conns[p.clients[c]] != c)
      && (!pc.HangingUp? ==> c !in p.signals)
  }

  /** The clients a Get or a keepalive knows were dialled for its machine. */
  ghost predicate OwnClients(p: Pool, pc: Pc) {
    && ((pc.Holding? || pc.Losing? || pc.Got? || pc.Watching?) ==>
          pc.client < |p.clients| && p.clients[pc.client] == pc.id)
    && (pc.Losing? ==> pc.theirs < |p.clients| && p.clients[pc.theirs] == pc.id)
  }

  /** What one thread may rely on. */
  ghost predicate ThreadSound(p: Pool, pc: Pc) {
    HandsSound(p, pc) && OwnClients(p, pc)
  }

  ghost predicate ThreadsSound(s: State) {
    forall i :: 0 <= i < |s.threads| ==> ThreadSound(s.pool, s.threads[i])
  }

  /** No two threads are responsible for the same client. */
  ghost predicate NotShared(threads: seq<Pc>) {
    forall i, j :: 0 <= i < j < |threads| && Carried(threads[i]).Some? ==> Carried(threads[i]) != Carried(threads[j])
  }

  ghost predicate CarriedBySome(threads: seq<Pc>, c: Client) {
    exists i :: 0 <= i < |threads| && Carried(threads[i]) == Some(c)
  }

  /** No client is lost. */
  ghost predicate Accounted(s: State) {
    forall c :: 0 <= c < |s.pool.clients| ==>
      || (s.pool.clients[c] in s.pool.conns && s.pool.conns[s.pool.clients[c]] == c)
      || c in s.pool.closes
      || CarriedBySome(s.threads, c)
  }

  ghost predicate Inv(s: State) {
    PoolSound(s.pool) && ThreadsSound(s) && NotShared(s.threads) && Accounted(s)
  }

  lemma StepKeepsConns(p: Pool, pc: Pc, choice: Choice)
    requires PoolSound(p) && ThreadSound(p, pc)
    ensures ConnsSound(StepOf(p, pc, choice).pool)
  {
  }

  lemma StepClosesOnce(p: Pool, pc: Pc, choice: Choice)
    requires PoolSound(p) && ThreadSound(p, pc)
    ensures ClosedOnce(StepOf(p, pc, choice).pool)
  {
  }

  lemma StepKeepsPool(p: Pool, pc: Pc, choice: Choice)
    requires PoolSound(p) && ThreadSound(p, pc)
    ensures PoolSound(StepOf(p, pc, choice).pool)
  {
    StepKeepsConns(p, pc, choice);
    StepClosesOnce(p, pc, choice);
  }

  lemma StepKeepsHands(p: Pool, pc: Pc, choice: Choice)
    requires PoolSound(p) && ThreadSound(p, pc)
    ensures var e := StepOf(p, pc, choice); HandsSound(e.pool, e.pc)
  {
  }

  lemma StepKeepsClients(p: Pool, pc: Pc, choice: Choice)
    requires PoolSound(p) && OwnClients(p, pc)
    ensures var e := StepOf(p, pc, choice); OwnClients(e.pool, e.pc)
  {
  }

  /** The stepping thread knows what it holds. */
  lemma StepKeepsOwn(p: Pool, pc: Pc, choice: Choice)
    requires PoolSound(p) && ThreadSound(p, pc)
    ensures var e := StepOf(p, pc, choice); ThreadSound(e.pool, e.pc)
  {
    StepKeepsHands(p, pc, choice);
    StepKeepsClients(p, pc, choice);
  }

  /** And so does the goroutine it starts. */
  lemma StepStartsSound(p: Pool, pc: Pc, choice: Choice)
    requires PoolSound(p) && ThreadSound(p, pc)
    ensures var e := StepOf(p, pc, choice); e.started.Some? ==> ThreadSound(e.pool, e.started.value)
  {
  }

  /** The others are not disturbed, because they hold different clients. */
  lemma StepKeepsOther(p: Pool, pc: Pc, choice: Choice, other: Pc)
    requires PoolSound(p) && ThreadSound(p, pc) && ThreadSound(p, other)
    requires Carried(other).Some? ==> Carried(pc) != Carried(other)
    ensures ThreadSound(StepOf(p, pc, choice).pool, other)
  {
  }

  lemma StepSharesNothing(p: Pool, pc: Pc, choice: Choice, other: Pc)
    requires PoolSound(p) && ThreadSound(p, other)
    requires Carried(other).Some? ==> Carried(pc) != Carried(other)
    ensures var e := StepOf(p, pc, choice);
            && (Carried(other).Some? ==> Carried(e.pc) != Carried(other))
            && (e.started.Some? ==> Carried(e.started.value).None?)
  {
  }

  lemma StepKeepsThreads(s: State, i: nat, choice: Choice)
    requires Inv(s) && i < |s.threads|
    ensures var t := Applied(s, i, StepOf(s.pool, s.threads[i], choice)); ThreadsSound(t) && NotShared(t.threads)
  {
    var e := StepOf(s.pool, s.threads[i], choice);
    StepKeepsOwn(s.pool, s.threads[i], choice);
    StepStartsSound(s.pool, s.threads[i], choice);
    forall j: nat | j < |s.threads| && j != i
      ensures ThreadSound(e.pool, s.threads[j])
      ensures Carried(s.threads[j]).Some? ==> Carried(e.pc) != Carried(s.threads[j])
      ensures e.started.Some? ==> Carried(e.started.value).None?
    {
      StepKeepsOther(s.pool, s.threads[i], choice, s.threads[j]);
      StepSharesNothing(s.pool, s.threads[i], choice, s.threads[j]);
    }
  }

  /** In the pool, or closed. */
  ghost predicate PooledOrClosed(p: Pool, c: Client)
    requires c < |p.clients|
  {
    (p.clients[c] in p.conns && p.conns[p.clients[c]] == c) || c in p.closes
  }

  /** A step moves at most the client in the thread's hands, or picks one up. */
  lemma StepAccountsOwn(p: Pool, pc: Pc, choice: Choice, c: Client)
    requires PoolSound(p) && ThreadSound(p, pc) && c < |StepOf(p, pc, choice).pool.clients|
    requires c < |p.clients| ==> PooledOrClosed(p, c) || Carried(pc) == Some(c)
    ensures var e := StepOf(p, pc, choice); PooledOrClosed(e.pool, c) || Carried(e.pc) == Some(c)
  {
  }

  lemma StepAccounts(s: State, i: nat, choice: Choice, c: Client)
    requires Inv(s) && i < |s.threads| && c < |StepOf(s.pool, s.threads[i], choice).pool.clients|
    ensures var e := StepOf(s.pool, s.threads[i], choice);
            || PooledOrClosed(e.pool, c)
            || Carried(e.pc) == Some(c)
            || exists j :: 0 <= j < |s.threads| && j != i && Carried(s.threads[j]) == Some(c)
  {
    assert ThreadSound(s.pool, s.threads[i]);
    if c < |s.pool.clients| && !PooledOrClosed(s.pool, c) && Carried(s.threads[i]) != Some(c) {
      assert CarriedBySome(s.threads, c);
      var j :| 0 <= j < |s.threads| && Carried(s.threads[j]) == Some(c);
    } else {
      StepAccountsOwn(s.pool, s.threads[i], choice, c);
    }
  }

  lemma StepKeepsAccounts(s: State, i: nat, choice: Choice)
    requires Inv(s) && i < |s.threads|
    ensures Accounted(Applied(s, i, StepOf(s.pool, s.threads[i], choice)))
  {
    var e := StepOf(s.pool, s.threads[i], choice);
    var t := Applied(s, i, e);
    forall c | 0 <= c < |e.pool.clients| && Carried(e.pc) == Some(c) ensures CarriedBySome(t.threads, c) {
      assert t.threads[i] == e.pc;
    }
    forall c, j | 0 <= c < |e.pool.clients| && 0 <= j < |s.threads| && j != i && Carried(s.threads[j]) == Some(c)
      ensures CarriedBySome(t.threads, c)
    {
      assert t.threads[j] == s.threads[j];
    }
    forall c | 0 <= c < |e.pool.clients|
      ensures PooledOrClosed(e.pool, c) || CarriedBySome(t.threads, c)
    {
      StepAccounts(s, i, choice, c);
    }
  }

  lemma SpawnKeeps(s: State, pc: Pc)
    requires Inv(s) && Startable(pc)
    ensures Inv(s.(threads := s.threads + [pc]))
  {
    forall c: Client | CarriedBySome(s.threads, c) ensures CarriedBySome(s.threads + [pc], c) {
      var i :| 0 <= i < |s.threads| && Carried(s.threads[i]) == Some(c);
      assert (s.threads + [pc])[i] == s.threads[i];
    }
  }

  lemma StepKeeps(s: State, a: Action)
    requires Inv(s)
    ensures Inv(Step(s, a))
  {
    match a {
      case Spawn(pc) =>
        if Startable(pc) {
          SpawnKeeps(s, pc);
        }
      case Advance(i, choice) =>
        if i < |s.threads| {
          StepKeepsPool(s.pool, s.threads[i], choice);
          StepKeepsThreads(s, i, choice);
          StepKeepsAccounts(s, i, choice);
        }
    }
  }

  lemma {:induction false} RunKeeps(s: State, actions: seq<Action>)
    requires Inv(s)
    ensures Inv(Run(s, actions))
  {
    if actions != [] {
      RunKeeps(s, actions[..|actions| - 1]);
      StepKeeps(Run(s, actions[..|actions| - 1]), actions[|actions| - 1]);
    }
  }

  // ---- The properties over every run ----------------------------------------

  lemma PooledUnderItsMachine(s: State, c: Client)
    requires Inv(s) && c < |s.pool.clients|
    ensures Pooled(s, c) <==> s.pool.clients[c] in s.pool.conns && s.pool.conns[s.pool.clients[c]] == c
  {
    var own := s.pool.clients[c];
    if own in s.pool.conns && s.pool.conns[own] == c {
      assert Pooled(s, c);
    }
  }

  lemma PlacesAreDistinct(s: State, c: Client)
    requires Inv(s) && c < |s.pool.clients|
    ensures Places(s, c) == 1
  {
    PooledUnderItsMachine(s, c);
    assert CarriedBySome(s.threads, c) <==> HeldByGet(s, c) || BeingClosed(s, c);
    forall i: nat, j: nat | i < |s.threads| && j < |s.threads|
                            && Carried(s.threads[i]) == Some(c) && Carried(s.threads[j]) == Some(c)
      ensures i == j
    {
    }
    assert !(HeldByGet(s, c) && BeingClosed(s, c));
    forall i | 0 <= i < |s.threads| && Carried(s.threads[i]) == Some(c)
      ensures !Pooled(s, c) && !Closed(s, c)
    {
      assert ThreadSound(s.pool, s.threads[i]);
    }
  }

  /**
   Ownership: whatever the interleaving, each dialled client is in exactly one
   place, two machines never share one, and no client or done channel is closed twice.
   */
  lemma ExactlyOnePlace(actions: seq<Action>, c: Client)
    ensures var s := Run(INITIAL, actions);
            && (c < |s.pool.clients| ==> Places(s, c) == 1)
            && s.pool.closes[c] <= 1
            && s.pool.signals[c] <= 1
            && (forall a, b | a in s.pool.conns && b in s.pool.conns && s.pool.conns[a] == s.pool.conns[b] :: a == b)
  {
    RunKeeps(INITIAL, actions);
    var s := Run(INITIAL, actions);
    if c < |s.pool.clients| {
      PlacesAreDistinct(s, c);
    }
  }

  /** A Get hands out a client that was dialled for the machine it was asked for. */
  lemma GetReturnsItsOwn(actions: seq<Action>, i: nat)
    ensures var s := Run(INITIAL, actions);
            i < |s.threads| && s.threads[i].Got? ==>
              && s.threads[i].client < |s.pool.clients|
              && s.pool.clients[s.threads[i].client] == s.threads[i].id
  {
    RunKeeps(INITIAL, actions);
  }

  /** Nothing leaks: when all threads are done, a client that is not pooled is closed. */
  lemma QuietMeansPooledOrClosed(actions: seq<Action>, c: Client)
    ensures var s := Run(INITIAL, actions);
            Quiet(s) && c < |s.pool.clients| ==> (Pooled(s, c) <==> !Closed(s, c))
  {
    RunKeeps(INITIAL, actions);
    var s := Run(INITIAL, actions);
    if Quiet(s) && c < |s.pool.clients| {
      PlacesAreDistinct(s, c);
    }
  }
}
