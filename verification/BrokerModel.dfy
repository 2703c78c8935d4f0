/**
 The connection broker under concurrency (internal/sshx/broker.go:82-188): every
 goroutine is a program counter, every critical section and every channel or
 client operation outside the lock is one step, and any thread may step next.
 */
module BrokerModel {
  import opened Base

  type Id = int

  /** A dialled client is named by the position of its dial. */
  type Client = nat

  /**
   What the goroutines share. `clients[c]` is the machine client c was dialled
   for; `signals` and `closes` count the close calls on done channels and clients.
   */
  datatype Pool = Pool(conns: map<Id, Client>, clients: seq<Id>, signals: multiset<Client>, closes: multiset<Client>)

  const FRESH := Pool(map[], [], multiset{}, multiset{})

  /** What a drop returns to: its caller, or the loop of Close over the ids left. */
  datatype After = Return | KeepClosing(ids: set<Id>)

  datatype Pc =
    | GetStart(id: Id)
    | Dialling(id: Id)
    | Holding(id: Id, client: Client)
    | Losing(id: Id, client: Client, theirs: Client)
    | Got(id: Id, client: Client)
    | DropStart(id: Id, after: After)
    | Signalling(client: Client, after: After)
    | HangingUp(client: Client, after: After)
    | CloseStart
    | Closing(ids: set<Id>)
    | Watching(id: Id, client: Client)
    | Ended

  datatype State = State(pool: Pool, threads: seq<Pc>)

  const INITIAL := State(FRESH, [])

  /** The outcome of a dial or a keepalive, and the map iteration order of Close. */
  datatype Choice = Succeeds | Fails | Next(id: Id)

  datatype Action = Spawn(pc: Pc) | Advance(thread: nat, choice: Choice)

  function Resume(after: After): Pc {
    match after
    case Return => Ended
    case KeepClosing(ids) => Closing(ids)
  }

  // ---- Effects on the shared pool -------------------------------------------

  function Dialled(p: Pool, id: Id): Pool {
    p.(clients := p.clients + [id])
  }

  function Installed(p: Pool, id: Id, c: Client): Pool {
    p.(conns := p.conns[id := c])
  }

  function Removed(p: Pool, id: Id): Pool {
    p.(conns := p.conns - {id})
  }

  /** close(c.done) */
  function Signalled(p: Pool, c: Client): Pool {
    p.(signals := p.signals + multiset{c})
  }

  /** client.Close() */
  function HungUp(p: Pool, c: Client): Pool {
    p.(closes := p.closes + multiset{c})
  }

  // ---- One step of one thread -----------------------------------------------

  /** The new pool, the thread's new counter, and the goroutine it starts, if any. */
  datatype Effect = Effect(pool: Pool, pc: Pc, started: Option<Pc>)

  function StepOf(p: Pool, pc: Pc, choice: Choice): Effect {
    match pc
    case GetStart(id) =>
      Effect(p, if id in p.conns then Got(id, p.conns[id]) else Dialling(id), None)
    case Dialling(id) =>
      if choice.Succeeds? then Effect(Dialled(p, id), Holding(id, |p.clients|), None)
      else Effect(p, Ended, None)
    case Holding(id, c) =>
      if id in p.conns then Effect(p, Losing(id, c, p.conns[id]), None)
      else Effect(Installed(p, id, c), Got(id, c), Some(Watching(id, c)))
    case Losing(id, c, theirs) =>
      Effect(HungUp(p, c), Got(id, theirs), None)
    case DropStart(id, after) =>
      if id in p.conns then Effect(Removed(p, id), Signalling(p.conns[id], after), None)
      else Effect(p, Resume(after), None)
    case Signalling(c, after) =>
      Effect(Signalled(p, c), HangingUp(c, after), None)
    case HangingUp(c, after) =>
      Effect(HungUp(p, c), Resume(after), None)
    case CloseStart =>
      Effect(p, Closing(p.conns.Keys), None)
    case Closing(ids) =>
      if ids == {} then Effect(p, Ended, None)
      else if choice.Next? && choice.id in ids then
        Effect(p, DropStart(choice.id, KeepClosing(ids - {choice.id})), None)
      else Effect(p, pc, None)
    case Watching(id, c) =>
      // A failed or missing reply drops whatever is pooled under the id by then.
      if choice.Fails? then Effect(p, DropStart(id, Return), None)
      else if c in p.signals then Effect(p, Ended, None)
      else Effect(p, pc, None)
    case Got(_, _) => Effect(p, pc, None)
    case Ended => Effect(p, pc, None)
  }

  function Applied(s: State, i: nat, e: Effect): State
    requires i < |s.threads|
  {
    State(e.pool, s.threads[i := e.pc] + if e.started.Some? then [e.started.value] else [])
  }

  /** What callers may start at any time: a Get, a Drop (also withDeadline's and Exec's), a Close. */
  predicate Startable(pc: Pc) {
    pc.GetStart? || (pc.DropStart? && pc.after.Return?) || pc.CloseStart?
  }

  function Step(s: State, a: Action): State {
    match a
    case Spawn(pc) => if Startable(pc) then s.(threads := s.threads + [pc]) else s
    case Advance(i, choice) =>
      if i < |s.threads| then Applied(s, i, StepOf(s.pool, s.threads[i], choice)) else s
  }

  function Run(s: State, actions: seq<Action>): State {
    if actions == [] then s else Step(Run(s, actions[..|actions| - 1]), actions[|actions| - 1])
  }

  // ---- Where a client is ----------------------------------------------------

  /** The client a thread alone is responsible for. */
  function Carried(pc: Pc): Option<Client> {
    match pc
    case Holding(_, c) => Some(c)
    case Losing(_, c, _) => Some(c)
    case Signalling(c, _) => Some(c)
    case HangingUp(c, _) => Some(c)
    case _ => None
  }

  /** Held by a Get that dialled it and has neither pooled nor closed it yet. */
  ghost predicate HeldByGet(s: State, c: Client) {
    exists i :: 0 <= i < |s.threads| && (s.threads[i].Holding? || s.threads[i].Losing?) && s.threads[i].client == c
  }

  ghost predicate Pooled(s: State, c: Client) {
    exists id <- s.pool.conns :: s.pool.conns[id] == c
  }

  /** Removed from the pool, with the closing thread still on its way. */
  ghost predicate BeingClosed(s: State, c: Client) {
    exists i :: 0 <= i < |s.threads| && (s.threads[i].Signalling? || s.threads[i].HangingUp?)
                && s.threads[i].client == c
  }

  predicate Closed(s: State, c: Client) {
    c in s.pool.closes
  }

  ghost function Places(s: State, c: Client): nat {
    (if HeldByGet(s, c) then 1 else 0) + (if Pooled(s, c) then 1 else 0)
    + (if BeingClosed(s, c) then 1 else 0) + (if Closed(s, c) then 1 else 0)
  }

  /** No thread has anything left to do; idle keepalives may remain. */
  predicate Quiet(s: State) {
    forall i :: 0 <= i < |s.threads| ==> s.threads[i].Ended? || s.threads[i].Got? || s.threads[i].Watching?
  }

  /** A Get that may still put a client into the pool; one that lost the race cannot. */
  predicate MayPool(pc: Pc) {
    pc.GetStart? || pc.Dialling? || pc.Holding?
  }

  predicate NonePools(s: State) {
    forall i :: 0 <= i < |s.threads| ==> !MayPool(s.threads[i])
  }
}
