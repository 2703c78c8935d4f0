/**
 What the invariant means for host keys and for other machines' connections:
 who can change a pin, what a trust request can install, and whose connections a
 handler may close (internal/api/handlers.go:165-187, 504-543, 629-646;
 internal/api/server.go:191-215).
 */
module HostKeys {
  import opened Base
  import opened Text
  import opened FleetModel
  import opened FleetInvariants
  import CloudSync

  // ---- Which handlers touch host keys at all --------------------------------

  /** The pin of a machine survives whatever a dial presents, if there was one. */
  lemma ExecKeepsPin(f: Fleet, t: Target, net: Net, id: Id)
    requires id in f.db.hostKeys
    ensures var (g, e) := Exec(f, t, net);
            id in g.db.hostKeys && g.db.hostKeys[id].pin == f.db.hostKeys[id].pin
  {
  }

  lemma SyncKeepsKeys(f: Fleet, account: Id, listing: Option<seq<Instance>>)
    requires Inv(f) && Admissible(DoSync(account, listing))
    ensures Sync(f, account, listing).db.hostKeys == f.db.hostKeys
  {
    if account in f.db.accounts && listing.Some? {
      CloudSync.LoopReconciles(f, account, f.db.accounts[account], listing.value);
    }
  }

  lemma AbortedSyncKeepsKeys(f: Fleet, account: Id, reached: seq<Instance>)
    requires Inv(f) && Admissible(DoAbortedSync(account, reached))
    ensures AbortedSync(f, account, reached).db.hostKeys == f.db.hostKeys
  {
    if account in f.db.accounts {
      CloudSync.LoopReconciles(f, account, f.db.accounts[account], reached);
    }
  }

  /** Handlers that re-point a machine at another box, or delete it. */
  predicate ForgetsHost(f: Fleet, e: Event, id: Id) {
    match e
    case DoDeleteMachine(j) => j == id
    case DoUpdateMachine(j, input) =>
      j == id && id in f.db.machines && BoxChanged(f.db.machines[id], Normalize(input))
    case _ => false
  }

  predicate PinChangeExplained(f: Fleet, e: Event, id: Id, g: Fleet)
    requires id in f.db.hostKeys && id in f.presented
  {
    if id !in g.db.hostKeys then ForgetsHost(f, e, id)
    else g.db.hostKeys[id].pin != f.db.hostKeys[id].pin ==>
           e == DoTrust(id, f.presented[id]) && g.db.hostKeys[id].pin == f.presented[id]
  }

  /**
   A pin only changes by an explicit trust, and then only to the key the host
   presented last; it only disappears when the machine is deleted or re-pointed.
   */
  lemma PinChangesOnlyByTrust(f: Fleet, e: Event, id: Id)
    requires Inv(f) && Admissible(e) && id in f.db.hostKeys
    ensures PinChangeExplained(f, e, id, Step(f, e))
  {
    match e {
      case DoTrust(j, echoed) => TrustChangesPin(f, j, echoed, id);
      case DoUpdateMachine(j, input) => EditChangesPin(f, j, Normalize(input), id);
      case DoDeleteMachine(j) => assert Step(f, e).db.hostKeys == f.db.hostKeys - {j};
      case _ => OtherEventsKeepPin(f, e, id);
    }
  }

  lemma OtherEventsKeepPin(f: Fleet, e: Event, id: Id)
    requires Inv(f) && Admissible(e) && id in f.db.hostKeys
    requires !e.DoTrust? && !e.DoUpdateMachine? && !e.DoDeleteMachine?
    ensures id in Step(f, e).db.hostKeys && Step(f, e).db.hostKeys[id].pin == f.db.hostKeys[id].pin
  {
    match e {
      case DoProbe(j, net) => ProbeKeepsPin(f, j, net, id);
      case DoRunAction(j, admitted, audited, net) => SessionKeepsPin(f, j, admitted, audited, net, id);
      case DoOpenSession(j, admitted, audited, net) => SessionKeepsPin(f, j, admitted, audited, net, id);
      case DoReachCheck(j, net) => SessionKeepsPin(f, j, true, true, net, id);
      case DoSync(account, listing) => SyncKeepsKeys(f, account, listing);
      case DoAbortedSync(account, reached) => AbortedSyncKeepsKeys(f, account, reached);
      case DoCreateMachine(input) => AddKeepsKeys(f, Normalize(input));
      case DoPower(j, action, confirm, name, out) => PowerKeepsKeys(f, j, action, confirm, name, out);
      case _ =>
    }
  }

  lemma PowerKeepsKeys(
    f: Fleet, j: Id, action: PowerAction, confirm: bool, name: Str, out: PowerOutcome)
    ensures Power(f, j, action, confirm, name, out).db.hostKeys == f.db.hostKeys
  {
  }

  lemma AddKeepsKeys(f: Fleet, i: Input)
    ensures AddMachine(f, i).db.hostKeys == f.db.hostKeys
  {
  }

  lemma TrustChangesPin(f: Fleet, j: Id, echoed: Key, id: Id)
    requires KeyHistory(f) && id in f.db.hostKeys
    ensures PinChangeExplained(f, DoTrust(j, echoed), id, Trust(f, j, echoed))
  {
    assert RecordFits(f.db.hostKeys[id], f.presented[id]);
  }

  lemma EditChangesPin(f: Fleet, j: Id, i: Input, id: Id)
    requires id in f.db.hostKeys
    ensures var g := EditMachine(f, j, i);
            if id !in g.db.hostKeys then j == id && id in f.db.machines && BoxChanged(f.db.machines[id], i)
            else g.db.hostKeys[id] == f.db.hostKeys[id]
  {
    EditHostKeys(f, j, i);
  }

  lemma EditHostKeys(f: Fleet, j: Id, i: Input)
    ensures var keys := EditMachine(f, j, i).db.hostKeys;
            || keys == f.db.hostKeys
            || (keys == f.db.hostKeys - {j} && j in f.db.machines && BoxChanged(f.db.machines[j], i))
  {
    if j in f.db.machines {
      EditResult(f, j, i);
      var g := WithRow(f, j, EditedRow(f.db.machines[j], i));
      assert SetReach(Drop(g, j), j, ReachUnknown).db.hostKeys == f.db.hostKeys;
    }
  }

  lemma ProbeKeepsPin(f: Fleet, j: Id, net: Net, id: Id)
    requires id in f.db.hostKeys
    ensures id in Probe(f, j, net).db.hostKeys && Probe(f, j, net).db.hostKeys[id].pin == f.db.hostKeys[id].pin
  {
    if j in f.db.machines && f.db.machines[j].HasHost() {
      var t := ResolveTarget(j, f.db.machines[j], f.db.credentials);
      if t.Some? {
        ExecKeepsPin(Drop(f, j), t.value, net, id);
      }
    }
  }

  predicate SamePin(f: Fleet, g: Fleet, id: Id)
    requires id in f.db.hostKeys
  {
    id in g.db.hostKeys && g.db.hostKeys[id].pin == f.db.hostKeys[id].pin
  }

  lemma MarkKeepsPin(f: Fleet, g: Fleet, j: Id, r: Reach, id: Id)
    requires id in f.db.hostKeys && SamePin(f, g, id)
    ensures SamePin(f, SetReach(g, j, r), id) && SamePin(f, Drop(SetReach(g, j, r), j), id)
  {
  }

  lemma SessionKeepsPin(f: Fleet, j: Id, admitted: bool, audited: bool, net: Net, id: Id)
    requires id in f.db.hostKeys
    ensures SamePin(f, RunAction(f, j, admitted, audited, net), id)
    ensures SamePin(f, OpenSession(f, j, admitted, audited, net), id)
    ensures SamePin(f, ReachCheck(f, j, net), id)
  {
    if j in f.db.machines && f.db.machines[j].HasHost() {
      var t := ResolveTarget(j, f.db.machines[j], f.db.credentials);
      if t.Some? {
        ExecKeepsPin(f, t.value, net, id);
        var (g, e) := Exec(f, t.value, net);
        MarkKeepsPin(f, g, j, if e.Some? then ClassifyReach(e.value) else ReachOk, id);
        SessionResults(f, j, admitted, audited, net, t.value);
      }
    }
  }

  /** Trusting works exactly when the request echoes a pending key; then that key is pinned. */
  lemma TrustIff(f: Fleet, id: Id, echoed: Key)
    requires Inv(f) && id in f.db.hostKeys
    ensures var g := Trust(f, id, echoed);
            var pending := f.presented[id].fingerprint != f.db.hostKeys[id].pin.fingerprint;
            && (pending && echoed == f.presented[id] ==>
                  g.db.hostKeys[id] == HostKey(f.presented[id], NO_KEY) && id !in g.pool)
            && (!(pending && echoed == f.presented[id]) ==> g == f)
  {
    assert RecordFits(f.db.hostKeys[id], f.presented[id]);
  }

  /**
   In every reachable state a pinned host's record shows a pending key exactly
   when the key it presented last is not the pinned one, and then shows that key.
   */
  lemma RecordInReachableStates(events: seq<Event>, id: Id)
    requires forall e <- events :: Admissible(e)
    ensures var f := Run(EMPTY, events);
            id in f.db.hostKeys ==>
              && id in f.presented
              && f.db.hostKeys[id].seen.fingerprint != f.db.hostKeys[id].pin.fingerprint
              && (f.db.hostKeys[id].seen != NO_KEY <==>
                    f.presented[id].fingerprint != f.db.hostKeys[id].pin.fingerprint)
              && (f.db.hostKeys[id].seen != NO_KEY ==> f.db.hostKeys[id].seen == f.presented[id])
  {
    ReachableStates(events);
    var f := Run(EMPTY, events);
    assert id in f.db.hostKeys ==> RecordFits(f.db.hostKeys[id], f.presented[id]);
  }

  /** In every reachable state each pooled connection is the one a dial would make now. */
  lemma PoolInReachableStates(events: seq<Event>, id: Id)
    requires forall e <- events :: Admissible(e)
    ensures var f := Run(EMPTY, events);
            id in f.pool ==>
              && id in f.db.machines
              && ResolveTarget(id, f.db.machines[id], f.db.credentials) == Some(f.pool[id].target)
              && id in f.db.hostKeys
              && f.db.hostKeys[id].pin.fingerprint == f.pool[id].fingerprint
  {
    ReachableStates(events);
    var f := Run(EMPTY, events);
    assert id in f.pool ==> CoherentConn(f, id, f.pool[id]);
  }

  // ---- What a probe reports -------------------------------------------------

  /** The policy refuses the key this handshake shows. */
  predicate ShowsOtherKey(f: Fleet, id: Id, net: Net) {
    id in f.db.hostKeys && net.dial.Handshake? && net.dial.key.fingerprint != f.db.hostKeys[id].pin.fingerprint
  }

  /**
   An error that is taken for a changed key although the policy refused none: any
   handshake error that mentions a host key is, also when no key was shown.
   */
  predicate MismatchOutsidePolicy(f: Fleet, id: Id, net: Net) {
    || net.dial == NoAnswer(KeyMismatch)
    || (&& net.dial.Handshake? && !ShowsOtherKey(f, id, net)
        && (net.dial.failed == Some(KeyMismatch)
            || (net.dial.failed.None? && net.session == OpenFails(KeyMismatch))))
  }

  /** What a fresh dial and one command leave behind. */
  lemma FreshExec(f: Fleet, t: Target, net: Net)
    requires t.id !in f.pool
    ensures var (g, e) := Exec(f, t, net);
            && g.db.machines == f.db.machines
            && (e.None? ==> t.id in g.pool)
            && (e == Some(KeyMismatch) <==> ShowsOtherKey(f, t.id, net) || MismatchOutsidePolicy(f, t.id, net))
            && (ShowsOtherKey(f, t.id, net) ==> t.id in g.db.hostKeys && g.db.hostKeys[t.id].seen == net.dial.key)
  {
  }

  /**
   What a probe's verdict says of the state it leaves: "ok" exactly when a fresh
   connection is pooled, and "key changed" exactly when the host just showed a key
   other than the pinned one, which is then on record, or an error outside the
   policy was taken for that.
   */
  lemma ProbeVerdict(f: Fleet, id: Id, net: Net)
    requires Inv(f) && id in f.db.machines && f.db.machines[id].HasHost()
    ensures var g := Probe(f, id, net);
            && id in g.db.machines
            && (g.db.machines[id].reach == ReachOk <==> id in g.pool)
            && (g.db.machines[id].reach == ReachKeyChanged <==>
                  ShowsOtherKey(f, id, net) || MismatchOutsidePolicy(f, id, net))
            && (ShowsOtherKey(f, id, net) ==> id in g.db.hostKeys && g.db.hostKeys[id].seen == net.dial.key)
  {
    var d := Drop(f, id);
    var t := ResolveTarget(id, f.db.machines[id], f.db.credentials);
    assert t.Some? && t.value.id == id;
    FreshExec(d, t.value, net);
    var (g, e) := Exec(d, t.value, net);
    assert e.Some? ==> Probe(f, id, net) == SetReach(Drop(g, id), id, ClassifyReach(e.value));
  }

  /** A mismatch that is reported before any key was shown leaves nothing on record to trust. */
  lemma NothingToTrust(f: Fleet, id: Id, session: Session)
    requires Inv(f) && id in f.db.machines && f.db.machines[id].HasHost() && id !in f.db.hostKeys
    ensures var g := Probe(f, id, Net(NoAnswer(KeyMismatch), session));
            && id in g.db.machines && g.db.machines[id].reach == ReachKeyChanged
            && id !in g.db.hostKeys
            && forall echoed :: Trust(g, id, echoed) == g
  {
    ProbeVerdict(f, id, Net(NoAnswer(KeyMismatch), session));
  }

  // ---- Whose connections a handler may close --------------------------------

  /** The machines whose pooled connection a handler may open or close. */
  ghost predicate Touches(f: Fleet, e: Event, id: Id) {
    match e
    case DoUpdateMachine(j, _) => j == id
    case DoDeleteMachine(j) => j == id
    case DoProbe(j, _) => j == id
    case DoRunAction(j, _, _, _) => j == id
    case DoOpenSession(j, _, _, _) => j == id
    case DoReachCheck(j, _) => j == id
    case DoPower(j, _, _, _, _) => j == id
    case DoTrust(j, _) => j == id
    case DoKeepaliveEvicts(j) => j == id
    case DoDeleteCredential(c) => id in UsersOf(f.db.machines, c)
    case DoSync(account, _) => Rehosted(f, Step(f, e), account, id)
    case DoAbortedSync(account, _) => Rehosted(f, Step(f, e), account, id)
    case _ => false
  }

  /** A machine of the account whose host the sync moved. */
  predicate Rehosted(f: Fleet, g: Fleet, account: Id, id: Id) {
    && id in f.db.machines && f.db.machines[id].account == Some(account)
    && id in g.db.machines && g.db.machines[id].host != f.db.machines[id].host
  }

  predicate SameConnection(f: Fleet, g: Fleet, id: Id) {
    && (id in f.pool <==> id in g.pool)
    && (id in f.pool ==> f.pool[id] == g.pool[id])
  }

  /** Other machines' connections, and so their terminals, stay up. */
  lemma OthersStayConnected(f: Fleet, e: Event, id: Id)
    requires Inv(f) && Admissible(e) && !Touches(f, e, id)
    requires e.DoSync? && e.listing.Some? ==> CloudSync.DistinctIds(e.listing.value)
    requires e.DoAbortedSync? ==> CloudSync.DistinctIds(e.reached)
    ensures SameConnection(f, Step(f, e), id)
  {
    if e.DoSync? {
      if e.id in f.db.accounts && e.listing.Some? {
        SyncOthersConnected(f, e.id, e.listing.value, SyncAll(f, e.id, f.db.accounts[e.id], e.listing.value), id);
      }
    } else if e.DoAbortedSync? {
      if e.id in f.db.accounts {
        SyncOthersConnected(f, e.id, e.reached, Step(f, e), id);
      }
    } else {
      HandlersOthersConnected(f, e, id);
    }
  }

  lemma ExecOthersConnected(f: Fleet, t: Target, net: Net, id: Id)
    requires t.id != id
    ensures SameConnection(f, Exec(f, t, net).0, id)
  {
  }

  lemma EditOthersConnected(f: Fleet, j: Id, i: Input, id: Id)
    requires j != id
    ensures SameConnection(f, EditMachine(f, j, i), id)
  {
  }

  /** A handler's pool is what the broker left, possibly without the machine itself. */
  predicate PoolLeft(g: Fleet, h: Fleet, j: Id) {
    h.pool == g.pool || h.pool == g.pool - {j}
  }

  lemma PoolLeftConnected(f: Fleet, g: Fleet, h: Fleet, j: Id, id: Id)
    requires j != id && SameConnection(f, g, id) && PoolLeft(g, h, j)
    ensures SameConnection(f, h, id)
  {
  }

  /** What the broker left after a handler that uses the pooled connection. */
  function AfterExec(f: Fleet, j: Id, net: Net): Fleet {
    if j in f.db.machines && ResolveTarget(j, f.db.machines[j], f.db.credentials).Some? then
      Exec(f, ResolveTarget(j, f.db.machines[j], f.db.credentials).value, net).0
    else f
  }

  lemma AfterExecConnected(f: Fleet, j: Id, net: Net, id: Id)
    requires j != id
    ensures SameConnection(f, AfterExec(f, j, net), id)
  {
    if j in f.db.machines && ResolveTarget(j, f.db.machines[j], f.db.credentials).Some? {
      ExecOthersConnected(f, ResolveTarget(j, f.db.machines[j], f.db.credentials).value, net, id);
    }
  }

  predicate PoolFrom(f: Fleet, g: Fleet, h: Fleet, j: Id) {
    h.pool == f.pool || PoolLeft(g, h, j)
  }

  lemma PoolFromConnected(f: Fleet, g: Fleet, h: Fleet, j: Id, id: Id)
    requires j != id && SameConnection(f, g, id) && PoolFrom(f, g, h, j)
    ensures SameConnection(f, h, id)
  {
    if h.pool != f.pool {
      PoolLeftConnected(f, g, h, j, id);
    }
  }

  lemma SetReachPool(f: Fleet, id: Id, r: Reach)
    ensures SetReach(f, id, r).pool == f.pool
  {
  }

  lemma ProbePool(f: Fleet, j: Id, net: Net)
    ensures PoolFrom(f, AfterExec(Drop(f, j), j, net), Probe(f, j, net), j)
  {
    var t := if j in f.db.machines then ResolveTarget(j, f.db.machines[j], f.db.credentials) else None;
    if t.Some? {
      var (g, e) := Exec(Drop(f, j), t.value, net);
      var done := g.(db := g.db.(facts := g.db.facts + {j}));
      SetReachPool(done, j, ReachOk);
      if e.Some? {
        SetReachPool(Drop(g, j), j, ClassifyReach(e.value));
      }
    } else {
      SetReachPool(Drop(f, j), j, ReachUnknown);
    }
  }

  lemma RunActionPool(f: Fleet, j: Id, admitted: bool, audited: bool, net: Net)
    ensures PoolFrom(f, AfterExec(f, j, net), RunAction(f, j, admitted, audited, net), j)
  {
  }

  lemma OpenSessionPool(f: Fleet, j: Id, admitted: bool, audited: bool, net: Net)
    ensures PoolFrom(f, AfterExec(f, j, net), OpenSession(f, j, admitted, audited, net), j)
  {
  }

  lemma ReachCheckPool(f: Fleet, j: Id, net: Net)
    ensures PoolFrom(f, AfterExec(f, j, net), ReachCheck(f, j, net), j)
  {
    var t := if j in f.db.machines then ResolveTarget(j, f.db.machines[j], f.db.credentials) else None;
    if t.Some? && f.db.machines[j].HasHost() {
      var (g, e) := Exec(f, t.value, net);
      var r := if e.Some? then ClassifyReach(e.value) else ReachOk;
      SetReachPool(g, j, r);
      assert ReachCheck(f, j, net) == if e.Some? then Drop(SetReach(g, j, r), j) else SetReach(g, j, r);
    }
  }

  lemma HandlersOthersConnected(f: Fleet, e: Event, id: Id)
    requires !e.DoSync? && !e.DoAbortedSync? && !Touches(f, e, id)
    ensures SameConnection(f, Step(f, e), id)
  {
    match e {
      case DoProbe(j, net) =>
        ProbePool(f, j, net);
        AfterExecConnected(Drop(f, j), j, net, id);
        PoolFromConnected(f, AfterExec(Drop(f, j), j, net), Step(f, e), j, id);
      case DoRunAction(j, admitted, audited, net) =>
        RunActionPool(f, j, admitted, audited, net);
        AfterExecConnected(f, j, net, id);
        PoolFromConnected(f, AfterExec(f, j, net), Step(f, e), j, id);
      case DoOpenSession(j, admitted, audited, net) =>
        OpenSessionPool(f, j, admitted, audited, net);
        AfterExecConnected(f, j, net, id);
        PoolFromConnected(f, AfterExec(f, j, net), Step(f, e), j, id);
      case DoReachCheck(j, net) =>
        ReachCheckPool(f, j, net);
        AfterExecConnected(f, j, net, id);
        PoolFromConnected(f, AfterExec(f, j, net), Step(f, e), j, id);
      case DoUpdateMachine(j, input) => EditOthersConnected(f, j, Normalize(input), id);
      case _ =>
    }
  }

  lemma SyncOthersConnected(f: Fleet, account: Id, list: seq<Instance>, g: Fleet, id: Id)
    requires Inv(f) && account in f.db.accounts && CloudSync.RealIds(list) && CloudSync.DistinctIds(list)
    requires g == SyncAll(f, account, f.db.accounts[account], list) && !Rehosted(f, g, account, id)
    ensures SameConnection(f, g, id)
  {
    SyncKeepsConnection(f, account, f.db.accounts[account], list, id);
    if id in f.pool {
      assert CoherentConn(f, id, f.pool[id]);
    }
    if id in f.db.machines {
      CloudSync.LoopReconciles(f, account, f.db.accounts[account], list);
    }
  }

  /** One iteration closes a connection exactly when it moves that machine's host. */
  lemma SyncOneConnection(f: Fleet, account: Id, provider: Str, i: Instance, id: Id)
    requires Inv(f) && id in f.db.machines
    ensures var g := SyncOne(f, account, provider, i);
            && id in g.db.machines
            && (g.db.machines[id].host == f.db.machines[id].host ==> SameConnection(f, g, id))
            && (g.db.machines[id].host != f.db.machines[id].host ==> id !in g.pool)
  {
    if Known(f.db.machines, account, i.id) {
      RefreshConnection(f, account, i, Find(f.db.machines, account, i.id), id);
    }
  }

  /** A refreshed row loses its connection exactly when its host moves; no other row does. */
  lemma RefreshConnection(f: Fleet, account: Id, i: Instance, j: Id, id: Id)
    requires j in f.db.machines && id in f.db.machines
    ensures var m := f.db.machines[j];
            var g := WithRow(f, j, RefreshedRow(m, i));
            var h := if FollowHost(m.host, m.publicIp, i.publicIp) != m.host
                     then SetReach(Drop(g, j), j, ReachUnknown) else g;
            && id in h.db.machines
            && (h.db.machines[id].host == f.db.machines[id].host ==> SameConnection(f, h, id))
            && (h.db.machines[id].host != f.db.machines[id].host ==> id !in h.pool)
  {
  }

  lemma {:induction false} SyncKeepsConnection(f: Fleet, account: Id, provider: Str, list: seq<Instance>, id: Id)
    requires Inv(f) && account in f.db.accounts && CloudSync.RealIds(list) && CloudSync.DistinctIds(list)
    ensures var g := SyncAll(f, account, provider, list);
            && (id !in f.db.machines && id !in f.pool ==> id !in g.pool)
            && (id in f.db.machines ==>
                  && id in g.db.machines
                  && (g.db.machines[id].host == f.db.machines[id].host ==> SameConnection(f, g, id)))
  {
    LoopOnlyDrops(f, account, provider, list);
    if list != [] && id in f.db.machines {
      var n := |list| - 1;
      var s := SyncAll(f, account, provider, list[..n]);
      SyncKeepsConnection(f, account, provider, list[..n], id);
      CloudSync.LoopReconciles(f, account, provider, list[..n]);
      SyncOneConnection(s, account, provider, list[n], id);
      HostMovesOnce(f, account, provider, list, id);
    }
  }

  lemma {:induction false} LoopOnlyDrops(f: Fleet, account: Id, provider: Str, list: seq<Instance>)
    ensures SyncAll(f, account, provider, list).pool.Keys <= f.pool.Keys
  {
    if list != [] {
      LoopOnlyDrops(f, account, provider, list[..|list| - 1]);
    }
  }

  /** A row that ends on its old host was on it before the last iteration too. */
  lemma HostMovesOnce(f: Fleet, account: Id, provider: Str, list: seq<Instance>, id: Id)
    requires Inv(f) && account in f.db.accounts && CloudSync.RealIds(list) && CloudSync.DistinctIds(list)
    requires list != [] && id in f.db.machines
    ensures var s := SyncAll(f, account, provider, list[..|list| - 1]).db.machines;
            var g := SyncAll(f, account, provider, list).db.machines;
            id in s && id in g && (g[id].host == f.db.machines[id].host ==> s[id].host == f.db.machines[id].host)
  {
    CloudSync.NotYetReported(list);
    CloudSync.LastRowStep(f, account, provider, list, id);
  }
}
