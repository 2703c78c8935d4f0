/**
 Bulk runs (internal/api/bulk.go:41-141): which machines are targets, the escalated
 gate in front of the fan-out, and what each per-machine request looks like.
 */
module Bulk {
  import opened Base
  import opened Substitution
  import opened Render
  import opened Engine
  import opened Fanout
  import opened Numbers
  import FleetModel
  import Tags

  type Machine = FleetModel.Machine

  /** A machine as the store returns it: its row, with the tag column split. */
  datatype Target = Target(id: Id, machine: Machine, tags: Tags.TagList)

  /** The machines by id, and the order in which they are listed. */
  datatype Store = Store(machines: map<Id, Target>, order: seq<Id>)

  /** `group` holds the tags of the group the request names, if it names one. */
  datatype BulkInput = BulkInput(
    machineIds: seq<Id>, group: Option<Tags.TagList>, params: Values, confirm: bool, confirmText: Text)

  datatype BulkRefusal = NoTargets | ConfirmBulk(count: nat) | TypeCount(count: nat)

  const CONCURRENCY: nat := 5

  // ---- Targets --------------------------------------------------------------

  /** The listed machines that exist, in the order and as often as they are listed. */
  function Found(machines: map<Id, Target>, ids: seq<Id>): seq<Target> {
    if ids == [] then []
    else
      var n := |ids| - 1;
      Found(machines, ids[..n]) + if ids[n] in machines then [machines[ids[n]]] else []
  }

  function Reachable(candidates: seq<Target>): seq<Target> {
    if candidates == [] then []
    else
      var n := |candidates| - 1;
      Reachable(candidates[..n]) + if candidates[n].machine.HasHost() then [candidates[n]] else []
  }

  function TaggedOf(t: Target): Tags.Tagged {
    Tags.Tagged(t.id, t.tags)
  }

  /** The machines of a listing that carry all the tags. */
  function GroupMembers(all: seq<Target>, want: Tags.TagList): seq<Target> {
    if all == [] then []
    else
      var n := |all| - 1;
      GroupMembers(all[..n], want) + if Tags.Member(TaggedOf(all[n]), want) then [all[n]] else []
  }

  function Candidates(store: Store, input: BulkInput): seq<Target> {
    match input.group
    case Some(want) => GroupMembers(Found(store.machines, store.order), want)
    case None => Found(store.machines, input.machineIds)
  }

  function TargetsOf(store: Store, input: BulkInput): seq<Target> {
    Reachable(Candidates(store, input))
  }

  method FindMachines(machines: map<Id, Target>, ids: seq<Id>) returns (found: seq<Target>)
    ensures found == Found(machines, ids)
  {
    found := [];
    for i := 0 to |ids|
      invariant found == Found(machines, ids[..i])
    {
      var id := ids[i];
      if id in machines {
        found := found + [machines[id]];
      }
      assert ids[..i + 1][..i] == ids[..i];
    }
    assert ids[..|ids|] == ids;
  }

  method FindMembers(all: seq<Target>, want: Tags.TagList) returns (members: seq<Target>)
    ensures members == GroupMembers(all, want)
  {
    members := [];
    for i := 0 to |all|
      invariant members == GroupMembers(all[..i], want)
    {
      var carries := Tags.CarriesAll(TaggedOf(all[i]), want);
      if want != [] && carries {
        members := members + [all[i]];
      }
      assert all[..i + 1][..i] == all[..i];
    }
    assert all[..|all|] == all;
  }

  method ResolveTargets(store: Store, input: BulkInput) returns (targets: seq<Target>)
    ensures targets == TargetsOf(store, input)
  {
    var candidates;
    if input.group.Some? {
      var all := FindMachines(store.machines, store.order);
      candidates := FindMembers(all, input.group.value);
    } else {
      candidates := FindMachines(store.machines, input.machineIds);
    }
    targets := [];
    for i := 0 to |candidates|
      invariant targets == Reachable(candidates[..i])
    {
      if candidates[i].machine.HasHost() {
        targets := targets + [candidates[i]];
      }
      assert candidates[..i + 1][..i] == candidates[..i];
    }
    assert candidates[..|candidates|] == candidates;
  }

  function CountOf(ids: seq<Id>, id: Id): nat {
    if ids == [] then 0 else CountOf(ids[..|ids| - 1], id) + if ids[|ids| - 1] == id then 1 else 0
  }

  function Ids(targets: seq<Target>): seq<Id> {
    if targets == [] then [] else Ids(targets[..|targets| - 1]) + [targets[|targets| - 1].id]
  }

  lemma IdsSnoc(targets: seq<Target>, t: Target, id: Id)
    ensures CountOf(Ids(targets + [t]), id) == CountOf(Ids(targets), id) + if t.id == id then 1 else 0
  {
    assert (targets + [t])[..|targets|] == targets;
    var ids := Ids(targets);
    assert (ids + [t.id])[..|ids|] == ids;
  }

  lemma ReachableSnoc(candidates: seq<Target>, t: Target)
    ensures Reachable(candidates + [t]) == Reachable(candidates) + if t.machine.HasHost() then [t] else []
  {
    assert (candidates + [t])[..|candidates|] == candidates;
  }

  predicate KeyedById(machines: map<Id, Target>) {
    forall k <- machines :: machines[k].id == k
  }

  lemma FoundLast(machines: map<Id, Target>, ids: seq<Id>)
    requires ids != []
    ensures var n := |ids| - 1;
            Reachable(Found(machines, ids)) == Reachable(Found(machines, ids[..n]))
              + if ids[n] in machines && machines[ids[n]].machine.HasHost() then [machines[ids[n]]] else []
  {
    var n := |ids| - 1;
    var found := Found(machines, ids[..n]);
    if ids[n] in machines {
      ReachableSnoc(found, machines[ids[n]]);
    } else {
      assert found + [] == found;
    }
  }

  /** From an explicit list, a machine is a target as often as it is listed, if it exists and has a host. */
  lemma {:induction false} ListedTargets(machines: map<Id, Target>, ids: seq<Id>, id: Id)
    requires KeyedById(machines)
    ensures CountOf(Ids(Reachable(Found(machines, ids))), id)
         == if id in machines && machines[id].machine.HasHost() then CountOf(ids, id) else 0
  {
    if ids != [] {
      var n := |ids| - 1;
      ListedTargets(machines, ids[..n], id);
      FoundLast(machines, ids);
      OneMoreTarget(machines, Reachable(Found(machines, ids[..n])), ids[n], id);
    }
  }

  lemma OneMoreTarget(machines: map<Id, Target>, earlier: seq<Target>, last: Id, id: Id)
    requires KeyedById(machines)
    ensures var target := last in machines && machines[last].machine.HasHost();
            CountOf(Ids(earlier + if target then [machines[last]] else []), id)
            == CountOf(Ids(earlier), id) + if target && last == id then 1 else 0
  {
    if last in machines && machines[last].machine.HasHost() {
      IdsSnoc(earlier, machines[last], id);
    } else {
      assert earlier + [] == earlier;
    }
  }

  /** And every target is the machine as the store has it. */
  lemma {:induction false} TargetsAreCurrent(machines: map<Id, Target>, ids: seq<Id>, t: Target)
    requires KeyedById(machines) && t in Reachable(Found(machines, ids))
    ensures t.id in machines && t == machines[t.id] && t.machine.HasHost()
  {
    if ids != [] {
      var n := |ids| - 1;
      FoundLast(machines, ids);
      if t in Reachable(Found(machines, ids[..n])) {
        TargetsAreCurrent(machines, ids[..n], t);
      } else {
        assert t == machines[ids[n]] && t.id == ids[n];
      }
    }
  }

  function AllTagged(ts: seq<Target>): seq<Tags.Tagged> {
    if ts == [] then [] else AllTagged(ts[..|ts| - 1]) + [TaggedOf(ts[|ts| - 1])]
  }

  /** A group's members are those the group match selects from the table, in its order. */
  lemma {:induction false} MembersAreMatching(all: seq<Target>, want: Tags.TagList)
    ensures AllTagged(GroupMembers(all, want)) == Tags.Matching(AllTagged(all), want)
  {
    if all != [] {
      var n := |all| - 1;
      MembersAreMatching(all[..n], want);
      Tags.MatchingStep(AllTagged(all[..n]), TaggedOf(all[n]), want);
      var earlier := GroupMembers(all[..n], want);
      if Tags.Member(TaggedOf(all[n]), want) {
        assert (earlier + [all[n]])[..|earlier|] == earlier;
      } else {
        assert earlier + [] == earlier;
      }
    }
  }

  // ---- The escalated gate ---------------------------------------------------

  function BulkGate(danger: int, n: nat, input: BulkInput): Option<BulkRefusal> {
    if n == 0 then Some(NoTargets)
    else if danger == READ then (if !input.confirm then Some(ConfirmBulk(n)) else None)
    else if input.confirmText != Itoa(n) then Some(TypeCount(n))
    else None
  }

  /** The text that authorises a write on n hosts authorises no other number. */
  lemma CountIsExact(danger: int, n: nat, m: nat, input: BulkInput)
    requires danger != READ
    ensures BulkGate(danger, n, input) == None && BulkGate(danger, m, input) == None ==> n == m
  {
    if input.confirmText == Itoa(n) == Itoa(m) {
      ItoaInjective(n, m);
    }
  }

  // ---- The run --------------------------------------------------------------

  /** Each machine's own name satisfies the engine's gate. */
  function RequestFor(t: Target, action: Text, input: BulkInput, actor: Text): Request {
    Request(t.id, action, input.params, true, t.machine.name, actor)
  }

  /** The goroutines a bulk request starts, or why it starts none. */
  function StartBulk(act: Action, store: Store, input: BulkInput): Result<Fan<Target, Reply>, BulkRefusal> {
    var targets := TargetsOf(store, input);
    var refused := BulkGate(act.danger, |targets|, input);
    if refused.Some? then Err(refused.value) else Ok(Start(targets))
  }

  function RunBulk(
    act: Action, store: Store, input: BulkInput, moves: seq<Move<Reply>>): seq<Execution<Target>>
  {
    match StartBulk(act, store, input)
    case Err(_) => []
    case Ok(fan) => Run(fan, moves, CONCURRENCY).started
  }

  predicate Authorised(danger: int, n: nat, input: BulkInput) {
    && n > 0
    && (danger == READ ==> input.confirm)
    && (danger != READ ==> input.confirmText == Itoa(n))
  }

  /**
   Nothing executes unless the gate passed for the number of targets; and then,
   under any schedule, each target at most once and at most five at a time.
   */
  lemma NothingBeforeTheGate(act: Action, store: Store, input: BulkInput, moves: seq<Move<Reply>>)
    ensures RunBulk(act, store, input, moves) != [] ==>
              Authorised(act.danger, |TargetsOf(store, input)|, input)
    ensures StartBulk(act, store, input).Ok? ==>
              InFlight(Run(StartBulk(act, store, input).value, moves, CONCURRENCY).threads) <= 5
    ensures forall i: nat :: Times(RunBulk(act, store, input, moves), i) <= 1
    ensures forall e <- RunBulk(act, store, input, moves) ::
              e.index < |TargetsOf(store, input)| && e.target == TargetsOf(store, input)[e.index]
  {
    forall i: nat ensures Times(RunBulk(act, store, input, moves), i) <= 1 {
      BoundedAndOnce<Target, Reply>(TargetsOf(store, input), moves, CONCURRENCY, i);
    }
    BoundedAndOnce<Target, Reply>(TargetsOf(store, input), moves, CONCURRENCY, 0);
  }

  /** What one bulk execution asks passes the tiers 0 to 2 of the engine's own gate, and no other. */
  lemma BulkRequestsPassTheirTier(t: Target, act: Action, input: BulkInput, actor: Text)
    ensures Gate(act.danger, t.machine.name, RequestFor(t, act.id, input, actor)) == None
            <==> READ <= act.danger <= DISRUPTIVE
  {
  }

  /** The gate opens exactly for a confirmed read or the typed number of hosts, and says what it misses. */
  lemma StartsIff(act: Action, store: Store, input: BulkInput)
    ensures var n := |TargetsOf(store, input)|;
            var r := StartBulk(act, store, input);
            && (r.Ok? <==> n > 0 && if act.danger == 0 then input.confirm else input.confirmText == Itoa(n))
            && (r.Err? ==> r.error == if n == 0 then NoTargets else if act.danger == 0 then ConfirmBulk(n)
                                      else TypeCount(n))
            && (r.Ok? ==> |r.value.threads| == n)
  {
  }

  /** What the executions ask of the engine, in the order they were started. */
  function RequestsMade(started: seq<Execution<Target>>, action: Text, input: BulkInput, actor: Text): seq<Request> {
    if started == [] then []
    else
      var n := |started| - 1;
      RequestsMade(started[..n], action, input, actor) + [RequestFor(started[n].target, action, input, actor)]
  }

  /** A request to run this action with these parameters on that machine, confirmed in its own name. */
  predicate Asks(req: Request, t: Target, action: Text, input: BulkInput, actor: Text) {
    && req.machine == t.id && req.action == action && req.params == input.params && req.actor == actor
    && req.confirm && req.confirmName == t.machine.name
  }

  lemma {:induction false} RequestsAskForTargets(
    started: seq<Execution<Target>>, action: Text, input: BulkInput, actor: Text)
    ensures var made := RequestsMade(started, action, input, actor);
            && |made| == |started|
            && forall k :: 0 <= k < |made| ==> Asks(made[k], started[k].target, action, input, actor)
  {
    if started != [] {
      RequestsAskForTargets(started[..|started| - 1], action, input, actor);
    }
  }

  lemma {:induction false} FoundIff(machines: map<Id, Target>, ids: seq<Id>, t: Target)
    requires KeyedById(machines)
    ensures t in Found(machines, ids) <==> t.id in ids && t.id in machines && machines[t.id] == t
    decreases |ids|
  {
    if ids != [] {
      var n := |ids| - 1;
      FoundIff(machines, ids[..n], t);
      assert ids == ids[..n] + [ids[n]];
      assert ids[n] in machines ==> machines[ids[n]].id == ids[n];
      if ids[n] !in machines {
        assert Found(machines, ids) == Found(machines, ids[..n]);
      } else {
        assert Found(machines, ids) == Found(machines, ids[..n]) + [machines[ids[n]]];
      }
    }
  }

  lemma {:induction false} ReachableIff(candidates: seq<Target>, t: Target)
    ensures t in Reachable(candidates) <==> t in candidates && t.machine.HasHost()
  {
    if candidates != [] {
      var n := |candidates| - 1;
      ReachableIff(candidates[..n], t);
      assert candidates == candidates[..n] + [candidates[n]];
    }
  }

  lemma {:induction false} GroupMembersIff(all: seq<Target>, want: Tags.TagList, t: Target)
    ensures t in GroupMembers(all, want) <==> t in all && want != [] && forall w <- want :: w in t.tags
  {
    if all != [] {
      var n := |all| - 1;
      GroupMembersIff(all[..n], want, t);
      assert all == all[..n] + [all[n]];
    }
  }

  /**
   Who is a target: a machine of the store with an address, a user and a credential
   that carries all tags of the group, if the request names one, or else is listed.
   */
  lemma TargetsIff(store: Store, input: BulkInput, t: Target)
    requires KeyedById(store.machines)
    ensures t in TargetsOf(store, input) <==>
              && t.id in store.machines && store.machines[t.id] == t
              && t.machine.host != "" && t.machine.user != "" && t.machine.credential.Some?
              && match input.group
                 case Some(want) => t.id in store.order && want != [] && forall w <- want :: w in t.tags
                 case None => t.id in input.machineIds
  {
    FoundIff(store.machines, input.machineIds, t);
    FoundIff(store.machines, store.order, t);
    ReachableIff(Candidates(store, input), t);
    if input.group.Some? {
      GroupMembersIff(Found(store.machines, store.order), input.group.value, t);
    }
  }
}
