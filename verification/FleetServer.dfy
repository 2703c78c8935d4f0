/**
 The server as the source has it: tables and pool are fields, handlers overwrite
 them step by step, loops included. Every method is tied to the transition of the
 same name in FleetModel, for which FleetInvariants proves what holds over all runs.
 */
module FleetServer {
  import opened Base
  import opened Text
  import opened FleetModel
  import opened FleetInvariants
  import CloudSync
  import Tags

  class Server {
    var machines: map<Id, Machine>
    var hostKeys: map<Id, HostKey>
    var facts: set<Id>
    var credentials: set<Id>
    var accounts: map<Id, Str>
    var nextMachine: Id
    var nextCredential: Id
    var nextAccount: Id
    /** The broker's map of live connections. */
    var conns: map<Id, Conn>
    /** The last key each host presented; only the proof looks at it. */
    ghost var presented: map<Id, Key>

    ghost function State(): Fleet
      reads this
    {
      Fleet(Db(machines, hostKeys, facts, credentials, accounts, nextMachine, nextCredential, nextAccount),
            conns, presented)
    }

    ghost predicate Valid()
      reads this
    {
      Inv(State())
    }

    constructor ()
      ensures Valid() && State() == EMPTY
    {
      machines, hostKeys, facts := map[], map[], {};
      credentials, accounts := {}, map[];
      nextMachine, nextCredential, nextAccount := 1, 1, 1;
      conns, presented := map[], map[];
    }

    // ---- Broker and store primitives ----------------------------------------

    method Drop(id: Id)
      modifies this
      ensures State() == FleetModel.Drop(old(State()), id)
    {
      conns := conns - {id};
    }

    method SetReach(id: Id, r: Reach)
      modifies this
      ensures State() == FleetModel.SetReach(old(State()), id, r)
    {
      if id in machines {
        machines := machines[id := machines[id].(reach := r)];
      }
    }

    method ResetHostIdentity(id: Id)
      modifies this
      ensures State() == ResetIdentity(old(State()), id)
    {
      hostKeys := hostKeys - {id};
      facts := facts - {id};
      presented := presented - {id};
    }

    /** `hostKeyPolicy` as the callback of one handshake. */
    method CheckHostKey(id: Id, key: Key) returns (ok: bool)
      modifies this
      ensures (State(), ok) == CheckKey(old(State()), id, key)
    {
      presented := presented[id := key];
      if id !in hostKeys {
        hostKeys := hostKeys[id := HostKey(key, NO_KEY)];
        return true;
      }
      if hostKeys[id].pin.fingerprint != key.fingerprint {
        hostKeys := hostKeys[id := hostKeys[id].(seen := key)];
        return false;
      }
      if hostKeys[id].seen.fingerprint != "" {
        hostKeys := hostKeys[id := hostKeys[id].(seen := NO_KEY)];
      }
      return true;
    }

    method GetClient(t: Target, dial: Dial) returns (failure: Option<Failure>)
      modifies this
      ensures (State(), failure) == Get(old(State()), t, dial)
    {
      if t.id in conns {
        return None;
      }
      if dial.NoAnswer? {
        return Some(dial.failure);
      }
      var accepted := CheckHostKey(t.id, dial.key);
      if !accepted {
        return Some(KeyMismatch);
      }
      if dial.failed.Some? {
        return dial.failed;
      }
      conns := conns[t.id := Conn(t, dial.key.fingerprint)];
      return None;
    }

    method ExecOn(t: Target, net: Net) returns (failure: Option<Failure>)
      modifies this
      ensures (State(), failure) == Exec(old(State()), t, net)
    {
      failure := GetClient(t, net.dial);
      if failure.Some? {
        return;
      }
      match net.session {
        case OpenFails(e) =>
          Drop(t.id);
          failure := Some(e);
        case StartExpires =>
          Drop(t.id);
          failure := Some(TimeoutFailure);
        case Breaks =>
          failure := Some(OtherFailure);
        case Completes =>
      }
    }

    // ---- Machines -----------------------------------------------------------

    method InsertRow(row: Machine) returns (id: Id)
      modifies this
      ensures id == old(nextMachine)
      ensures State() == old(State()).(db := InsertMachine(old(State()).db, row))
    {
      id := nextMachine;
      machines := machines[id := Defaulted(row)];
      nextMachine := nextMachine + 1;
    }

    /** The constraint check of the table, on the fields. */
    predicate RowFits(id: Id, row: Machine)
      reads this
      ensures RowFits(id, row) == RowAllowed(State().db, id, row)
    {
      && (row.credential.Some? ==> row.credential.value in credentials)
      && (row.account.Some? ==> row.account.value in accounts)
      && (row.account.Some? && row.instance != "" ==>
            forall j <- machines :: j != id ==>
              !(machines[j].account == row.account && machines[j].instance == row.instance))
    }

    method AddRow(i: Input) returns (ok: bool)
      modifies this
      ensures State() == AddMachine(old(State()), i)
      ensures ok <==> FleetModel.Valid(i) && RowAllowed(old(State()).db, old(nextMachine), NewMachine(i))
    {
      ok := FleetModel.Valid(i) && RowFits(nextMachine, NewMachine(i));
      if ok {
        var _ := InsertRow(NewMachine(i));
      }
    }

    method PostMachine(input: Input) returns (ok: bool)
      modifies this
      ensures State() == CreateMachine(old(State()), input)
      ensures !ok ==> State() == old(State())
    {
      var i := Normalize(input);
      ok := AddRow(i);
    }

    /** The second half of a PUT, on normalised input. */
    method EditRow(id: Id, i: Input)
      modifies this
      ensures State() == EditMachine(old(State()), id, i)
    {
      if id !in machines || !FleetModel.Valid(i) {
        return;
      }
      var m := machines[id];
      var boxChanged := m.host != i.host || m.port != i.port;
      var sessionChanged := boxChanged || m.user != i.user || m.credential != i.credential;
      if !RowFits(id, EditedRow(m, i)) {
        return;
      }
      machines := machines[id := EditedRow(m, i)];
      if sessionChanged {
        Drop(id);
        SetReach(id, ReachUnknown);
      }
      if boxChanged {
        ResetHostIdentity(id);
      }
    }

    method PutMachine(id: Id, input: Input)
      modifies this
      ensures State() == UpdateMachine(old(State()), id, input)
    {
      var i := Normalize(input);
      EditRow(id, i);
    }

    method RemoveMachine(id: Id)
      modifies this
      ensures State() == DeleteMachine(old(State()), id)
    {
      Drop(id);
      machines := machines - {id};
      ResetHostIdentity(id);
    }

    method ProbeMachine(id: Id, net: Net)
      modifies this
      ensures State() == Probe(old(State()), id, net)
    {
      if id !in machines || !machines[id].HasHost() {
        return;
      }
      var target := ResolveTarget(id, machines[id], credentials);
      Drop(id);
      if target.None? {
        SetReach(id, ReachUnknown);
        return;
      }
      var e := ExecOn(target.value, net);
      if e.Some? {
        Drop(id);
        SetReach(id, ClassifyReach(e.value));
        return;
      }
      facts := facts + {id};
      SetReach(id, ReachOk);
    }

    method PostAction(id: Id, admitted: bool, audited: bool, net: Net)
      modifies this
      ensures State() == RunAction(old(State()), id, admitted, audited, net)
    {
      if !admitted || id !in machines || !machines[id].HasHost() {
        return;
      }
      var target := ResolveTarget(id, machines[id], credentials);
      if target.None? {
        return;
      }
      var e := ExecOn(target.value, net);
      if audited && e.Some? && ClassifyReach(e.value) != ReachUnknown {
        SetReach(id, ClassifyReach(e.value));
        Drop(id);
      }
    }

    method OpenTerminal(id: Id, admitted: bool, audited: bool, net: Net)
      modifies this
      ensures State() == OpenSession(old(State()), id, admitted, audited, net)
    {
      if !admitted || id !in machines || !machines[id].HasHost() {
        return;
      }
      var target := ResolveTarget(id, machines[id], credentials);
      if target.None? {
        return;
      }
      var e := ExecOn(target.value, net);
      if e.Some? {
        SetReach(id, ClassifyReach(e.value));
      } else if audited {
        SetReach(id, ReachOk);
      }
    }

    method CheckReach(id: Id, net: Net)
      modifies this
      ensures State() == ReachCheck(old(State()), id, net)
    {
      if id !in machines || !machines[id].HasHost() {
        return;
      }
      var target := ResolveTarget(id, machines[id], credentials);
      if target.None? {
        return;
      }
      var e := ExecOn(target.value, net);
      if e.Some? {
        SetReach(id, ClassifyReach(e.value));
        Drop(id);
      } else {
        SetReach(id, ReachOk);
      }
    }

    method TrustHostKey(id: Id, echoed: Key)
      modifies this
      ensures State() == Trust(old(State()), id, echoed)
    {
      if id !in hostKeys || hostKeys[id].seen.fingerprint == "" || echoed != hostKeys[id].seen {
        return;
      }
      hostKeys := hostKeys[id := HostKey(hostKeys[id].seen, NO_KEY)];
      Drop(id);
      SetReach(id, ReachUnknown);
    }

    method PowerMachine(id: Id, action: PowerAction, confirm: bool, confirmName: Str, out: PowerOutcome)
      modifies this
      ensures State() == Power(old(State()), id, action, confirm, confirmName, out)
    {
      if id !in machines || !machines[id].HasCloud() {
        return;
      }
      if !PowerConfirmed(machines[id], action, confirm, confirmName) || out.NotAccepted? {
        return;
      }
      Drop(id);
      if out.state.Some? {
        machines := machines[id := machines[id].(power := out.state.value)];
      }
    }

    // ---- Credentials --------------------------------------------------------

    method PostCredential()
      modifies this
      ensures State() == CreateCredential(old(State()))
    {
      credentials := credentials + {nextCredential};
      nextCredential := nextCredential + 1;
    }

    method PostAccount(provider: Str)
      modifies this
      ensures State() == CreateAccount(old(State()), provider)
    {
      accounts := accounts[nextAccount := provider];
      nextAccount := nextAccount + 1;
    }

    /** Drops one connection at a time, as a deleted credential requires. */
    method DropAll(ids: set<Id>)
      modifies this
      ensures State() == old(State()).(pool := old(conns) - ids)
    {
      var todo := ids;
      while todo != {}
        invariant todo <= ids
        invariant State() == old(State()).(pool := old(conns) - (ids - todo))
        decreases todo
      {
        EmptyWhenNoneIn(todo);
        var id :| id in todo;
        Drop(id);
        todo := todo - {id};
      }
    }

    /** Lists the users first, then deletes (SET NULL), then drops their connections. */
    method RemoveCredential(credential: Id)
      modifies this
      ensures State() == DeleteCredential(old(State()), credential)
    {
      var ids := set id | id in machines && machines[id].credential == Some(credential);
      credentials := credentials - {credential};
      machines := map id | id in machines ::
        if machines[id].credential == Some(credential) then machines[id].(credential := None) else machines[id];
      DropAll(ids);
    }

    /** Strips the cloud half of every machine of the account, then deletes the account. */
    method RemoveAccount(account: Id)
      modifies this
      ensures State() == DeleteAccount(old(State()), account)
    {
      machines := map id | id in machines ::
        if machines[id].account == Some(account) then Unlinked(machines[id]) else machines[id];
      accounts := accounts - {account};
    }

    // ---- Sync ---------------------------------------------------------------

    method UpsertFromCloud(account: Id, provider: Str, i: Instance)
      returns (id: Id, created: bool, hostChanged: bool)
      requires Valid()
      modifies this
      ensures created <==> !Known(old(machines), account, i.id)
      ensures id in machines && IsLinked(machines[id], account, i.id)
      ensures created ==> !hostChanged
      ensures !created ==>
                && id in old(machines)
                && (hostChanged <==> machines[id].host != old(machines)[id].host)
      ensures State() ==
                if created then old(State()).(db := InsertMachine(old(State()).db, DiscoveredRow(account, provider, i)))
                else old(State()).(db := old(State()).db.(
                       machines := old(machines)[id := RefreshedRow(old(machines)[id], i)]))
    {
      if exists k | k in machines :: IsLinked(machines[k], account, i.id) {
        id :| id in machines && IsLinked(machines[id], account, i.id);
        var m := machines[id];
        var newHost := m.host;
        created, hostChanged := false, false;
        if m.host == m.publicIp && i.publicIp != "" && i.publicIp != m.publicIp {
          newHost := i.publicIp;
          hostChanged := true;
        }
        machines := machines[id := m.(region := i.region, instanceType := i.instanceType, power := i.power,
                                      publicIp := i.publicIp, privateIp := i.privateIp, host := newHost,
                                      missing := false)];
      } else {
        id := InsertRow(DiscoveredRow(account, provider, i));
        created, hostChanged := true, false;
      }
    }

    /** One pass of the loop body: upsert, and drop what the address change made stale. */
    method SyncInstance(account: Id, provider: Str, i: Instance) returns (created: bool)
      requires Valid() && account in accounts && i.id != ""
      modifies this
      ensures Valid() && State() == SyncOne(old(State()), account, provider, i)
      ensures created <==> !Known(old(machines), account, i.id)
    {
      ghost var before := State();
      SyncOneKeeps(before, account, provider, i);
      var id, made, hostChanged := UpsertFromCloud(account, provider, i);
      created := made;
      if !created {
        CloudSync.FindIs(before.db.machines, account, i.id, id);
      }
      if hostChanged {
        Drop(id);
        SetReach(id, ReachUnknown);
      }
    }

    method MarkMissingRows(account: Id, seen: set<Str>)
      modifies this
      ensures State() == MarkMissing(old(State()), account, seen)
    {
      machines := map id | id in machines ::
        if machines[id].account == Some(account) && machines[id].instance != "" && machines[id].instance !in seen
        then machines[id].(missing := true)
        else machines[id];
    }

    /** What one more iteration adds, and that the account outlives it. */
    lemma Unrolled(f: Fleet, account: Id, provider: Str, list: seq<Instance>, n: nat)
      requires n < |list|
      ensures SyncAll(f, account, provider, list[..n + 1])
              == SyncOne(SyncAll(f, account, provider, list[..n]), account, provider, list[n])
      ensures CreatedBy(f, account, provider, list[..n + 1])
              == CreatedBy(f, account, provider, list[..n])
                 + if Known(SyncAll(f, account, provider, list[..n]).db.machines, account, list[n].id) then 0 else 1
      ensures ReportedIds(list[..n + 1]) == ReportedIds(list[..n]) + {list[n].id}
    {
      assert list[..n + 1][..n] == list[..n];
      CloudSync.SeenStep(list[..n + 1]);
    }

    /** The reconcile loop, counting as it goes and collecting the ids it saw. */
    method Reconcile(account: Id, provider: Str, list: seq<Instance>)
      returns (created: nat, updated: nat, seen: set<Str>)
      requires Valid() && account in accounts
      requires forall i <- list :: i.id != ""
      modifies this
      ensures Valid() && State() == SyncAll(old(State()), account, provider, list)
      ensures created == CreatedBy(old(State()), account, provider, list)
      ensures created + updated == |list|
      ensures seen == ReportedIds(list)
    {
      ghost var before := State();
      created, updated, seen := 0, 0, {};
      for n := 0 to |list|
        invariant Valid() && account in accounts
        invariant State() == SyncAll(before, account, provider, list[..n])
        invariant created == CreatedBy(before, account, provider, list[..n])
        invariant created + updated == n
        invariant seen == ReportedIds(list[..n])
      {
        Unrolled(before, account, provider, list, n);
        var made := SyncInstance(account, provider, list[n]);
        if made {
          created := created + 1;
        } else {
          updated := updated + 1;
        }
        seen := seen + {list[n].id};
      }
      assert list[..|list|] == list;
    }

    /**
     `sync`: a failed listing touches nothing; `fault` is the instance whose upsert
     fails, or the length of the list when marking the missing rows does.
     */
    method SyncAccount(account: Id, listing: Option<seq<Instance>>, fault: Option<nat>)
      returns (total: nat, created: nat, updated: nat)
      requires Valid() && Admissible(DoSync(account, listing))
      requires fault.Some? && listing.Some? ==> fault.value <= |listing.value|
      modifies this
      ensures fault.None? || listing.None? ==> State() == Sync(old(State()), account, listing)
      ensures fault.Some? && listing.Some? ==>
                State() == AbortedSync(old(State()), account, listing.value[..fault.value])
      ensures account in old(accounts) && listing.Some? ==>
                var done := listing.value[..if fault.Some? then fault.value else |listing.value|];
                && created + updated == |done|
                && created == CreatedBy(old(State()), account, old(accounts)[account], done)
                && total == if done == listing.value then |done| else 0
      ensures account !in old(accounts) || listing.None? ==> total == created == updated == 0
    {
      total, created, updated := 0, 0, 0;
      if account !in accounts || listing.None? {
        return;
      }
      var list := listing.value;
      var reached := if fault.Some? then fault.value else |list|;
      var seen;
      created, updated, seen := Reconcile(account, accounts[account], list[..reached]);
      if reached < |list| {
        return;
      }
      assert list[..reached] == list;
      total := |list|;
      if fault.Some? {
        return;
      }
      MarkMissingRows(account, seen);
    }

    // ---- Serving ------------------------------------------------------------

    /** One request or background step; whatever it is, the server stays valid. */
    method Handle(e: Event)
      requires Valid() && Admissible(e)
      modifies this
      ensures Valid() && State() == Step(old(State()), e)
    {
      StepKeeps(State(), e);
      match e {
        case DoCreateMachine(input) => var _ := PostMachine(input);
        case DoUpdateMachine(id, input) => PutMachine(id, input);
        case DoDeleteMachine(id) => RemoveMachine(id);
        case DoProbe(id, net) => ProbeMachine(id, net);
        case DoRunAction(id, admitted, audited, net) => PostAction(id, admitted, audited, net);
        case DoOpenSession(id, admitted, audited, net) => OpenTerminal(id, admitted, audited, net);
        case DoReachCheck(id, net) => CheckReach(id, net);
        case DoPower(id, action, confirm, name, out) => PowerMachine(id, action, confirm, name, out);
        case DoTrust(id, echoed) => TrustHostKey(id, echoed);
        case DoCreateCredential => PostCredential();
        case DoDeleteCredential(id) => RemoveCredential(id);
        case DoCreateAccount(provider) => PostAccount(provider);
        case DoDeleteAccount(id) => RemoveAccount(id);
        case DoSync(id, listing) => var _, _, _ := SyncAccount(id, listing, None);
        case DoAbortedSync(id, reached) =>
          assert reached[..|reached|] == reached;
          var _, _, _ := SyncAccount(id, Some(reached), Some(|reached|));
        case DoKeepaliveEvicts(id) => Drop(id);
      }
    }
  }
}
