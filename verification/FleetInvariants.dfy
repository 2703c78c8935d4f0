/**
 What holds in every reachable state of the fleet, over every run of handlers
 (each handler one atomic step): the pool agrees with the store and with the pinned
 keys, the host-key record is the host's own history, and the link between machines
 and cloud instances is one-to-one.
 */
module FleetInvariants {
  import opened Base
  import opened Text
  import opened FleetModel

  // ---- The invariant --------------------------------------------------------

  /** Ids come from counters that never go back, so none is used twice. */
  predicate IdsFromCounters(db: Db) {
    && (forall id <- db.machines :: id < db.nextMachine)
    && (forall c <- db.credentials :: c < db.nextCredential)
    && (forall a <- db.accounts :: a < db.nextAccount)
  }

  /** Dependent rows and foreign keys point at rows that exist. */
  predicate References(db: Db) {
    && db.hostKeys.Keys <= db.machines.Keys
    && db.facts <= db.machines.Keys
    && (forall id <- db.machines :: db.machines[id].credential.Some? ==>
          db.machines[id].credential.value in db.credentials)
    && (forall id <- db.machines :: db.machines[id].account.Some? ==>
          db.machines[id].account.value in db.accounts)
  }

  /** A machine has an account exactly when it has an instance, and no two share one. */
  predicate LinkedIdentity(machines: map<Id, Machine>) {
    && (forall id <- machines :: machines[id].account.Some? <==> machines[id].instance != "")
    && (forall i <- machines, j <- machines ::
          i != j && machines[i].account.Some? && machines[i].account == machines[j].account ==>
            machines[i].instance != machines[j].instance)
  }

  predicate PortsInRange(machines: map<Id, Machine>) {
    forall id <- machines :: 1 <= machines[id].port <= 65535
  }

  /** A pooled connection is what dialling the machine as it is now would give. */
  predicate CoherentConn(f: Fleet, id: Id, c: Conn) {
    && id in f.db.machines
    && ResolveTarget(id, f.db.machines[id], f.db.credentials) == Some(c.target)
    && id in f.db.hostKeys
    && f.db.hostKeys[id].pin.fingerprint == c.fingerprint
  }

  predicate CoherentPool(f: Fleet) {
    forall id <- f.pool :: CoherentConn(f, id, f.pool[id])
  }

  /** The record of a pinned host is determined by the pin and the last key it showed. */
  predicate RecordFits(k: HostKey, last: Key) {
    && last.fingerprint != ""
    && k.pin.fingerprint != ""
    && k.seen == (if last.fingerprint != k.pin.fingerprint then last else NO_KEY)
  }

  predicate KeyHistory(f: Fleet) {
    && f.presented.Keys == f.db.hostKeys.Keys
    && forall id <- f.db.hostKeys :: RecordFits(f.db.hostKeys[id], f.presented[id])
  }

  predicate Inv(f: Fleet) {
    && IdsFromCounters(f.db)
    && References(f.db)
    && LinkedIdentity(f.db.machines)
    && PortsInRange(f.db.machines)
    && CoherentPool(f)
    && KeyHistory(f)
  }

  // ---- Building blocks ------------------------------------------------------

  lemma DropKeeps(f: Fleet, id: Id)
    requires Inv(f)
    ensures Inv(Drop(f, id))
  {
    var g := Drop(f, id);
    forall k | k in g.pool ensures CoherentConn(g, k, g.pool[k]) {
      assert CoherentConn(f, k, f.pool[k]);
    }
  }

  /** Links depend on the accounts and instances of the rows only. */
  lemma LinksKept(a: map<Id, Machine>, b: map<Id, Machine>)
    requires LinkedIdentity(a) && b.Keys == a.Keys
    requires forall id <- a :: b[id].account == a[id].account && b[id].instance == a[id].instance
    ensures LinkedIdentity(b)
  {
    forall i, j | i in b && j in b && i != j && b[i].account.Some? && b[i].account == b[j].account
      ensures b[i].instance != b[j].instance
    {
      assert i in a && j in a;
    }
  }

  lemma LinksEdited(db: Db, id: Id, row: Machine)
    requires LinkedIdentity(db.machines) && RowAllowed(db, id, row)
    requires row.account.Some? <==> row.instance != ""
    ensures LinkedIdentity(db.machines[id := row])
  {
    var m := db.machines[id := row];
    forall i, j | i in m && j in m && i != j && m[i].account.Some? && m[i].account == m[j].account
      ensures m[i].instance != m[j].instance
    {
      assert i != id ==> i in db.machines && m[i] == db.machines[i];
      assert j != id ==> j in db.machines && m[j] == db.machines[j];
    }
  }

  /** References from one row, and to the rows there are. */
  lemma ReferencesEdited(db: Db, id: Id, row: Machine)
    requires References(db) && id in db.machines && RowAllowed(db, id, row)
    ensures References(db.(machines := db.machines[id := row]))
  {
    assert db.machines[id := row].Keys == db.machines.Keys;
  }

  lemma PoolEdited(f: Fleet, id: Id, row: Machine)
    requires CoherentPool(f) && id in f.db.machines
    requires id in f.pool ==>
               ResolveTarget(id, row, f.db.credentials) == ResolveTarget(id, f.db.machines[id], f.db.credentials)
    ensures CoherentPool(WithRow(f, id, row))
  {
    PoolUntouched(f, WithRow(f, id, row));
  }

  /** Changing only how a machine is doing keeps everything. */
  lemma StatusKeeps(f: Fleet, id: Id, row: Machine)
    requires Inv(f) && id in f.db.machines
    requires row == f.db.machines[id].(reach := row.reach, power := row.power)
    ensures Inv(WithRow(f, id, row))
  {
    OwnRowAllowed(f.db, id, row);
    SameTarget(id, f.db.machines[id], row, f.db.credentials);
    RowEditKeeps(f, id, row);
  }

  lemma OwnRowAllowed(db: Db, id: Id, row: Machine)
    requires References(db) && LinkedIdentity(db.machines) && id in db.machines
    requires row == db.machines[id].(reach := row.reach, power := row.power)
    ensures RowAllowed(db, id, row)
  {
  }

  lemma SetReachKeeps(f: Fleet, id: Id, r: Reach)
    requires Inv(f)
    ensures Inv(SetReach(f, id, r))
  {
    if id in f.db.machines {
      StatusKeeps(f, id, f.db.machines[id].(reach := r));
    }
  }

  function WithRecord(f: Fleet, id: Id, k: HostKey, last: Key): Fleet {
    f.(db := f.db.(hostKeys := f.db.hostKeys[id := k]), presented := f.presented[id := last])
  }

  lemma RecordKeeps(f: Fleet, id: Id, k: HostKey, last: Key)
    requires Inv(f) && id in f.db.machines && id !in f.pool && RecordFits(k, last)
    ensures Inv(WithRecord(f, id, k, last))
  {
    var g := WithRecord(f, id, k, last);
    forall j | j in g.pool ensures CoherentConn(g, j, g.pool[j]) {
      assert CoherentConn(f, j, f.pool[j]);
    }
  }

  /** The policy check rewrites the record of that machine, and accepts exactly the pinned key. */
  lemma CheckKeyRecord(f: Fleet, id: Id, key: Key)
    requires KeyHistory(f) && key.fingerprint != ""
    ensures var (g, ok) := CheckKey(f, id, key);
            && id in g.db.hostKeys
            && g == WithRecord(f, id, g.db.hostKeys[id], key)
            && RecordFits(g.db.hostKeys[id], key)
            && (ok <==> g.db.hostKeys[id].pin.fingerprint == key.fingerprint)
  {
    var (g, ok) := CheckKey(f, id, key);
    if id in f.db.hostKeys {
      assert RecordFits(f.db.hostKeys[id], f.presented[id]);
      assert f.db.hostKeys[id := f.db.hostKeys[id]] == f.db.hostKeys;
    }
  }

  lemma CheckKeyKeeps(f: Fleet, id: Id, key: Key)
    requires Inv(f) && id in f.db.machines && id !in f.pool && key.fingerprint != ""
    ensures var (g, ok) := CheckKey(f, id, key);
            && Inv(g)
            && g.pool == f.pool && g.db.machines == f.db.machines && g.db.credentials == f.db.credentials
            && id in g.db.hostKeys
            && (ok <==> g.db.hostKeys[id].pin.fingerprint == key.fingerprint)
  {
    CheckKeyRecord(f, id, key);
    var (g, ok) := CheckKey(f, id, key);
    RecordKeeps(f, id, g.db.hostKeys[id], key);
  }

  lemma PoolingKeeps(f: Fleet, id: Id, c: Conn)
    requires Inv(f) && CoherentConn(f, id, c)
    ensures Inv(f.(pool := f.pool[id := c]))
  {
    var g := f.(pool := f.pool[id := c]);
    forall k | k in g.pool ensures CoherentConn(g, k, g.pool[k]) {
      assert k != id ==> CoherentConn(f, k, f.pool[k]);
    }
  }

  lemma GetKeeps(f: Fleet, id: Id, t: Target, dial: Dial)
    requires Inv(f) && id in f.db.machines
    requires ResolveTarget(id, f.db.machines[id], f.db.credentials) == Some(t)
    requires dial.Handshake? ==> dial.key.fingerprint != ""
    ensures var (g, e) := Get(f, t, dial);
            Inv(g) && g.db.machines == f.db.machines && g.db.credentials == f.db.credentials
  {
    assert t.id == id;
    if id !in f.pool && dial.Handshake? {
      CheckKeyKeeps(f, id, dial.key);
      var c := CheckKey(f, id, dial.key).0;
      if CheckKey(f, id, dial.key).1 {
        PoolingKeeps(c, id, Conn(t, dial.key.fingerprint));
      }
      assert Get(f, t, dial).0.db == c.db;
      assert Get(f, t, dial).0 == if !CheckKey(f, id, dial.key).1 || dial.failed.Some? then c
                                  else c.(pool := c.pool[id := Conn(t, dial.key.fingerprint)]);
    }
  }

  lemma ExecKeeps(f: Fleet, id: Id, t: Target, net: Net)
    requires Inv(f) && id in f.db.machines && KeyShown(net)
    requires ResolveTarget(id, f.db.machines[id], f.db.credentials) == Some(t)
    ensures var (g, e) := Exec(f, t, net);
            Inv(g) && g.db.machines == f.db.machines && g.db.credentials == f.db.credentials
  {
    GetKeeps(f, id, t, net.dial);
    ExecResult(f, t, net);
    DropKeeps(Get(f, t, net.dial).0, t.id);
  }

  /** Running a command leaves what getting the client left, or that without its connection. */
  lemma ExecResult(f: Fleet, t: Target, net: Net)
    ensures var g := Get(f, t, net.dial).0;
            Exec(f, t, net).0 == g || Exec(f, t, net).0 == Drop(g, t.id)
  {
  }

  // ---- One lemma per handler ------------------------------------------------

  lemma InsertKeeps(f: Fleet, row: Machine)
    requires Inv(f) && RowAllowed(f.db, f.db.nextMachine, row)
    requires row.account.Some? <==> row.instance != ""
    requires 1 <= Defaulted(row).port <= 65535
    ensures Inv(f.(db := InsertMachine(f.db, row)))
  {
    assert f.db.nextMachine !in f.db.machines;
    PoolUntouched(f, f.(db := InsertMachine(f.db, row)));
    LinksEdited(f.db, f.db.nextMachine, Defaulted(row));
    ReferencesInserted(f.db, row);
  }

  lemma ReferencesInserted(db: Db, row: Machine)
    requires References(db) && IdsFromCounters(db) && PortsInRange(db.machines)
    requires RowAllowed(db, db.nextMachine, row) && 1 <= Defaulted(row).port <= 65535
    ensures var d := InsertMachine(db, row);
            References(d) && IdsFromCounters(d) && PortsInRange(d.machines)
  {
    assert InsertMachine(db, row).machines.Keys == db.machines.Keys + {db.nextMachine};
  }

  lemma AddMachineKeeps(f: Fleet, i: Input)
    requires Inv(f) && (Valid(i) ==> i.port != 0)
    ensures Inv(AddMachine(f, i))
  {
    if Valid(i) && RowAllowed(f.db, f.db.nextMachine, NewMachine(i)) {
      InsertKeeps(f, NewMachine(i));
    }
  }

  /** An edit that passes the table's constraints; connections must already be in order. */
  lemma RowEditKeeps(f: Fleet, id: Id, row: Machine)
    requires Inv(f) && id in f.db.machines && RowAllowed(f.db, id, row)
    requires row.account.Some? <==> row.instance != ""
    requires 1 <= row.port <= 65535
    requires id in f.pool ==>
               ResolveTarget(id, row, f.db.credentials) == ResolveTarget(id, f.db.machines[id], f.db.credentials)
    ensures Inv(WithRow(f, id, row))
  {
    LinksEdited(f.db, id, row);
    ReferencesEdited(f.db, id, row);
    PoolEdited(f, id, row);
    assert PortsInRange(f.db.machines[id := row]);
  }

  lemma ResetKeeps(f: Fleet, id: Id)
    requires Inv(f) && id !in f.pool
    ensures Inv(ResetIdentity(f, id))
  {
    var g := ResetIdentity(f, id);
    forall k | k in g.pool ensures CoherentConn(g, k, g.pool[k]) {
      assert CoherentConn(f, k, f.pool[k]);
    }
  }

  lemma SameTarget(id: Id, a: Machine, b: Machine, credentials: set<Id>)
    requires a.host == b.host && a.port == b.port && a.user == b.user && a.credential == b.credential
    ensures ResolveTarget(id, a, credentials) == ResolveTarget(id, b, credentials)
  {
  }

  lemma EditMachineKeeps(f: Fleet, id: Id, i: Input)
    requires Inv(f) && (Valid(i) ==> i.port != 0)
    ensures Inv(EditMachine(f, id, i))
  {
    if id in f.db.machines && Valid(i) && RowAllowed(f.db, id, EditedRow(f.db.machines[id], i)) {
      var m := f.db.machines[id];
      var row := EditedRow(m, i);
      if SessionChanged(m, i) {
        var g := SetReach(WithRow(Drop(f, id), id, row), id, ReachUnknown);
        EditDroppedKeeps(f, id, row);
        ResetKeeps(g, id);
        assert EditMachine(f, id, i) == if BoxChanged(m, i) then ResetIdentity(g, id) else g;
      } else {
        SameTarget(id, m, row, f.db.credentials);
        RowEditKeeps(f, id, row);
        assert EditMachine(f, id, i) == WithRow(f, id, row);
      }
    }
  }

  /** An edit is refused, or writes the row and then drops and resets as far as needed. */
  lemma EditResult(f: Fleet, id: Id, i: Input)
    requires id in f.db.machines
    ensures var e := EditMachine(f, id, i);
            var g := WithRow(f, id, EditedRow(f.db.machines[id], i));
            var h := SetReach(Drop(g, id), id, ReachUnknown);
            e == f || e == g || e == h || (e == ResetIdentity(h, id) && BoxChanged(f.db.machines[id], i))
  {
  }

  function WithRow(f: Fleet, id: Id, row: Machine): Fleet {
    f.(db := f.db.(machines := f.db.machines[id := row]))
  }

  /** With its connection gone, any allowed edit of a machine is fine. */
  lemma EditDroppedKeeps(f: Fleet, id: Id, row: Machine)
    requires Inv(f) && id in f.db.machines && RowAllowed(f.db, id, row)
    requires row.account.Some? <==> row.instance != ""
    requires 1 <= row.port <= 65535
    ensures Inv(SetReach(WithRow(Drop(f, id), id, row), id, ReachUnknown))
  {
    DropKeeps(f, id);
    RowEditKeeps(Drop(f, id), id, row);
    SetReachKeeps(WithRow(Drop(f, id), id, row), id, ReachUnknown);
  }

  lemma DeleteMachineKeeps(f: Fleet, id: Id)
    requires Inv(f)
    ensures Inv(DeleteMachine(f, id))
  {
    var g := DeleteMachine(f, id);
    forall k | k in g.pool ensures CoherentConn(g, k, g.pool[k]) {
      assert CoherentConn(f, k, f.pool[k]);
    }
  }

  lemma ProbeKeeps(f: Fleet, id: Id, net: Net)
    requires Inv(f) && KeyShown(net)
    ensures Inv(Probe(f, id, net))
  {
    if id in f.db.machines && f.db.machines[id].HasHost() {
      var d := Drop(f, id);
      DropKeeps(f, id);
      var t := ResolveTarget(id, f.db.machines[id], f.db.credentials);
      if t.None? {
        SetReachKeeps(d, id, ReachUnknown);
      } else {
        ExecKeeps(d, id, t.value, net);
        var (g, e) := Exec(d, t.value, net);
        if e.Some? {
          DropKeeps(g, id);
          SetReachKeeps(Drop(g, id), id, ClassifyReach(e.value));
        } else {
          FactsKeep(g, id);
          SetReachKeeps(g.(db := g.db.(facts := g.db.facts + {id})), id, ReachOk);
        }
      }
    }
  }

  lemma FactsKeep(f: Fleet, id: Id)
    requires Inv(f) && id in f.db.machines
    ensures Inv(f.(db := f.db.(facts := f.db.facts + {id})))
  {
    PoolUntouched(f, f.(db := f.db.(facts := f.db.facts + {id})));
  }

  lemma MarkKeeps(g: Fleet, id: Id, r: Reach)
    requires Inv(g)
    ensures Inv(SetReach(g, id, r)) && Inv(Drop(SetReach(g, id, r), id))
  {
    SetReachKeeps(g, id, r);
    DropKeeps(SetReach(g, id, r), id);
  }

  lemma SessionKeeps(f: Fleet, id: Id, admitted: bool, audited: bool, net: Net)
    requires Inv(f) && KeyShown(net)
    ensures Inv(RunAction(f, id, admitted, audited, net))
    ensures Inv(OpenSession(f, id, admitted, audited, net))
    ensures Inv(ReachCheck(f, id, net))
  {
    if id in f.db.machines && f.db.machines[id].HasHost() {
      var t := ResolveTarget(id, f.db.machines[id], f.db.credentials);
      if t.Some? {
        ExecKeeps(f, id, t.value, net);
        var (g, e) := Exec(f, t.value, net);
        var r := if e.Some? then ClassifyReach(e.value) else ReachOk;
        MarkKeeps(g, id, r);
        SessionResults(f, id, admitted, audited, net, t.value);
      }
    }
  }

  /** Each of them leaves the state alone, or what running the command left, marked or not, dropped or not. */
  lemma SessionResults(f: Fleet, id: Id, admitted: bool, audited: bool, net: Net, t: Target)
    requires id in f.db.machines && f.db.machines[id].HasHost()
    requires ResolveTarget(id, f.db.machines[id], f.db.credentials) == Some(t)
    ensures var (g, e) := Exec(f, t, net);
            var marked := SetReach(g, id, if e.Some? then ClassifyReach(e.value) else ReachOk);
            var run := RunAction(f, id, admitted, audited, net);
            var open := OpenSession(f, id, admitted, audited, net);
            var check := ReachCheck(f, id, net);
            && (run == f || run == g || run == Drop(marked, id))
            && (open == f || open == g || open == marked)
            && (check == marked || check == Drop(marked, id))
  {
  }

  lemma PowerKeeps(f: Fleet, id: Id, action: PowerAction, confirm: bool, name: Str, out: PowerOutcome)
    requires Inv(f)
    ensures Inv(Power(f, id, action, confirm, name, out))
  {
    DropKeeps(f, id);
    if id in f.db.machines && out.Accepted? && out.state.Some? {
      StatusKeeps(Drop(f, id), id, f.db.machines[id].(power := out.state.value));
    }
  }

  lemma TrustKeeps(f: Fleet, id: Id, echoed: Key)
    requires Inv(f)
    ensures Inv(Trust(f, id, echoed))
  {
    if id in f.db.hostKeys && f.db.hostKeys[id].seen.fingerprint != "" && echoed == f.db.hostKeys[id].seen {
      var k := f.db.hostKeys[id];
      var g := Drop(f.(db := f.db.(hostKeys := f.db.hostKeys[id := HostKey(k.seen, NO_KEY)])), id);
      forall j | j in g.pool ensures CoherentConn(g, j, g.pool[j]) {
        assert CoherentConn(f, j, f.pool[j]);
      }
      SetReachKeeps(g, id, ReachUnknown);
    }
  }

  /** Connections are untouched by changes elsewhere in the database. */
  lemma PoolUntouched(f: Fleet, g: Fleet)
    requires CoherentPool(f) && g.pool.Keys <= f.pool.Keys && g.db.hostKeys == f.db.hostKeys
    requires forall k <- g.pool :: g.pool[k] == f.pool[k]
    requires forall k <- g.pool :: k in f.db.machines ==>
               && k in g.db.machines
               && ResolveTarget(k, g.db.machines[k], g.db.credentials)
                  == ResolveTarget(k, f.db.machines[k], f.db.credentials)
    ensures CoherentPool(g)
  {
    forall k | k in g.pool ensures CoherentConn(g, k, g.pool[k]) {
      assert CoherentConn(f, k, f.pool[k]);
    }
  }

  lemma CreateCredentialKeeps(f: Fleet)
    requires Inv(f)
    ensures Inv(CreateCredential(f))
  {
    forall k | k in f.pool
      ensures k in f.db.machines && f.db.machines[k].credential.Some?
      ensures f.db.machines[k].credential.value in f.db.credentials
    {
      assert CoherentConn(f, k, f.pool[k]);
    }
    PoolUntouched(f, CreateCredential(f));
  }

  lemma DeleteCredentialKeeps(f: Fleet, credential: Id)
    requires Inv(f)
    ensures Inv(DeleteCredential(f, credential))
  {
    var d := DeleteCredential(f, credential);
    LinksKept(f.db.machines, d.db.machines);
    PoolWithoutCredential(f, credential);
    ReferencesWithoutCredential(f, credential);
    assert PortsInRange(d.db.machines);
  }

  lemma PoolWithoutCredential(f: Fleet, credential: Id)
    requires CoherentPool(f)
    ensures CoherentPool(DeleteCredential(f, credential))
  {
    PoolUntouched(f, DeleteCredential(f, credential));
  }

  lemma ReferencesWithoutCredential(f: Fleet, credential: Id)
    requires References(f.db)
    ensures References(DeleteCredential(f, credential).db)
  {
    assert DeleteCredential(f, credential).db.machines.Keys == f.db.machines.Keys;
  }

  lemma CreateAccountKeeps(f: Fleet, provider: Str)
    requires Inv(f)
    ensures Inv(CreateAccount(f, provider))
  {
    PoolUntouched(f, CreateAccount(f, provider));
  }

  lemma DeleteAccountKeeps(f: Fleet, account: Id)
    requires Inv(f)
    ensures Inv(DeleteAccount(f, account))
  {
    PoolUntouched(f, DeleteAccount(f, account));
    ReferencesWithoutAccount(f, account);
    LinksWithoutAccount(f, account);
  }

  lemma ReferencesWithoutAccount(f: Fleet, account: Id)
    requires References(f.db) && IdsFromCounters(f.db) && PortsInRange(f.db.machines)
    ensures var d := DeleteAccount(f, account).db;
            References(d) && IdsFromCounters(d) && PortsInRange(d.machines)
  {
    assert DeleteAccount(f, account).db.machines.Keys == f.db.machines.Keys;
  }

  lemma LinksWithoutAccount(f: Fleet, account: Id)
    requires LinkedIdentity(f.db.machines)
    ensures LinkedIdentity(DeleteAccount(f, account).db.machines)
  {
    var m := DeleteAccount(f, account).db.machines;
    forall i, j | i in m && j in m && i != j && m[i].account.Some? && m[i].account == m[j].account
      ensures m[i].instance != m[j].instance
    {
      assert m[i] == f.db.machines[i] && m[j] == f.db.machines[j];
    }
  }

  // ---- Sync -----------------------------------------------------------------

  lemma SyncOneKeeps(f: Fleet, account: Id, provider: Str, i: Instance)
    requires Inv(f) && account in f.db.accounts && i.id != ""
    ensures Inv(SyncOne(f, account, provider, i))
    ensures SyncOne(f, account, provider, i).db.accounts == f.db.accounts
  {
    if Known(f.db.machines, account, i.id) {
      var id := Find(f.db.machines, account, i.id);
      var m := f.db.machines[id];
      var row := RefreshedRow(m, i);
      if row.host != m.host {
        EditDroppedKeeps(f, id, row);
      } else {
        RowEditKeeps(f, id, row);
      }
    } else {
      InsertKeeps(f, DiscoveredRow(account, provider, i));
    }
  }

  lemma {:induction false} SyncAllKeeps(f: Fleet, account: Id, provider: Str, list: seq<Instance>)
    requires Inv(f) && account in f.db.accounts && forall i <- list :: i.id != ""
    ensures Inv(SyncAll(f, account, provider, list))
    ensures SyncAll(f, account, provider, list).db.accounts == f.db.accounts
  {
    if list != [] {
      var n := |list| - 1;
      assert list[n] in list;
      SyncAllKeeps(f, account, provider, list[..n]);
      SyncOneKeeps(SyncAll(f, account, provider, list[..n]), account, provider, list[n]);
    }
  }

  lemma MarkMissingKeeps(f: Fleet, account: Id, seen: set<Str>)
    requires Inv(f)
    ensures Inv(MarkMissing(f, account, seen))
  {
    var g := MarkMissing(f, account, seen);
    PoolUntouched(f, g);
    LinksKept(f.db.machines, g.db.machines);
    ReferencesMarked(f, account, seen);
  }

  lemma ReferencesMarked(f: Fleet, account: Id, seen: set<Str>)
    requires References(f.db) && IdsFromCounters(f.db) && PortsInRange(f.db.machines)
    ensures var d := MarkMissing(f, account, seen).db;
            References(d) && IdsFromCounters(d) && PortsInRange(d.machines)
  {
    assert MarkMissing(f, account, seen).db.machines.Keys == f.db.machines.Keys;
  }

  // ---- Every run ------------------------------------------------------------

  lemma StepKeeps(f: Fleet, e: Event)
    requires Inv(f) && Admissible(e)
    ensures Inv(Step(f, e))
  {
    match e {
      case DoCreateMachine(input) => AddMachineKeeps(f, Normalize(input));
      case DoUpdateMachine(id, input) => EditMachineKeeps(f, id, Normalize(input));
      case DoDeleteMachine(id) => DeleteMachineKeeps(f, id);
      case DoProbe(id, net) => ProbeKeeps(f, id, net);
      case DoRunAction(id, admitted, audited, net) => SessionKeeps(f, id, admitted, audited, net);
      case DoOpenSession(id, admitted, audited, net) => SessionKeeps(f, id, admitted, audited, net);
      case DoReachCheck(id, net) => SessionKeeps(f, id, true, true, net);
      case DoPower(id, action, confirm, name, out) => PowerKeeps(f, id, action, confirm, name, out);
      case DoTrust(id, echoed) => TrustKeeps(f, id, echoed);
      case DoCreateCredential => CreateCredentialKeeps(f);
      case DoDeleteCredential(id) => DeleteCredentialKeeps(f, id);
      case DoCreateAccount(provider) => CreateAccountKeeps(f, provider);
      case DoDeleteAccount(id) => DeleteAccountKeeps(f, id);
      case DoSync(id, listing) =>
        if id in f.db.accounts && listing.Some? {
          SyncAllKeeps(f, id, f.db.accounts[id], listing.value);
          MarkMissingKeeps(SyncAll(f, id, f.db.accounts[id], listing.value), id, ReportedIds(listing.value));
        }
      case DoAbortedSync(id, reached) =>
        if id in f.db.accounts {
          SyncAllKeeps(f, id, f.db.accounts[id], reached);
        }
      case DoKeepaliveEvicts(id) => DropKeeps(f, id);
    }
  }

  /** Every reachable state satisfies the invariant. */
  lemma {:induction false} ReachableStates(events: seq<Event>)
    requires forall e <- events :: Admissible(e)
    ensures Inv(Run(EMPTY, events))
  {
    if events != [] {
      var n := |events| - 1;
      assert events[n] in events;
      ReachableStates(events[..n]);
      StepKeeps(Run(EMPTY, events[..n]), events[n]);
    }
  }
}
