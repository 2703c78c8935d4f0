/**
 The fleet: store tables, host-key policy and connection pool, with every API
 handler as one transition (internal/api/handlers.go, internal/api/server.go:149-215,
 internal/api/sync.go:44-97, internal/store/queries.go).

 These functions are the specification of class Server (FleetServer.dfy); what is
 true of them over every run is proved in FleetInvariants.dfy and CloudSync.dfy.
 */
module FleetModel {
  import opened Base
  import opened Text
  import Tags

  type Id = int

  // ---- Rows -----------------------------------------------------------------

  datatype Reach = ReachOk | ReachRefused | ReachTimeout | ReachAuthFailed | ReachKeyChanged | ReachUnknown

  /** A row of `machines`; `tags` is the column text. Timestamps are not modelled. */
  datatype Machine = Machine(
    name: Str, tags: Str,
    account: Option<Id>, provider: Str, instance: Str, region: Str, instanceType: Str,
    power: Str, publicIp: Str, privateIp: Str, missing: bool,
    host: Str, port: int, user: Str, credential: Option<Id>,
    reach: Reach)
  {
    predicate HasCloud() { instance != "" && account.Some? }

    predicate HasHost() { host != "" && user != "" && credential.Some? }
  }

  datatype Key = Key(algorithm: Str, fingerprint: Str)

  const NO_KEY := Key("", "")

  /** A row of `host_keys`: the pin, and the last key that did not match it. */
  datatype HostKey = HostKey(pin: Key, seen: Key)

  datatype Db = Db(
    machines: map<Id, Machine>, hostKeys: map<Id, HostKey>, facts: set<Id>,
    credentials: set<Id>, accounts: map<Id, Str>,
    nextMachine: Id, nextCredential: Id, nextAccount: Id)

  // ---- The pool -------------------------------------------------------------

  datatype Target = Target(id: Id, host: Str, port: int, user: Str, credential: Id)

  /** A pooled connection: what was dialled, and the key the host presented. */
  datatype Conn = Conn(target: Target, fingerprint: Str)

  /**
   The whole state. `presented` is a history variable: the last key each host
   showed to the policy since its identity was last reset.
   */
  datatype Fleet = Fleet(db: Db, pool: map<Id, Conn>, presented: map<Id, Key>)

  const EMPTY := Fleet(Db(map[], map[], {}, {}, map[], 1, 1, 1), map[], map[])

  /** IPv6 literals are stored and dialled without their brackets. */
  predicate IsBracket(c: char) { c == '[' || c == ']' }

  /** `resolveTarget`: None when there is no credential to unseal. */
  function ResolveTarget(id: Id, m: Machine, credentials: set<Id>): Option<Target> {
    if m.credential.Some? && m.credential.value in credentials then
      Some(Target(id, Trim(m.host, IsBracket), if m.port == 0 then 22 else m.port,
                  m.user, m.credential.value))
    else None
  }

  function Drop(f: Fleet, id: Id): Fleet {
    f.(pool := f.pool - {id})
  }

  function SetReach(f: Fleet, id: Id, r: Reach): Fleet {
    if id in f.db.machines then
      f.(db := f.db.(machines := f.db.machines[id := f.db.machines[id].(reach := r)]))
    else f
  }

  // ---- Host keys ------------------------------------------------------------

  /** `hostKeyPolicy`: pins on first sight, records and refuses a change. */
  function CheckKey(f: Fleet, id: Id, key: Key): (r: (Fleet, bool)) {
    var g := f.(presented := f.presented[id := key]);
    if id !in f.db.hostKeys then
      (g.(db := g.db.(hostKeys := g.db.hostKeys[id := HostKey(key, NO_KEY)])), true)
    else
      var k := f.db.hostKeys[id];
      if k.pin.fingerprint != key.fingerprint then
        (g.(db := g.db.(hostKeys := g.db.hostKeys[id := k.(seen := key)])), false)
      else if k.seen.fingerprint != "" then
        (g.(db := g.db.(hostKeys := g.db.hostKeys[id := k.(seen := NO_KEY)])), true)
      else (g, true)
  }

  // ---- Reaching a host ------------------------------------------------------

  datatype Failure = AuthFailure | KeyMismatch | TimeoutFailure | RefusedFailure | NoRouteFailure | OtherFailure

  function ClassifyReach(e: Failure): Reach {
    match e
    case AuthFailure => ReachAuthFailed
    case KeyMismatch => ReachKeyChanged
    case TimeoutFailure => ReachTimeout
    case NoRouteFailure => ReachTimeout
    case RefusedFailure => ReachRefused
    case OtherFailure => ReachUnknown
  }

  /** What the network does to a dial: no host key yet, or a key and then a verdict. */
  datatype Dial = NoAnswer(failure: Failure) | Handshake(key: Key, failed: Option<Failure>)

  /** What happens on the connection afterwards; only the first two drop it inside the broker. */
  datatype Session = OpenFails(failure: Failure) | StartExpires | Breaks | Completes

  datatype Net = Net(dial: Dial, session: Session)

  /** `Broker.Get`: the pooled connection, or a fresh dial past the host-key policy. */
  function Get(f: Fleet, t: Target, dial: Dial): (Fleet, Option<Failure>) {
    if t.id in f.pool then (f, None)
    else match dial
      case NoAnswer(e) => (f, Some(e))
      case Handshake(key, failed) =>
        var (g, accepted) := CheckKey(f, t.id, key);
        if !accepted then (g, Some(KeyMismatch))
        else if failed.Some? then (g, failed)
        else (g.(pool := g.pool[t.id := Conn(t, key.fingerprint)]), None)
  }

  /** `Broker.Exec`, as far as the pool is concerned. */
  function Exec(f: Fleet, t: Target, net: Net): (Fleet, Option<Failure>) {
    var (g, e) := Get(f, t, net.dial);
    if e.Some? then (g, e)
    else match net.session
      case OpenFails(failure) => (Drop(g, t.id), Some(failure))
      case StartExpires => (Drop(g, t.id), Some(TimeoutFailure))
      case Breaks => (g, Some(OtherFailure))
      case Completes => (g, None)
  }

  // ---- Machines -------------------------------------------------------------

  datatype Input = Input(
    name: Str, tags: Tags.TagList, host: Str, port: int, user: Str,
    credential: Option<Id>, account: Option<Id>, instance: Str, provider: Str)

  function Normalize(i: Input): Input {
    i.(name := TrimSpace(i.name),
       host := Trim(TrimSpace(i.host), IsBracket),
       user := TrimSpace(i.user),
       port := if i.port == 0 then 22 else i.port)
  }

  predicate Valid(i: Input) {
    && TrimSpace(i.name) != ""
    && 0 <= i.port <= 65535
    && (i.instance != "" <==> i.account.Some?)
  }

  /** Foreign keys and the unique index on (account, instance) of rows with an instance. */
  predicate RowAllowed(db: Db, id: Id, row: Machine) {
    && (row.credential.Some? ==> row.credential.value in db.credentials)
    && (row.account.Some? ==> row.account.value in db.accounts)
    && (row.account.Some? && row.instance != "" ==>
          forall j <- db.machines :: j != id ==>
            !(db.machines[j].account == row.account && db.machines[j].instance == row.instance))
  }

  /** `Store.CreateMachine`: the defaults, then the row under the next id. */
  function Defaulted(m: Machine): Machine {
    m.(port := if m.port == 0 then 22 else m.port, power := if m.power == "" then "unknown" else m.power)
  }

  function InsertMachine(db: Db, m: Machine): Db {
    db.(machines := db.machines[db.nextMachine := Defaulted(m)], nextMachine := db.nextMachine + 1)
  }

  function NewMachine(i: Input): Machine {
    Machine(i.name, Tags.JoinTags(i.tags), i.account, i.provider, i.instance, "", "", "", "", "", false,
            i.host, i.port, i.user, i.credential, ReachUnknown)
  }

  function AddMachine(f: Fleet, i: Input): Fleet {
    if !Valid(i) || !RowAllowed(f.db, f.db.nextMachine, NewMachine(i)) then f
    else f.(db := InsertMachine(f.db, NewMachine(i)))
  }

  function CreateMachine(f: Fleet, input: Input): Fleet {
    AddMachine(f, Normalize(input))
  }

  /** The columns a user edits. */
  function EditedRow(m: Machine, i: Input): Machine {
    m.(name := i.name, tags := Tags.JoinTags(i.tags), host := i.host, port := i.port, user := i.user,
       credential := i.credential, account := i.account, instance := i.instance, provider := i.provider)
  }

  predicate BoxChanged(m: Machine, i: Input) { m.host != i.host || m.port != i.port }

  predicate SessionChanged(m: Machine, i: Input) {
    BoxChanged(m, i) || m.user != i.user || m.credential != i.credential
  }

  /** `ResetHostIdentity`. */
  function ResetIdentity(f: Fleet, id: Id): Fleet {
    f.(db := f.db.(hostKeys := f.db.hostKeys - {id}, facts := f.db.facts - {id}),
       presented := f.presented - {id})
  }

  function EditMachine(f: Fleet, id: Id, i: Input): Fleet {
    if id !in f.db.machines || !Valid(i) then f
    else
      var m := f.db.machines[id];
      var row := EditedRow(m, i);
      if !RowAllowed(f.db, id, row) then f
      else
        var g := f.(db := f.db.(machines := f.db.machines[id := row]));
        var h := if SessionChanged(m, i) then SetReach(Drop(g, id), id, ReachUnknown) else g;
        if BoxChanged(m, i) then ResetIdentity(h, id) else h
  }

  function UpdateMachine(f: Fleet, id: Id, input: Input): Fleet {
    EditMachine(f, id, Normalize(input))
  }

  /** Deleting a machine cascades to its host key and facts. */
  function DeleteMachine(f: Fleet, id: Id): Fleet {
    ResetIdentity(Drop(f, id).(db := f.db.(machines := f.db.machines - {id})), id)
  }

  /** `probeMachine`: always a fresh handshake. */
  function Probe(f: Fleet, id: Id, net: Net): Fleet {
    if id !in f.db.machines || !f.db.machines[id].HasHost() then f
    else
      var d := Drop(f, id);
      var t := ResolveTarget(id, f.db.machines[id], f.db.credentials);
      if t.None? then SetReach(d, id, ReachUnknown)
      else
        var (g, e) := Exec(d, t.value, net);
        if e.Some? then SetReach(Drop(g, id), id, ClassifyReach(e.value))
        else SetReach(g.(db := g.db.(facts := g.db.facts + {id})), id, ReachOk)
  }

  /**
   `runAction`, and one target of a bulk run. `admitted` is the engine's own
   verdict on the request; `audited` tells whether the audit row was written.
   */
  function RunAction(f: Fleet, id: Id, admitted: bool, audited: bool, net: Net): Fleet {
    if !admitted || id !in f.db.machines || !f.db.machines[id].HasHost() then f
    else
      var t := ResolveTarget(id, f.db.machines[id], f.db.credentials);
      if t.None? then f
      else
        var (g, e) := Exec(f, t.value, net);
        if audited && e.Some? && ClassifyReach(e.value) != ReachUnknown then
          Drop(SetReach(g, id, ClassifyReach(e.value)), id)
        else g
  }

  /** A terminal or a follow stream: the failure path keeps whatever is pooled. */
  function OpenSession(f: Fleet, id: Id, admitted: bool, audited: bool, net: Net): Fleet {
    if !admitted || id !in f.db.machines || !f.db.machines[id].HasHost() then f
    else
      var t := ResolveTarget(id, f.db.machines[id], f.db.credentials);
      if t.None? then f
      else
        var (g, e) := Exec(f, t.value, net);
        if e.Some? then SetReach(g, id, ClassifyReach(e.value))
        else if audited then SetReach(g, id, ReachOk)
        else g
  }

  /** `reachCheck`, for a machine the sweep selected. */
  function ReachCheck(f: Fleet, id: Id, net: Net): Fleet {
    if id !in f.db.machines || !f.db.machines[id].HasHost() then f
    else
      var t := ResolveTarget(id, f.db.machines[id], f.db.credentials);
      if t.None? then f
      else
        var (g, e) := Exec(f, t.value, net);
        if e.Some? then Drop(SetReach(g, id, ClassifyReach(e.value)), id)
        else SetReach(g, id, ReachOk)
  }

  // ---- Power ----------------------------------------------------------------

  datatype PowerAction = Start | Stop | Reboot | ForceStop | ForceReboot

  /** What the provider and the audit log did; None when it refused or was not reached. */
  datatype PowerOutcome = NotAccepted | Accepted(state: Option<Str>)

  predicate PowerConfirmed(m: Machine, action: PowerAction, confirm: bool, confirmName: Str) {
    if action.Start? then confirm else confirmName == m.name
  }

  function Power(f: Fleet, id: Id, action: PowerAction, confirm: bool, confirmName: Str, out: PowerOutcome): Fleet {
    if id !in f.db.machines then f
    else
      var m := f.db.machines[id];
      if !m.HasCloud() || !PowerConfirmed(m, action, confirm, confirmName) || out.NotAccepted? then f
      else
        var g := Drop(f, id);
        if out.state.None? then g
        else g.(db := g.db.(machines := g.db.machines[id := m.(power := out.state.value)]))
  }

  // ---- Trust ----------------------------------------------------------------

  /** `trustHostKey`: installs the pending key if the request echoes it exactly. */
  function Trust(f: Fleet, id: Id, echoed: Key): Fleet {
    if id !in f.db.hostKeys then f
    else
      var k := f.db.hostKeys[id];
      if k.seen.fingerprint == "" || echoed != k.seen then f
      else
        SetReach(Drop(f.(db := f.db.(hostKeys := f.db.hostKeys[id := HostKey(k.seen, NO_KEY)])), id),
                 id, ReachUnknown)
  }

  // ---- Credentials and accounts ---------------------------------------------

  function CreateCredential(f: Fleet): Fleet {
    f.(db := f.db.(credentials := f.db.credentials + {f.db.nextCredential},
                   nextCredential := f.db.nextCredential + 1))
  }

  function UsersOf(machines: map<Id, Machine>, credential: Id): set<Id> {
    set id | id in machines && machines[id].credential == Some(credential)
  }

  /** ON DELETE SET NULL, and the pooled connections of exactly those machines. */
  function DeleteCredential(f: Fleet, credential: Id): Fleet {
    f.(db := f.db.(
         credentials := f.db.credentials - {credential},
         machines := map id | id in f.db.machines ::
           if f.db.machines[id].credential == Some(credential) then f.db.machines[id].(credential := None)
           else f.db.machines[id]),
       pool := f.pool - UsersOf(f.db.machines, credential))
  }

  function CreateAccount(f: Fleet, provider: Str): Fleet {
    f.(db := f.db.(accounts := f.db.accounts[f.db.nextAccount := provider], nextAccount := f.db.nextAccount + 1))
  }

  /** The cloud half of a machine, gone. */
  function Unlinked(m: Machine): Machine {
    m.(account := None, provider := "", instance := "", region := "", instanceType := "",
       power := "unknown", missing := false)
  }

  function DeleteAccount(f: Fleet, account: Id): Fleet {
    f.(db := f.db.(
         accounts := f.db.accounts - {account},
         machines := map id | id in f.db.machines ::
           if f.db.machines[id].account == Some(account) then Unlinked(f.db.machines[id])
           else f.db.machines[id]))
  }

  // ---- Cloud sync -----------------------------------------------------------

  datatype Instance = Instance(
    id: Str, name: Str, region: Str, instanceType: Str, power: Str, publicIp: Str, privateIp: Str,
    labels: Tags.TagList)

  predicate IsLinked(m: Machine, account: Id, instance: Str) {
    m.account == Some(account) && m.instance == instance
  }

  ghost predicate Known(machines: map<Id, Machine>, account: Id, instance: Str) {
    exists id <- machines :: IsLinked(machines[id], account, instance)
  }

  ghost function Find(machines: map<Id, Machine>, account: Id, instance: Str): (id: Id)
    requires Known(machines, account, instance)
    ensures id in machines && IsLinked(machines[id], account, instance)
  {
    var id :| id in machines && IsLinked(machines[id], account, instance);
    id
  }

  /** The address follows the public IP only while it was tracking it. */
  function FollowHost(host: Str, oldIp: Str, newIp: Str): Str {
    if host == oldIp && newIp != "" && newIp != oldIp then newIp else host
  }

  function RefreshedRow(m: Machine, i: Instance): Machine {
    m.(region := i.region, instanceType := i.instanceType, power := i.power,
       publicIp := i.publicIp, privateIp := i.privateIp,
       host := FollowHost(m.host, m.publicIp, i.publicIp), missing := false)
  }

  function DiscoveredRow(account: Id, provider: Str, i: Instance): Machine {
    Machine(i.name, Tags.JoinTags(i.labels), Some(account), provider, i.id, i.region, i.instanceType,
            i.power, i.publicIp, i.privateIp, false, i.publicIp, 22, "", None, ReachUnknown)
  }

  /** One iteration of the reconcile loop: `UpsertFromCloud`, then the drop if the host moved. */
  ghost function SyncOne(f: Fleet, account: Id, provider: Str, i: Instance): Fleet {
    if Known(f.db.machines, account, i.id) then
      var id := Find(f.db.machines, account, i.id);
      var m := f.db.machines[id];
      var g := f.(db := f.db.(machines := f.db.machines[id := RefreshedRow(m, i)]));
      if FollowHost(m.host, m.publicIp, i.publicIp) != m.host then SetReach(Drop(g, id), id, ReachUnknown) else g
    else
      f.(db := InsertMachine(f.db, DiscoveredRow(account, provider, i)))
  }

  ghost function SyncAll(f: Fleet, account: Id, provider: Str, list: seq<Instance>): Fleet {
    if list == [] then f
    else SyncOne(SyncAll(f, account, provider, list[..|list| - 1]), account, provider, list[|list| - 1])
  }

  /** How many iterations inserted a row. */
  ghost function CreatedBy(f: Fleet, account: Id, provider: Str, list: seq<Instance>): nat {
    if list == [] then 0
    else
      var n := |list| - 1;
      CreatedBy(f, account, provider, list[..n])
      + if Known(SyncAll(f, account, provider, list[..n]).db.machines, account, list[n].id) then 0 else 1
  }

  function ReportedIds(list: seq<Instance>): (r: set<Str>)
    ensures forall i <- list :: i.id in r
    ensures forall x <- r :: exists i <- list :: i.id == x
  {
    set i | i in list :: i.id
  }

  /** `MarkMissing`. */
  function MarkMissing(f: Fleet, account: Id, seen: set<Str>): Fleet {
    f.(db := f.db.(machines := map id | id in f.db.machines ::
      if f.db.machines[id].account == Some(account) && f.db.machines[id].instance != ""
         && f.db.machines[id].instance !in seen
      then f.db.machines[id].(missing := true)
      else f.db.machines[id]))
  }

  /** `sync`: None is a listing that failed. */
  ghost function Sync(f: Fleet, account: Id, listing: Option<seq<Instance>>): Fleet {
    if account !in f.db.accounts || listing.None? then f
    else
      MarkMissing(SyncAll(f, account, f.db.accounts[account], listing.value), account, ReportedIds(listing.value))
  }

  /** A sync that stops with an error after the given instances: no row is marked missing. */
  ghost function AbortedSync(f: Fleet, account: Id, reached: seq<Instance>): Fleet {
    if account !in f.db.accounts then f else SyncAll(f, account, f.db.accounts[account], reached)
  }

  // ---- Runs -----------------------------------------------------------------

  datatype Event =
    | DoCreateMachine(input: Input)
    | DoUpdateMachine(id: Id, input: Input)
    | DoDeleteMachine(id: Id)
    | DoProbe(id: Id, net: Net)
    | DoRunAction(id: Id, admitted: bool, audited: bool, net: Net)
    | DoOpenSession(id: Id, admitted: bool, audited: bool, net: Net)
    | DoReachCheck(id: Id, net: Net)
    | DoPower(id: Id, action: PowerAction, confirm: bool, confirmName: Str, out: PowerOutcome)
    | DoTrust(id: Id, echoed: Key)
    | DoCreateCredential
    | DoDeleteCredential(id: Id)
    | DoCreateAccount(provider: Str)
    | DoDeleteAccount(id: Id)
    | DoSync(id: Id, listing: Option<seq<Instance>>)
    | DoAbortedSync(id: Id, reached: seq<Instance>)
    | DoKeepaliveEvicts(id: Id)

  ghost function Step(f: Fleet, e: Event): Fleet {
    match e
    case DoCreateMachine(input) => CreateMachine(f, input)
    case DoUpdateMachine(id, input) => UpdateMachine(f, id, input)
    case DoDeleteMachine(id) => DeleteMachine(f, id)
    case DoProbe(id, net) => Probe(f, id, net)
    case DoRunAction(id, admitted, audited, net) => RunAction(f, id, admitted, audited, net)
    case DoOpenSession(id, admitted, audited, net) => OpenSession(f, id, admitted, audited, net)
    case DoReachCheck(id, net) => ReachCheck(f, id, net)
    case DoPower(id, action, confirm, name, out) => Power(f, id, action, confirm, name, out)
    case DoTrust(id, echoed) => Trust(f, id, echoed)
    case DoCreateCredential => CreateCredential(f)
    case DoDeleteCredential(id) => DeleteCredential(f, id)
    case DoCreateAccount(provider) => CreateAccount(f, provider)
    case DoDeleteAccount(id) => DeleteAccount(f, id)
    case DoSync(id, listing) => Sync(f, id, listing)
    case DoAbortedSync(id, reached) => AbortedSync(f, id, reached)
    case DoKeepaliveEvicts(id) => Drop(f, id)
  }

  ghost function Run(f: Fleet, events: seq<Event>): Fleet {
    if events == [] then f else Step(Run(f, events[..|events| - 1]), events[|events| - 1])
  }

  /** What the environment guarantees: real keys have a fingerprint, adapters report instance ids. */
  predicate KeyShown(net: Net) {
    net.dial.Handshake? ==> net.dial.key.fingerprint != ""
  }

  predicate Admissible(e: Event) {
    match e
    case DoProbe(_, net) => KeyShown(net)
    case DoRunAction(_, _, _, net) => KeyShown(net)
    case DoOpenSession(_, _, _, net) => KeyShown(net)
    case DoReachCheck(_, net) => KeyShown(net)
    case DoSync(_, listing) => listing.Some? ==> forall i <- listing.value :: i.id != ""
    case DoAbortedSync(_, reached) => forall i <- reached :: i.id != ""
    case _ => true
  }
}
