/** The migrations the store ships (internal/store/schema.go:8-151), and the code that applies them. */
module ShippedSchema {
  import opened Base
  import opened Migrate

  const CREDENTIALS: set<Name> := {RowId, RowName, Kind, Sealed, Fingerprint, CreatedAt}

  const CLOUD_ACCOUNTS: set<Name> := {RowId, RowName, Provider, SealedToken, LastSyncAt, LastSyncError, CreatedAt}

  const MACHINES: set<Name> := {
    RowId, RowName, Tags, CloudAccountId, Provider, InstanceId, Region, InstanceType, PowerState,
    PublicIp, PrivateIp, CloudSyncedAt, Missing, SshHost, SshPort, SshUser, CredentialId,
    ReachState, ReachError, ReachCheckedAt, CreatedAt, UpdatedAt}

  const HOST_FACTS: set<Name> := {
    MachineId, Hostname, OsName, OsVersion, Kernel, Arch, InitSystem, SudoMode, Capabilities,
    FetchedAt}

  const HOST_KEYS: set<Name> := {MachineId, Algorithm, Fingerprint, FirstSeen}

  const RUNS: set<Name> := {
    RowId, MachineId, MachineName, ActionId, Command, Danger, Actor, ExitCode, Stdout, Stderr,
    Error, DurationMs, StartedAt}

  const GROUPS: set<Name> := {RowId, RowName, Tags, CreatedAt}

  const CUSTOM_ACTIONS: set<Name> := {
    RowId, Label, Category, Command, Params, Requires, Sudo, Danger, CreatedAt}

  function FirstTables(
    credentials: set<Name>, accounts: set<Name>, machines: set<Name>, facts: set<Name>, keys: set<Name>,
    runs: set<Name>): seq<Stmt>
  {
    [CreateTable(Credentials, credentials), CreateTable(CloudAccounts, accounts), CreateTable(Machines, machines),
     CreateIndex(MachinesInstance, Machines), CreateTable(HostFacts, facts), CreateTable(HostKeys, keys),
     CreateTable(Runs, runs), CreateIndex(RunsStarted, Runs), CreateIndex(RunsMachine, Runs)]
  }

  function Tables1(): seq<Stmt> {
    FirstTables(CREDENTIALS, CLOUD_ACCOUNTS, MACHINES, HOST_FACTS, HOST_KEYS, RUNS)
  }

  function SeenKeys2(): seq<Stmt> {
    [AddColumn(HostKeys, SeenAlgorithm), AddColumn(HostKeys, SeenFingerprint)]
  }

  function Fleet3(): seq<Stmt> {
    [CreateTable(Groups, GROUPS), CreateTable(CustomActions, CUSTOM_ACTIONS)]
  }

  function Migrations(): seq<seq<Stmt>> {
    [Tables1(), SeenKeys2(), Fleet3()]
  }

  // ---- The list is sound ----------------------------------------------------

  /** Each statement creates something new, and indexes something that exists. */
  predicate AllNew(tables: set<Table>, indexes: set<Index>, stmts: seq<Stmt>, keys: set<Name>)
    decreases stmts
  {
    stmts == [] ||
    match stmts[0]
    case CreateTable(t, names) =>
      t !in tables && (t == HostKeys ==> names == keys) && AllNew(tables + {t}, indexes, stmts[1..], keys)
    case CreateIndex(i, t) =>
      t in tables && i !in indexes && AllNew(tables, indexes + {i}, stmts[1..], keys)
    case AddColumn(_, _) => false
  }

  function Created(stmts: seq<Stmt>): set<Table> {
    if stmts == [] then {} else (if stmts[0].CreateTable? then {stmts[0].table} else {}) + Created(stmts[1..])
  }

  /** No stray columns, and host_keys with the given columns at most. */
  predicate Plain(s: Schema, keys: set<Name>) {
    && (forall c <- s.columns :: c.0 in s.tables)
    && (forall c <- s.columns :: c.0 == HostKeys ==> c.1 in keys)
  }

  lemma {:induction false} AllNewIsStrict(s: Schema, stmts: seq<Stmt>, keys: set<Name>)
    requires Plain(s, keys) && AllNew(s.tables, s.indexes, stmts, keys)
    ensures Strict(s, stmts).Ok? && Plain(Strict(s, stmts).value, keys)
    ensures Strict(s, stmts).value.tables == s.tables + Created(stmts)
    decreases stmts
  {
    if stmts != [] {
      AllNewIsStrict(Exec(s, stmts[0]).value, stmts[1..], keys);
    }
  }

  lemma NewTable(tables: set<Table>, indexes: set<Index>, t: Table, names: set<Name>, rest: seq<Stmt>, keys: set<Name>)
    requires t !in tables && (t == HostKeys ==> names == keys) && AllNew(tables + {t}, indexes, rest, keys)
    ensures AllNew(tables, indexes, [CreateTable(t, names)] + rest, keys)
    ensures Created([CreateTable(t, names)] + rest) == {t} + Created(rest)
  {
    assert ([CreateTable(t, names)] + rest)[1..] == rest;
  }

  lemma NewIndex(tables: set<Table>, indexes: set<Index>, i: Index, t: Table, rest: seq<Stmt>, keys: set<Name>)
    requires t in tables && i !in indexes && AllNew(tables, indexes + {i}, rest, keys)
    ensures AllNew(tables, indexes, [CreateIndex(i, t)] + rest, keys)
    ensures Created([CreateIndex(i, t)] + rest) == Created(rest)
  {
    assert ([CreateIndex(i, t)] + rest)[1..] == rest;
  }

  lemma FirstIsAllNew(a: set<Name>, b: set<Name>, c: set<Name>, d: set<Name>, keys: set<Name>, f: set<Name>)
    ensures var m := FirstTables(a, b, c, d, keys, f);
            AllNew({}, {}, m, keys) && HostKeys in Created(m) && Groups !in Created(m) && CustomActions !in Created(m)
  {
    var m := FirstTables(a, b, c, d, keys, f);
    var t3: set<Table> := {} + {Credentials} + {CloudAccounts} + {Machines};
    var t6 := t3 + {HostFacts} + {HostKeys} + {Runs};
    var i1: set<Index> := {} + {MachinesInstance};
    NewIndex(t6, i1 + {RunsStarted}, RunsMachine, Runs, [], keys);
    NewIndex(t6, i1, RunsStarted, Runs, m[8..], keys);
    NewTable(t3 + {HostFacts} + {HostKeys}, i1, Runs, f, m[7..], keys);
    NewTable(t3 + {HostFacts}, i1, HostKeys, keys, m[6..], keys);
    NewTable(t3, i1, HostFacts, d, m[5..], keys);
    NewIndex(t3, {}, MachinesInstance, Machines, m[4..], keys);
    NewTable({} + {Credentials} + {CloudAccounts}, {}, Machines, c, m[3..], keys);
    NewTable({} + {Credentials}, {}, CloudAccounts, b, m[2..], keys);
    NewTable({}, {}, Credentials, a, m[1..], keys);
    Heads(m);
  }

  lemma Heads(m: seq<Stmt>)
    requires |m| == 9
    ensures forall k :: 0 <= k < 9 ==> m[k..] == [m[k]] + m[k + 1..]
    ensures m[9..] == [] && m[0..] == m
  {
  }

  lemma SeenColumnsAreNew()
    ensures SeenAlgorithm !in HOST_KEYS && SeenFingerprint !in HOST_KEYS
  {
  }

  lemma FirstApplies(m: seq<Stmt>) returns (s: Schema)
    requires m == Tables1()
    ensures Strict(NOTHING, m) == Ok(s) && Plain(s, HOST_KEYS)
    ensures HostKeys in s.tables && Groups !in s.tables && CustomActions !in s.tables
  {
    FirstIsAllNew(CREDENTIALS, CLOUD_ACCOUNTS, MACHINES, HOST_FACTS, HOST_KEYS, RUNS);
    s := AllNewApplies(m, HOST_KEYS);
  }

  lemma AllNewApplies(m: seq<Stmt>, keys: set<Name>) returns (s: Schema)
    requires AllNew({}, {}, m, keys)
    ensures Strict(NOTHING, m) == Ok(s) && Plain(s, keys) && s.tables == Created(m)
  {
    AllNewIsStrict(NOTHING, m, keys);
    s := Strict(NOTHING, m).value;
    assert s.tables == {} + Created(m);
  }

  lemma SecondApplies(s: Schema, m: seq<Stmt>) returns (t: Schema)
    requires m == SeenKeys2() && Plain(s, HOST_KEYS) && HostKeys in s.tables
    ensures Strict(s, m) == Ok(t) && t.tables == s.tables
  {
    SeenColumnsAreNew();
    assert m[1..] == [AddColumn(HostKeys, SeenFingerprint)] && m[1..][1..] == [];
    var s1 := s.(columns := s.columns + {(HostKeys, SeenAlgorithm)});
    assert Exec(s, m[0]) == Ok(s1);
    t := s1.(columns := s1.columns + {(HostKeys, SeenFingerprint)});
    assert Strict(s1, m[1..]) == Ok(t);
  }

  lemma ThirdApplies(s: Schema, m: seq<Stmt>)
    requires m == Fleet3() && Groups !in s.tables && CustomActions !in s.tables
    ensures Strict(s, m).Ok?
  {
    assert m[1..] == [CreateTable(CustomActions, CUSTOM_ACTIONS)] && m[1..][1..] == [];
    var s1 := Exec(s, m[0]).value;
    assert Exec(s1, m[1..][0]).Ok?;
    assert Strict(s, m) == Strict(s1, m[1..]);
  }

  lemma FlattenThree(a: seq<Stmt>, b: seq<Stmt>, c: seq<Stmt>)
    ensures Flatten([a, b, c]) == a + (b + c) && Flatten([a]) == a && [a, b, c][..1] == [a]
    ensures Flatten([b, c]) == b + c && [a, b, c][1..] == [b, c]
  {
    assert [a, b, c][1..] == [b, c] && [b, c][1..] == [c] && [c][1..] == [] && [a][1..] == [];
    assert c + [] == c && a + [] == a;
    assert Flatten([c]) == c;
    assert Flatten([b, c]) == b + Flatten([c]);
    assert Flatten([a, b, c]) == a + Flatten([b, c]);
  }

  lemma ThreeStages(a: seq<Stmt>, b: seq<Stmt>, c: seq<Stmt>, s1: Schema, s2: Schema)
    requires Strict(NOTHING, a) == Ok(s1) && Strict(s1, b) == Ok(s2) && Strict(s2, c).Ok?
    ensures Sound([a, b, c])
  {
    FlattenThree(a, b, c);
    StrictConcat(s1, b, c);
    StrictConcat(NOTHING, a, b + c);
  }

  lemma ListIsSound(a: seq<Stmt>, b: seq<Stmt>, c: seq<Stmt>)
    requires a == Tables1() && b == SeenKeys2() && c == Fleet3()
    ensures Sound([a, b, c])
  {
    var s1 := FirstApplies(a);
    var s2 := SecondApplies(s1, b);
    ThirdApplies(s2, c);
    ThreeStages(a, b, c, s1, s2);
  }

  /** On a fresh database the shipped list needs no tolerance. */
  lemma MigrationsAreSound()
    ensures Sound(Migrations())
  {
    ListIsSound(Tables1(), SeenKeys2(), Fleet3());
  }

  // ---- Databases that exist in the field ------------------------------------

  /** The seen_* columns an edited first migration created. */
  predicate FromTheFuture(extra: set<Column>) {
    extra <= {(HostKeys, SeenAlgorithm), (HostKeys, SeenFingerprint)}
  }

  /** Created and migrated by some release, or in the window when migration 1 was edited in place. */
  predicate InTheField(db: Stored, k: nat) {
    && k <= |Migrations()|
    && db.versions == Upto(k)
    && var s := SchemaAt(Migrations(), k);
    && (db.schema == s || (k == 1 && FromTheFuture(db.schema.columns - s.columns)
                           && s.columns <= db.schema.columns && db.schema.(columns := s.columns) == s))
  }

  lemma AddedConcat(a: seq<Stmt>, b: seq<Stmt>)
    ensures Added(a + b) == Added(a) + Added(b)
    decreases a
  {
    if a == [] {
      assert a + b == b;
    } else {
      assert (a + b)[1..] == a[1..] + b;
      AddedConcat(a[1..], b);
    }
  }

  lemma SecondAdds()
    ensures Added(SeenKeys2()) == {(HostKeys, SeenAlgorithm), (HostKeys, SeenFingerprint)}
  {
    var m := SeenKeys2();
    assert m[1..] == [AddColumn(HostKeys, SeenFingerprint)] && m[1..][1..] == [];
    assert Added(m[1..][1..]) == {};
  }

  lemma {:induction false} StrictIsTidy(s: Schema, stmts: seq<Stmt>)
    requires (forall c <- s.columns :: c.0 in s.tables) && Strict(s, stmts).Ok?
    ensures forall c <- Strict(s, stmts).value.columns :: c.0 in Strict(s, stmts).value.tables
    decreases stmts
  {
    if stmts != [] {
      StrictIsTidy(Exec(s, stmts[0]).value, stmts[1..]);
    }
  }

  lemma FieldIsAtVersion(db: Stored, k: nat)
    requires InTheField(db, k)
    ensures AtVersion(Migrations(), db, k)
  {
    var ms := Migrations();
    MigrationsAreSound();
    FlattenSplit(ms, k);
    StrictConcat(NOTHING, Flatten(ms[..k]), Flatten(ms[k..]));
    StrictIsTidy(NOTHING, Flatten(ms[..k]));
    if db.schema != SchemaAt(ms, k) {
      FlattenThree(Tables1(), SeenKeys2(), Fleet3());
      var s1 := FirstApplies(Tables1());
      SecondAdds();
      AddedConcat(SeenKeys2(), Fleet3());
    }
  }

  /** Every store in the field ends up with the same schema, however often the process dies on the way. */
  lemma EveryStoreConverges(db: Stored, k: nat, events: seq<Event>)
    requires InTheField(db, k)
    ensures var s := Run(Migrations(), State(db, Idle), events);
            && (exists j :: k <= j <= |Migrations()| && s.db.versions == Upto(j))
            && s.phase != Failed
            && (s.phase == Finished ==> s.db == Stored(SchemaAt(Migrations(), 3), Upto(3)))
  {
    MigrationsAreSound();
    FieldIsAtVersion(db, k);
    MigrationConverges(Migrations(), db, k, events);
  }

  /** A finished migration leaves exactly the tables, columns and indexes the shipped statements declare. */
  lemma FinalSchema(db: Stored, k: nat, events: seq<Event>)
    requires InTheField(db, k)
    ensures var s := Run(Migrations(), State(db, Idle), events);
            s.phase == Finished ==>
              s.db.versions == Upto(3) && Extends(NOTHING, Tables1() + SeenKeys2() + Fleet3(), s.db.schema)
  {
    EveryStoreConverges(db, k, events);
    MigrationsAreSound();
    FlattenThree(Tables1(), SeenKeys2(), Fleet3());
    var all := Tables1() + SeenKeys2() + Fleet3();
    assert Migrations()[..3] == Migrations();
    assert Flatten(Migrations()) == Tables1() + (SeenKeys2() + Fleet3()) == all;
    StrictExtends(NOTHING, all);
  }

  // ---- The code -------------------------------------------------------------

  /** One migration, run on a database at the version before it. */
  lemma OneMigration(ms: seq<seq<Stmt>>, db: Stored, i: nat)
    requires Sound(ms) && i < |ms| && AtVersion(ms, db, i)
    ensures ExecAll(db.schema, ms[i]).Ok?
    ensures AtVersion(ms, Stored(ExecAll(db.schema, ms[i]).value, db.versions + {i + 1}), i + 1)
  {
    SoundPrefix(ms, i);
    ExecAllBetween(db.schema, SchemaAt(ms, i), ms[i], Rest(ms, i + 1));
    assert Upto(i) + {i + 1} == Upto(i + 1);
  }

  class Database {
    var schema: Schema
    var versions: set<int>

    constructor (db: Stored)
      ensures schema == db.schema && versions == db.versions
    {
      schema, versions := db.schema, db.versions;
    }

    /** `execMigration`, on split statements, inside a transaction that sees `s`. */
    method ExecMigration(s: Schema, stmts: seq<Stmt>) returns (r: Result<Schema, SqlError>)
      ensures r == ExecAll(s, stmts)
    {
      var work := s;
      for i := 0 to |stmts|
        invariant ExecAll(s, stmts) == ExecAll(work, stmts[i..])
      {
        var e := Exec(work, stmts[i]);
        assert stmts[i..][0] == stmts[i] && stmts[i..][1..] == stmts[i + 1..];
        if e.Ok? {
          work := e.value;
        } else if e.error != DuplicateColumn {
          return e;
        }
      }
      return Ok(work);
    }

    /** `migrate`, when nothing interrupts it. `current` is the recorded maximum. */
    method Migrate(ms: seq<seq<Stmt>>, current: nat) returns (ok: bool)
      requires Sound(ms) && AtVersion(ms, Stored(schema, versions), current)
      modifies this
      ensures ok && Stored(schema, versions) == Stored(SchemaAt(ms, |ms|), Upto(|ms|))
    {
      for i := 0 to |ms|
        invariant i <= current ==> AtVersion(ms, Stored(schema, versions), current)
        invariant current <= i ==> AtVersion(ms, Stored(schema, versions), i)
      {
        if i + 1 <= current {
          continue;
        }
        OneMigration(ms, Stored(schema, versions), i);
        var r := ExecMigration(schema, ms[i]);
        if r.Err? {
          return false;
        }
        schema, versions := r.value, versions + {i + 1};
      }
      LastIsWhole(ms, Stored(schema, versions));
      return true;
    }
  }
}
