/**
 Schema migrations (internal/store/store.go:61-131, internal/store/schema.go:8-151):
 each runs in a transaction with the row that records it, and the process may die
 between any two statements.
 */
module Migrate {
  import opened Base

  /** Column names. */
  datatype Name =
    | RowId | RowName | Kind | Sealed | Fingerprint | CreatedAt | Provider | SealedToken | LastSyncAt
    | LastSyncError | Tags | CloudAccountId | InstanceId | Region | InstanceType | PowerState | PublicIp
    | PrivateIp | CloudSyncedAt | Missing | SshHost | SshPort | SshUser | CredentialId | ReachState
    | ReachError | ReachCheckedAt | UpdatedAt | MachineId | Hostname | OsName | OsVersion | Kernel | Arch
    | InitSystem | SudoMode | Capabilities | FetchedAt | Algorithm | FirstSeen | MachineName | ActionId
    | Command | Danger | Actor | ExitCode | Stdout | Stderr | Error | DurationMs | StartedAt | Label
    | Category | Params | Requires | Sudo | SeenAlgorithm | SeenFingerprint

  datatype Table =
    | Credentials | CloudAccounts | Machines | HostFacts | HostKeys | Runs | Groups | CustomActions

  datatype Index = MachinesInstance | RunsStarted | RunsMachine

  datatype Stmt =
    | CreateTable(table: Table, columns: set<Name>)
    | CreateIndex(index: Index, table: Table)
    | AddColumn(table: Table, column: Name)

  type Column = (Table, Name)

  datatype Schema = Schema(tables: set<Table>, columns: set<Column>, indexes: set<Index>)

  const NOTHING := Schema({}, {}, {})

  datatype SqlError = DuplicateColumn | OtherError

  function ColumnsOf(t: Table, names: set<Name>): set<Column> {
    set n | n in names :: (t, n)
  }

  /** What SQLite makes of one statement. */
  function Exec(s: Schema, stmt: Stmt): Result<Schema, SqlError> {
    match stmt
    case CreateTable(t, names) =>
      if t in s.tables then Err(OtherError)
      else Ok(s.(tables := s.tables + {t}, columns := s.columns + ColumnsOf(t, names)))
    case CreateIndex(i, t) =>
      if i in s.indexes || t !in s.tables then Err(OtherError) else Ok(s.(indexes := s.indexes + {i}))
    case AddColumn(t, c) =>
      if t !in s.tables then Err(OtherError)
      else if (t, c) in s.columns then Err(DuplicateColumn)
      else Ok(s.(columns := s.columns + {(t, c)}))
  }

  /** A column that is already there counts as added. */
  function Tolerant(s: Schema, stmt: Stmt): Result<Schema, SqlError> {
    var r := Exec(s, stmt);
    if r == Err(DuplicateColumn) then Ok(s) else r
  }

  /** Strict execution of a list; on a fresh database it must not even need the tolerance. */
  function Strict(s: Schema, stmts: seq<Stmt>): Result<Schema, SqlError>
    decreases stmts
  {
    if stmts == [] then Ok(s)
    else
      var r := Exec(s, stmts[0]);
      if r.Err? then r else Strict(r.value, stmts[1..])
  }

  function ExecAll(s: Schema, stmts: seq<Stmt>): Result<Schema, SqlError>
    decreases stmts
  {
    if stmts == [] then Ok(s)
    else
      var r := Tolerant(s, stmts[0]);
      if r.Err? then r else ExecAll(r.value, stmts[1..])
  }

  function Flatten(ms: seq<seq<Stmt>>): seq<Stmt> {
    if ms == [] then [] else ms[0] + Flatten(ms[1..])
  }

  // ---- What a list of statements declares ------------------------------------

  predicate MakesTable(stmt: Stmt, t: Table) {
    stmt.CreateTable? && stmt.table == t
  }

  predicate MakesColumn(stmt: Stmt, t: Table, c: Name) {
    (stmt.CreateTable? && stmt.table == t && c in stmt.columns) || stmt == AddColumn(t, c)
  }

  predicate MakesIndex(stmt: Stmt, i: Index) {
    stmt.CreateIndex? && stmt.index == i
  }

  /** `r` is `s` with exactly the tables, columns and indexes the statements declare. */
  ghost predicate Extends(s: Schema, stmts: seq<Stmt>, r: Schema) {
    && (forall t :: t in r.tables <==> t in s.tables || exists x <- stmts :: MakesTable(x, t))
    && (forall t, c :: (t, c) in r.columns <==> (t, c) in s.columns || exists x <- stmts :: MakesColumn(x, t, c))
    && (forall i :: i in r.indexes <==> i in s.indexes || exists x <- stmts :: MakesIndex(x, i))
  }

  lemma OneExtends(s: Schema, stmt: Stmt)
    requires Exec(s, stmt).Ok?
    ensures Extends(s, [stmt], Exec(s, stmt).value)
  {
    var r := Exec(s, stmt).value;
    assert stmt in [stmt];
    forall t, c ensures (t, c) in r.columns <==> (t, c) in s.columns || MakesColumn(stmt, t, c) {
    }
  }

  lemma ExtendsTwice(s: Schema, a: Stmt, m: Schema, b: seq<Stmt>, r: Schema)
    requires Extends(s, [a], m) && Extends(m, b, r)
    ensures Extends(s, [a] + b, r)
  {
    var all := [a] + b;
    assert a in all && forall x :: x in all <==> x == a || x in b;
  }

  /** Strict execution declares what the statements say and nothing else. */
  lemma {:induction false} StrictExtends(s: Schema, stmts: seq<Stmt>)
    requires Strict(s, stmts).Ok?
    ensures Extends(s, stmts, Strict(s, stmts).value)
    decreases stmts
  {
    if stmts != [] {
      var m := Exec(s, stmts[0]).value;
      OneExtends(s, stmts[0]);
      StrictExtends(m, stmts[1..]);
      ExtendsTwice(s, stmts[0], m, stmts[1..], Strict(s, stmts).value);
      assert stmts == [stmts[0]] + stmts[1..];
    }
  }

  /** A statement goes through, counting a column that is there already as added. */
  predicate Applies(s: Schema, stmt: Stmt) {
    match stmt
    case CreateTable(t, _) => t !in s.tables
    case CreateIndex(i, t) => i !in s.indexes && t in s.tables
    case AddColumn(t, _) => t in s.tables
  }

  lemma TolerantMeans(s: Schema, stmt: Stmt)
    ensures Tolerant(s, stmt).Ok? <==> Applies(s, stmt)
    ensures Tolerant(s, stmt).Ok? ==> Extends(s, [stmt], Tolerant(s, stmt).value)
  {
    assert stmt in [stmt];
    if Exec(s, stmt).Ok? {
      OneExtends(s, stmt);
    }
  }

  /** What a list that goes through declares is there afterwards, and nothing else is new. */
  lemma {:induction false} ExecAllExtends(s: Schema, stmts: seq<Stmt>)
    requires ExecAll(s, stmts).Ok?
    ensures Extends(s, stmts, ExecAll(s, stmts).value)
    decreases stmts
  {
    if stmts != [] {
      var m := Tolerant(s, stmts[0]).value;
      TolerantMeans(s, stmts[0]);
      ExecAllExtends(m, stmts[1..]);
      ExtendsTwice(s, stmts[0], m, stmts[1..], ExecAll(s, stmts).value);
      assert stmts == [stmts[0]] + stmts[1..];
    }
  }

  /** The statements before k go through, and k does not apply to what they leave. */
  predicate StuckAt(s: Schema, stmts: seq<Stmt>, k: nat) {
    k < |stmts| && ExecAll(s, stmts[..k]).Ok? && !Applies(ExecAll(s, stmts[..k]).value, stmts[k])
  }

  lemma ExecPrefix(s: Schema, stmts: seq<Stmt>, k: nat)
    requires k < |stmts| && Applies(s, stmts[0])
    ensures ExecAll(s, stmts[..k + 1]) == ExecAll(Tolerant(s, stmts[0]).value, stmts[1..][..k])
  {
    TolerantMeans(s, stmts[0]);
    assert stmts[..k + 1][0] == stmts[0] && stmts[..k + 1][1..] == stmts[1..][..k];
  }

  /** A list fails if and only if some statement does not apply when its turn comes. */
  lemma {:induction false} FailsIff(s: Schema, stmts: seq<Stmt>)
    ensures ExecAll(s, stmts).Err? <==> exists k: nat :: StuckAt(s, stmts, k)
    decreases stmts
  {
    if stmts != [] {
      TolerantMeans(s, stmts[0]);
      assert stmts[..0] == [];
      if Applies(s, stmts[0]) {
        var m, tail := Tolerant(s, stmts[0]).value, stmts[1..];
        FailsIff(m, tail);
        if k: nat :| StuckAt(m, tail, k) {
          ExecPrefix(s, stmts, k);
          assert StuckAt(s, stmts, k + 1);
        }
        if k: nat :| StuckAt(s, stmts, k) {
          assert k > 0;
          ExecPrefix(s, stmts, k - 1);
          assert StuckAt(m, tail, k - 1);
        }
      } else {
        assert StuckAt(s, stmts, 0);
      }
    }
  }

  // ---- Databases from the past ----------------------------------------------

  /** Columns some statement of the list adds to an existing table. */
  function Added(stmts: seq<Stmt>): set<Column> {
    if stmts == [] then {}
    else (if stmts[0].AddColumn? then {(stmts[0].table, stmts[0].column)} else {}) + Added(stmts[1..])
  }

  /**
   A schema that is where `strict` is, except that it may already have columns
   the rest of the migrations will add: the shape an in-place edit left behind.
   */
  predicate Between(s: Schema, strict: Schema, rest: seq<Stmt>) {
    && s.tables == strict.tables && s.indexes == strict.indexes
    && strict.columns <= s.columns <= strict.columns + Added(rest)
    && forall c <- s.columns :: c.0 in s.tables
  }

  lemma ExecBetween(s: Schema, strict: Schema, stmt: Stmt, rest: seq<Stmt>)
    requires Between(s, strict, [stmt] + rest) && Exec(strict, stmt).Ok?
    ensures Tolerant(s, stmt).Ok? && Between(Tolerant(s, stmt).value, Exec(strict, stmt).value, rest)
  {
    assert ([stmt] + rest)[1..] == rest;
  }

  lemma {:induction false} ExecAllBetween(s: Schema, strict: Schema, stmts: seq<Stmt>, rest: seq<Stmt>)
    requires Between(s, strict, stmts + rest) && Strict(strict, stmts).Ok?
    ensures ExecAll(s, stmts).Ok? && Between(ExecAll(s, stmts).value, Strict(strict, stmts).value, rest)
    decreases stmts
  {
    if stmts == [] {
      assert stmts + rest == rest;
    } else {
      assert stmts + rest == [stmts[0]] + (stmts[1..] + rest);
      ExecBetween(s, strict, stmts[0], stmts[1..] + rest);
      ExecAllBetween(Tolerant(s, stmts[0]).value, Exec(strict, stmts[0]).value, stmts[1..], rest);
    }
  }

  lemma {:induction false} StrictConcat(s: Schema, a: seq<Stmt>, b: seq<Stmt>)
    ensures Strict(s, a + b) == if Strict(s, a).Ok? then Strict(Strict(s, a).value, b) else Strict(s, a)
    decreases a
  {
    if a == [] {
      assert a + b == b;
    } else {
      assert (a + b)[1..] == a[1..] + b;
      var r := Exec(s, a[0]);
      if r.Ok? {
        StrictConcat(r.value, a[1..], b);
      }
    }
  }

  // ---- One migration list ---------------------------------------------------

  /** A list that applies to a fresh database without any tolerance. */
  predicate Sound(ms: seq<seq<Stmt>>) {
    Strict(NOTHING, Flatten(ms)).Ok?
  }

  lemma {:induction false} FlattenSplit(ms: seq<seq<Stmt>>, k: nat)
    requires k <= |ms|
    ensures Flatten(ms) == Flatten(ms[..k]) + Flatten(ms[k..])
  {
    if k > 0 {
      FlattenSplit(ms[1..], k - 1);
      assert ms[1..][..k - 1] == ms[..k][1..] && ms[1..][k - 1..] == ms[k..];
    } else {
      assert ms[..k] == [] && ms[k..] == ms;
    }
  }

  /** The schema of a database created and migrated to version k. */
  function SchemaAt(ms: seq<seq<Stmt>>, k: nat): Schema
    requires k <= |ms|
  {
    var r := Strict(NOTHING, Flatten(ms[..k]));
    if r.Ok? then r.value else NOTHING
  }

  function Rest(ms: seq<seq<Stmt>>, k: nat): seq<Stmt>
    requires k <= |ms|
  {
    Flatten(ms[k..])
  }

  lemma SoundPrefix(ms: seq<seq<Stmt>>, k: nat)
    requires Sound(ms) && k < |ms|
    ensures Strict(SchemaAt(ms, k), ms[k]) == Ok(SchemaAt(ms, k + 1))
    ensures Rest(ms, k) == ms[k] + Rest(ms, k + 1)
  {
    FlattenSplit(ms, k + 1);
    StrictConcat(NOTHING, Flatten(ms[..k + 1]), Flatten(ms[k + 1..]));
    FlattenSplit(ms[..k + 1], k);
    assert ms[..k + 1][..k] == ms[..k] && ms[..k + 1][k..] == [ms[k]];
    assert Flatten([ms[k]]) == ms[k] by {
      assert [ms[k]][1..] == [] && ms[k] + [] == ms[k];
    }
    StrictConcat(NOTHING, Flatten(ms[..k]), ms[k]);
    assert ms[k..][1..] == ms[k + 1..];
  }

  // ---- The database across crashes ------------------------------------------

  function Upto(k: nat): (r: set<int>)
    ensures forall v :: v in r <==> 1 <= v <= k
  {
    if k == 0 then {} else Upto(k - 1) + {k}
  }

  datatype Stored = Stored(schema: Schema, versions: set<int>)

  /**
   Idle: the process is not running. Working: inside the transaction of migration
   `done + 1`, `next` statements in; `work` is what the transaction sees.
   */
  datatype Phase = Idle | Working(done: nat, work: Schema, next: nat) | Failed | Finished

  datatype State = State(db: Stored, phase: Phase)

  datatype Event = Continue | Crash

  /** COALESCE(MAX(version), 0) */
  ghost function Current(versions: set<int>): (v: int)
    ensures versions == {} ==> v == 0
    ensures versions != {} ==> v in versions && forall w <- versions :: w <= v
  {
    if versions == {} then 0
    else MaxExists(versions); var v :| IsMax(v, versions); v
  }

  predicate IsMax(v: int, versions: set<int>) {
    v in versions && forall w <- versions :: w <= v
  }

  lemma {:induction false} MaxExists(versions: set<int>)
    requires versions != {}
    ensures exists v :: IsMax(v, versions)
    decreases |versions|
  {
    EmptyWhenNoneIn(versions);
    var x :| x in versions;
    var others := versions - {x};
    if others == {} {
      AloneIsMax(x, versions);
    } else {
      MaxExists(others);
      var y :| IsMax(y, others);
      MaxOfBoth(x, y, versions);
    }
  }

  lemma AloneIsMax(x: int, versions: set<int>)
    requires x in versions && versions - {x} == {}
    ensures IsMax(x, versions)
  {
    forall w | w in versions ensures w == x {
      assert w !in versions - {x};
    }
  }

  lemma MaxOfBoth(x: int, y: int, versions: set<int>)
    requires x in versions && IsMax(y, versions - {x})
    ensures IsMax(if x < y then y else x, versions)
  {
    forall w | w in versions ensures w <= if x < y then y else x {
      assert w == x || w in versions - {x};
    }
  }

  function Max(a: int, b: int): int { if a < b then b else a }

  function Begin(ms: seq<seq<Stmt>>, db: Stored, done: nat): State {
    State(db, if done < |ms| then Working(done, db.schema, 0) else Finished)
  }

  ghost function Step(ms: seq<seq<Stmt>>, s: State, e: Event): State {
    if e == Crash then s.(phase := Idle)
    else match s.phase
      case Idle => Begin(ms, s.db, Max(Current(s.db.versions), 0))
      case Working(done, work, next) =>
        if done >= |ms| then s.(phase := Failed)
        else if next < |ms[done]| then
          var r := Tolerant(work, ms[done][next]);
          if r.Err? then s.(phase := Failed) else s.(phase := Working(done, r.value, next + 1))
        else
          // The version row and the commit: the only way the stored database changes.
          Begin(ms, Stored(work, s.db.versions + {done + 1}), done + 1)
      case Failed => s
      case Finished => s
  }

  ghost function Run(ms: seq<seq<Stmt>>, s: State, events: seq<Event>): State {
    if events == [] then s else Step(ms, Run(ms, s, events[..|events| - 1]), events[|events| - 1])
  }

  /** A crash loses the transaction and keeps the store; the store changes by a whole migration or not at all. */
  lemma StoreChangesByCommits(ms: seq<seq<Stmt>>, s: State, e: Event)
    ensures e == Crash ==> Step(ms, s, e) == State(s.db, Idle)
    ensures Step(ms, s, e).db != s.db ==>
              && s.phase.Working? && s.phase.done < |ms| && s.phase.next >= |ms[s.phase.done]|
              && Step(ms, s, e).db == Stored(s.phase.work, s.db.versions + {s.phase.done + 1})
  {
  }

  // ---- What every run keeps -------------------------------------------------

  /** A database migrated to version k, possibly with columns from the future. */
  predicate AtVersion(ms: seq<seq<Stmt>>, db: Stored, k: nat) {
    k <= |ms| && db.versions == Upto(k) && Between(db.schema, SchemaAt(ms, k), Rest(ms, k))
  }

  predicate PhaseOk(ms: seq<seq<Stmt>>, phase: Phase, k: nat)
    requires k <= |ms|
  {
    match phase
    case Idle => true
    case Failed => false
    case Finished => k == |ms|
    case Working(done, work, next) =>
      && done == k < |ms| && next <= |ms[k]|
      && var strict := Strict(SchemaAt(ms, k), ms[k][..next]);
      && strict.Ok? && Between(work, strict.value, ms[k][next..] + Rest(ms, k + 1))
  }

  predicate Inv(ms: seq<seq<Stmt>>, s: State, k: nat) {
    AtVersion(ms, s.db, k) && PhaseOk(ms, s.phase, k)
  }

  lemma CurrentIsLast(k: nat)
    ensures Current(Upto(k)) == k
  {
    if k > 0 {
      assert k in Upto(k);
    } else {
      assert Upto(0) == {};
    }
  }

  lemma BeginOk(ms: seq<seq<Stmt>>, db: Stored, k: nat)
    requires Sound(ms) && AtVersion(ms, db, k)
    ensures Inv(ms, Begin(ms, db, k), k)
  {
    if k < |ms| {
      SoundPrefix(ms, k);
      assert ms[k][..0] == [] && ms[k][0..] == ms[k];
    }
  }

  lemma CutAt(m: seq<Stmt>, next: nat)
    requires next < |m|
    ensures m == m[..next] + m[next..] && m[next..] == [m[next]] + m[next + 1..]
    ensures m[..next + 1] == m[..next] + [m[next]]
  {
  }

  lemma StatementOk(ms: seq<seq<Stmt>>, work: Schema, k: nat, next: nat)
    requires Sound(ms) && k < |ms| && next < |ms[k]| && PhaseOk(ms, Working(k, work, next), k)
    ensures var r := Tolerant(work, ms[k][next]); r.Ok? && PhaseOk(ms, Working(k, r.value, next + 1), k)
  {
    SoundPrefix(ms, k);
    var m, stmt := ms[k], ms[k][next];
    CutAt(m, next);
    StrictConcat(SchemaAt(ms, k), m[..next], m[next..]);
    var strict := Strict(SchemaAt(ms, k), m[..next]).value;
    assert m[next..][0] == stmt;
    StrictConcat(SchemaAt(ms, k), m[..next], [stmt]);
    assert [stmt][1..] == [];
    assert m[next..] + Rest(ms, k + 1) == [stmt] + (m[next + 1..] + Rest(ms, k + 1));
    ExecBetween(work, strict, stmt, m[next + 1..] + Rest(ms, k + 1));
  }

  lemma CommitOk(ms: seq<seq<Stmt>>, db: Stored, work: Schema, k: nat)
    requires Sound(ms) && k < |ms| && AtVersion(ms, db, k) && PhaseOk(ms, Working(k, work, |ms[k]|), k)
    ensures AtVersion(ms, Stored(work, db.versions + {k + 1}), k + 1)
  {
    SoundPrefix(ms, k);
    assert ms[k][..|ms[k]|] == ms[k] && ms[k][|ms[k]|..] + Rest(ms, k + 1) == Rest(ms, k + 1);
    assert Upto(k) + {k + 1} == Upto(k + 1);
  }

  /** The version a continued step leaves the database at. */
  function NextVersion(ms: seq<seq<Stmt>>, phase: Phase, k: nat): nat
    requires k <= |ms| && PhaseOk(ms, phase, k)
  {
    if phase.Working? && phase.next == |ms[k]| then k + 1 else k
  }

  lemma AfterStatement(ms: seq<seq<Stmt>>, db: Stored, work: Schema, next: nat, k: nat)
    requires Sound(ms) && AtVersion(ms, db, k) && k < |ms| && next < |ms[k]|
    requires PhaseOk(ms, Working(k, work, next), k)
    ensures Inv(ms, Step(ms, State(db, Working(k, work, next)), Continue), k)
  {
    StatementOk(ms, work, k, next);
  }

  lemma AfterCommit(ms: seq<seq<Stmt>>, db: Stored, work: Schema, k: nat)
    requires Sound(ms) && AtVersion(ms, db, k) && k < |ms|
    requires PhaseOk(ms, Working(k, work, |ms[k]|), k)
    ensures Inv(ms, Step(ms, State(db, Working(k, work, |ms[k]|)), Continue), k + 1)
  {
    var after := Stored(work, db.versions + {k + 1});
    CommitOk(ms, db, work, k);
    BeginOk(ms, after, k + 1);
    assert Step(ms, State(db, Working(k, work, |ms[k]|)), Continue) == Begin(ms, after, k + 1);
  }

  lemma ContinueOk(ms: seq<seq<Stmt>>, s: State, k: nat)
    requires Sound(ms) && Inv(ms, s, k)
    ensures Inv(ms, Step(ms, s, Continue), NextVersion(ms, s.phase, k))
  {
    match s.phase {
      case Idle =>
        CurrentIsLast(k);
        BeginOk(ms, s.db, k);
      case Working(done, work, next) =>
        if next < |ms[k]| {
          AfterStatement(ms, s.db, work, next, k);
        } else {
          AfterCommit(ms, s.db, work, k);
        }
      case Finished =>
    }
  }

  lemma StepOk(ms: seq<seq<Stmt>>, s: State, e: Event, k: nat) returns (j: nat)
    requires Sound(ms) && Inv(ms, s, k)
    ensures k <= j && Inv(ms, Step(ms, s, e), j)
  {
    j := k;
    if e == Continue {
      ContinueOk(ms, s, k);
      j := NextVersion(ms, s.phase, k);
    }
  }

  lemma {:induction false} RunOk(ms: seq<seq<Stmt>>, s: State, events: seq<Event>, k: nat) returns (j: nat)
    requires Sound(ms) && Inv(ms, s, k)
    ensures k <= j && Inv(ms, Run(ms, s, events), j)
  {
    j := k;
    if events != [] {
      j := RunOk(ms, s, events[..|events| - 1], k);
      var before, e := Run(ms, s, events[..|events| - 1]), events[|events| - 1];
      j := StepOk(ms, before, e, j);
    }
  }

  lemma LastIsWhole(ms: seq<seq<Stmt>>, db: Stored)
    requires AtVersion(ms, db, |ms|)
    ensures db == Stored(SchemaAt(ms, |ms|), Upto(|ms|))
  {
    assert ms[|ms|..] == [];
  }

  /**
   Convergence: from any database at some version, in either historical shape,
   and through any crashes and restarts, the recorded versions are a prefix
   that never shrinks, no migration fails, and a run that finishes leaves the
   schema a fresh database would get.
   */
  lemma MigrationConverges(ms: seq<seq<Stmt>>, db: Stored, k: nat, events: seq<Event>)
    requires Sound(ms) && AtVersion(ms, db, k)
    ensures var s := Run(ms, State(db, Idle), events);
            && (exists j :: k <= j <= |ms| && s.db.versions == Upto(j))
            && s.phase != Failed
            && (s.phase == Finished ==> s.db == Stored(SchemaAt(ms, |ms|), Upto(|ms|)))
  {
    var j := RunOk(ms, State(db, Idle), events, k);
    var s := Run(ms, State(db, Idle), events);
    assert k <= j <= |ms| && s.db.versions == Upto(j);
    if s.phase == Finished {
      LastIsWhole(ms, s.db);
    }
  }

  /** Steps a crash-free run still needs, at most. */
  function Pending(ms: seq<seq<Stmt>>, k: nat): nat
    requires k <= |ms|
    decreases |ms| - k
  {
    if k == |ms| then 0 else |ms[k]| + 1 + Pending(ms, k + 1)
  }

  function Remaining(ms: seq<seq<Stmt>>, phase: Phase, k: nat): nat
    requires k <= |ms| && PhaseOk(ms, phase, k)
  {
    match phase
    case Idle => Pending(ms, k) + 1
    case Working(_, _, next) => |ms[k]| + 1 - next + Pending(ms, k + 1)
    case Finished => 0
  }

  lemma ContinueShrinks(ms: seq<seq<Stmt>>, s: State, k: nat)
    requires Sound(ms) && Inv(ms, s, k) && s.phase != Finished
    requires Inv(ms, Step(ms, s, Continue), NextVersion(ms, s.phase, k))
    ensures Remaining(ms, Step(ms, s, Continue).phase, NextVersion(ms, s.phase, k)) < Remaining(ms, s.phase, k)
  {
    CurrentIsLast(k);
  }

  /** Left alone, a migration finishes. */
  lemma {:induction false} MigrationFinishes(ms: seq<seq<Stmt>>, s: State, k: nat) returns (n: nat)
    requires Sound(ms) && Inv(ms, s, k)
    ensures RunFor(ms, s, n).phase == Finished
    decreases Remaining(ms, s.phase, k)
  {
    if s.phase == Finished {
      n := 0;
    } else {
      var t := Step(ms, s, Continue);
      ContinueOk(ms, s, k);
      ContinueShrinks(ms, s, k);
      var j := NextVersion(ms, s.phase, k);
      var m := MigrationFinishes(ms, t, j);
      n := m + 1;
    }
  }

  ghost function RunFor(ms: seq<seq<Stmt>>, s: State, n: nat): State
    decreases n
  {
    if n == 0 then s else RunFor(ms, Step(ms, s, Continue), n - 1)
  }
}
