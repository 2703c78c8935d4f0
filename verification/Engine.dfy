/**
 The action engine (internal/actions/engine.go:126-262, 320-345): from a request to
 an execution on the host and the audit row that records it.
 */
module Engine {
  import opened Base
  import opened Substitution
  import opened Render
  import Capture
  import Utf8
  import FleetModel

  type Bytes = Utf8.Bytes

  type Id = FleetModel.Id

  const READ := 0
  const REVERSIBLE := 1
  const DISRUPTIVE := 2

  /** A custom action may carry any text here; what is not a known wish is SudoOther. */
  datatype Sudo = SudoNone | SudoRequired | SudoPreferred | SudoOther

  datatype Action = Action(
    id: Text, command: Text, script: Text, params: seq<Param>, danger: int, sudo: Sudo, needs: seq<Text>)

  datatype Facts = Facts(sudoMode: Text, capabilities: seq<Text>)

  datatype Request = Request(
    machine: Id, action: Text, params: Values, confirm: bool, confirmName: Text, actor: Text)

  datatype Refusal =
    | UnknownAction | NoSuchMachine | NoHost | NeedsConfirm | NeedsName | Forbidden
    | BadParam(error: RenderError) | NoFacts | NotAvailable(need: Text) | SudoUnavailable | Unresolved

  /** What the store and the catalog hold when a request arrives. */
  datatype Site = Site(
    builtin: map<Text, Action>, custom: map<Text, Action>,
    machines: map<Id, FleetModel.Machine>, facts: map<Id, Facts>, credentials: set<Id>)

  datatype Prepared = Prepared(
    action: Action, id: Id, machine: FleetModel.Machine, target: FleetModel.Target,
    shell: Text, script: Text, command: Text)

  // ---- Preparing ------------------------------------------------------------

  /** Built-in actions win a name clash. */
  function Lookup(site: Site, id: Text): Option<Action> {
    if id in site.builtin then Some(site.builtin[id])
    else if id in site.custom then Some(site.custom[id])
    else None
  }

  function Gate(danger: int, name: Text, req: Request): Option<Refusal> {
    if danger == READ then None
    else if danger == REVERSIBLE then (if !req.confirm then Some(NeedsConfirm) else None)
    else if danger == DISRUPTIVE then (if req.confirmName != name then Some(NeedsName) else None)
    else Some(Forbidden)
  }

  const SUDO: Text := "sudo -n "
  const TRANSPORT: Text := "sh -s"

  function ApplySudo(want: Sudo, mode: Text, command: Text): Result<Text, Refusal> {
    if mode == "root" || want == SudoNone then Ok(command)
    else match want
      case SudoRequired => if mode != "nopasswd" then Err(SudoUnavailable) else Ok(SUDO + command)
      case SudoPreferred => Ok(if mode == "nopasswd" then SUDO + command else command)
      case _ => Ok(command)
  }

  predicate FirstLacking(needs: seq<Text>, have: seq<Text>, k: nat) {
    k < |needs| && needs[k] !in have && forall j :: 0 <= j < k ==> needs[j] in have
  }

  /** The first capability the host lacks. */
  function FirstMissing(needs: seq<Text>, have: seq<Text>): (r: Option<Text>)
    ensures r == None <==> forall n <- needs :: n in have
    ensures r.Some? ==> exists k :: 0 <= k < |needs| && needs[k] == r.value && FirstLacking(needs, have, k)
  {
    if needs == [] then None
    else if needs[0] !in have then
      assert FirstLacking(needs, have, 0);
      Some(needs[0])
    else
      var r := FirstMissing(needs[1..], have);
      assert forall k: nat :: FirstLacking(needs[1..], have, k) ==> FirstLacking(needs, have, k + 1);
      r
  }

  const OVERVIEW: Text := "system.overview"

  /** The facts to go by; only the overview probe may run without any. */
  function FactsFor(site: Site, id: Id, action: Text): Option<Facts> {
    if id in site.facts then Some(site.facts[id])
    else if action == OVERVIEW then Some(Facts("", []))
    else None
  }

  /** The host-dependent half of `Prepare`. */
  function Assemble(site: Site, id: Id, act: Action, m: FleetModel.Machine, command: Text): Result<Prepared, Refusal> {
    var facts := FactsFor(site, id, act.id);
    if facts.None? then Err(NoFacts)
    else
      var missing := FirstMissing(act.needs, facts.value.capabilities);
      if missing.Some? then Err(NotAvailable(missing.value))
      else
        var shell := ApplySudo(act.sudo, facts.value.sudoMode, TRANSPORT);
        if shell.Err? then Err(shell.error)
        else
          var shown := if act.script == "" then ApplySudo(act.sudo, facts.value.sudoMode, command) else Ok(command);
          var target := FleetModel.ResolveTarget(id, m, site.credentials);
          if target.None? then Err(Unresolved)
          else Ok(Prepared(act, id, m, target.value, shell.value,
                           if act.script == "" then command + "\n" else act.script,
                           if shown.Ok? then shown.value else ""))
  }

  /** `Prepare`: the request first, then the host. */
  function Prepare(site: Site, req: Request): Result<Prepared, Refusal> {
    var act := Lookup(site, req.action);
    if act.None? then Err(UnknownAction)
    else if req.machine !in site.machines then Err(NoSuchMachine)
    else
      var m := site.machines[req.machine];
      if !m.HasHost() then Err(NoHost)
      else
        var refused := Gate(act.value.danger, m.name, req);
        if refused.Some? then Err(refused.value)
        else
          var command := RenderAction(act.value.script, act.value.command, act.value.params, req.params);
          if command.Err? then Err(BadParam(command.error))
          else Assemble(site, req.machine, act.value, m, command.value)
  }

  // ---- Running --------------------------------------------------------------

  /** What `Broker.Exec` came back with. */
  datatype Outcome = Outcome(stdout: Bytes, stderr: Bytes, exitCode: int, failure: Option<Text>)

  datatype Attempt = Attempt(target: FleetModel.Target, shell: Text, script: Text)

  datatype RunRow = RunRow(
    machine: Id, machineName: Text, action: Text, command: Text, danger: int, actor: Text,
    exitCode: Option<int>, stdout: Bytes, stderr: Bytes, failure: Option<Text>)

  datatype Reply = Refused(why: Refusal) | AuditFailed | ExecFailed(run: RunRow) | Completed(run: RunRow)

  /** Executions started, inserts tried, and the rows of the audit table. */
  datatype Log = Log(attempts: seq<Attempt>, inserts: seq<RunRow>, audit: seq<RunRow>)

  /** One request, what the store held, what the host did, and whether the insert worked. */
  datatype Ask = Ask(site: Site, req: Request, out: Outcome, insertOk: bool)

  function AttemptOf(p: Prepared): Attempt {
    Attempt(p.target, p.shell, p.script)
  }

  function RunOf(p: Prepared, actor: Text, out: Outcome): RunRow {
    RunRow(p.id, p.machine.name, p.action.id, p.command, p.action.danger, actor,
           if out.failure.Some? then None else Some(out.exitCode), out.stdout, out.stderr, out.failure)
  }

  /** What `InsertRun` writes of it. */
  function StoredRow(r: RunRow): RunRow {
    r.(stdout := Capture.Stored(r.stdout, Capture.MAX_STORED), stderr := Capture.Stored(r.stderr, Capture.MAX_STORED))
  }

  function RunOne(log: Log, a: Ask): (Log, Reply) {
    match Prepare(a.site, a.req)
    case Err(why) => (log, Refused(why))
    case Ok(p) =>
      var run := RunOf(p, a.req.actor, a.out);
      var row := StoredRow(run);
      var tried := log.(attempts := log.attempts + [AttemptOf(p)], inserts := log.inserts + [row]);
      if !a.insertOk then (tried, AuditFailed)
      else (tried.(audit := log.audit + [row]), if a.out.failure.Some? then ExecFailed(run) else Completed(run))
  }

  function RunAll(asks: seq<Ask>): (r: (Log, seq<Reply>)) {
    if asks == [] then (Log([], [], []), [])
    else
      var (log, replies) := RunAll(asks[..|asks| - 1]);
      var (next, reply) := RunOne(log, asks[|asks| - 1]);
      (next, replies + [reply])
  }

  class ActionEngine {
    var attempts: seq<Attempt>
    var inserts: seq<RunRow>
    var audit: seq<RunRow>

    ghost function Logged(): Log
      reads this
    {
      Log(attempts, inserts, audit)
    }

    constructor ()
      ensures Logged() == Log([], [], [])
    {
      attempts, inserts, audit := [], [], [];
    }

    method Exec(p: Prepared, out: Outcome) returns (res: Outcome)
      modifies this`attempts
      ensures res == out && attempts == old(attempts) + [AttemptOf(p)]
    {
      attempts := attempts + [Attempt(p.target, p.shell, p.script)];
      return out;
    }

    method InsertRun(r: RunRow, insertOk: bool) returns (ok: bool)
      modifies this`inserts, this`audit
      ensures ok == insertOk && inserts == old(inserts) + [StoredRow(r)]
      ensures audit == if ok then old(audit) + [StoredRow(r)] else old(audit)
    {
      var stdout := Capture.Truncate(r.stdout, Capture.MAX_STORED);
      var stderr := Capture.Truncate(r.stderr, Capture.MAX_STORED);
      var row := r.(stdout := stdout, stderr := stderr);
      inserts := inserts + [row];
      if insertOk {
        audit := audit + [row];
      }
      return insertOk;
    }

    /** Audits before returning, whatever the outcome; a failed audit is the error. */
    method Run(a: Ask) returns (reply: Reply)
      modifies this
      ensures (Logged(), reply) == RunOne(old(Logged()), a)
    {
      var prepared := Prepare(a.site, a.req);
      if prepared.Err? {
        return Refused(prepared.error);
      }
      var p := prepared.value;
      var res := Exec(p, a.out);
      var run := RunRow(p.id, p.machine.name, p.action.id, p.command, p.action.danger, a.req.actor,
                        None, res.stdout, res.stderr, None);
      if res.failure.Some? {
        run := run.(failure := res.failure);
      } else {
        run := run.(exitCode := Some(res.exitCode));
      }
      var saved := InsertRun(run, a.insertOk);
      if !saved {
        return AuditFailed;
      }
      if res.failure.Some? {
        return ExecFailed(run);
      }
      return Completed(run);
    }
  }
}
