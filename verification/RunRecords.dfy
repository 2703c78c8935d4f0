/**
 What is executed, recorded and answered for a request, column by column, and why
 a request is refused (internal/actions/engine.go:126-262, 320-345;
 internal/store/queries.go:565-581).
 */
module RunRecords {
  import opened Base
  import opened Substitution
  import opened Render
  import opened Engine
  import opened Audit
  import FleetModel
  import Capture
  import Utf8

  // ---- Reading the request off the store -------------------------------------

  predicate Catalogued(site: Site, action: Text) {
    action in site.builtin || action in site.custom
  }

  /** A built-in action wins over a saved one with the same id. */
  function Chosen(site: Site, action: Text): Action
    requires Catalogued(site, action)
  {
    if action in site.builtin then site.builtin[action] else site.custom[action]
  }

  predicate Reachable(m: FleetModel.Machine) {
    m.host != "" && m.user != "" && m.credential.Some?
  }

  /** Facts are on record, or it is the overview, which may go without. */
  predicate FactsSuffice(site: Site, id: Id, act: Action) {
    id in site.facts || act.id == "system.overview"
  }

  predicate CapabilitiesSuffice(site: Site, id: Id, act: Action) {
    if id in site.facts then forall n <- act.needs :: n in site.facts[id].capabilities else act.needs == []
  }

  predicate IsRoot(site: Site, id: Id) {
    id in site.facts && site.facts[id].sudoMode == "root"
  }

  predicate NoPassword(site: Site, id: Id) {
    id in site.facts && site.facts[id].sudoMode == "nopasswd"
  }

  /** Run behind `sudo -n`: wanted, and possible without a password. */
  predicate BehindSudo(site: Site, id: Id, act: Action) {
    NoPassword(site, id) && (act.sudo == SudoRequired || act.sudo == SudoPreferred)
  }

  predicate SudoSuffices(site: Site, id: Id, act: Action) {
    act.sudo == SudoRequired ==> IsRoot(site, id) || NoPassword(site, id)
  }

  predicate TierConfirmed(act: Action, name: Text, req: Request) {
    || act.danger == 0
    || (act.danger == 1 && req.confirm)
    || (act.danger == 2 && req.confirmName == name)
  }

  // ---- Who gets through ------------------------------------------------------

  /** Every check, on the columns of the store and the fields of the request. */
  predicate Admitted(site: Site, req: Request) {
    && Catalogued(site, req.action)
    && req.machine in site.machines
    && var act, m := Chosen(site, req.action), site.machines[req.machine];
    && Reachable(m)
    && TierConfirmed(act, m.name, req)
    && RenderAction(act.script, act.command, act.params, req.params).Ok?
    && FactsSuffice(site, req.machine, act)
    && CapabilitiesSuffice(site, req.machine, act)
    && SudoSuffices(site, req.machine, act)
    && m.credential.value in site.credentials
  }

  lemma HostSuitsColumns(site: Site, id: Id, act: Action)
    ensures HostSuits(site, id, act) <==>
              FactsSuffice(site, id, act) && CapabilitiesSuffice(site, id, act) && SudoSuffices(site, id, act)
  {
    assert !(id in site.facts) ==> ((forall n <- act.needs :: n in []) <==> act.needs == []) by {
      if act.needs != [] {
        assert act.needs[0] in act.needs;
      }
    }
  }

  lemma LookupIsChosen(site: Site, action: Text)
    ensures Lookup(site, action) == if Catalogued(site, action) then Some(Chosen(site, action)) else None
  {
  }

  /** A request is prepared exactly when all checks pass. */
  lemma AdmittedIff(site: Site, req: Request)
    ensures Prepare(site, req).Ok? <==> Admitted(site, req)
    ensures Runnable(site, req) <==> Admitted(site, req)
  {
    PrepareIff(site, req);
    LookupIsChosen(site, req.action);
    if Catalogued(site, req.action) {
      HostSuitsColumns(site, req.machine, Chosen(site, req.action));
    }
  }

  // ---- Why a request is refused ----------------------------------------------

  /** What is wrong with the request itself, before the host's facts are looked at. */
  predicate RequestFault(site: Site, req: Request, why: Refusal) {
    if !Catalogued(site, req.action) then why == UnknownAction
    else if req.machine !in site.machines then why == NoSuchMachine
    else
      var act, m := Chosen(site, req.action), site.machines[req.machine];
      if !Reachable(m) then why == NoHost
      else if !TierConfirmed(act, m.name, req) then
        why == if act.danger == 1 then NeedsConfirm else if act.danger == 2 then NeedsName else Forbidden
      else
        var r := RenderAction(act.script, act.command, act.params, req.params);
        r.Err? && why == BadParam(r.error)
  }

  /** Need k is the first the host lacks. */
  predicate NeedAt(site: Site, id: Id, act: Action, need: Text, k: nat)
    requires k < |act.needs|
  {
    var have := if id in site.facts then site.facts[id].capabilities else [];
    act.needs[k] == need && need !in have && forall j :: 0 <= j < k ==> act.needs[j] in have
  }

  /** What is wrong with the host. */
  predicate HostFault(site: Site, id: Id, act: Action, why: Refusal) {
    if !FactsSuffice(site, id, act) then why == NoFacts
    else if !CapabilitiesSuffice(site, id, act) then
      why.NotAvailable? && exists k :: 0 <= k < |act.needs| && NeedAt(site, id, act, why.need, k)
    else if !SudoSuffices(site, id, act) then why == SudoUnavailable
    else why == Unresolved
  }

  predicate RequestSound(site: Site, req: Request) {
    && Catalogued(site, req.action) && req.machine in site.machines
    && var act, m := Chosen(site, req.action), site.machines[req.machine];
    && Reachable(m) && TierConfirmed(act, m.name, req)
    && RenderAction(act.script, act.command, act.params, req.params).Ok?
  }

  lemma AssembleFault(site: Site, id: Id, act: Action, m: FleetModel.Machine, command: Text)
    ensures var p := Assemble(site, id, act, m, command); p.Err? ==> HostFault(site, id, act, p.error)
  {
    HostSuitsColumns(site, id, act);
    var have := if id in site.facts then site.facts[id].capabilities else [];
    var missing := FirstMissing(act.needs, have);
    if missing.Some? {
      var k :| 0 <= k < |act.needs| && act.needs[k] == missing.value && FirstLacking(act.needs, have, k);
      assert NeedAt(site, id, act, missing.value, k);
    }
  }

  /** The caller is told the first thing that is wrong: with the request, and only then with the host. */
  lemma RefusalReason(site: Site, req: Request)
    ensures var p := Prepare(site, req);
            p.Err? ==>
              if RequestSound(site, req) then HostFault(site, req.machine, Chosen(site, req.action), p.error)
              else RequestFault(site, req, p.error)
  {
    LookupIsChosen(site, req.action);
    if RequestSound(site, req) {
      var act, m := Chosen(site, req.action), site.machines[req.machine];
      AssembleFault(site, req.machine, act, m,
                    RenderAction(act.script, act.command, act.params, req.params).value);
    }
  }

  // ---- The execution ---------------------------------------------------------

  /** The rendered command, and with the sudo prefix as it is shown and recorded. */
  function Rendered(a: Ask): Text
    requires Admitted(a.site, a.req)
  {
    var act := Chosen(a.site, a.req.action);
    RenderAction(act.script, act.command, act.params, a.req.params).value
  }

  function Prefix(a: Ask): Text
    requires Admitted(a.site, a.req)
  {
    if BehindSudo(a.site, a.req.machine, Chosen(a.site, a.req.action)) then "sudo -n " else ""
  }

  /** One shell, at most behind sudo, fed the script of the action or the rendered line. */
  predicate AttemptColumns(a: Ask, attempt: Attempt)
    requires Admitted(a.site, a.req)
  {
    var act := Chosen(a.site, a.req.action);
    && attempt.target.id == a.req.machine
    && attempt.shell == Prefix(a) + "sh -s"
    && attempt.script == if act.script != "" then act.script else Rendered(a) + "\n"
  }

  /** Everything about a run except its output. */
  predicate RunColumns(a: Ask, run: RunRow)
    requires Admitted(a.site, a.req)
  {
    var act, m := Chosen(a.site, a.req.action), a.site.machines[a.req.machine];
    && run.machine == a.req.machine && run.machineName == m.name
    && run.action == act.id && run.danger == act.danger && run.actor == a.req.actor
    && run.command == (if act.script != "" then "sh -s" else Prefix(a) + Rendered(a))
    && run.failure == a.out.failure
    && run.exitCode == (if a.out.failure.None? then Some(a.out.exitCode) else None)
  }

  lemma ApplySudoIs(want: Sudo, mode: Text, command: Text)
    ensures var r := ApplySudo(want, mode, command);
            r.Ok? ==> r.value == if mode == "nopasswd" && (want == SudoRequired || want == SudoPreferred)
                                 then "sudo -n " + command else command
  {
  }

  lemma PlanColumns(a: Ask)
    requires Runnable(a.site, a.req) && Admitted(a.site, a.req)
    ensures var p := PlanOf(a);
            && AttemptColumns(a, AttemptOf(p))
            && p.command == (if p.action.script != "" then "sh -s" else Prefix(a) + Rendered(a))
            && p.action == Chosen(a.site, a.req.action)
            && p.machine == a.site.machines[a.req.machine] && p.id == a.req.machine
  {
    var act, id := Chosen(a.site, a.req.action), a.req.machine;
    LookupIsChosen(a.site, a.req.action);
    PreparedIsSound(a.site, a.req);
    var mode := if id in a.site.facts then a.site.facts[id].sudoMode else "";
    ApplySudoIs(act.sudo, mode, "sh -s");
    ApplySudoIs(act.sudo, mode, Rendered(a));
    assert Prefix(a) == "" ==> Prefix(a) + "sh -s" == "sh -s" && Prefix(a) + Rendered(a) == Rendered(a);
  }

  // ---- The rows --------------------------------------------------------------

  /** All of a text, or what precedes the last character start within 64 KiB, and the marker. */
  ghost predicate StoredForm(out: Bytes, column: Bytes) {
    if |out| <= 65536 then column == out
    else exists k: nat :: CutAt(out, column, k)
  }

  predicate CutAt(out: Bytes, column: Bytes, k: nat) {
    && k <= 65536 < |out| && column == out[..k] + Capture.STORED_MARKER
    && (k == 0 || Utf8.RuneStart(out[k]))
    && forall i :: k < i <= 65536 ==> !Utf8.RuneStart(out[i])
  }

  lemma StoredHasForm(out: Bytes)
    ensures StoredForm(out, Capture.Stored(out, Capture.MAX_STORED))
  {
    if |out| > 65536 {
      assert CutAt(out, Capture.Stored(out, Capture.MAX_STORED), Capture.BackOff(out, 65536));
    }
  }

  /** Row i of the inserts is the i-th accepted request, each output in its own column. */
  lemma RowColumns(asks: seq<Ask>, i: nat)
    ensures var log, accepted := RunAll(asks).0, Accepted(asks);
            i < |accepted| ==>
              && |log.inserts| == |log.attempts| == |accepted|
              && Admitted(accepted[i].site, accepted[i].req)
              && AttemptColumns(accepted[i], log.attempts[i])
              && RunColumns(accepted[i], log.inserts[i])
              && StoredForm(accepted[i].out.stdout, log.inserts[i].stdout)
              && StoredForm(accepted[i].out.stderr, log.inserts[i].stderr)
  {
    EveryRunIsRecorded(asks);
    if i < |Accepted(asks)| {
      var a := Accepted(asks)[i];
      AdmittedIff(a.site, a.req);
      PlanColumns(a);
      StoredHasForm(a.out.stdout);
      StoredHasForm(a.out.stderr);
    }
  }

  /**
   Who asked is told: a refusal exactly when not admitted, with the first fault; else
   that the record failed, or the run with its whole output.
   */
  lemma ReplyColumns(asks: seq<Ask>, j: nat)
    ensures |RunAll(asks).1| == |asks|
    ensures j < |asks| ==>
              var a, reply := asks[j], RunAll(asks).1[j];
              && (reply.Refused? <==> !Admitted(a.site, a.req))
              && (reply.AuditFailed? <==> Admitted(a.site, a.req) && !a.insertOk)
              && (reply.ExecFailed? <==> Admitted(a.site, a.req) && a.insertOk && a.out.failure.Some?)
              && (reply.ExecFailed? || reply.Completed? ==>
                    && RunColumns(a, reply.run)
                    && reply.run.stdout == a.out.stdout && reply.run.stderr == a.out.stderr)
  {
    EveryReplyFits(asks);
    if j < |asks| {
      var a := asks[j];
      assert ReplyFits(a, RunAll(asks).1[j]);
      AdmittedIff(a.site, a.req);
      if Admitted(a.site, a.req) {
        PlanColumns(a);
      }
    }
  }

  lemma OneRefusal(log: Log, a: Ask)
    ensures var reply := RunOne(log, a).1;
            reply.Refused? ==> Prepare(a.site, a.req) == Err(reply.why)
  {
  }

  lemma {:induction false} EveryRefusal(asks: seq<Ask>, j: nat)
    requires j < |asks| && |RunAll(asks).1| == |asks| && RunAll(asks).1[j].Refused?
    ensures Prepare(asks[j].site, asks[j].req) == Err(RunAll(asks).1[j].why)
    decreases |asks|
  {
    var n := |asks| - 1;
    EveryReplyFits(asks[..n]);
    if j < n {
      assert RunAll(asks).1[j] == RunAll(asks[..n]).1[j];
      EveryRefusal(asks[..n], j);
    } else {
      OneRefusal(RunAll(asks[..n]).0, asks[n]);
    }
  }

  /** A refused caller is told the first thing that is wrong. */
  lemma RefusalsAreTold(asks: seq<Ask>, j: nat)
    ensures |RunAll(asks).1| == |asks|
    ensures j < |asks| && RunAll(asks).1[j].Refused? ==>
              var a, why := asks[j], RunAll(asks).1[j].why;
              if RequestSound(a.site, a.req) then HostFault(a.site, a.req.machine, Chosen(a.site, a.req.action), why)
              else RequestFault(a.site, a.req, why)
  {
    EveryReplyFits(asks);
    if j < |asks| && RunAll(asks).1[j].Refused? {
      EveryRefusal(asks, j);
      RefusalReason(asks[j].site, asks[j].req);
    }
  }

  /**
   End to end: however the command's output was cut into writes, the audit row's
   column holds all of it, or its longest whole-character prefix and a marker.
   */
  lemma RowHoldsOutput(asks: seq<Ask>, i: nat, writes: seq<Bytes>)
    requires i < |Accepted(asks)| && Utf8.Valid(Capture.Concat(writes))
    ensures |RunAll(asks).0.inserts| == |Accepted(asks)|
    ensures Accepted(asks)[i].out.stdout == Capture.Captured(writes, Capture.DEFAULT_MAX_OUTPUT) ==>
              HoldsOutput(RunAll(asks).0.inserts[i].stdout, Capture.Concat(writes))
    ensures Accepted(asks)[i].out.stderr == Capture.Captured(writes, Capture.DEFAULT_MAX_OUTPUT) ==>
              HoldsOutput(RunAll(asks).0.inserts[i].stderr, Capture.Concat(writes))
  {
    EveryRunIsRecorded(asks);
    Capture.AuditHoldsOutput(writes);
  }

  ghost predicate HoldsOutput(column: Bytes, output: Bytes) {
    && Utf8.Valid(column)
    && (|output| <= 65536 ==> column == output)
    && (|output| > 65536 ==>
          exists k: nat :: Capture.LongestPrefix(output, 65536, k) && 65533 <= k
                           && column == output[..k] + Capture.STORED_MARKER)
  }
}
