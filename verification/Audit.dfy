/** What the engine guarantees: who gets through, with what, and that every execution is on record. */
module Audit {
  import opened Base
  import opened Substitution
  import opened Render
  import opened RenderOrder
  import opened RenderMeaning
  import opened ShellWords
  import opened Engine
  import FleetModel

  // ---- Who gets through -----------------------------------------------------

  /** The confirmation each tier asks for; no other tier can be satisfied. */
  predicate Confirmed(danger: int, name: Text, req: Request) {
    || danger == READ
    || (danger == REVERSIBLE && req.confirm)
    || (danger == DISRUPTIVE && req.confirmName == name)
  }

  /** Root is had, not wanted, or available without a password prompt. */
  predicate SudoPossible(want: Sudo, mode: Text) {
    want == SudoRequired ==> mode == "root" || mode == "nopasswd"
  }

  predicate HostSuits(site: Site, id: Id, act: Action) {
    var facts := FactsFor(site, id, act.id);
    && facts.Some?
    && (forall n <- act.needs :: n in facts.value.capabilities)
    && SudoPossible(act.sudo, facts.value.sudoMode)
  }

  predicate Runnable(site: Site, req: Request) {
    && Lookup(site, req.action).Some?
    && req.machine in site.machines
    && var act, m := Lookup(site, req.action).value, site.machines[req.machine];
    && m.HasHost()
    && m.credential.value in site.credentials
    && Confirmed(act.danger, m.name, req)
    && RenderAction(act.script, act.command, act.params, req.params).Ok?
    && HostSuits(site, req.machine, act)
  }

  lemma AssembleIff(site: Site, id: Id, act: Action, m: FleetModel.Machine, command: Text)
    requires m.HasHost()
    ensures Assemble(site, id, act, m, command).Ok? <==>
              HostSuits(site, id, act) && m.credential.value in site.credentials
  {
  }

  lemma PrepareIff(site: Site, req: Request)
    ensures Prepare(site, req).Ok? <==> Runnable(site, req)
  {
    var act := Lookup(site, req.action);
    if act.Some? && req.machine in site.machines && site.machines[req.machine].HasHost() {
      var command := RenderAction(act.value.script, act.value.command, act.value.params, req.params);
      if command.Ok? {
        AssembleIff(site, req.machine, act.value, site.machines[req.machine], command.value);
      }
    }
  }

  /** What reaches the shell: one fixed transport, at most behind a sudo that cannot prompt. */
  predicate SoundPlan(site: Site, req: Request, p: Prepared) {
    && Lookup(site, req.action) == Some(p.action)
    && p.id == req.machine == p.target.id
    && req.machine in site.machines && p.machine == site.machines[req.machine]
    && Confirmed(p.action.danger, p.machine.name, req)
    && var command := RenderAction(p.action.script, p.action.command, p.action.params, req.params);
    && command.Ok?
    && Documents(p.action, command.value, p.shell, p.script, p.command)
  }

  /**
   The recorded command describes the execution: same sudo prefix, and the text
   fed to the shell is the recorded command without it (or the action's own script).
   */
  predicate Documents(act: Action, rendered: Text, shell: Text, script: Text, command: Text) {
    if act.script != "" then
      shell in {TRANSPORT, SUDO + TRANSPORT} && script == act.script && command == TRANSPORT
    else
      && script == rendered + "\n"
      && ((shell == TRANSPORT && command == rendered) || (shell == SUDO + TRANSPORT && command == SUDO + rendered))
  }

  lemma AssembleDocuments(site: Site, id: Id, act: Action, m: FleetModel.Machine, command: Text)
    requires act.script != "" ==> command == TRANSPORT
    ensures var p := Assemble(site, id, act, m, command);
            p.Ok? ==>
              && p.value.action == act && p.value.id == id == p.value.target.id && p.value.machine == m
              && Documents(act, command, p.value.shell, p.value.script, p.value.command)
  {
  }

  lemma PreparedIsSound(site: Site, req: Request)
    ensures var p := Prepare(site, req); p.Ok? ==> SoundPlan(site, req, p.value)
  {
    var p := Prepare(site, req);
    if p.Ok? {
      PrepareIff(site, req);
      var act := Lookup(site, req.action).value;
      var command := RenderAction(act.script, act.command, act.params, req.params).value;
      AssembleDocuments(site, req.machine, act, site.machines[req.machine], command);
    }
  }

  /**
   End to end: what is fed to the shell is one line whose tokens are those of the
   action's template, each placeholder being exactly the requested value.
   */
  lemma ExecutedMeansTemplate(site: Site, req: Request)
    requires Prepare(site, req).Ok?
    requires var act := Prepare(site, req).value.action;
             && act.script == "" && PlainParams(act.params) && WellPlaced(act.command, act.params)
             && NoLaterPlaceholder(act.params, req.params)
    ensures var p := Prepare(site, req).value;
            && p.script != [] && p.script[|p.script| - 1] == '\n'
            && MeansTemplate(p.script[..|p.script| - 1], p.action.command, p.action.params, req.params)
  {
    PreparedIsSound(site, req);
    var p := Prepare(site, req).value;
    var rendered := RenderFrom(p.action.command, p.action.params, req.params).value;
    RenderedMeansTemplate(p.action.command, p.action.params, req.params);
    assert p.script == rendered + "\n";
    assert p.script[..|p.script| - 1] == rendered;
  }

  /** Root is never silently missing: an action that requires it runs as root or behind sudo. */
  lemma RequiredRootIsHad(site: Site, req: Request)
    ensures var p := Prepare(site, req);
            p.Ok? && p.value.action.sudo == SudoRequired ==>
              var facts := FactsFor(site, req.machine, p.value.action.id);
              && facts.Some?
              && (facts.value.sudoMode == "root" || p.value.shell == SUDO + TRANSPORT)
  {
  }

  // ---- The record of every run ----------------------------------------------

  function Accepted(asks: seq<Ask>): (r: seq<Ask>)
    ensures forall a <- r :: Runnable(a.site, a.req)
  {
    if asks == [] then []
    else
      var last := asks[|asks| - 1];
      Accepted(asks[..|asks| - 1]) + if Runnable(last.site, last.req) then [last] else []
  }

  function Saved(asks: seq<Ask>): (r: seq<Ask>)
  {
    if asks == [] then []
    else Saved(asks[..|asks| - 1]) + if asks[|asks| - 1].insertOk then [asks[|asks| - 1]] else []
  }

  function PlanOf(a: Ask): (p: Prepared)
    requires Runnable(a.site, a.req)
  {
    PrepareIff(a.site, a.req);
    Prepare(a.site, a.req).value
  }

  function RowFor(a: Ask): RunRow
    requires Runnable(a.site, a.req)
  {
    StoredRow(RunOf(PlanOf(a), a.req.actor, a.out))
  }

  /** Execution i and insert i belong to the i-th accepted request. */
  ghost predicate Recorded(log: Log, accepted: seq<Ask>)
    requires forall a <- accepted :: Runnable(a.site, a.req)
  {
    && |log.attempts| == |log.inserts| == |accepted|
    && forall i :: 0 <= i < |accepted| ==>
         log.attempts[i] == AttemptOf(PlanOf(accepted[i])) && log.inserts[i] == RowFor(accepted[i])
  }

  /** The table holds the inserts that worked, in order. */
  ghost predicate Kept(audit: seq<RunRow>, saved: seq<Ask>)
    requires forall a <- saved :: Runnable(a.site, a.req)
  {
    |audit| == |saved| && forall i :: 0 <= i < |saved| ==> audit[i] == RowFor(saved[i])
  }

  lemma {:induction false} SavedAreRunnable(asks: seq<Ask>)
    requires forall a <- asks :: Runnable(a.site, a.req)
    ensures forall a <- Saved(asks) :: Runnable(a.site, a.req)
  {
    if asks != [] {
      assert asks[|asks| - 1] in asks;
      assert forall a <- asks[..|asks| - 1] :: a in asks;
      SavedAreRunnable(asks[..|asks| - 1]);
    }
  }

  lemma SavedSnoc(asks: seq<Ask>, a: Ask)
    ensures Saved(asks + [a]) == Saved(asks) + if a.insertOk then [a] else []
  {
    assert (asks + [a])[..|asks|] == asks;
  }

  /** What the caller is told about one request. */
  predicate ReplyFits(a: Ask, reply: Reply) {
    && (reply.Refused? <==> !Runnable(a.site, a.req))
    && (reply.AuditFailed? <==> Runnable(a.site, a.req) && !a.insertOk)
    && (reply.ExecFailed? <==> Runnable(a.site, a.req) && a.insertOk && a.out.failure.Some?)
    && (reply.ExecFailed? || reply.Completed? ==> reply.run == RunOf(PlanOf(a), a.req.actor, a.out))
  }

  lemma OneReply(log: Log, a: Ask)
    ensures ReplyFits(a, RunOne(log, a).1)
  {
    PrepareIff(a.site, a.req);
  }

  lemma {:induction false} EveryReplyFits(asks: seq<Ask>)
    ensures |RunAll(asks).1| == |asks|
    ensures forall j :: 0 <= j < |asks| ==> ReplyFits(asks[j], RunAll(asks).1[j])
  {
    if asks != [] {
      var n := |asks| - 1;
      EveryReplyFits(asks[..n]);
      OneReply(RunAll(asks[..n]).0, asks[n]);
    }
  }

  lemma OneRecords(log: Log, a: Ask, accepted: seq<Ask>, saved: seq<Ask>)
    requires forall x <- accepted :: Runnable(x.site, x.req)
    requires forall x <- saved :: Runnable(x.site, x.req)
    requires Recorded(log, accepted) && Kept(log.audit, saved) && Runnable(a.site, a.req)
    ensures Recorded(RunOne(log, a).0, accepted + [a])
    ensures Kept(RunOne(log, a).0.audit, if a.insertOk then saved + [a] else saved)
  {
    PrepareIff(a.site, a.req);
  }

  lemma RefusedLeavesNothing(log: Log, a: Ask)
    requires !Runnable(a.site, a.req)
    ensures RunOne(log, a).0 == log
  {
    PrepareIff(a.site, a.req);
  }

  /**
   Conservation: over every sequence of requests, refused ones execute nothing
   and leave no row; each of the others is executed once and recorded once, in
   order, and the table holds exactly the rows whose insert worked.
   */
  lemma {:induction false} EveryRunIsRecorded(asks: seq<Ask>)
    ensures Recorded(RunAll(asks).0, Accepted(asks))
    ensures forall a <- Saved(Accepted(asks)) :: Runnable(a.site, a.req)
    ensures Kept(RunAll(asks).0.audit, Saved(Accepted(asks)))
  {
    SavedAreRunnable(Accepted(asks));
    if asks != [] {
      var n := |asks| - 1;
      var log, accepted, last := RunAll(asks[..n]).0, Accepted(asks[..n]), asks[n];
      EveryRunIsRecorded(asks[..n]);
      assert RunAll(asks).0 == RunOne(log, last).0;
      if Runnable(last.site, last.req) {
        OneRecords(log, last, accepted, Saved(accepted));
        SavedSnoc(accepted, last);
        assert Accepted(asks) == accepted + [last];
      } else {
        RefusedLeavesNothing(log, last);
        assert Accepted(asks) == accepted;
      }
    }
  }

  /** A row that passed its tier's confirmation and describes what was executed. */
  predicate Truthful(a: Ask, row: RunRow, attempt: Attempt)
    requires Runnable(a.site, a.req)
  {
    var p := PlanOf(a);
    && READ <= row.danger == p.action.danger <= DISRUPTIVE
    && Confirmed(row.danger, row.machineName, a.req)
    && row.machine == attempt.target.id == a.req.machine
    && SoundPlan(a.site, a.req, p)
    && attempt == Attempt(p.target, p.shell, p.script)
    && row.command == p.command
  }

  lemma RowIsTruthful(a: Ask)
    requires Runnable(a.site, a.req)
    ensures Truthful(a, RowFor(a), AttemptOf(PlanOf(a)))
  {
    PrepareIff(a.site, a.req);
    PreparedIsSound(a.site, a.req);
  }

  lemma RowsTellTheTruth(asks: seq<Ask>, i: nat)
    ensures var log := RunAll(asks).0;
            i < |log.inserts| ==>
              && |log.attempts| == |log.inserts| == |Accepted(asks)|
              && Truthful(Accepted(asks)[i], log.inserts[i], log.attempts[i])
  {
    EveryRunIsRecorded(asks);
    if i < |RunAll(asks).0.inserts| {
      RowIsTruthful(Accepted(asks)[i]);
    }
  }
}
