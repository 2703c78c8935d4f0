/**
 Which address, port, user and credential a machine is dialled with, read off the
 columns of its row (internal/api/server.go:149-181).
 */
module DialTargets {
  import opened Base
  import opened Text
  import opened FleetModel
  import opened FleetInvariants
  import Engine
  import Audit

  // ---- Brackets -------------------------------------------------------------

  predicate Bracket(c: char) { c == '[' || c == ']' }

  /** `host` is the column without the brackets around it. */
  ghost predicate Unbracketed(column: Str, host: Str) {
    && (host != [] ==> !Bracket(host[0]) && !Bracket(host[|host| - 1]))
    && exists i, j :: Around(column, host, i, j)
  }

  predicate Around(column: Str, host: Str, i: int, j: int) {
    && 0 <= i <= j <= |column| && host == column[i..j]
    && (forall k :: 0 <= k < i ==> Bracket(column[k]))
    && (forall k :: j <= k < |column| ==> Bracket(column[k]))
  }

  lemma {:induction false} LeftBrackets(s: Str)
    ensures var r := TrimLeft(s, IsBracket);
            forall k :: 0 <= k < |s| - |r| ==> Bracket(s[k])
  {
    if s != [] && IsBracket(s[0]) {
      LeftBrackets(s[1..]);
    }
  }

  lemma {:induction false} RightBrackets(s: Str)
    ensures var r := TrimRight(s, IsBracket);
            forall k :: |r| <= k < |s| ==> Bracket(s[k])
  {
    if s != [] && IsBracket(s[|s| - 1]) {
      RightBrackets(s[..|s| - 1]);
    }
  }

  /** Trimming on the left and then on the right, as positions of the column. */
  lemma CutAround(column: Str, left: Str, host: Str)
    requires |left| <= |column| && left == column[|column| - |left|..] && host <= left
    requires forall k :: 0 <= k < |column| - |left| ==> Bracket(column[k])
    requires forall k :: |host| <= k < |left| ==> Bracket(left[k])
    ensures Around(column, host, |column| - |left|, |column| - |left| + |host|)
  {
    var i := |column| - |left|;
    assert host == left[..|host|] == column[i..i + |host|];
    forall k | i + |host| <= k < |column| ensures Bracket(column[k]) {
      assert column[k] == left[k - i];
    }
  }

  lemma TrimUnbrackets(column: Str)
    ensures Unbracketed(column, Trim(column, IsBracket))
  {
    var left := TrimLeft(column, IsBracket);
    var host := TrimRight(left, IsBracket);
    LeftBrackets(column);
    RightBrackets(left);
    CutAround(column, left, host);
    EndsArePlain(left, host);
  }

  lemma EndsArePlain(left: Str, host: Str)
    requires host <= left && (left != [] ==> !IsBracket(left[0])) && (host != [] ==> !IsBracket(host[|host| - 1]))
    ensures host != [] ==> !Bracket(host[0]) && !Bracket(host[|host| - 1])
  {
  }

  /** A column without brackets at its ends is dialled as it is. */
  lemma PlainHostStays(column: Str, host: Str)
    requires Unbracketed(column, host)
    requires column != [] ==> !Bracket(column[0]) && !Bracket(column[|column| - 1])
    ensures host == column
  {
    var i, j :| Around(column, host, i, j);
    if column != [] {
      assert i == 0;
      assert j == |column|;
    }
  }

  // ---- The target of a row ---------------------------------------------------

  /** The machine's own address, port, user and credential; a port of 0 means 22. */
  ghost predicate DialledAs(t: Target, id: Id, m: Machine) {
    && t.id == id
    && Unbracketed(m.host, t.host)
    && t.port == (if m.port == 0 then 22 else m.port)
    && t.user == m.user
    && m.credential == Some(t.credential)
  }

  /** A target is resolved exactly when the row's credential is stored, and then it is the row's. */
  lemma TargetOfRow(id: Id, m: Machine, credentials: set<Id>)
    ensures var t := ResolveTarget(id, m, credentials);
            && (t.Some? <==> m.credential.Some? && m.credential.value in credentials)
            && (t.Some? ==> DialledAs(t.value, id, m))
  {
    TrimUnbrackets(m.host);
  }

  /** In every reachable state a pooled connection goes to what the machine's row says now. */
  lemma PooledTargets(events: seq<Event>, id: Id)
    requires forall e <- events :: Admissible(e)
    ensures var f := Run(EMPTY, events);
            id in f.pool ==>
              && id in f.db.machines
              && DialledAs(f.pool[id].target, id, f.db.machines[id])
              && f.pool[id].target.port == f.db.machines[id].port
              && f.pool[id].target.credential in f.db.credentials
  {
    ReachableStates(events);
    var f := Run(EMPTY, events);
    if id in f.pool {
      assert CoherentConn(f, id, f.pool[id]);
      TargetOfRow(id, f.db.machines[id], f.db.credentials);
    }
  }

  /** Every execution of the engine goes to the requested machine as its row was at the time. */
  lemma AttemptTargets(asks: seq<Engine.Ask>, i: nat)
    ensures var log := Engine.RunAll(asks).0;
            i < |log.attempts| ==>
              && |log.attempts| == |Audit.Accepted(asks)|
              && var a := Audit.Accepted(asks)[i];
              && a.req.machine in a.site.machines
              && DialledAs(log.attempts[i].target, a.req.machine, a.site.machines[a.req.machine])
  {
    Audit.EveryRunIsRecorded(asks);
    if i < |Engine.RunAll(asks).0.attempts| {
      PlanTarget(Audit.Accepted(asks)[i]);
    }
  }

  lemma PlanTarget(a: Engine.Ask)
    requires Audit.Runnable(a.site, a.req)
    ensures a.req.machine in a.site.machines
    ensures DialledAs(Audit.PlanOf(a).target, a.req.machine, a.site.machines[a.req.machine])
  {
    var m := a.site.machines[a.req.machine];
    Audit.PrepareIff(a.site, a.req);
    TargetOfRow(a.req.machine, m, a.site.credentials);
    PlanResolves(a);
  }

  lemma PlanResolves(a: Engine.Ask)
    requires Audit.Runnable(a.site, a.req)
    ensures var m := a.site.machines[a.req.machine];
            ResolveTarget(a.req.machine, m, a.site.credentials) == Some(Audit.PlanOf(a).target)
  {
  }
}
