/**
 What each handler leaves in the store and the pool, column by column, and what it
 does not touch (internal/api/handlers.go:102-206, 208-280, 302-395, 508-553, 629-654;
 internal/api/reach.go:106-124; internal/api/stream.go:26-92; internal/store/queries.go:123-211).
 */
module HandlerEffects {
  import opened Base
  import opened Text
  import opened FleetModel
  import opened FleetInvariants
  import opened DialTargets
  import Tags

  // ---- Creating and editing a machine -----------------------------------------

  /** What the request must say, and what the tables must hold, for a row with that id. */
  predicate Acceptable(db: Db, id: Id, input: Input) {
    && TrimSpace(input.name) != "" && 0 <= input.port <= 65535
    && (input.instance != "" <==> input.account.Some?)
    && (input.credential.Some? ==> input.credential.value in db.credentials)
    && (input.account.Some? ==> input.account.value in db.accounts)
    && forall j <- db.machines ::
         j != id && input.account.Some? && db.machines[j].account == input.account ==>
           db.machines[j].instance != input.instance
  }

  /** The columns a user sets, as the request says them. */
  ghost predicate SaysInput(m: Machine, input: Input) {
    && m.name == TrimSpace(input.name)
    && Unbracketed(TrimSpace(input.host), m.host)
    && m.port == (if input.port == 0 then 22 else input.port)
    && m.user == TrimSpace(input.user)
    && m.credential == input.credential && m.account == input.account
    && m.instance == input.instance && m.provider == input.provider
    && m.tags == Tags.JoinTags(input.tags)
    && ((forall t <- input.tags :: Tags.GoodTag(t)) ==> Tags.SplitTags(m.tags) == input.tags)
  }

  lemma NormalizedSays(m: Machine, input: Input)
    requires var i := Normalize(input);
             && m.name == i.name && m.tags == Tags.JoinTags(i.tags) && m.host == i.host && m.port == i.port
             && m.user == i.user && m.credential == i.credential && m.account == i.account
             && m.instance == i.instance && m.provider == i.provider
    ensures SaysInput(m, input)
  {
    TrimUnbrackets(TrimSpace(input.host));
    Tags.TagsRoundTripIff(input.tags);
  }

  lemma TrimTwice(s: Str)
    ensures TrimSpace(TrimSpace(s)) == TrimSpace(s)
  {
    TrimSpaceFixed(s);
    TrimSpaceFixed(TrimSpace(s));
  }

  lemma AcceptedIff(db: Db, id: Id, input: Input, row: Machine)
    requires row.credential == input.credential && row.account == input.account && row.instance == input.instance
    ensures Valid(Normalize(input)) && RowAllowed(db, id, row) <==> Acceptable(db, id, input)
  {
    ValidIff(input);
    if input.account.Some? ==> input.instance != "" {
      AllowedIff(db, id, input, row);
    }
  }

  lemma ValidIff(input: Input)
    ensures Valid(Normalize(input)) <==>
              && TrimSpace(input.name) != "" && 0 <= input.port <= 65535
              && (input.instance != "" <==> input.account.Some?)
  {
    TrimTwice(input.name);
  }

  lemma AllowedIff(db: Db, id: Id, input: Input, row: Machine)
    requires row.credential == input.credential && row.account == input.account && row.instance == input.instance
    requires input.account.Some? ==> input.instance != ""
    ensures RowAllowed(db, id, row) <==>
              && (input.credential.Some? ==> input.credential.value in db.credentials)
              && (input.account.Some? ==> input.account.value in db.accounts)
              && forall j <- db.machines ::
                   j != id && input.account.Some? && db.machines[j].account == input.account ==>
                     db.machines[j].instance != input.instance
  {
  }

  /** Creating: one new row under the next id, or nothing at all. */
  lemma CreateColumns(f: Fleet, input: Input)
    requires Inv(f)
    ensures var g, id := Step(f, DoCreateMachine(input)), f.db.nextMachine;
            if !Acceptable(f.db, id, input) then g == f
            else
              && id !in f.db.machines && id in g.db.machines
              && g == f.(db := f.db.(machines := f.db.machines[id := g.db.machines[id]], nextMachine := id + 1))
              && SaysInput(g.db.machines[id], input)
              && g.db.machines[id] == g.db.machines[id].(
                   region := "", instanceType := "", power := "unknown", publicIp := "", privateIp := "",
                   missing := false, reach := ReachUnknown)
  {
    var i, id := Normalize(input), f.db.nextMachine;
    AcceptedIff(f.db, id, input, NewMachine(i));
    if Acceptable(f.db, id, input) {
      NextIsFree(f.db);
      AddedColumns(f, i);
      NormalizedSays(AddMachine(f, i).db.machines[id], input);
    }
  }

  lemma NextIsFree(db: Db)
    requires IdsFromCounters(db)
    ensures db.nextMachine !in db.machines
  {
  }

  lemma AddedColumns(f: Fleet, i: Input)
    requires Valid(i) && RowAllowed(f.db, f.db.nextMachine, NewMachine(i)) && i.port != 0
    ensures var g, id := AddMachine(f, i), f.db.nextMachine;
            && id in g.db.machines
            && g == f.(db := f.db.(machines := f.db.machines[id := g.db.machines[id]], nextMachine := id + 1))
            && g.db.machines[id] == Machine(i.name, Tags.JoinTags(i.tags), i.account, i.provider, i.instance, "", "",
                                            "unknown", "", "", false, i.host, i.port, i.user, i.credential,
                                            ReachUnknown)
  {
    InsertedColumns(f, NewMachine(i));
    NewColumns(i);
  }

  lemma InsertedColumns(f: Fleet, row: Machine)
    ensures var g, id := f.(db := InsertMachine(f.db, row)), f.db.nextMachine;
            && id in g.db.machines && g.db.machines[id] == Defaulted(row)
            && g == f.(db := f.db.(machines := f.db.machines[id := g.db.machines[id]], nextMachine := id + 1))
  {
  }

  lemma NewColumns(i: Input)
    requires i.port != 0
    ensures Defaulted(NewMachine(i)) ==
              Machine(i.name, Tags.JoinTags(i.tags), i.account, i.provider, i.instance, "", "",
                      "unknown", "", "", false, i.host, i.port, i.user, i.credential, ReachUnknown)
  {
  }

  /** The new row reaches another box, or another session on the same box. */
  predicate OtherBox(before: Machine, after: Machine) {
    after.host != before.host || after.port != before.port
  }

  predicate OtherSession(before: Machine, after: Machine) {
    OtherBox(before, after) || after.user != before.user || after.credential != before.credential
  }

  /**
   Editing: the user's columns become the request's and the cloud's stay; the
   connection and the verdict go with the session, the pin and the facts with the box.
   */
  lemma EditColumns(f: Fleet, id: Id, input: Input)
    ensures var g := Step(f, DoUpdateMachine(id, input));
            if id !in f.db.machines || !Acceptable(f.db, id, input) then g == f
            else
              && id in g.db.machines
              && var m, r := f.db.machines[id], g.db.machines[id];
              && SaysInput(r, input)
              && r.region == m.region && r.instanceType == m.instanceType && r.power == m.power
              && r.publicIp == m.publicIp && r.privateIp == m.privateIp && r.missing == m.missing
              && r.reach == (if OtherSession(m, r) then ReachUnknown else m.reach)
              && g.db.machines == f.db.machines[id := r]
              && g.pool == (if OtherSession(m, r) then f.pool - {id} else f.pool)
              && g.db.hostKeys == (if OtherBox(m, r) then f.db.hostKeys - {id} else f.db.hostKeys)
              && g.db.facts == (if OtherBox(m, r) then f.db.facts - {id} else f.db.facts)
              && g.presented == (if OtherBox(m, r) then f.presented - {id} else f.presented)
              && g.db == f.db.(machines := g.db.machines, hostKeys := g.db.hostKeys, facts := g.db.facts)
  {
    if id in f.db.machines {
      var i := Normalize(input);
      var row := EditedRow(f.db.machines[id], i);
      AcceptedIff(f.db, id, input, row);
      if Acceptable(f.db, id, input) {
        NormalizedSays(row, input);
        NormalizedSays(row.(reach := ReachUnknown), input);
        EditedColumns(f, id, i);
      }
    }
  }

  lemma EditedColumns(f: Fleet, id: Id, i: Input)
    requires id in f.db.machines && Valid(i) && RowAllowed(f.db, id, EditedRow(f.db.machines[id], i))
    ensures var m, g := f.db.machines[id], EditMachine(f, id, i);
            var row := EditedRow(m, i);
            var r := if SessionChanged(m, i) then row.(reach := ReachUnknown) else row;
            && g.db.machines == f.db.machines[id := r]
            && g.pool == (if SessionChanged(m, i) then f.pool - {id} else f.pool)
            && g.db.hostKeys == (if BoxChanged(m, i) then f.db.hostKeys - {id} else f.db.hostKeys)
            && g.db.facts == (if BoxChanged(m, i) then f.db.facts - {id} else f.db.facts)
            && g.presented == (if BoxChanged(m, i) then f.presented - {id} else f.presented)
            && g.db == f.db.(machines := g.db.machines, hostKeys := g.db.hostKeys, facts := g.db.facts)
  {
    var m := f.db.machines[id];
    var row := EditedRow(m, i);
    EditedIs(f, id, i);
    ResetSession(f, id, row);
  }

  lemma EditedIs(f: Fleet, id: Id, i: Input)
    requires id in f.db.machines && Valid(i) && RowAllowed(f.db, id, EditedRow(f.db.machines[id], i))
    ensures var m := f.db.machines[id];
            var g := WithRow(f, id, EditedRow(m, i));
            var h := SetReach(Drop(g, id), id, ReachUnknown);
            EditMachine(f, id, i) ==
              if !SessionChanged(m, i) then g else if BoxChanged(m, i) then ResetIdentity(h, id) else h
  {
  }

  lemma ResetSession(f: Fleet, id: Id, row: Machine)
    ensures var h := SetReach(Drop(WithRow(f, id, row), id), id, ReachUnknown);
            && h.db == f.db.(machines := f.db.machines[id := row.(reach := ReachUnknown)])
            && h.pool == f.pool - {id} && h.presented == f.presented
  {
    var r := row.(reach := ReachUnknown);
    assert f.db.machines[id := row][id := r] == f.db.machines[id := r];
  }

  /** Deleting: the row with its key, its facts and its connection. */
  lemma DeleteColumns(f: Fleet, id: Id)
    ensures var g := Step(f, DoDeleteMachine(id));
            && g.db.machines == f.db.machines - {id} && g.pool == f.pool - {id}
            && g.db.hostKeys == f.db.hostKeys - {id} && g.db.facts == f.db.facts - {id}
            && g.presented == f.presented - {id}
            && g.db == f.db.(machines := g.db.machines, hostKeys := g.db.hostKeys, facts := g.db.facts)
  {
  }

  // ---- What a dial and a command come to --------------------------------------

  /** The handshake gets through: the host is new or shows the pinned key, and nothing fails after that. */
  predicate Connects(f: Fleet, id: Id, dial: Dial) {
    && dial.Handshake? && dial.failed.None?
    && (id in f.db.hostKeys ==> dial.key.fingerprint == f.db.hostKeys[id].pin.fingerprint)
  }

  predicate SessionDrops(s: Session) { s.OpenFails? || s.StartExpires? }

  /** The command ran to its end, on the pooled connection or a fresh one. */
  predicate Works(f: Fleet, id: Id, net: Net) {
    (id in f.pool || Connects(f, id, net.dial)) && net.session == Completes
  }

  /** A connection is pooled once the command is over. */
  predicate StaysConnected(f: Fleet, id: Id, net: Net) {
    (id in f.pool || Connects(f, id, net.dial)) && !SessionDrops(net.session)
  }

  /** What went wrong, if something did. */
  function Trouble(f: Fleet, id: Id, net: Net): Failure
    requires !Works(f, id, net)
  {
    if id !in f.pool && net.dial.NoAnswer? then net.dial.failure
    else if id !in f.pool && id in f.db.hostKeys && net.dial.key.fingerprint != f.db.hostKeys[id].pin.fingerprint
    then KeyMismatch
    else if id !in f.pool && net.dial.failed.Some? then net.dial.failed.value
    else match net.session
      case OpenFails(failure) => failure
      case StartExpires => TimeoutFailure
      case _ => OtherFailure
  }

  /** A fresh handshake pins a new host, records a changed key, or clears an old record. */
  predicate KeysAfter(f: Fleet, id: Id, net: Net, keys: map<Id, HostKey>) {
    if id in f.pool || net.dial.NoAnswer? then keys == f.db.hostKeys
    else
      && id in keys && keys == f.db.hostKeys[id := keys[id]]
      && RecordAfter(f.db.hostKeys, id, net.dial.key, keys[id])
  }

  /** The pool after the command; a connection made for it goes to `t`. */
  predicate PoolWith(f: Fleet, id: Id, t: Target, net: Net, pool: map<Id, Conn>) {
    && pool - {id} == f.pool - {id}
    && (id in pool <==> StaysConnected(f, id, net))
    && (id in pool && id in f.pool ==> pool[id] == f.pool[id])
    && (id in pool && id !in f.pool ==> pool[id] == Conn(t, net.dial.key.fingerprint))
  }

  /** The same, with the target read off the machine's columns. */
  ghost predicate PoolAfter(f: Fleet, id: Id, net: Net, pool: map<Id, Conn>)
    requires id in f.db.machines
  {
    exists t: Target :: DialledAs(t, id, f.db.machines[id]) && PoolWith(f, id, t, net, pool)
  }

  /** Nothing but the keys, the pool and the history of keys differs. */
  predicate OnlyKeysAndPool(f: Fleet, g: Fleet) {
    g.db == f.db.(hostKeys := g.db.hostKeys)
  }

  /** The record of one machine after a key was shown. */
  predicate RecordAfter(keys: map<Id, HostKey>, id: Id, key: Key, k: HostKey) {
    if id !in keys then k == HostKey(key, NO_KEY)
    else
      && k.pin == keys[id].pin
      && (key.fingerprint != k.pin.fingerprint ==> k.seen == key)
      && (key.fingerprint == k.pin.fingerprint ==> k.seen.fingerprint == "")
  }

  lemma DialColumns(f: Fleet, id: Id, key: Key)
    ensures var (g, accepted) := CheckKey(f, id, key);
            && OnlyKeysAndPool(f, g) && g.pool == f.pool
            && (accepted <==> (id in f.db.hostKeys ==> key.fingerprint == f.db.hostKeys[id].pin.fingerprint))
            && id in g.db.hostKeys && g.db.hostKeys == f.db.hostKeys[id := g.db.hostKeys[id]]
            && RecordAfter(f.db.hostKeys, id, key, g.db.hostKeys[id])
  {
    if id in f.db.hostKeys {
      assert f.db.hostKeys[id := f.db.hostKeys[id]] == f.db.hostKeys;
    }
  }

  /** Getting a client: pooled, or past the policy. */
  lemma GetColumns(f: Fleet, id: Id, t: Target, net: Net)
    requires t.id == id
    ensures var (g, e) := Get(f, t, net.dial);
            && OnlyKeysAndPool(f, g)
            && (e.None? <==> id in f.pool || Connects(f, id, net.dial))
            && (e.Some? ==> e == Some(Trouble(f, id, net)))
            && KeysAfter(f, id, net, g.db.hostKeys)
            && g.pool == (if id in f.pool || !Connects(f, id, net.dial) then f.pool
                          else f.pool[id := Conn(t, net.dial.key.fingerprint)])
  {
    if id !in f.pool && net.dial.Handshake? {
      DialColumns(f, id, net.dial.key);
    }
  }

  /** The session keeps the connection or drops it. */
  lemma ExecAfterGet(f: Fleet, t: Target, net: Net)
    ensures var (g, e) := Get(f, t, net.dial);
            var (h, r) := Exec(f, t, net);
            && h.db == g.db
            && h.pool == (if e.None? && SessionDrops(net.session) then g.pool - {t.id} else g.pool)
            && r == if e.Some? then e
                    else match net.session
                      case OpenFails(failure) => Some(failure)
                      case StartExpires => Some(TimeoutFailure)
                      case Breaks => Some(OtherFailure)
                      case Completes => None
  {
  }

  /** Running one command on a machine: verdict, keys and pool. */
  lemma ExecColumns(f: Fleet, id: Id, t: Target, net: Net)
    requires t.id == id
    ensures var (g, e) := Exec(f, t, net);
            && OnlyKeysAndPool(f, g)
            && (e.None? <==> Works(f, id, net))
            && (!Works(f, id, net) ==> e == Some(Trouble(f, id, net)))
            && KeysAfter(f, id, net, g.db.hostKeys)
            && PoolWith(f, id, t, net, g.pool)
  {
    GetColumns(f, id, t, net);
    ExecAfterGet(f, t, net);
    var g := Get(f, t, net.dial).0;
    PoolSteps(f, id, t, net, g.pool, Exec(f, t, net).0.pool);
  }

  lemma PoolSteps(f: Fleet, id: Id, t: Target, net: Net, got: map<Id, Conn>, after: map<Id, Conn>)
    requires got == (if id in f.pool || !Connects(f, id, net.dial) then f.pool
                     else f.pool[id := Conn(t, net.dial.key.fingerprint)])
    requires after == if (id in f.pool || Connects(f, id, net.dial)) && SessionDrops(net.session) then got - {id}
                      else got
    ensures PoolWith(f, id, t, net, after)
  {
    assert got - {id} == f.pool - {id};
  }

  // ---- Handlers that run a command ---------------------------------------------

  predicate Complete(m: Machine) {
    m.host != "" && m.user != "" && m.credential.Some?
  }

  lemma CompleteResolves(f: Fleet, id: Id)
    requires Inv(f) && id in f.db.machines && Complete(f.db.machines[id])
    ensures ResolveTarget(id, f.db.machines[id], f.db.credentials).Some?
    ensures f.db.machines[id].HasHost()
  {
  }

  lemma IncompleteStays(f: Fleet, id: Id, admitted: bool, audited: bool, net: Net)
    requires id !in f.db.machines || !Complete(f.db.machines[id])
    ensures Step(f, DoProbe(id, net)) == f && Step(f, DoReachCheck(id, net)) == f
    ensures Step(f, DoRunAction(id, admitted, audited, net)) == f
    ensures Step(f, DoOpenSession(id, admitted, audited, net)) == f
  {
  }

  /** The verdict column of one machine. */
  predicate OnlyReach(f: Fleet, g: Fleet, id: Id, reach: Reach)
    requires id in f.db.machines
  {
    g.db.machines == f.db.machines[id := f.db.machines[id].(reach := reach)]
  }

  /** The connection is not kept. */
  predicate Dropped(f: Fleet, g: Fleet, id: Id) {
    g.pool == f.pool - {id}
  }

  lemma MarkColumns(f: Fleet, g: Fleet, id: Id, r: Reach)
    requires id in f.db.machines && g.db.machines == f.db.machines
    ensures var h := SetReach(g, id, r);
            && OnlyReach(f, h, id, r) && h.pool == g.pool && h.db == g.db.(machines := h.db.machines)
  {
  }

  /** The verdict a finished attempt leaves. */
  function Verdict(f: Fleet, id: Id, net: Net): Reach {
    if Works(f, id, net) then ReachOk else ClassifyReach(Trouble(f, id, net))
  }

  /** A probe dials afresh; what it finds is the verdict, and what works leaves facts and a connection. */
  lemma ProbeColumns(f: Fleet, id: Id, net: Net)
    requires Inv(f) && id in f.db.machines && Complete(f.db.machines[id])
    ensures var d, g := f.(pool := f.pool - {id}), Step(f, DoProbe(id, net));
            && OnlyReach(f, g, id, Verdict(d, id, net))
            && g.db.facts == (if Works(d, id, net) then f.db.facts + {id} else f.db.facts)
            && KeysAfter(d, id, net, g.db.hostKeys)
            && (Works(d, id, net) ==> PoolAfter(d, id, net, g.pool))
            && (!Works(d, id, net) ==> Dropped(f, g, id))
            && g.db == f.db.(machines := g.db.machines, hostKeys := g.db.hostKeys, facts := g.db.facts)
  {
    CompleteResolves(f, id);
    var t := ResolveTarget(id, f.db.machines[id], f.db.credentials).value;
    TargetOfRow(id, f.db.machines[id], f.db.credentials);
    ProbeWith(f, id, t, net);
  }

  lemma ProbeWith(f: Fleet, id: Id, t: Target, net: Net)
    requires id in f.db.machines && f.db.machines[id].HasHost()
    requires ResolveTarget(id, f.db.machines[id], f.db.credentials) == Some(t) && t.id == id
    ensures var d, g := f.(pool := f.pool - {id}), Probe(f, id, net);
            && OnlyReach(f, g, id, Verdict(d, id, net))
            && g.db.facts == (if Works(d, id, net) then f.db.facts + {id} else f.db.facts)
            && KeysAfter(d, id, net, g.db.hostKeys)
            && (Works(d, id, net) ==> PoolWith(d, id, t, net, g.pool))
            && (!Works(d, id, net) ==> Dropped(f, g, id))
            && g.db == f.db.(machines := g.db.machines, hostKeys := g.db.hostKeys, facts := g.db.facts)
  {
    var d := Drop(f, id);
    ExecColumns(d, id, t, net);
    var (g, e) := Exec(d, t, net);
    if e.Some? {
      MarkColumns(f, Drop(g, id), id, ClassifyReach(e.value));
      assert Probe(f, id, net) == SetReach(Drop(g, id), id, ClassifyReach(e.value));
      DroppedTwice(f.pool, g.pool, id);
    } else {
      var h := g.(db := g.db.(facts := g.db.facts + {id}));
      MarkColumns(f, h, id, ReachOk);
      assert Probe(f, id, net) == SetReach(h, id, ReachOk);
    }
  }

  lemma DroppedTwice(before: map<Id, Conn>, after: map<Id, Conn>, id: Id)
    requires after - {id} == (before - {id}) - {id}
    ensures after - {id} == before - {id}
  {
    assert (before - {id}) - {id} == before - {id};
  }

  /**
   An action that is admitted runs; a classified failure whose run was recorded marks
   the machine and drops the connection, anything else leaves the verdict alone.
   */
  lemma ActionColumns(f: Fleet, id: Id, admitted: bool, audited: bool, net: Net)
    requires Inv(f) && id in f.db.machines && Complete(f.db.machines[id])
    ensures var g := Step(f, DoRunAction(id, admitted, audited, net));
            if !admitted then g == f
            else
              var marks := !Works(f, id, net) && audited && Verdict(f, id, net) != ReachUnknown;
              && (marks ==> OnlyReach(f, g, id, Verdict(f, id, net)) && Dropped(f, g, id))
              && (!marks ==> g.db.machines == f.db.machines && PoolAfter(f, id, net, g.pool))
              && KeysAfter(f, id, net, g.db.hostKeys)
              && g.db == f.db.(machines := g.db.machines, hostKeys := g.db.hostKeys)
  {
    CompleteResolves(f, id);
    var t := ResolveTarget(id, f.db.machines[id], f.db.credentials).value;
    TargetOfRow(id, f.db.machines[id], f.db.credentials);
    if admitted {
      ActionWith(f, id, audited, net, t);
    }
  }

  lemma ActionWith(f: Fleet, id: Id, audited: bool, net: Net, t: Target)
    requires id in f.db.machines && f.db.machines[id].HasHost()
    requires ResolveTarget(id, f.db.machines[id], f.db.credentials) == Some(t) && t.id == id
    ensures var g := RunAction(f, id, true, audited, net);
            var marks := !Works(f, id, net) && audited && Verdict(f, id, net) != ReachUnknown;
            && (marks ==> OnlyReach(f, g, id, Verdict(f, id, net)) && Dropped(f, g, id))
            && (!marks ==> g.db.machines == f.db.machines && PoolWith(f, id, t, net, g.pool))
            && KeysAfter(f, id, net, g.db.hostKeys)
            && g.db == f.db.(machines := g.db.machines, hostKeys := g.db.hostKeys)
  {
    ExecColumns(f, id, t, net);
    MarkColumns(f, Exec(f, t, net).0, id, Verdict(f, id, net));
  }

  /** A terminal marks every failure, and success once recorded; a stream is recorded before it is admitted. */
  lemma SessionColumns(f: Fleet, id: Id, admitted: bool, audited: bool, net: Net)
    requires Inv(f) && id in f.db.machines && Complete(f.db.machines[id])
    ensures var g := Step(f, DoOpenSession(id, admitted, audited, net));
            if !admitted then g == f
            else
              && (!Works(f, id, net) || audited ==> OnlyReach(f, g, id, Verdict(f, id, net)))
              && (Works(f, id, net) && !audited ==> g.db.machines == f.db.machines)
              && PoolAfter(f, id, net, g.pool)
              && KeysAfter(f, id, net, g.db.hostKeys)
              && g.db == f.db.(machines := g.db.machines, hostKeys := g.db.hostKeys)
  {
    CompleteResolves(f, id);
    var t := ResolveTarget(id, f.db.machines[id], f.db.credentials).value;
    TargetOfRow(id, f.db.machines[id], f.db.credentials);
    if admitted {
      SessionWith(f, id, audited, net, t);
    }
  }

  lemma SessionWith(f: Fleet, id: Id, audited: bool, net: Net, t: Target)
    requires id in f.db.machines && f.db.machines[id].HasHost()
    requires ResolveTarget(id, f.db.machines[id], f.db.credentials) == Some(t) && t.id == id
    ensures var g := OpenSession(f, id, true, audited, net);
            && (!Works(f, id, net) || audited ==> OnlyReach(f, g, id, Verdict(f, id, net)))
            && (Works(f, id, net) && !audited ==> g.db.machines == f.db.machines)
            && PoolWith(f, id, t, net, g.pool)
            && KeysAfter(f, id, net, g.db.hostKeys)
            && g.db == f.db.(machines := g.db.machines, hostKeys := g.db.hostKeys)
  {
    ExecColumns(f, id, t, net);
    MarkColumns(f, Exec(f, t, net).0, id, Verdict(f, id, net));
  }

  /** The poller's check marks what it finds, and drops the connection of a machine that failed. */
  lemma CheckColumns(f: Fleet, id: Id, net: Net)
    requires Inv(f) && id in f.db.machines && Complete(f.db.machines[id])
    ensures var g := Step(f, DoReachCheck(id, net));
            && OnlyReach(f, g, id, Verdict(f, id, net))
            && (Works(f, id, net) ==> PoolAfter(f, id, net, g.pool))
            && (!Works(f, id, net) ==> Dropped(f, g, id))
            && KeysAfter(f, id, net, g.db.hostKeys)
            && g.db == f.db.(machines := g.db.machines, hostKeys := g.db.hostKeys)
  {
    CompleteResolves(f, id);
    var t := ResolveTarget(id, f.db.machines[id], f.db.credentials).value;
    TargetOfRow(id, f.db.machines[id], f.db.credentials);
    CheckWith(f, id, net, t);
  }

  lemma CheckWith(f: Fleet, id: Id, net: Net, t: Target)
    requires id in f.db.machines && f.db.machines[id].HasHost()
    requires ResolveTarget(id, f.db.machines[id], f.db.credentials) == Some(t) && t.id == id
    ensures var g := ReachCheck(f, id, net);
            && OnlyReach(f, g, id, Verdict(f, id, net))
            && (Works(f, id, net) ==> PoolWith(f, id, t, net, g.pool))
            && (!Works(f, id, net) ==> Dropped(f, g, id))
            && KeysAfter(f, id, net, g.db.hostKeys)
            && g.db == f.db.(machines := g.db.machines, hostKeys := g.db.hostKeys)
  {
    ExecColumns(f, id, t, net);
    MarkColumns(f, Exec(f, t, net).0, id, Verdict(f, id, net));
  }

  // ---- Power, trust, credentials, accounts -------------------------------------

  /** A confirmed call on a linked machine that the provider accepts drops the connection and records the state. */
  lemma PowerColumns(
    f: Fleet, id: Id, action: PowerAction, confirm: bool, confirmName: Str, out: PowerOutcome)
    ensures var g := Step(f, DoPower(id, action, confirm, confirmName, out));
            if && id in f.db.machines && out.Accepted?
               && f.db.machines[id].instance != "" && f.db.machines[id].account.Some?
               && (if action == Start then confirm else confirmName == f.db.machines[id].name)
            then
              && g.pool == f.pool - {id} && g.presented == f.presented
              && g.db == f.db.(machines := g.db.machines)
              && g.db.machines == (if out.state.None? then f.db.machines
                                   else f.db.machines[id := f.db.machines[id].(power := out.state.value)])
            else g == f
  {
  }

  /** Trusting a pending key that is echoed: it is the pin, nothing is pending, the connection and the verdict go. */
  lemma TrustColumns(f: Fleet, id: Id, echoed: Key)
    requires Inv(f)
    ensures var g := Step(f, DoTrust(id, echoed));
            if id in f.db.hostKeys && f.db.hostKeys[id].seen.fingerprint != "" && echoed == f.db.hostKeys[id].seen
            then
              && id in f.db.machines
              && g.db.hostKeys == f.db.hostKeys[id := HostKey(echoed, NO_KEY)]
              && OnlyReach(f, g, id, ReachUnknown) && Dropped(f, g, id)
              && g.db == f.db.(machines := g.db.machines, hostKeys := g.db.hostKeys)
              && g.presented == f.presented
            else g == f
  {
  }

  /** Its users lose the credential and their connections; nothing else changes. */
  lemma CredentialColumns(f: Fleet, c: Id)
    ensures var g := Step(f, DoDeleteCredential(c));
            && g.db == f.db.(credentials := f.db.credentials - {c}, machines := g.db.machines)
            && g.presented == f.presented
            && g.db.machines.Keys == f.db.machines.Keys
            && (forall id <- f.db.machines ::
                  && (f.db.machines[id].credential == Some(c) ==>
                        g.db.machines[id] == f.db.machines[id].(credential := None) && id !in g.pool)
                  && (f.db.machines[id].credential != Some(c) ==>
                        && g.db.machines[id] == f.db.machines[id]
                        && (id in g.pool <==> id in f.pool)))
            && g.pool.Keys <= f.pool.Keys && forall id <- g.pool :: g.pool[id] == f.pool[id]
  {
  }

  /** Its machines lose everything the cloud said of them but their addresses; connections stay. */
  lemma AccountColumns(f: Fleet, a: Id)
    ensures var g := Step(f, DoDeleteAccount(a));
            && g.pool == f.pool && g.presented == f.presented
            && g.db == f.db.(accounts := f.db.accounts - {a}, machines := g.db.machines)
            && g.db.machines.Keys == f.db.machines.Keys
            && forall id <- f.db.machines ::
                 var m, r := f.db.machines[id], g.db.machines[id];
                 if m.account != Some(a) then r == m
                 else
                   && r.account.None? && r.provider == "" && r.instance == "" && r.region == ""
                   && r.instanceType == "" && r.power == "unknown" && !r.missing
                   && r == m.(account := r.account, provider := r.provider, instance := r.instance,
                              region := r.region, instanceType := r.instanceType, power := r.power,
                              missing := r.missing)
  {
  }

  /** New credentials and accounts get the next id and disturb nothing. */
  lemma CreationColumns(f: Fleet, provider: Str)
    ensures Step(f, DoCreateCredential) ==
              f.(db := f.db.(credentials := f.db.credentials + {f.db.nextCredential},
                             nextCredential := f.db.nextCredential + 1))
    ensures Step(f, DoCreateAccount(provider)) ==
              f.(db := f.db.(accounts := f.db.accounts[f.db.nextAccount := provider],
                             nextAccount := f.db.nextAccount + 1))
  {
  }

  /** An eviction forgets one connection; a sync is the listing's, whole or up to where it stopped. */
  lemma BackgroundEvents(f: Fleet, id: Id, list: seq<Instance>)
    ensures Step(f, DoKeepaliveEvicts(id)) == f.(pool := f.pool - {id})
    ensures Step(f, DoSync(id, None)) == f
    ensures id in f.db.accounts ==>
              var s := SyncAll(f, id, f.db.accounts[id], list);
              && Step(f, DoAbortedSync(id, list)) == s
              && Step(f, DoSync(id, Some(list))) == MarkMissing(s, id, ReportedIds(list))
    ensures id !in f.db.accounts ==>
              Step(f, DoSync(id, Some(list))) == f && Step(f, DoAbortedSync(id, list)) == f
  {
  }

  /** Marking: exactly the account's linked rows outside the reported ids, and only that column. */
  lemma MissingColumns(f: Fleet, account: Id, seen: set<Str>)
    ensures var g := MarkMissing(f, account, seen);
            && g == f.(db := f.db.(machines := g.db.machines))
            && g.db.machines.Keys == f.db.machines.Keys
            && forall id <- f.db.machines ::
                 var m := f.db.machines[id];
                 g.db.machines[id] == if m.account == Some(account) && m.instance != "" && m.instance !in seen
                                      then m.(missing := true) else m
  {
  }
}
