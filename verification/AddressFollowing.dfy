/**
 `ssh_host` follows the public address (internal/store/queries.go:327-398): what one
 report does to the two columns, and what any run of events does to them, syncs
 being interleaved with everything that is no edit or removal of the machine.
 */
module AddressFollowing {
  import opened Base
  import opened Text
  import opened FleetModel
  import opened FleetInvariants
  import opened CloudSync

  // ---- One report -----------------------------------------------------------

  /** The two columns a report moves. */
  datatype Address = Address(host: Str, ip: Str)

  function FollowOne(a: Address, reported: Str): Address {
    Address(FollowHost(a.host, a.ip, reported), reported)
  }

  function FollowAll(a: Address, reports: seq<Str>): Address {
    if reports == [] then a else FollowOne(FollowAll(a, reports[..|reports| - 1]), reports[|reports| - 1])
  }

  function AddressOf(m: Machine): Address {
    Address(m.host, m.publicIp)
  }

  lemma {:induction false} FollowAllConcat(a: Address, r: seq<Str>, s: seq<Str>)
    ensures FollowAll(a, r + s) == FollowAll(FollowAll(a, r), s)
  {
    if s == [] {
      assert r + s == r;
    } else {
      var n := |s| - 1;
      FollowAllConcat(a, r, s[..n]);
      assert (r + s)[..|r| + n] == r + s[..n];
    }
  }

  // ---- One loop -------------------------------------------------------------

  /** The addresses a list reports for one instance, in order. */
  function IpsOf(list: seq<Instance>, x: Str): seq<Str> {
    if list == [] then []
    else IpsOf(list[..|list| - 1], x) + if list[|list| - 1].id == x then [list[|list| - 1].publicIp] else []
  }

  /** The reconcile loop moves a linked row's address by exactly the reports of its instance. */
  lemma {:induction false} LoopFollows(f: Fleet, account: Id, provider: Str, list: seq<Instance>, id: Id, x: Str)
    requires Inv(f) && account in f.db.accounts && RealIds(list)
    requires id in f.db.machines && IsLinked(f.db.machines[id], account, x)
    ensures var g := SyncAll(f, account, provider, list).db.machines;
            && id in g && IsLinked(g[id], account, x)
            && AddressOf(g[id]) == FollowAll(AddressOf(f.db.machines[id]), IpsOf(list, x))
  {
    if list != [] {
      var n := |list| - 1;
      LastRowStep(f, account, provider, list, id);
      LoopFollows(f, account, provider, list[..n], id, x);
      var s := SyncAll(f, account, provider, list[..n]).db.machines[id];
      RowFollows(s, account, list[n], x);
      FollowAllSnoc(AddressOf(f.db.machines[id]), IpsOf(list[..n], x), list[n].publicIp);
      assert IpsOf(list[..n], x) + [] == IpsOf(list[..n], x);
    }
  }

  lemma RowFollows(m: Machine, account: Id, i: Instance, x: Str)
    requires IsLinked(m, account, x)
    ensures var r := RowAfter(m, account, i);
            && IsLinked(r, account, x)
            && AddressOf(r) == if i.id == x then FollowOne(AddressOf(m), i.publicIp) else AddressOf(m)
  {
  }

  lemma FollowAllSnoc(a: Address, r: seq<Str>, last: Str)
    ensures FollowAll(a, r + [last]) == FollowOne(FollowAll(a, r), last)
  {
    assert (r + [last])[..|r|] == r;
  }

  // ---- One event ------------------------------------------------------------

  /** What an event reports for an instance of an account. */
  function Reports(e: Event, account: Id, x: Str): seq<Str> {
    match e
    case DoSync(a, listing) => if a == account && listing.Some? then IpsOf(listing.value, x) else []
    case DoAbortedSync(a, reached) => if a == account then IpsOf(reached, x) else []
    case _ => []
  }

  /** No edit or deletion of the machine, and its account stays. */
  predicate LeavesMachine(e: Event, id: Id, account: Id) {
    match e
    case DoUpdateMachine(j, _) => j != id
    case DoDeleteMachine(j) => j != id
    case DoDeleteAccount(a) => a != account
    case _ => true
  }

  /** The address and the link of a machine, as they were. */
  predicate SameAddress(f: Fleet, g: Fleet, id: Id)
    requires id in f.db.machines
  {
    && id in g.db.machines
    && AddressOf(g.db.machines[id]) == AddressOf(f.db.machines[id])
    && g.db.machines[id].account == f.db.machines[id].account
    && g.db.machines[id].instance == f.db.machines[id].instance
  }

  lemma SetReachKeepsAddress(f: Fleet, j: Id, r: Reach, id: Id)
    requires id in f.db.machines
    ensures SameAddress(f, SetReach(f, j, r), id) && SameAddress(f, Drop(SetReach(f, j, r), j), id)
  {
    var g := SetReach(f, j, r);
    assert SameAddress(f, g, id);
    assert Drop(g, j).db == g.db;
  }

  lemma ExecKeepsMachines(f: Fleet, t: Target, net: Net)
    ensures Exec(f, t, net).0.db.machines == f.db.machines
  {
  }

  lemma ProbeKeepsAddress(f: Fleet, j: Id, net: Net, id: Id)
    requires id in f.db.machines
    ensures SameAddress(f, Probe(f, j, net), id)
  {
    var d := Drop(f, j);
    SetReachKeepsAddress(d, j, ReachUnknown, id);
    if j in f.db.machines {
      var t := ResolveTarget(j, f.db.machines[j], f.db.credentials);
      if t.Some? {
        ExecKeepsMachines(d, t.value, net);
        var (g, e) := Exec(d, t.value, net);
        SetReachKeepsAddress(g.(db := g.db.(facts := g.db.facts + {j})), j, ReachOk, id);
        if e.Some? {
          SetReachKeepsAddress(Drop(g, j), j, ClassifyReach(e.value), id);
        }
      }
    }
  }

  lemma ActionKeepsAddress(f: Fleet, j: Id, admitted: bool, audited: bool, net: Net, id: Id)
    requires id in f.db.machines
    ensures SameAddress(f, RunAction(f, j, admitted, audited, net), id)
  {
    if j in f.db.machines {
      var t := ResolveTarget(j, f.db.machines[j], f.db.credentials);
      if t.Some? {
        ExecKeepsMachines(f, t.value, net);
        var (g, e) := Exec(f, t.value, net);
        SetReachKeepsAddress(g, j, if e.Some? then ClassifyReach(e.value) else ReachOk, id);
      }
    }
  }

  lemma SessionKeepsAddress(f: Fleet, j: Id, admitted: bool, audited: bool, net: Net, id: Id)
    requires id in f.db.machines
    ensures SameAddress(f, OpenSession(f, j, admitted, audited, net), id)
  {
    if j in f.db.machines {
      var t := ResolveTarget(j, f.db.machines[j], f.db.credentials);
      if t.Some? {
        ExecKeepsMachines(f, t.value, net);
        var (g, e) := Exec(f, t.value, net);
        SetReachKeepsAddress(g, j, if e.Some? then ClassifyReach(e.value) else ReachOk, id);
      }
    }
  }

  lemma CheckKeepsAddress(f: Fleet, j: Id, net: Net, id: Id)
    requires id in f.db.machines
    ensures SameAddress(f, ReachCheck(f, j, net), id)
  {
    if j in f.db.machines && f.db.machines[j].HasHost() {
      var t := ResolveTarget(j, f.db.machines[j], f.db.credentials);
      if t.Some? {
        ExecKeepsMachines(f, t.value, net);
        var (g, e) := Exec(f, t.value, net);
        var r := if e.Some? then ClassifyReach(e.value) else ReachOk;
        SetReachKeepsAddress(g, j, r, id);
        var marked := SetReach(g, j, r);
        assert ReachCheck(f, j, net) == if e.Some? then Drop(marked, j) else marked;
      }
    }
  }

  lemma TrustKeepsAddress(f: Fleet, j: Id, echoed: Key, id: Id)
    requires id in f.db.machines
    ensures SameAddress(f, Trust(f, j, echoed), id)
  {
    if j in f.db.hostKeys {
      var keys := f.db.hostKeys[j := HostKey(f.db.hostKeys[j].seen, NO_KEY)];
      SetReachKeepsAddress(Drop(f.(db := f.db.(hostKeys := keys)), j),
                           j, ReachUnknown, id);
    }
  }

  lemma EditKeepsOthers(f: Fleet, j: Id, i: Input, id: Id)
    requires id in f.db.machines && j != id
    ensures SameAddress(f, EditMachine(f, j, i), id)
  {
    if j in f.db.machines {
      EditResult(f, j, i);
      var g := WithRow(f, j, EditedRow(f.db.machines[j], i));
      SetReachKeepsAddress(Drop(g, j), j, ReachUnknown, id);
    }
  }

  lemma AddKeepsOthers(f: Fleet, i: Input, id: Id)
    requires Inv(f) && id in f.db.machines
    ensures SameAddress(f, AddMachine(f, i), id)
  {
  }

  lemma HandlersKeepAddress(f: Fleet, e: Event, id: Id, account: Id)
    requires Inv(f) && id in f.db.machines && f.db.machines[id].account == Some(account)
    requires LeavesMachine(e, id, account) && !e.DoSync? && !e.DoAbortedSync?
    ensures SameAddress(f, Step(f, e), id)
  {
    match e {
      case DoCreateMachine(input) => AddKeepsOthers(f, Normalize(input), id);
      case DoUpdateMachine(j, input) => EditKeepsOthers(f, j, Normalize(input), id);
      case DoProbe(j, net) => ProbeKeepsAddress(f, j, net, id);
      case DoRunAction(j, admitted, audited, net) => ActionKeepsAddress(f, j, admitted, audited, net, id);
      case DoOpenSession(j, admitted, audited, net) => SessionKeepsAddress(f, j, admitted, audited, net, id);
      case DoReachCheck(j, net) => CheckKeepsAddress(f, j, net, id);
      case DoTrust(j, echoed) => TrustKeepsAddress(f, j, echoed, id);
      case DoPower(j, action, confirm, name, out) => PowerKeepsAddress(f, j, action, confirm, name, out, id);
      case DoDeleteMachine(j) => DeletionKeepsOthers(f, j, id);
      case DoDeleteAccount(a) => AccountKeepsOthers(f, a, id);
      case DoDeleteCredential(c) => CredentialKeepsAddress(f, c, id);
      case _ =>
    }
  }

  lemma PowerKeepsAddress(
    f: Fleet, j: Id, action: PowerAction, confirm: bool, name: Str, out: PowerOutcome, id: Id)
    requires id in f.db.machines
    ensures SameAddress(f, Power(f, j, action, confirm, name, out), id)
  {
  }

  lemma DeletionKeepsOthers(f: Fleet, j: Id, id: Id)
    requires id in f.db.machines && j != id
    ensures SameAddress(f, DeleteMachine(f, j), id)
  {
  }

  lemma AccountKeepsOthers(f: Fleet, a: Id, id: Id)
    requires id in f.db.machines && f.db.machines[id].account != Some(a)
    ensures SameAddress(f, DeleteAccount(f, a), id)
  {
  }

  lemma CredentialKeepsAddress(f: Fleet, credential: Id, id: Id)
    requires id in f.db.machines
    ensures SameAddress(f, DeleteCredential(f, credential), id)
  {
  }

  /** Marking missing rows moves no address. */
  lemma MarkKeepsAddress(f: Fleet, a: Id, seen: set<Str>, id: Id)
    requires id in f.db.machines
    ensures SameAddress(f, MarkMissing(f, a, seen), id)
  {
  }

  /** Another account's loop leaves the row alone. */
  lemma OtherLoopKeepsAddress(f: Fleet, a: Id, provider: Str, list: seq<Instance>, id: Id)
    requires Inv(f) && a in f.db.accounts && RealIds(list)
    requires id in f.db.machines && f.db.machines[id].account != Some(a)
    ensures SameAddress(f, SyncAll(f, a, provider, list), id)
  {
    LoopReconciles(f, a, provider, list);
    assert RowReconciled(f.db.machines[id], SyncAll(f, a, provider, list).db.machines[id], a, ReportedIds(list));
  }

  /** The row after an event: still linked, its address moved by exactly what the event reports. */
  predicate Followed(f: Fleet, g: Fleet, id: Id, account: Id, x: Str, reports: seq<Str>)
    requires id in f.db.machines
  {
    && id in g.db.machines && IsLinked(g.db.machines[id], account, x)
    && AddressOf(g.db.machines[id]) == FollowAll(AddressOf(f.db.machines[id]), reports)
  }

  lemma LoopStepFollows(f: Fleet, a: Id, list: seq<Instance>, id: Id, account: Id, x: Str)
    requires Inv(f) && a in f.db.accounts && RealIds(list)
    requires id in f.db.machines && IsLinked(f.db.machines[id], account, x)
    ensures Followed(f, SyncAll(f, a, f.db.accounts[a], list), id, account, x,
                     if a == account then IpsOf(list, x) else [])
  {
    if a == account {
      LoopFollows(f, a, f.db.accounts[a], list, id, x);
    } else {
      OtherLoopKeepsAddress(f, a, f.db.accounts[a], list, id);
    }
  }

  lemma StepFollows(f: Fleet, e: Event, id: Id, account: Id, x: Str)
    requires Inv(f) && Admissible(e) && LeavesMachine(e, id, account)
    requires id in f.db.machines && IsLinked(f.db.machines[id], account, x)
    ensures Followed(f, Step(f, e), id, account, x, Reports(e, account, x))
  {
    assert account in f.db.accounts;
    if e.DoSync? {
      if e.id in f.db.accounts && e.listing.Some? {
        LoopStepFollows(f, e.id, e.listing.value, id, account, x);
        var list := e.listing.value;
        MarkKeepsAddress(SyncAll(f, e.id, f.db.accounts[e.id], list), e.id, ReportedIds(list), id);
      }
    } else if e.DoAbortedSync? {
      if e.id in f.db.accounts {
        LoopStepFollows(f, e.id, e.reached, id, account, x);
      }
    } else {
      HandlersKeepAddress(f, e, id, account);
    }
  }

  // ---- Every run ------------------------------------------------------------

  function ReportsOver(events: seq<Event>, account: Id, x: Str): seq<Str> {
    if events == [] then []
    else ReportsOver(events[..|events| - 1], account, x) + Reports(events[|events| - 1], account, x)
  }

  /** A run that leaves the machine to itself and the provider. */
  predicate Undisturbed(events: seq<Event>, id: Id, account: Id) {
    forall e <- events :: Admissible(e) && LeavesMachine(e, id, account)
  }

  /**
   Over every run in which nobody edits or removes the machine, whatever else
   happens in between, its host and public address are the old ones moved by
   exactly the reports of its instance, in order.
   */
  lemma {:induction false} AddressOverRuns(f: Fleet, events: seq<Event>, id: Id, account: Id, x: Str)
    requires Inv(f) && Undisturbed(events, id, account)
    requires id in f.db.machines && IsLinked(f.db.machines[id], account, x)
    ensures Inv(Run(f, events)) && Followed(f, Run(f, events), id, account, x, ReportsOver(events, account, x))
  {
    if events != [] {
      var n := |events| - 1;
      var prefix, e := events[..n], events[n];
      assert e in events && forall d <- prefix :: d in events;
      AddressOverRuns(f, prefix, id, account, x);
      StepKeeps(Run(f, prefix), e);
      StepFollows(Run(f, prefix), e, id, account, x);
      FollowAllConcat(AddressOf(f.db.machines[id]), ReportsOver(prefix, account, x), Reports(e, account, x));
    }
  }

  /** The host is the last reported address after every event of the run. */
  ghost predicate AlwaysTracks(f: Fleet, events: seq<Event>, id: Id) {
    forall n | 0 <= n <= |events| :: TracksAt(f, events, id, n)
  }

  ghost predicate TracksAt(f: Fleet, events: seq<Event>, id: Id, n: nat)
    requires n <= |events|
  {
    var m := Run(f, events[..n]).db.machines;
    id in m && m[id].host == m[id].publicIp
  }

  /** The sync reports an instance at most once. */
  predicate ReportsOnce(e: Event) {
    && (e.DoSync? && e.listing.Some? ==> DistinctIds(e.listing.value))
    && (e.DoAbortedSync? ==> DistinctIds(e.reached))
  }

  predicate OneReportEach(events: seq<Event>) {
    forall e <- events :: ReportsOnce(e)
  }

  lemma {:induction false} IpsOnce(list: seq<Instance>, x: Str)
    requires DistinctIds(list)
    ensures |IpsOf(list, x)| <= 1
    ensures (forall i <- list :: i.id != x) ==> IpsOf(list, x) == []
  {
    if list != [] {
      var n := |list| - 1;
      IpsOnce(list[..n], x);
      assert forall i <- list[..n] :: i in list;
      assert list[n] in list;
    }
  }

  lemma EventReportsOnce(e: Event, account: Id, x: Str)
    requires ReportsOnce(e)
    ensures |Reports(e, account, x)| <= 1
  {
    if e.DoSync? && e.listing.Some? {
      IpsOnce(e.listing.value, x);
    } else if e.DoAbortedSync? {
      IpsOnce(e.reached, x);
    }
  }

  /** Every prefix of the reports is what some prefix of the events reported. */
  lemma {:induction false} PrefixReports(events: seq<Event>, account: Id, x: Str, k: nat) returns (n: nat)
    requires OneReportEach(events) && k <= |ReportsOver(events, account, x)|
    ensures n <= |events| && ReportsOver(events[..n], account, x) == ReportsOver(events, account, x)[..k]
  {
    var reports := ReportsOver(events, account, x);
    if k == |reports| {
      n := |events|;
      assert events[..n] == events && reports[..k] == reports;
    } else {
      var l := |events| - 1;
      var earlier := ReportsOver(events[..l], account, x);
      assert events[l] in events && forall d <- events[..l] :: d in events;
      EventReportsOnce(events[l], account, x);
      assert reports == earlier + Reports(events[l], account, x) && reports[..k] == earlier[..k];
      n := PrefixReports(events[..l], account, x, k);
      assert events[..l][..n] == events[..n];
    }
  }

  /** And every prefix of the events reported a prefix of the reports. */
  lemma {:induction false} ReportsArePrefix(events: seq<Event>, account: Id, x: Str, n: nat)
    requires n <= |events|
    ensures ReportsOver(events[..n], account, x) <= ReportsOver(events, account, x)
  {
    if n < |events| {
      var l := |events| - 1;
      ReportsArePrefix(events[..l], account, x, n);
      assert events[..l][..n] == events[..n];
    } else {
      assert events[..n] == events;
    }
  }

  /** An address never goes from something to nothing. */
  predicate NeverBlanks(addresses: seq<Str>) {
    forall k :: 0 <= k < |addresses| - 1 && addresses[k] != "" ==> addresses[k + 1] != ""
  }

  lemma NeverBlanksStep(s: seq<Str>, last: Str)
    requires s != []
    ensures NeverBlanks(s + [last]) <==> NeverBlanks(s) && (s[|s| - 1] != "" ==> last != "")
  {
    var t := s + [last];
    assert forall k :: 0 <= k < |s| ==> t[k] == s[k];
    if NeverBlanks(t) {
      assert t[|s| - 1] != "" ==> t[|s|] != "";
      forall k | 0 <= k < |s| - 1 && s[k] != "" ensures s[k + 1] != "" {
        assert t[k] != "" && t[k + 1] == s[k + 1];
      }
    }
  }

  lemma FollowAllIp(a: Address, reports: seq<Str>)
    ensures FollowAll(a, reports).ip == if reports == [] then a.ip else reports[|reports| - 1]
  {
  }

  /** After the first `n` reports the host is the last reported address. */
  predicate TracksAfter(a: Address, reports: seq<Str>, n: nat)
    requires n <= |reports|
  {
    FollowAll(a, reports[..n]).host == FollowAll(a, reports[..n]).ip
  }

  /**
   A machine that starts out on its public address is on the last reported one
   after every prefix of the reports exactly when the reports never go blank.
   */
  lemma {:induction false} FollowsIff(a: Address, reports: seq<Str>)
    requires a.host == a.ip
    ensures (forall n | 0 <= n <= |reports| :: TracksAfter(a, reports, n)) <==> NeverBlanks([a.ip] + reports)
  {
    if reports == [] {
      assert forall n | 0 <= n <= |reports| :: reports[..n] == [];
    } else {
      var n := |reports| - 1;
      var init, last := reports[..n], reports[n];
      assert reports == init + [last];
      FollowsIff(a, init);
      TracksSnoc(a, init, last);
      FollowAllIp(a, init);
      assert ([a.ip] + init)[n] == FollowAll(a, init).ip;
      assert init[..n] == init;
      assert TracksAfter(a, init, n) ==>
               (TracksAfter(a, reports, n + 1) <==> (last == "" ==> FollowAll(a, init).ip == ""));
      NeverBlanksStep([a.ip] + init, last);
      assert [a.ip] + reports == ([a.ip] + init) + [last];
    }
  }

  lemma TracksSnoc(a: Address, init: seq<Str>, last: Str)
    ensures var reports := init + [last];
            && FollowAll(a, reports) == FollowOne(FollowAll(a, init), last)
            && reports[..|init| + 1] == reports
            && ((forall k | 0 <= k <= |reports| :: TracksAfter(a, reports, k)) <==>
                  (forall k | 0 <= k <= |init| :: TracksAfter(a, init, k)) && TracksAfter(a, reports, |init| + 1))
  {
    var reports := init + [last];
    assert reports[..|init|] == init;
    forall k | 0 <= k <= |init| ensures TracksAfter(a, reports, k) <==> TracksAfter(a, init, k) {
      assert init[..k] == reports[..k];
    }
  }

  /** A host that is never the stored address when a report arrives is never rewritten. */
  lemma {:induction false} OwnHostStays(a: Address, reports: seq<Str>)
    requires forall n :: 0 <= n < |reports| ==> FollowAll(a, reports[..n]).ip != a.host
    ensures FollowAll(a, reports).host == a.host
  {
    if reports != [] {
      var n := |reports| - 1;
      assert forall k :: 0 <= k <= n ==> reports[..n][..k] == reports[..k];
      OwnHostStays(a, reports[..n]);
    }
  }

  // ---- Tracking over every run ----------------------------------------------

  lemma TracksAtIff(f: Fleet, events: seq<Event>, id: Id, account: Id, x: Str, n: nat)
    requires Inv(f) && Undisturbed(events, id, account) && n <= |events|
    requires id in f.db.machines && IsLinked(f.db.machines[id], account, x)
    ensures var reports, k := ReportsOver(events, account, x), |ReportsOver(events[..n], account, x)|;
            k <= |reports| && (TracksAt(f, events, id, n) <==> TracksAfter(AddressOf(f.db.machines[id]), reports, k))
  {
    assert forall e <- events[..n] :: e in events;
    AddressOverRuns(f, events[..n], id, account, x);
    ReportsArePrefix(events, account, x, n);
    var before := ReportsOver(events[..n], account, x);
    assert ReportsOver(events, account, x)[..|before|] == before;
  }

  /**
   Over every undisturbed run, a machine that starts out on its public address is
   on the last reported one after every event if and only if the reports never
   go from an address to none.
   */
  lemma TracksOverRunsIff(f: Fleet, events: seq<Event>, id: Id, account: Id, x: Str)
    requires Inv(f) && Undisturbed(events, id, account) && OneReportEach(events)
    requires id in f.db.machines && IsLinked(f.db.machines[id], account, x)
    requires f.db.machines[id].host == f.db.machines[id].publicIp
    ensures AlwaysTracks(f, events, id) <==>
              NeverBlanks([f.db.machines[id].publicIp] + ReportsOver(events, account, x))
  {
    var a, reports := AddressOf(f.db.machines[id]), ReportsOver(events, account, x);
    FollowsIff(a, reports);
    if AlwaysTracks(f, events, id) {
      forall k | 0 <= k <= |reports| ensures TracksAfter(a, reports, k) {
        var n := PrefixReports(events, account, x, k);
        TracksAtIff(f, events, id, account, x, n);
        assert TracksAt(f, events, id, n);
      }
    } else {
      var n :| 0 <= n <= |events| && !TracksAt(f, events, id, n);
      TracksAtIff(f, events, id, account, x, n);
    }
  }

  /** A host that never is the stored address is never rewritten, over every undisturbed run. */
  lemma OwnHostOverRuns(f: Fleet, events: seq<Event>, id: Id, account: Id, x: Str)
    requires Inv(f) && Undisturbed(events, id, account) && OneReportEach(events)
    requires id in f.db.machines && IsLinked(f.db.machines[id], account, x)
    requires forall n | 0 <= n <= |events| ::
               id in Run(f, events[..n]).db.machines ==>
                 Run(f, events[..n]).db.machines[id].publicIp != f.db.machines[id].host
    ensures id in Run(f, events).db.machines
    ensures Run(f, events).db.machines[id].host == f.db.machines[id].host
  {
    var a, reports := AddressOf(f.db.machines[id]), ReportsOver(events, account, x);
    AddressOverRuns(f, events, id, account, x);
    forall k | 0 <= k < |reports| ensures FollowAll(a, reports[..k]).ip != a.host {
      var n := PrefixReports(events, account, x, k);
      assert forall e <- events[..n] :: e in events;
      AddressOverRuns(f, events[..n], id, account, x);
    }
    OwnHostStays(a, reports);
  }

  /** For one: an address that is missing from one sync and another one in the next is no longer followed. */
  lemma BlankReportStopsFollowing(f: Fleet, id: Id, account: Id, first: Instance, second: Instance)
    requires Inv(f) && id in f.db.machines && IsLinked(f.db.machines[id], account, first.id)
    requires f.db.machines[id].host == f.db.machines[id].publicIp != ""
    requires first.publicIp == "" && second.id == first.id && second.publicIp !in ["", f.db.machines[id].host]
    ensures var g := Run(f, [DoSync(account, Some([first])), DoSync(account, Some([second]))]);
            && id in g.db.machines
            && g.db.machines[id].host == f.db.machines[id].host != second.publicIp == g.db.machines[id].publicIp
  {
    var a, b := DoSync(account, Some([first])), DoSync(account, Some([second]));
    assert [a, b][..1] == [a] && [a][..0] == [];
    assert f.db.machines[id].instance != "";
    AddressOverRuns(f, [a, b], id, account, first.id);
    OneReport(first);
    OneReport(second);
    assert ReportsOver([a], account, first.id) == [] + [""] == [""];
    assert ReportsOver([a, b], account, first.id) == [""] + [second.publicIp];
    FollowAllSnoc(AddressOf(f.db.machines[id]), [], "");
    FollowAllSnoc(AddressOf(f.db.machines[id]), [""], second.publicIp);
  }

  lemma OneReport(i: Instance)
    ensures IpsOf([i], i.id) == [i.publicIp]
  {
    assert [i][..0] == [];
  }
}
