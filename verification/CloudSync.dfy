/**
 Cloud sync against its meaning: after a successful sync the account's linked rows
 are exactly the reported instances plus what went missing, and nothing the user
 owns has changed (internal/api/sync.go:57-96; internal/store/queries.go:327-421).
 */
module CloudSync {
  import opened Base
  import opened Text
  import opened FleetModel
  import opened FleetInvariants

  predicate RealIds(list: seq<Instance>) {
    forall i <- list :: i.id != ""
  }

  predicate DistinctIds(list: seq<Instance>) {
    forall i, j :: 0 <= i < j < |list| ==> list[i].id != list[j].id
  }

  /** The columns a sync must never touch on a row that exists. */
  predicate UserColumnsKept(before: Machine, after: Machine) {
    && after.name == before.name && after.tags == before.tags
    && after.port == before.port && after.user == before.user && after.credential == before.credential
    && after.account == before.account && after.instance == before.instance && after.provider == before.provider
  }

  // ---- One iteration --------------------------------------------------------

  /** With unique links, the lookup finds the one row there is. */
  lemma FindIs(machines: map<Id, Machine>, account: Id, instance: Str, id: Id)
    requires LinkedIdentity(machines) && id in machines && IsLinked(machines[id], account, instance)
    ensures Known(machines, account, instance) && Find(machines, account, instance) == id
  {
  }

  /** What one iteration does to an existing row. */
  function RowAfter(m: Machine, account: Id, i: Instance): Machine {
    if !IsLinked(m, account, i.id) then m
    else
      var r := RefreshedRow(m, i);
      if r.host != m.host then r.(reach := ReachUnknown) else r
  }

  /** Nothing but machines and the pool is involved. */
  predicate RestSame(f: Fleet, g: Fleet) {
    && g.db == f.db.(machines := g.db.machines, nextMachine := g.db.nextMachine)
    && g.presented == f.presented
  }

  /** One iteration, row by row. */
  ghost predicate Stepped(f: Fleet, g: Fleet, account: Id, provider: Str, i: Instance) {
    && RestSame(f, g)
    && (forall id <- f.db.machines ::
          id in g.db.machines && g.db.machines[id] == RowAfter(f.db.machines[id], account, i))
    && (Known(f.db.machines, account, i.id) ==> g.db.machines.Keys == f.db.machines.Keys)
    && (!Known(f.db.machines, account, i.id) ==>
          && f.db.nextMachine !in f.db.machines
          && g.db.machines.Keys == f.db.machines.Keys + {f.db.nextMachine}
          && g.db.machines[f.db.nextMachine] == Defaulted(DiscoveredRow(account, provider, i)))
  }

  lemma SyncOneSteps(f: Fleet, account: Id, provider: Str, i: Instance)
    requires LinkedIdentity(f.db.machines) && IdsFromCounters(f.db)
    ensures Stepped(f, SyncOne(f, account, provider, i), account, provider, i)
  {
    if Known(f.db.machines, account, i.id) {
      RefreshSteps(f, account, provider, i);
    }
  }

  lemma RefreshSteps(f: Fleet, account: Id, provider: Str, i: Instance)
    requires LinkedIdentity(f.db.machines) && Known(f.db.machines, account, i.id)
    ensures Stepped(f, SyncOne(f, account, provider, i), account, provider, i)
  {
    var g := SyncOne(f, account, provider, i);
    var id := Find(f.db.machines, account, i.id);
    assert g.db.machines == f.db.machines[id := RowAfter(f.db.machines[id], account, i)];
    forall k | k in f.db.machines
      ensures k in g.db.machines && g.db.machines[k] == RowAfter(f.db.machines[k], account, i)
    {
      if IsLinked(f.db.machines[k], account, i.id) {
        FindIs(f.db.machines, account, i.id, k);
      }
    }
  }

  // ---- The whole loop -------------------------------------------------------

  /** What holds of the table after a prefix of the reported list. */
  predicate RowReconciled(before: Machine, after: Machine, account: Id, seen: set<Str>) {
    && (before.account != Some(account) || before.instance !in seen ==> after == before)
    && (before.account == Some(account) ==> UserColumnsKept(before, after))
    && (before.account == Some(account) && before.instance in seen ==> !after.missing)
  }

  ghost predicate NewRow(earlier: map<Id, Machine>, m: Machine, account: Id, seen: set<Str>) {
    && m.account == Some(account) && m.instance in seen && !m.missing
    && !Known(earlier, account, m.instance)
  }

  ghost predicate Reconciled(f: Fleet, g: Fleet, account: Id, seen: set<Str>) {
    && RestSame(f, g)
    && f.db.machines.Keys <= g.db.machines.Keys
    && (forall id <- f.db.machines :: RowReconciled(f.db.machines[id], g.db.machines[id], account, seen))
    && (forall id <- g.db.machines :: id !in f.db.machines ==> NewRow(f.db.machines, g.db.machines[id], account, seen))
    && (forall x <- seen :: Known(g.db.machines, account, x))
  }

  lemma ReconciledRow(before: Machine, mid: Machine, account: Id, seen: set<Str>, i: Instance)
    requires RowReconciled(before, mid, account, seen)
    ensures RowReconciled(before, RowAfter(mid, account, i), account, seen + {i.id})
  {
  }

  /** Known instances stay known, and the reported one becomes so. */
  lemma KnownAfter(f: Fleet, g: Fleet, account: Id, provider: Str, i: Instance, x: Str)
    requires Stepped(f, g, account, provider, i)
    requires Known(f.db.machines, account, x) || x == i.id
    ensures Known(g.db.machines, account, x)
  {
    if Known(f.db.machines, account, x) {
      var id := Find(f.db.machines, account, x);
      assert IsLinked(g.db.machines[id], account, x);
    } else {
      assert IsLinked(g.db.machines[f.db.nextMachine], account, x);
    }
  }

  lemma ReconcileStep(f: Fleet, s: Fleet, g: Fleet, account: Id, provider: Str, seen: set<Str>, i: Instance)
    requires Reconciled(f, s, account, seen) && Stepped(s, g, account, provider, i)
    ensures Reconciled(f, g, account, seen + {i.id})
  {
    forall id | id in f.db.machines
      ensures RowReconciled(f.db.machines[id], g.db.machines[id], account, seen + {i.id})
    {
      ReconciledRow(f.db.machines[id], s.db.machines[id], account, seen, i);
    }
    forall id | id in g.db.machines && id !in f.db.machines
      ensures NewRow(f.db.machines, g.db.machines[id], account, seen + {i.id})
    {
      if id in s.db.machines {
        assert NewRow(f.db.machines, s.db.machines[id], account, seen);
      } else {
        KnownSplits(f, s, account, seen, i.id);
      }
    }
    forall x | x in seen + {i.id} ensures Known(g.db.machines, account, x) {
      KnownAfter(s, g, account, provider, i, x);
    }
  }

  lemma SeenStep(list: seq<Instance>)
    requires list != []
    ensures ReportedIds(list) == ReportedIds(list[..|list| - 1]) + {list[|list| - 1].id}
  {
    var n := |list| - 1;
    assert list == list[..n] + [list[n]];
  }

  lemma {:induction false} LoopReconciles(f: Fleet, account: Id, provider: Str, list: seq<Instance>)
    requires Inv(f) && account in f.db.accounts && RealIds(list)
    ensures Inv(SyncAll(f, account, provider, list))
    ensures Reconciled(f, SyncAll(f, account, provider, list), account, ReportedIds(list))
  {
    SyncAllKeeps(f, account, provider, list);
    if list != [] {
      var n := |list| - 1;
      var s := SyncAll(f, account, provider, list[..n]);
      LoopReconciles(f, account, provider, list[..n]);
      SyncOneSteps(s, account, provider, list[n]);
      ReconcileStep(f, s, SyncOne(s, account, provider, list[n]), account, provider, ReportedIds(list[..n]), list[n]);
      SeenStep(list);
    }
  }

  /** The last iteration of the loop, as a step from a reconciled table. */
  lemma LastIteration(f: Fleet, account: Id, provider: Str, list: seq<Instance>)
    requires Inv(f) && account in f.db.accounts && RealIds(list) && list != []
    ensures var n := |list| - 1;
            var s := SyncAll(f, account, provider, list[..n]);
            && Reconciled(f, s, account, ReportedIds(list[..n]))
            && Stepped(s, SyncAll(f, account, provider, list), account, provider, list[n])
  {
    var n := |list| - 1;
    LoopReconciles(f, account, provider, list[..n]);
    SyncOneSteps(SyncAll(f, account, provider, list[..n]), account, provider, list[n]);
  }

  /** What the last iteration does to a row that was there before the sync. */
  lemma LastRowStep(f: Fleet, account: Id, provider: Str, list: seq<Instance>, id: Id)
    requires Inv(f) && account in f.db.accounts && RealIds(list) && list != [] && id in f.db.machines
    ensures var n := |list| - 1;
            var s := SyncAll(f, account, provider, list[..n]).db.machines;
            var g := SyncAll(f, account, provider, list).db.machines;
            && id in s && id in g && g[id] == RowAfter(s[id], account, list[n])
            && RowReconciled(f.db.machines[id], s[id], account, ReportedIds(list[..n]))
  {
    LastIteration(f, account, provider, list);
  }

  /** The reported ids the table did not know. */
  ghost function Unknown(machines: map<Id, Machine>, account: Id, list: seq<Instance>): set<Str> {
    set x | x in ReportedIds(list) && !Known(machines, account, x)
  }

  lemma {:induction false} LoopGrows(f: Fleet, account: Id, provider: Str, list: seq<Instance>)
    requires Inv(f) && account in f.db.accounts && RealIds(list)
    ensures |SyncAll(f, account, provider, list).db.machines| == |f.db.machines| + CreatedBy(f, account, provider, list)
  {
    if list != [] {
      var n := |list| - 1;
      LoopGrows(f, account, provider, list[..n]);
      LastIteration(f, account, provider, list);
      var before := SyncAll(f, account, provider, list[..n]);
      TableStep(before, SyncAll(f, account, provider, list), account, provider, list[n]);
      CreatedByLast(f, account, provider, list);
    }
  }

  lemma {:induction false} LoopDiscovers(f: Fleet, account: Id, provider: Str, list: seq<Instance>)
    requires Inv(f) && account in f.db.accounts && RealIds(list)
    ensures CreatedBy(f, account, provider, list) == |Unknown(f.db.machines, account, list)|
  {
    if list != [] {
      var n := |list| - 1;
      assert list == list[..n] + [list[n]];
      LoopDiscovers(f, account, provider, list[..n]);
      LoopReconciles(f, account, provider, list[..n]);
      LastUnknown(f, SyncAll(f, account, provider, list[..n]), account, list, list[..n], list[n]);
      CreatedByLast(f, account, provider, list);
    }
  }

  lemma LoopCounts(f: Fleet, account: Id, provider: Str, list: seq<Instance>)
    requires Inv(f) && account in f.db.accounts && RealIds(list)
    ensures |SyncAll(f, account, provider, list).db.machines| == |f.db.machines| + CreatedBy(f, account, provider, list)
    ensures CreatedBy(f, account, provider, list) == |Unknown(f.db.machines, account, list)|
  {
    LoopGrows(f, account, provider, list);
    LoopDiscovers(f, account, provider, list);
  }

  lemma CreatedByLast(f: Fleet, account: Id, provider: Str, list: seq<Instance>)
    requires list != []
    ensures var prefix := list[..|list| - 1];
            CreatedBy(f, account, provider, list) == CreatedBy(f, account, provider, prefix)
              + if Known(SyncAll(f, account, provider, prefix).db.machines, account, list[|list| - 1].id) then 0 else 1
  {
  }

  lemma LastUnknown(f: Fleet, s: Fleet, account: Id, list: seq<Instance>, prefix: seq<Instance>, i: Instance)
    requires list == prefix + [i] && Reconciled(f, s, account, ReportedIds(prefix))
    ensures |Unknown(f.db.machines, account, list)|
         == |Unknown(f.db.machines, account, prefix)| + if Known(s.db.machines, account, i.id) then 0 else 1
  {
    UnknownStep(f, s, account, prefix, i);
  }

  lemma UnknownStep(f: Fleet, s: Fleet, account: Id, prefix: seq<Instance>, i: Instance)
    requires Reconciled(f, s, account, ReportedIds(prefix))
    ensures Unknown(f.db.machines, account, prefix + [i])
         == Unknown(f.db.machines, account, prefix) + (if Known(s.db.machines, account, i.id) then {} else {i.id})
    ensures !Known(s.db.machines, account, i.id) ==> i.id !in Unknown(f.db.machines, account, prefix)
  {
    KnownSplits(f, s, account, ReportedIds(prefix), i.id);
    SeenStep(prefix + [i]);
    assert (prefix + [i])[..|prefix|] == prefix;
  }

  lemma TableStep(s: Fleet, g: Fleet, account: Id, provider: Str, i: Instance)
    requires Stepped(s, g, account, provider, i)
    ensures |g.db.machines| == |s.db.machines| + if Known(s.db.machines, account, i.id) then 0 else 1
  {
    assert |g.db.machines| == |g.db.machines.Keys| && |s.db.machines| == |s.db.machines.Keys|;
  }

  /** Known now means known before or reported since. */
  lemma KnownSplits(f: Fleet, s: Fleet, account: Id, seen: set<Str>, x: Str)
    requires Reconciled(f, s, account, seen)
    ensures Known(s.db.machines, account, x) <==> Known(f.db.machines, account, x) || x in seen
  {
    if Known(f.db.machines, account, x) {
      var k := Find(f.db.machines, account, x);
      assert RowReconciled(f.db.machines[k], s.db.machines[k], account, seen);
      assert IsLinked(s.db.machines[k], account, x);
    }
    if Known(s.db.machines, account, x) {
      var k := Find(s.db.machines, account, x);
      if k in f.db.machines {
        assert RowReconciled(f.db.machines[k], s.db.machines[k], account, seen);
        assert IsLinked(f.db.machines[k], account, x);
      } else {
        assert NewRow(f.db.machines, s.db.machines[k], account, seen);
      }
    }
  }

  // ---- The result of a sync -------------------------------------------------

  /** Exactly one row of the account is linked to the instance. */
  ghost predicate ExactlyOne(machines: map<Id, Machine>, account: Id, x: Str) {
    && Known(machines, account, x)
    && forall i <- machines, j <- machines ::
         IsLinked(machines[i], account, x) && IsLinked(machines[j], account, x) ==> i == j
  }

  /**
   A successful sync makes the account's rows agree with the reported set: each
   reported id has exactly one row; a linked row is missing exactly when it was not
   reported; the table grows by the number of ids it did not know.
   */
  lemma SyncRefines(f: Fleet, account: Id, list: seq<Instance>)
    requires Inv(f) && account in f.db.accounts && RealIds(list)
    ensures var g := Sync(f, account, Some(list));
            && Inv(g)
            && (forall x <- ReportedIds(list) :: ExactlyOne(g.db.machines, account, x))
            && (forall id <- g.db.machines :: g.db.machines[id].account == Some(account) ==>
                  (g.db.machines[id].missing <==> g.db.machines[id].instance !in ReportedIds(list)))
            && |g.db.machines| == |f.db.machines| + |Unknown(f.db.machines, account, list)|
  {
    var provider := f.db.accounts[account];
    var s := SyncAll(f, account, provider, list);
    var seen := ReportedIds(list);
    LoopReconciles(f, account, provider, list);
    LoopCounts(f, account, provider, list);
    MarkMissingKeeps(s, account, seen);
    var g := MarkMissing(s, account, seen);
    assert g.db.machines.Keys == s.db.machines.Keys;
    assert |g.db.machines| == |g.db.machines.Keys| == |s.db.machines|;
    forall x | x in seen ensures ExactlyOne(g.db.machines, account, x) {
      var id := Find(s.db.machines, account, x);
      assert IsLinked(g.db.machines[id], account, x);
    }
    forall id | id in g.db.machines && g.db.machines[id].account == Some(account)
      ensures g.db.machines[id].missing <==> g.db.machines[id].instance !in seen
    {
      if id in f.db.machines {
        assert RowReconciled(f.db.machines[id], s.db.machines[id], account, seen);
      } else {
        assert NewRow(f.db.machines, s.db.machines[id], account, seen);
      }
    }
  }

  /** What a sync leaves alone: other accounts' and unlinked rows, and the user's columns. */
  lemma SyncPreserves(f: Fleet, account: Id, list: seq<Instance>, id: Id)
    requires Inv(f) && account in f.db.accounts && RealIds(list) && id in f.db.machines
    ensures var g := Sync(f, account, Some(list));
            && RestSame(f, g)
            && id in g.db.machines
            && (f.db.machines[id].account != Some(account) ==> g.db.machines[id] == f.db.machines[id])
            && UserColumnsKept(f.db.machines[id], g.db.machines[id])
            && (f.db.machines[id].instance !in ReportedIds(list) ==> g.db.machines[id].host == f.db.machines[id].host)
  {
    var s := SyncAll(f, account, f.db.accounts[account], list);
    LoopReconciles(f, account, f.db.accounts[account], list);
    assert RowReconciled(f.db.machines[id], s.db.machines[id], account, ReportedIds(list));
  }

  /**
   A sync that fails marks no row missing: not when the listing fails, which
   changes nothing, and not when the loop stops part-way.
   */
  lemma FailedSyncMarksNothing(f: Fleet, account: Id, reached: seq<Instance>, id: Id)
    requires Inv(f) && RealIds(reached)
    ensures Sync(f, account, None) == f
    ensures var g := AbortedSync(f, account, reached);
            && RestSame(f, g)
            && (id in g.db.machines && g.db.machines[id].missing ==>
                  id in f.db.machines && f.db.machines[id].missing && g.db.machines[id] == f.db.machines[id])
  {
    if account in f.db.accounts {
      var g := AbortedSync(f, account, reached);
      LoopReconciles(f, account, f.db.accounts[account], reached);
      if id in f.db.machines {
        assert RowReconciled(f.db.machines[id], g.db.machines[id], account, ReportedIds(reached));
      }
    }
  }

  // ---- Repeating a sync -----------------------------------------------------

  /** The row says about the instance what the provider reported. */
  predicate Reflects(m: Machine, i: Instance) {
    && m.region == i.region && m.instanceType == i.instanceType
    && m.publicIp == i.publicIp && m.privateIp == i.privateIp && !m.missing
  }

  ghost predicate PowerReported(f: Fleet, m: Machine, account: Id, i: Instance) {
    m.power == (if i.power == "" && !Known(f.db.machines, account, i.id) then "unknown" else i.power)
  }

  /** Another instance's report leaves the row of `x` alone. */
  lemma OthersReported(s: Fleet, g: Fleet, account: Id, provider: Str, i: Instance, x: Str, id: Id)
    requires Stepped(s, g, account, provider, i) && i.id != x
    requires id in g.db.machines && IsLinked(g.db.machines[id], account, x)
    ensures id in s.db.machines && g.db.machines[id] == s.db.machines[id]
  {
  }

  /** The row of an instance says what its own report said. */
  lemma JustReported(f: Fleet, s: Fleet, g: Fleet, account: Id, provider: Str, i: Instance, id: Id)
    requires Stepped(s, g, account, provider, i)
    requires Known(s.db.machines, account, i.id) <==> Known(f.db.machines, account, i.id)
    requires id in g.db.machines && IsLinked(g.db.machines[id], account, i.id)
    ensures Reflects(g.db.machines[id], i) && PowerReported(f, g.db.machines[id], account, i)
  {
    if id in s.db.machines {
      assert IsLinked(s.db.machines[id], account, i.id);
    }
  }

  lemma NotYetReported(list: seq<Instance>)
    requires list != [] && DistinctIds(list)
    ensures list[|list| - 1].id !in ReportedIds(list[..|list| - 1])
  {
    var n := |list| - 1;
    forall i | i in list[..n] ensures i.id != list[n].id {
      var j :| 0 <= j < n && list[..n][j] == i;
      assert list[j] == i;
    }
  }

  lemma EarlierReport(f: Fleet, account: Id, provider: Str, list: seq<Instance>, k: nat, id: Id)
    requires Inv(f) && account in f.db.accounts && RealIds(list) && DistinctIds(list) && k < |list| - 1
    requires id in SyncAll(f, account, provider, list).db.machines
    requires IsLinked(SyncAll(f, account, provider, list).db.machines[id], account, list[k].id)
    ensures id in SyncAll(f, account, provider, list[..|list| - 1]).db.machines
    ensures SyncAll(f, account, provider, list).db.machines[id]
         == SyncAll(f, account, provider, list[..|list| - 1]).db.machines[id]
  {
    var n := |list| - 1;
    LastIteration(f, account, provider, list);
    OthersReported(SyncAll(f, account, provider, list[..n]), SyncAll(f, account, provider, list),
                   account, provider, list[n], list[k].id, id);
  }

  lemma LastReport(f: Fleet, account: Id, provider: Str, list: seq<Instance>, id: Id)
    requires Inv(f) && account in f.db.accounts && RealIds(list) && DistinctIds(list) && list != []
    requires id in SyncAll(f, account, provider, list).db.machines
    requires IsLinked(SyncAll(f, account, provider, list).db.machines[id], account, list[|list| - 1].id)
    ensures Reflects(SyncAll(f, account, provider, list).db.machines[id], list[|list| - 1])
    ensures PowerReported(f, SyncAll(f, account, provider, list).db.machines[id], account, list[|list| - 1])
  {
    var n := |list| - 1;
    var s := SyncAll(f, account, provider, list[..n]);
    LastIteration(f, account, provider, list);
    NotYetReported(list);
    KnownSplits(f, s, account, ReportedIds(list[..n]), list[n].id);
    JustReported(f, s, SyncAll(f, account, provider, list), account, provider, list[n], id);
  }

  /** After the loop, each row says what its instance's (only) report said. */
  lemma {:induction false} LoopReflects(f: Fleet, account: Id, provider: Str, list: seq<Instance>, k: nat, id: Id)
    requires Inv(f) && account in f.db.accounts && RealIds(list) && DistinctIds(list) && k < |list|
    requires id in SyncAll(f, account, provider, list).db.machines
    requires IsLinked(SyncAll(f, account, provider, list).db.machines[id], account, list[k].id)
    ensures Reflects(SyncAll(f, account, provider, list).db.machines[id], list[k])
    ensures PowerReported(f, SyncAll(f, account, provider, list).db.machines[id], account, list[k])
  {
    if k < |list| - 1 {
      var init := list[..|list| - 1];
      assert init[k] == list[k];
      EarlierReport(f, account, provider, list, k, id);
      LoopReflects(f, account, provider, init, k, id);
    } else {
      LastReport(f, account, provider, list, id);
    }
  }

  /** A second pass over rows that already say what is reported does nothing. */
  lemma {:induction false} SecondPass(g: Fleet, account: Id, provider: Str, list: seq<Instance>)
    requires Inv(g)
    requires forall i <- list :: Known(g.db.machines, account, i.id)
    requires forall i <- list, id <- g.db.machines :: IsLinked(g.db.machines[id], account, i.id) ==>
               Reflects(g.db.machines[id], i) && g.db.machines[id].power == i.power
    ensures SyncAll(g, account, provider, list) == g
  {
    if list != [] {
      var n := |list| - 1;
      assert list[n] in list;
      assert forall i <- list[..n] :: i in list;
      SecondPass(g, account, provider, list[..n]);
      RefreshAgain(g, account, provider, list[n]);
    }
  }

  /** Refreshing a row with what it already says changes nothing. */
  lemma RefreshAgain(g: Fleet, account: Id, provider: Str, i: Instance)
    requires Known(g.db.machines, account, i.id)
    requires forall id <- g.db.machines :: IsLinked(g.db.machines[id], account, i.id) ==>
               Reflects(g.db.machines[id], i) && g.db.machines[id].power == i.power
    ensures SyncOne(g, account, provider, i) == g
  {
    var id := Find(g.db.machines, account, i.id);
    assert RefreshedRow(g.db.machines[id], i) == g.db.machines[id];
    assert g.db.machines[id := g.db.machines[id]] == g.db.machines;
  }

  /** Every instance the first sync discovers reports a power state. */
  ghost predicate DiscoveriesHavePower(f: Fleet, account: Id, list: seq<Instance>) {
    forall i <- list :: i.power == "" ==> Known(f.db.machines, account, i.id)
  }

  /** After a sync, every reported instance has its row, which says what was reported. */
  lemma AfterSync(f: Fleet, account: Id, list: seq<Instance>, i: Instance, id: Id)
    requires Inv(f) && account in f.db.accounts && RealIds(list) && DistinctIds(list) && i in list
    requires id in Sync(f, account, Some(list)).db.machines
    requires IsLinked(Sync(f, account, Some(list)).db.machines[id], account, i.id)
    ensures Reflects(Sync(f, account, Some(list)).db.machines[id], i)
    ensures PowerReported(f, Sync(f, account, Some(list)).db.machines[id], account, i)
  {
    var s := SyncAll(f, account, f.db.accounts[account], list);
    var k :| 0 <= k < |list| && list[k] == i;
    assert i.id in ReportedIds(list);
    LoopReflects(f, account, f.db.accounts[account], list, k, id);
  }

  /**
   Repeating a sync changes nothing exactly when every newly discovered instance
   reported a power state: creation turns an empty one into "unknown", an update
   writes it as it is.
   */
  lemma RepeatedSyncIff(f: Fleet, account: Id, list: seq<Instance>)
    requires Inv(f) && account in f.db.accounts && RealIds(list) && DistinctIds(list)
    ensures var g := Sync(f, account, Some(list));
            Sync(g, account, Some(list)) == g <==> DiscoveriesHavePower(f, account, list)
  {
    var g := Sync(f, account, Some(list));
    var h := Sync(g, account, Some(list));
    SyncRefines(f, account, list);
    SyncPreservesAccounts(f, account, list);
    if DiscoveriesHavePower(f, account, list) {
      forall i, id | i in list && id in g.db.machines && IsLinked(g.db.machines[id], account, i.id)
        ensures Reflects(g.db.machines[id], i) && g.db.machines[id].power == i.power
      {
        AfterSync(f, account, list, i, id);
      }
      SecondPass(g, account, g.db.accounts[account], list);
      MarkMissingAgain(f, account, list);
    } else {
      var i :| i in list && i.power == "" && !Known(f.db.machines, account, i.id);
      assert ExactlyOne(g.db.machines, account, i.id);
      var id := Find(g.db.machines, account, i.id);
      AfterSync(f, account, list, i, id);
      SyncPreserves(g, account, list, id);
      assert IsLinked(h.db.machines[id], account, i.id);
      AfterSync(g, account, list, i, id);
    }
  }

  /** What a provider adapter reports: every instance once, by its id, in some power state. */
  predicate AdapterListing(list: seq<Instance>) {
    RealIds(list) && DistinctIds(list) && forall i <- list :: i.power != ""
  }

  /** Repeating a sync of what an adapter can report changes nothing at all. */
  lemma SyncIsIdempotent(f: Fleet, account: Id, list: seq<Instance>)
    requires Inv(f) && account in f.db.accounts && AdapterListing(list)
    ensures var g := Sync(f, account, Some(list)); Sync(g, account, Some(list)) == g
  {
    RepeatedSyncIff(f, account, list);
  }

  /** For one: the first sync of a fresh account that reports an instance without a power state. */
  lemma RepeatedSyncExample()
    ensures var f := CreateAccount(EMPTY, "hetzner");
            var list := [Instance("i-1", "web", "", "", "", "", "", [])];
            var g := Sync(f, 1, Some(list));
            Sync(g, 1, Some(list)) != g
  {
    var i := Instance("i-1", "web", "", "", "", "", "", []);
    FirstSyncWithoutPower("hetzner", i);
  }

  lemma FirstSyncWithoutPower(provider: Str, i: Instance)
    requires i.id != "" && i.power == ""
    ensures var f := CreateAccount(EMPTY, provider);
            var g := Sync(f, 1, Some([i]));
            Sync(g, 1, Some([i])) != g
  {
    var f := CreateAccount(EMPTY, provider);
    CreateAccountKeeps(EMPTY, provider);
    RepeatedSyncIff(f, 1, [i]);
    assert i in [i] && !Known(f.db.machines, 1, i.id);
  }

  lemma SyncPreservesAccounts(f: Fleet, account: Id, list: seq<Instance>)
    requires Inv(f) && account in f.db.accounts && RealIds(list)
    ensures Sync(f, account, Some(list)).db.accounts == f.db.accounts
  {
    LoopReconciles(f, account, f.db.accounts[account], list);
  }

  lemma MarkMissingAgain(f: Fleet, account: Id, list: seq<Instance>)
    requires Inv(f) && account in f.db.accounts
    ensures var g := Sync(f, account, Some(list));
            MarkMissing(g, account, ReportedIds(list)) == g
  {
    var g := Sync(f, account, Some(list));
    assert MarkMissing(g, account, ReportedIds(list)).db.machines == g.db.machines;
  }
}
