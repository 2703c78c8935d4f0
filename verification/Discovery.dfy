/**
 What a sync stores, column by column: the row of an instance nobody knew before,
 and of one that was known (internal/store/queries.go:340-399).
 */
module Discovery {
  import opened Base
  import opened Text
  import opened FleetModel
  import opened FleetInvariants
  import opened CloudSync
  import opened AddressFollowing
  import Tags

  // ---- A new row ------------------------------------------------------------

  /** What the row of a newly discovered instance says. */
  predicate FreshRow(m: Machine, account: Id, provider: Str, i: Instance) {
    && m.account == Some(account) && m.provider == provider && m.instance == i.id
    && m.name == i.name && m.region == i.region && m.instanceType == i.instanceType
    && m.power == (if i.power == "" then "unknown" else i.power)
    && m.publicIp == i.publicIp && m.privateIp == i.privateIp && !m.missing
    && m.host == i.publicIp && m.port == 22 && m.user == "" && m.credential == None
    && m.reach == ReachUnknown
    && ((forall t <- i.labels :: Tags.GoodTag(t)) ==> Tags.SplitTags(m.tags) == i.labels)
  }

  /** One iteration: a known row is refreshed, an unknown instance gets a fresh row. */
  predicate OneReport(before: Machine, after: Machine, account: Id, i: Instance) {
    if before.account == Some(account) && before.instance == i.id then
      && UserColumnsKept(before, after)
      && after.region == i.region && after.instanceType == i.instanceType && after.power == i.power
      && after.publicIp == i.publicIp && after.privateIp == i.privateIp && !after.missing
      && after.host == (if before.host == before.publicIp && i.publicIp != "" then i.publicIp else before.host)
      && after.reach == (if after.host != before.host then ReachUnknown else before.reach)
    else after == before
  }

  lemma RowAfterReports(m: Machine, account: Id, i: Instance)
    ensures OneReport(m, RowAfter(m, account, i), account, i)
  {
  }

  lemma FreshlyDiscovered(account: Id, provider: Str, i: Instance)
    ensures FreshRow(Defaulted(DiscoveredRow(account, provider, i)), account, provider, i)
  {
    Tags.TagsRoundTripIff(i.labels);
  }

  /** Each iteration of the loop, row by row and column by column. */
  lemma IterationColumns(f: Fleet, account: Id, provider: Str, i: Instance)
    requires Inv(f)
    ensures var g := SyncOne(f, account, provider, i);
            && (forall id <- f.db.machines ::
                  id in g.db.machines && OneReport(f.db.machines[id], g.db.machines[id], account, i))
            && (forall id <- g.db.machines :: id !in f.db.machines ==>
                  FreshRow(g.db.machines[id], account, provider, i))
            && ((exists id :: id in g.db.machines && id !in f.db.machines) <==>
                  !Known(f.db.machines, account, i.id))
  {
    var g := SyncOne(f, account, provider, i);
    SyncOneSteps(f, account, provider, i);
    FreshlyDiscovered(account, provider, i);
    forall id | id in f.db.machines ensures OneReport(f.db.machines[id], g.db.machines[id], account, i) {
      RowAfterReports(f.db.machines[id], account, i);
    }
    if !Known(f.db.machines, account, i.id) {
      assert f.db.nextMachine in g.db.machines && f.db.nextMachine !in f.db.machines;
    }
  }

  // ---- The whole sync -------------------------------------------------------

  lemma JustDiscovered(s: Fleet, g: Fleet, account: Id, provider: Str, i: Instance, id: Id)
    requires Stepped(s, g, account, provider, i) && !Known(s.db.machines, account, i.id)
    requires id in g.db.machines && IsLinked(g.db.machines[id], account, i.id)
    ensures FreshRow(g.db.machines[id], account, provider, i)
  {
    FreshlyDiscovered(account, provider, i);
  }

  /** After the loop the row of a reported instance unknown before is the fresh one. */
  lemma {:induction false} LoopDiscovers(f: Fleet, account: Id, provider: Str, list: seq<Instance>, k: nat, id: Id)
    requires Inv(f) && account in f.db.accounts && RealIds(list) && DistinctIds(list) && k < |list|
    requires !Known(f.db.machines, account, list[k].id)
    requires id in SyncAll(f, account, provider, list).db.machines
    requires IsLinked(SyncAll(f, account, provider, list).db.machines[id], account, list[k].id)
    ensures FreshRow(SyncAll(f, account, provider, list).db.machines[id], account, provider, list[k])
  {
    var n := |list| - 1;
    var init := list[..n];
    if k < n {
      assert init[k] == list[k];
      EarlierReport(f, account, provider, list, k, id);
      LoopDiscovers(f, account, provider, init, k, id);
    } else {
      LastDiscovered(f, account, provider, list, id);
    }
  }

  lemma LastDiscovered(f: Fleet, account: Id, provider: Str, list: seq<Instance>, id: Id)
    requires Inv(f) && account in f.db.accounts && RealIds(list) && DistinctIds(list) && list != []
    requires !Known(f.db.machines, account, list[|list| - 1].id)
    requires id in SyncAll(f, account, provider, list).db.machines
    requires IsLinked(SyncAll(f, account, provider, list).db.machines[id], account, list[|list| - 1].id)
    ensures FreshRow(SyncAll(f, account, provider, list).db.machines[id], account, provider, list[|list| - 1])
  {
    var n := |list| - 1;
    var s := SyncAll(f, account, provider, list[..n]);
    LastIteration(f, account, provider, list);
    NotYetReported(list);
    KnownSplits(f, s, account, ReportedIds(list[..n]), list[n].id);
    JustDiscovered(s, SyncAll(f, account, provider, list), account, provider, list[n], id);
  }

  /** Marking the missing rows leaves those that were reported alone. */
  lemma ReportedNotMarked(f: Fleet, account: Id, seen: set<Str>, id: Id, x: Str)
    requires id in f.db.machines && IsLinked(f.db.machines[id], account, x) && x in seen
    ensures MarkMissing(f, account, seen).db.machines[id] == f.db.machines[id]
  {
  }

  /**
   After a sync, each reported instance that was unknown has one row, made of what
   was reported: its public address is the host and the stored address, so that it
   starts out following; no user and no credential yet.
   */
  lemma SyncDiscovers(f: Fleet, account: Id, list: seq<Instance>, i: Instance)
    requires Inv(f) && account in f.db.accounts && RealIds(list) && DistinctIds(list)
    requires i in list && !Known(f.db.machines, account, i.id)
    ensures var m := Sync(f, account, Some(list)).db.machines;
            && ExactlyOne(m, account, i.id)
            && forall id <- m :: m[id].account == Some(account) && m[id].instance == i.id ==>
                 FreshRow(m[id], account, f.db.accounts[account], i) && id !in f.db.machines
  {
    var provider := f.db.accounts[account];
    var s, g := SyncAll(f, account, provider, list), Sync(f, account, Some(list));
    SyncRefines(f, account, list);
    assert i.id in ReportedIds(list);
    var k :| 0 <= k < |list| && list[k] == i;
    forall id | id in g.db.machines && IsLinked(g.db.machines[id], account, i.id)
      ensures FreshRow(g.db.machines[id], account, provider, i) && id !in f.db.machines
    {
      assert g.db.machines.Keys == s.db.machines.Keys;
      LinkKeptByMark(s, account, ReportedIds(list), id);
      ReportedNotMarked(s, account, ReportedIds(list), id, i.id);
      FreshAfterLoop(f, account, provider, list, k, id);
    }
  }

  lemma FreshAfterLoop(f: Fleet, account: Id, provider: Str, list: seq<Instance>, k: nat, id: Id)
    requires Inv(f) && account in f.db.accounts && RealIds(list) && DistinctIds(list) && k < |list|
    requires !Known(f.db.machines, account, list[k].id)
    requires id in SyncAll(f, account, provider, list).db.machines
    requires IsLinked(SyncAll(f, account, provider, list).db.machines[id], account, list[k].id)
    ensures FreshRow(SyncAll(f, account, provider, list).db.machines[id], account, provider, list[k])
    ensures id !in f.db.machines
  {
    LoopDiscovers(f, account, provider, list, k, id);
    UnknownIsNew(f, account, provider, list, id, list[k].id);
  }

  lemma LinkKeptByMark(f: Fleet, account: Id, seen: set<Str>, id: Id)
    requires id in f.db.machines
    ensures var m := MarkMissing(f, account, seen).db.machines[id];
            m.account == f.db.machines[id].account && m.instance == f.db.machines[id].instance
  {
  }

  lemma UnknownIsNew(f: Fleet, account: Id, provider: Str, list: seq<Instance>, id: Id, x: Str)
    requires Inv(f) && account in f.db.accounts && RealIds(list) && !Known(f.db.machines, account, x)
    requires id in SyncAll(f, account, provider, list).db.machines
    requires IsLinked(SyncAll(f, account, provider, list).db.machines[id], account, x)
    ensures id !in f.db.machines
  {
    LoopReconciles(f, account, provider, list);
  }

  // ---- From the first sync on -------------------------------------------------

  /**
   A discovered machine tracks its public address from its first sync on: after every
   later event that leaves it alone, if and only if the reports never go blank again.
   */
  lemma DiscoveredTracks(
    f: Fleet, account: Id, list: seq<Instance>, i: Instance, id: Id, events: seq<Event>)
    requires Inv(f) && account in f.db.accounts && RealIds(list) && DistinctIds(list)
    requires i in list && !Known(f.db.machines, account, i.id)
    requires var g := Sync(f, account, Some(list));
             id in g.db.machines && IsLinked(g.db.machines[id], account, i.id)
    requires Undisturbed(events, id, account) && OneReportEach(events)
    ensures var g := Sync(f, account, Some(list));
            && g.db.machines[id].host == g.db.machines[id].publicIp == i.publicIp
            && (AlwaysTracks(g, events, id)
                <==> NeverBlanks([i.publicIp] + ReportsOver(events, account, i.id)))
  {
    var g := Sync(f, account, Some(list));
    SyncDiscovers(f, account, list, i);
    SyncRefines(f, account, list);
    TracksOverRunsIff(g, events, id, account, i.id);
  }
}
