/**
 The broker as the source has it: a map updated under a mutex. The methods for
 single critical sections are tied to the steps of BrokerModel; Drop and Close are
 also proved as a whole, for a caller nobody interferes with.
 */
module BrokerPool {
  import opened Base
  import opened BrokerModel
  import opened BrokerOwnership

  function ClientsOf(conns: map<Id, Client>, ids: set<Id>): set<Client> {
    set id | id in ids && id in conns :: conns[id]
  }

  class Broker {
    var conns: map<Id, Client>
    /** How many dials have succeeded, and for which machines. */
    var clients: seq<Id>
    /** The close calls made so far; only the proof counts them. */
    ghost var signals: multiset<Client>
    ghost var closes: multiset<Client>

    ghost function Now(): Pool
      reads this
    {
      Pool(conns, clients, signals, closes)
    }

    ghost predicate Valid()
      reads this
    {
      PoolSound(Now())
    }

    constructor ()
      ensures Valid() && Now() == FRESH
    {
      conns, clients, signals, closes := map[], [], multiset{}, multiset{};
    }

    /** The first critical section of Get. */
    method LookUp(id: Id) returns (next: Pc)
      ensures Effect(Now(), next, None) == StepOf(Now(), GetStart(id), Succeeds)
      ensures next == if id in conns then Got(id, conns[id]) else Dialling(id)
    {
      if id in conns {
        return Got(id, conns[id]);
      }
      return Dialling(id);
    }

    method Dial(id: Id, choice: Choice) returns (next: Pc)
      modifies this
      ensures Effect(Now(), next, None) == StepOf(old(Now()), Dialling(id), choice)
      ensures clients == old(clients) + (if choice.Succeeds? then [id] else [])
      ensures next == if choice.Succeeds? then Holding(id, |old(clients)|) else Ended
    {
      if !choice.Succeeds? {
        return Ended;
      }
      clients := clients + [id];
      return Holding(id, |clients| - 1);
    }

    /** The second critical section of Get: the pool may have changed since the first. */
    method Settle(id: Id, client: Client) returns (next: Pc, started: Option<Pc>)
      modifies this
      ensures Effect(Now(), next, started) == StepOf(old(Now()), Holding(id, client), Succeeds)
      ensures id in old(conns) ==>
                conns == old(conns) && next == Losing(id, client, old(conns)[id]) && started.None?
      ensures id !in old(conns) ==>
                conns == old(conns)[id := client] && next == Got(id, client) && started == Some(Watching(id, client))
    {
      if id in conns {
        return Losing(id, client, conns[id]), None;
      }
      conns := conns[id := client];
      return Got(id, client), Some(Watching(id, client));
    }

    /** The critical section of Drop. */
    method Remove(id: Id, after: After) returns (next: Pc)
      modifies this
      ensures Effect(Now(), next, None) == StepOf(old(Now()), DropStart(id, after), Succeeds)
      ensures conns == old(conns) - {id}
      ensures next == if id in old(conns) then Signalling(old(conns)[id], after) else Resume(after)
    {
      if id !in conns {
        return Resume(after);
      }
      next := Signalling(conns[id], after);
      conns := conns - {id};
    }

    method CloseDone(c: Client)
      modifies this
      ensures Now() == Signalled(old(Now()), c)
    {
      signals := signals + multiset{c};
    }

    method CloseClient(c: Client)
      modifies this
      ensures Now() == HungUp(old(Now()), c)
    {
      closes := closes + multiset{c};
    }

    /** Drop: forgets the connection and closes its client and channel, once each. */
    method Drop(id: Id)
      requires Valid()
      modifies this
      ensures Valid() && clients == old(clients)
      ensures conns == old(conns) - {id}
      ensures closes == old(closes) + (if id in old(conns) then multiset{old(conns)[id]} else multiset{})
      ensures signals == old(signals) + (if id in old(conns) then multiset{old(conns)[id]} else multiset{})
    {
      if id in conns {
        var c := conns[id];
        conns := conns - {id};
        CloseDone(c);
        CloseClient(c);
      }
    }

    /** Close: snapshots the ids, then drops them one by one. */
    method Close()
      requires Valid()
      modifies this
      ensures Valid() && clients == old(clients)
      ensures conns == map[]
      ensures forall c :: closes[c] == old(closes)[c] + (if c in ClientsOf(old(conns), old(conns).Keys) then 1 else 0)
    {
      var ids := conns.Keys;
      ghost var dropped: set<Id> := {};
      while ids != {}
        invariant Valid() && clients == old(clients)
        invariant ids == conns.Keys && conns == old(conns) - dropped && dropped <= old(conns).Keys
        invariant forall c :: closes[c] == old(closes)[c] + (if c in ClientsOf(old(conns), dropped) then 1 else 0)
        decreases ids
      {
        EmptyWhenNoneIn(ids);
        var id :| id in ids;
        Drop(id);
        ids := ids - {id};
        dropped := dropped + {id};
      }
    }
  }
}
