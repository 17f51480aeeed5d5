// The in-memory event bus: one bounded queue per subscriber, oldest dropped first.
module EventBus {
  /** asyncio.Queue(maxsize): a size of zero or less means unbounded. */
  predicate Full<M>(size: int, items: seq<M>) {
    size > 0 && |items| >= size
  }

  /** What publishing does to one subscriber's queue. */
  function Offer<M>(size: int, items: seq<M>, m: M): seq<M> {
    (if Full(size, items) then items[1..] else items) + [m]
  }

  ghost predicate IsSuffix<M>(items: seq<M>, all: seq<M>) {
    |items| <= |all| && items == all[|all| - |items|..]
  }

  /** A queue always holds the latest messages since registration, with no gap, within its bound. */
  ghost predicate Backlog<M>(size: int, items: seq<M>, received: seq<M>) {
    IsSuffix(items, received) && (size > 0 ==> |items| <= size)
  }

  lemma OfferKeepsBacklog<M>(size: int, items: seq<M>, received: seq<M>, m: M)
    requires Backlog(size, items, received)
    ensures Backlog(size, Offer(size, items, m), received + [m])
  {
    var n := |received| - |items|;
    assert received == received[..n] + items;
    if Full(size, items) {
      assert received[n..][1..] == received[n + 1..];
      assert (received + [m])[n + 1..] == received[n + 1..] + [m];
    } else {
      assert (received + [m])[n..] == received[n..] + [m];
    }
  }

  class Subscription<M> {
    var items: seq<M>
    ghost var received: seq<M> // everything published since registration

    constructor ()
      ensures items == [] && received == []
    {
      items := [];
      received := [];
    }

    /** Taking the oldest message leaves a gap-free tail. */
    method Get() returns (m: M)
      requires items != []
      modifies this
      ensures forall size :: Backlog(size, old(items), old(received)) ==> Backlog(size, items, received)
      ensures m == old(items)[0] && items == old(items)[1..] && received == old(received)
    {
      m := items[0];
      items := items[1..];
      assert old(items)[1..] == items;
      forall size | Backlog(size, old(items), old(received)) ensures Backlog(size, items, received) {
        assert received[|received| - |old(items)|..][1..] == received[|received| - |items|..];
      }
    }
  }

  class InMemoryEventBus<M> {
    var subscribers: map<string, seq<Subscription<M>>>
    const size: int

    ghost function Queues(): set<Subscription<M>> reads this {
      set topic, i | topic in subscribers && 0 <= i < |subscribers[topic]| :: subscribers[topic][i]
    }

    /** Each queue is registered once, and holds a gap-free tail of its topic. */
    ghost predicate Valid() reads this, Queues() {
      && (forall t, u, i, j | t in subscribers && u in subscribers && 0 <= i < |subscribers[t]| &&
          0 <= j < |subscribers[u]| ::
            subscribers[t][i] == subscribers[u][j] ==> t == u && i == j)
      && (forall q :: q in Queues() ==> Backlog(size, q.items, q.received))
    }

    constructor (size: int)
      ensures Valid() && subscribers == map[] && this.size == size
    {
      this.size := size;
      subscribers := map[];
    }

    method Subscribe(topic: string) returns (q: Subscription<M>)
      requires Valid()
      modifies this
      ensures Valid() && fresh(q) && q.items == [] && q.received == []
      ensures var before := if topic in old(subscribers) then old(subscribers)[topic] else [];
              subscribers == old(subscribers)[topic := before + [q]]
    {
      q := new Subscription();
      subscribers := subscribers[topic := (if topic in subscribers then subscribers[topic] else []) + [q]];
      forall x | x in Queues() ensures x == q || x in old(Queues()) {
        var t, i :| t in subscribers && 0 <= i < |subscribers[t]| && subscribers[t][i] == x;
        assert x != q ==> t in old(subscribers) && i < |old(subscribers)[t]| && old(subscribers)[t][i] == x;
      }
    }

    method Publish(topic: string, m: M)
      requires Valid()
      modifies if topic in subscribers then set q | q in subscribers[topic] else {}
      ensures Valid() && subscribers == old(subscribers)
      ensures topic in subscribers ==> forall q :: q in subscribers[topic] ==>
                && q.items == (if size > 0 && |old(q.items)| >= size then old(q.items)[1..] else old(q.items)) + [m]
                && q.received == old(q.received) + [m]
    {
      if topic !in subscribers {
        return;
      }
      var listeners := subscribers[topic];
      for n := 0 to |listeners|
        invariant subscribers == old(subscribers)
        invariant forall i :: 0 <= i < n ==>
                    listeners[i].items == Offer(size, old(listeners[i].items), m) &&
                        listeners[i].received == old(listeners[i].received) + [m]
        invariant forall i :: n <= i < |listeners| ==>
                    listeners[i].items == old(listeners[i].items) && listeners[i].received == old(listeners[i].received)
      {
        var q := listeners[n];
        if Full(size, q.items) {
          q.items := q.items[1..];
        }
        q.items := q.items + [m];
        q.received := q.received + [m];
      }
      forall q | q in Queues() ensures Backlog(size, q.items, q.received) {
        assert q in old(Queues());
        if q in listeners {
          OfferKeepsBacklog(size, old(q.items), old(q.received), m);
        }
      }
    }
  }
}
