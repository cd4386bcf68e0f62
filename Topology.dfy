/** The `connections` map of the server: for each transmitter id, the receiver ids it
    feeds, in insertion order, and the notices that tearing down a client's routes sends. */
module Topology {
  import opened OrderedSet
  import opened Protocol
  import opened Registry

  /** transmitter id -> receiver ids (a JavaScript `Map` of `Set`s) */
  type Routes = map<Id, seq<Id>>

  /** Each receiver list holds no id twice, as a `Set` does. */
  ghost predicate WellFormed(m: Routes) {
    forall t :: t in m ==> NoDup(m[t])
  }

  /** The route `t -> r` ("r listens to t") is stored. */
  ghost predicate HasEdge(m: Routes, t: Id, r: Id) {
    t in m && r in m[t]
  }

  /** `connections.get(t)`, or no receivers when `t` has no entry. */
  function Targets(m: Routes, t: Id): seq<Id>
  {
    if t in m then m[t] else []
  }

  /** Route `t -> r` added as connectClients does it: the entry of `t` is created when
      missing, and `r` is added to its set. */
  function WithRoute(m: Routes, t: Id, r: Id): Routes
  {
    m[t := Insert(Targets(m, t), r)]
  }

  /** Adding `t -> r` adds that one route and keeps every other; adding it again changes
      nothing. */
  lemma WithRouteSpec(m: Routes, t: Id, r: Id)
    ensures WithRoute(m, t, r).Keys == m.Keys + {t}
    ensures forall a, b :: HasEdge(WithRoute(m, t, r), a, b) <==> HasEdge(m, a, b) || (a == t && b == r)
    ensures WellFormed(m) ==> WellFormed(WithRoute(m, t, r))
    ensures WithRoute(WithRoute(m, t, r), t, r) == WithRoute(m, t, r)
  {
    InsertSpec(Targets(m, t), r);
  }

  /** The routes left once disconnectClient has purged `c`: its own entry is deleted and
      `c` is deleted from every other entry's set. */
  function WithoutClient(m: Routes, c: Id): Routes
  {
    map t | t in m && t != c :: Remove(m[t], c)
  }

  /** After the purge no route starts or ends at `c`, and every route that does not
      touch `c` is still there. */
  lemma WithoutClientSpec(m: Routes, c: Id)
    ensures WithoutClient(m, c).Keys == m.Keys - {c}
    ensures forall a, b :: HasEdge(WithoutClient(m, c), a, b) <==> HasEdge(m, a, b) && a != c && b != c
    ensures WellFormed(m) ==> WellFormed(WithoutClient(m, c))
  {
    forall t | t in m {
      RemoveSpec(m[t], c);
    }
  }

  /** Purging `c` from routes that have already lost the entry of `c` gives the same
      routes as purging it from the full map. */
  lemma WithoutClientMinus(m: Routes, c: Id)
    ensures WithoutClient(m - {c}, c) == WithoutClient(m, c)
  {
    assert WithoutClient(m - {c}, c) == WithoutClient(m, c);
  }

  /** The transmitters of `order` that feed `c`, in that order. */
  function Feeders(c: Id, order: seq<Id>, m: Routes): seq<Id>
  {
    if order == [] then []
    else
      var p := order[|order| - 1];
      Feeders(c, order[..|order| - 1], m) + (if p in m && c in m[p] then [p] else [])
  }

  /** Exactly the transmitters of `order` that feed `c`, each once. */
  lemma {:induction false} FeedersSpec(c: Id, order: seq<Id>, m: Routes)
    ensures forall p :: p in Feeders(c, order, m) <==> p in order && HasEdge(m, p, c)
    ensures NoDup(order) ==> NoDup(Feeders(c, order, m))
  {
    if order != [] {
      var init, p := order[..|order| - 1], order[|order| - 1];
      assert order == init + [p];
      FeedersSpec(c, init, m);
      NoDupLast(order);
      if NoDup(order) && p in m && c in m[p] {
        NoDupSnoc(Feeders(c, init, m), p);
      }
    }
  }

  lemma FeedersSnoc(c: Id, order: seq<Id>, p: Id, m: Routes)
    ensures p in m && c in m[p] ==> Feeders(c, order + [p], m) == Feeders(c, order, m) + [p]
    ensures !(p in m && c in m[p]) ==> Feeders(c, order + [p], m) == Feeders(c, order, m)
  {
    assert (order + [p])[..|order|] == order;
  }

  /** The routes part-way through the second teardown loop, once it has visited the
      transmitters `done` in that order: each visited set that holds `c` loses it. */
  function DetachedIn(m: Routes, c: Id, done: seq<Id>): Routes
  {
    if done == [] then m
    else
      var r, p := DetachedIn(m, c, done[..|done| - 1]), done[|done| - 1];
      if p in r && c in r[p] then r[p := Remove(r[p], c)] else r
  }

  lemma DetachedInSnoc(m: Routes, c: Id, done: seq<Id>, p: Id)
    ensures DetachedIn(m, c, done + [p])
         == var r := DetachedIn(m, c, done);
            if p in r && c in r[p] then r[p := Remove(r[p], c)] else r
  {
    assert (done + [p])[..|done|] == done;
  }

  /** The loop adds and deletes no entry; a visited set has lost `c` and an unvisited one
      is as it was. */
  lemma {:induction false} DetachedInSpec(m: Routes, c: Id, done: seq<Id>)
    ensures DetachedIn(m, c, done).Keys == m.Keys
    ensures forall t :: t in m ==>
      DetachedIn(m, c, done)[t] == if t in done then Remove(m[t], c) else m[t]
  {
    if done != [] {
      var init, p := done[..|done| - 1], done[|done| - 1];
      assert done == init + [p];
      DetachedInSpec(m, c, init);
      var r := DetachedIn(m, c, init);
      forall t | t in m
        ensures DetachedIn(m, c, done)[t] == if t in done then Remove(m[t], c) else m[t]
      {
        assert t in done <==> t in init || t == p;
        if t == p {
          RemoveSpec(m[p], c);
        }
      }
    }
  }

  /** Visiting every transmitter of the key order, after the entry of `c` is gone, leaves
      the routes without `c`. */
  lemma DetachedInAll(m: Routes, c: Id, order: seq<Id>)
    requires c !in m
    requires KeyOrder(order, m)
    ensures DetachedIn(m, c, order) == WithoutClient(m, c)
  {
    KeyOrderKeys(order, m);
    DetachedInSpec(m, c, order);
    assert DetachedIn(m, c, order) == WithoutClient(m, c);
  }

  /** The notices of the second teardown loop: one to each registered transmitter of
      `order` that feeds `c`. */
  function FeederNotices(c: Id, order: seq<Id>, m: Routes, clients: map<Id, Client>): seq<Emit>
  {
    Fanout(Live(Feeders(c, order, m), clients), PeerDisconnected(c))
  }

  lemma FeederNoticesSnoc(c: Id, order: seq<Id>, p: Id, m: Routes, clients: map<Id, Client>)
    ensures p in m && c in m[p] && p in clients ==>
      FeederNotices(c, order + [p], m, clients)
        == FeederNotices(c, order, m, clients) + [Emit(p, PeerDisconnected(c))]
    ensures !(p in m && c in m[p] && p in clients) ==>
      FeederNotices(c, order + [p], m, clients) == FeederNotices(c, order, m, clients)
  {
    FeedersSnoc(c, order, p, m);
    var fs := Feeders(c, order, m);
    if p in m && c in m[p] {
      LiveSnoc(fs, p, clients);
      if p in clients {
        FanoutSnoc(Live(fs, clients), p, PeerDisconnected(c));
      }
    }
  }

  /** The `peerDisconnected(c)` events disconnectClient(c) emits, given the routes `m`,
      their key order `order` and the registry `clients`: first one to each registered
      receiver of `c`, then, with `c`'s own entry gone, one to each registered
      transmitter that feeds `c`. */
  function PeerNotices(c: Id, m: Routes, order: seq<Id>, clients: map<Id, Client>): seq<Emit>
  {
    Fanout(Live(Targets(m, c), clients), PeerDisconnected(c))
      + FeederNotices(c, Remove(order, c), m - {c}, clients)
  }

  /** Every teardown notice reports `c`, goes to a registered connection, and goes to one
      that shared a route with `c`. */
  lemma PeerNoticesTo(c: Id, m: Routes, order: seq<Id>, clients: map<Id, Client>)
    ensures forall e :: e in PeerNotices(c, m, order, clients) ==>
      && e.msg == PeerDisconnected(c) && e.to in clients
      && (HasEdge(m, c, e.to) || HasEdge(m, e.to, c))
  {
    var feeders := Feeders(c, Remove(order, c), m - {c});
    LiveSpec(Targets(m, c), clients);
    LiveSpec(feeders, clients);
    FeedersSpec(c, Remove(order, c), m - {c});
    FanoutTo(Live(Targets(m, c), clients), PeerDisconnected(c));
    FanoutTo(Live(feeders, clients), PeerDisconnected(c));
  }

  /** A registered peer hears of `c`'s teardown once per route it shared with `c`: once
      for `c -> p`, once more for `p -> c` (unless `p` is `c` itself); an unregistered
      peer hears nothing. */
  lemma PeerNoticeCount(c: Id, m: Routes, order: seq<Id>, clients: map<Id, Client>, p: Id)
    requires WellFormed(m) && KeyOrder(order, m)
    ensures CountTo(PeerNotices(c, m, order, clients), p)
         == (if p in clients && HasEdge(m, c, p) then 1 else 0)
          + (if p in clients && p != c && HasEdge(m, p, c) then 1 else 0)
  {
    var order' := Remove(order, c);
    var outs := Live(Targets(m, c), clients);
    var ins := Live(Feeders(c, order', m - {c}), clients);
    assert NoDup(outs) && (p in outs <==> p in clients && HasEdge(m, c, p)) by {
      assert NoDup(Targets(m, c));
      LiveSpec(Targets(m, c), clients);
    }
    assert NoDup(ins) && (p in ins <==> p in clients && p != c && HasEdge(m, p, c)) by {
      KeyOrderKeys(order, m);
      RemoveSpec(order, c);
      FeedersSpec(c, order', m - {c});
      LiveSpec(Feeders(c, order', m - {c}), clients);
    }
    CountToConcat(Fanout(outs, PeerDisconnected(c)), Fanout(ins, PeerDisconnected(c)), p);
    FanoutCount(outs, PeerDisconnected(c), p);
    FanoutCount(ins, PeerDisconnected(c), p);
  }
}
