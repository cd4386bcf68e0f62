/** The routing coordinator of server.js: the `clients` and `connections` maps, updated in
    place by the socket handlers, and the events those handlers emit. */
module Server {
  import opened OrderedSet
  import opened Protocol
  import opened Registry
  import opened Topology

  /** Whether connectClients from `self` with `data` gets past its two guards: the caller is
      a registered admin, and both named ids are present and registered. */
  predicate ConnectAccepted(clients: map<Id, Client>, self: Id, data: Data) {
    && IsAdmin(clients, self)
    && Present(data.client1) && Present(data.client2)
    && data.client1.value in clients && data.client2.value in clients
  }

  /** `clients.get(t).connections.add(r)`: the mirror set of `t` gains `r`. */
  function WithMirror(clients: map<Id, Client>, t: Id, r: Id): map<Id, Client>
    requires t in clients
  {
    clients[t := clients[t].(mirror := clients[t].mirror + {r})]
  }

  /** Recording `t -> r` in the mirror sets adds `r` to the set of `t` and changes nothing
      else: no entry appears or disappears and no admin flag moves. */
  lemma WithMirrorSpec(clients: map<Id, Client>, t: Id, r: Id)
    requires t in clients
    ensures WithMirror(clients, t, r).Keys == clients.Keys
    ensures forall x :: x in clients ==> WithMirror(clients, t, r)[x].isAdmin == clients[x].isAdmin
    ensures forall x, y :: x in clients ==>
      (y in WithMirror(clients, t, r)[x].mirror <==> y in clients[x].mirror || (x == t && y == r))
  {
  }

  /** Accepting the same connectClients request twice leaves the maps as accepting it once. */
  lemma ConnectIdempotent(clients: map<Id, Client>, m: Routes, order: seq<Id>, t: Id, r: Id)
    requires t in clients
    ensures WithRoute(WithRoute(m, t, r), t, r) == WithRoute(m, t, r)
    ensures Insert(Insert(order, t), t) == Insert(order, t)
    ensures WithMirror(WithMirror(clients, t, r), t, r) == WithMirror(clients, t, r)
  {
    WithRouteSpec(m, t, r);
    InsertSpec(order, t);
  }

  /** The invariant of the two maps: each key order lists exactly the keys of its map,
      once each; ids are never empty; and every stored route joins two registered
      connections and is recorded in the mirror set of its transmitter. */
  ghost predicate Consistent(clients: map<Id, Client>, clientOrder: seq<Id>,
                             connections: Routes, routeOrder: seq<Id>)
  {
    && KeyOrder(clientOrder, clients) && "" !in clients
    && KeyOrder(routeOrder, connections) && WellFormed(connections)
    && (forall t, r :: HasEdge(connections, t, r) ==>
          t in clients && r in clients && r in clients[t].mirror)
  }

  /** Registering a fresh, non-empty id keeps the maps consistent. */
  lemma RegisterConsistent(clients: map<Id, Client>, clientOrder: seq<Id>,
                           connections: Routes, routeOrder: seq<Id>, id: Id, isAdmin: bool,
                           clients': map<Id, Client>, clientOrder': seq<Id>)
    requires Consistent(clients, clientOrder, connections, routeOrder)
    requires id !in clients && id != ""
    requires clients' == clients[id := Client(isAdmin, {})] && clientOrder' == clientOrder + [id]
    ensures Consistent(clients', clientOrder', connections, routeOrder)
  {
    KeyOrderSet(clientOrder, clients, id, Client(isAdmin, {}));
  }

  /** Storing a route between two registered connections keeps the maps consistent. */
  lemma ConnectConsistent(clients: map<Id, Client>, clientOrder: seq<Id>,
                          connections: Routes, routeOrder: seq<Id>, t: Id, r: Id,
                          clients': map<Id, Client>, connections': Routes, routeOrder': seq<Id>)
    requires Consistent(clients, clientOrder, connections, routeOrder)
    requires t in clients && r in clients
    requires clients' == WithMirror(clients, t, r) && connections' == WithRoute(connections, t, r)
    requires routeOrder' == Insert(routeOrder, t)
    ensures Consistent(clients', clientOrder, connections', routeOrder')
  {
    WithMirrorSpec(clients, t, r);
    WithRouteSpec(connections, t, r);
    KeyOrderSet(routeOrder, connections, t, Insert(Targets(connections, t), r));
    forall a, b | HasEdge(connections', a, b) ensures a in clients' && b in clients' && b in clients'[a].mirror {
      assert HasEdge(connections, a, b) || (a == t && b == r);
    }
  }

  /** Purging every route of `c` keeps the maps consistent. */
  lemma PurgeConsistent(clients: map<Id, Client>, clientOrder: seq<Id>,
                        connections: Routes, routeOrder: seq<Id>, c: Id,
                        connections': Routes, routeOrder': seq<Id>)
    requires Consistent(clients, clientOrder, connections, routeOrder)
    requires connections' == WithoutClient(connections, c) && routeOrder' == Remove(routeOrder, c)
    ensures Consistent(clients, clientOrder, connections', routeOrder')
  {
    WithoutClientSpec(connections, c);
    KeyOrderDelete(routeOrder, connections, c);
    forall a, b | HasEdge(connections', a, b) ensures a in clients && b in clients && b in clients[a].mirror {
      assert HasEdge(connections, a, b);
    }
  }

  /** Purging every route of `c` and then deleting its entry keeps the maps consistent, and
      leaves no route that starts or ends at `c`. */
  lemma RetireConsistent(clients: map<Id, Client>, clientOrder: seq<Id>,
                         connections: Routes, routeOrder: seq<Id>, c: Id,
                         clients': map<Id, Client>, clientOrder': seq<Id>,
                         connections': Routes, routeOrder': seq<Id>)
    requires Consistent(clients, clientOrder, connections, routeOrder)
    requires clients' == clients - {c} && clientOrder' == Remove(clientOrder, c)
    requires connections' == WithoutClient(connections, c) && routeOrder' == Remove(routeOrder, c)
    ensures Consistent(clients', clientOrder', connections', routeOrder')
    ensures forall a, b :: HasEdge(connections', a, b) ==> a != c && b != c
  {
    PurgeConsistent(clients, clientOrder, connections, routeOrder, c, connections', routeOrder');
    WithoutClientSpec(connections, c);
    KeyOrderDelete(clientOrder, clients, c);
    forall a, b | HasEdge(connections', a, b) ensures a in clients' && b in clients' && b in clients'[a].mirror {
    }
  }

  class Coordinator {
    /** connection id -> entry; `clientOrder` is the key order of the JavaScript `Map` */
    var clients: map<Id, Client>
    var clientOrder: seq<Id>
    /** transmitter id -> receivers; `routeOrder` is the key order of the JavaScript `Map` */
    var connections: Routes
    var routeOrder: seq<Id>
    /** every event emitted so far, in order */
    var outbox: seq<Emit>

    ghost predicate Valid()
      reads this
    {
      Consistent(clients, clientOrder, connections, routeOrder)
    }

    /** The server at start-up: nobody connected, no routes, nothing sent. */
    constructor ()
      ensures Valid()
      ensures clients == map[] && clientOrder == []
      ensures connections == map[] && routeOrder == []
      ensures outbox == []
    {
      clients, clientOrder := map[], [];
      connections, routeOrder := map[], [];
      outbox := [];
    }

    /** notifyAdmins: `m` goes to every registered admin, in registration order. */
    method NotifyAdmins(m: Msg)
      modifies this`outbox
      ensures outbox == old(outbox) + Fanout(Admins(clientOrder, clients), m)
    {
      var order := clientOrder;
      var sent := [];
      for i := 0 to |order|
        invariant sent == Fanout(Admins(order[..i], clients), m)
        modifies {}
      {
        var id := order[i];
        TakeSnoc(order, i);
        AdminsSnoc(order[..i], id, clients);
        if id in clients && clients[id].isAdmin {
          FanoutSnoc(Admins(order[..i], clients), id, m);
          sent := sent + [Emit(id, m)];
        }
      }
      TakeAll(order);
      outbox := outbox + sent;
    }

    /** A socket connects and is given the fresh id `id`; `isAdmin` says whether it came
        from the admin page. The new entry is recorded and told its id; a client is then
        announced to the admins, while an admin is sent the list of clients. */
    method OnConnection(id: Id, isAdmin: bool)
      requires Valid()
      requires id !in clients && id != ""
      modifies this`clients, this`clientOrder, this`outbox
      ensures Valid()
      ensures clients == old(clients)[id := Client(isAdmin, {})]
      ensures clientOrder == old(clientOrder) + [id]
      ensures outbox == old(outbox) + [Emit(id, ClientId(id))]
        + if isAdmin then [Emit(id, ClientsList(OtherClients(clientOrder, clients, id)))]
          else Fanout(Admins(clientOrder, clients), NewClient(id))
    {
      ghost var clients0, clientOrder0 := clients, clientOrder;
      clients := clients[id := Client(isAdmin, {})];
      clientOrder := clientOrder + [id];
      RegisterConsistent(clients0, clientOrder0, connections, routeOrder, id, isAdmin,
                         clients, clientOrder);
      outbox := outbox + [Emit(id, ClientId(id))];
      if !isAdmin {
        NotifyAdmins(NewClient(id));
      } else {
        outbox := outbox + [Emit(id, ClientsList(OtherClients(clientOrder, clients, id)))];
      }
    }

    /** The `signal` handler of connection `self`: the payload is passed on unchanged,
        tagged with the sender, to a registered target; anything else is dropped. */
    method OnSignal(self: Id, data: Data)
      requires Valid()
      modifies this`outbox
      ensures outbox == old(outbox)
        + if Present(data.target) && data.target.value in clients
          then [Emit(data.target.value, Signal(self, data.signal))] else []
      ensures |outbox| != |old(outbox)| <==> data.target.Some? && data.target.value in clients
    {
      if Present(data.target) && data.target.value in clients {
        outbox := outbox + [Emit(data.target.value, Signal(self, data.signal))];
      }
    }

    /** The `connectClients` handler of connection `self`: route `client1 -> client2` is
        stored (in `connections` and in the mirror set of `client1`) and both ends are told
        to set up a peer connection, `client1` as the initiator. A repeat re-sends the
        setup events; nothing rejects `client1 == client2`. */
    method OnConnectClients(self: Id, data: Data)
      requires Valid()
      modifies this`clients, this`connections, this`routeOrder, this`outbox
      ensures Valid()
      ensures !ConnectAccepted(old(clients), self, data) ==>
        && clients == old(clients) && connections == old(connections)
        && routeOrder == old(routeOrder) && outbox == old(outbox)
      ensures ConnectAccepted(old(clients), self, data) ==>
        var t, r := data.client1.value, data.client2.value;
        && connections == WithRoute(old(connections), t, r)
        && routeOrder == Insert(old(routeOrder), t)
        && clients == WithMirror(old(clients), t, r)
        && outbox == old(outbox)
             + [Emit(t, InitiateConnection(r, true)), Emit(r, InitiateConnection(t, false))]
    {
      if IsAdmin(clients, self) && Present(data.client1) && Present(data.client2) {
        var t, r := data.client1.value, data.client2.value;
        if t in clients && r in clients {
          ghost var clients0, connections0, routeOrder0 := clients, connections, routeOrder;
          KeyOrderHas(routeOrder, connections, t);
          ghost var routes := WithRoute(connections, t, r);
          if t !in connections {
            connections := connections[t := []];
            routeOrder := routeOrder + [t];
          }
          connections := connections[t := Insert(connections[t], r)];
          assert connections == routes;
          clients := WithMirror(clients, t, r);
          ConnectConsistent(clients0, clientOrder, connections0, routeOrder0, t, r,
                            clients, connections, routeOrder);
          outbox := outbox + [Emit(t, InitiateConnection(r, true)), Emit(r, InitiateConnection(t, false))];
        }
      }
    }

    /** disconnectClient: every route from or to `c` is deleted; each registered receiver
        of `c`, then each registered transmitter feeding `c`, is told `c` is gone. */
    method DisconnectClient(c: Id)
      requires KeyOrder(routeOrder, connections)
      modifies this`connections, this`routeOrder, this`outbox
      ensures connections == WithoutClient(old(connections), c)
      ensures routeOrder == Remove(old(routeOrder), c)
      ensures outbox == old(outbox) + PeerNotices(c, old(connections), old(routeOrder), clients)
    {
      ghost var before, sent := connections, outbox;
      ghost var toReceivers := Fanout(Live(Targets(connections, c), clients), PeerDisconnected(c));
      KeyOrderDelete(routeOrder, connections, c);
      DropEntry(c);
      routeOrder := Remove(routeOrder, c);
      DetachFromFeeders(c, routeOrder);
      WithoutClientMinus(before, c);
      ghost var toFeeders := FeederNotices(c, routeOrder, before - {c}, clients);
      ConcatAssoc(sent, toReceivers, toFeeders);
    }

    /** First part of disconnectClient: if `c` transmits, each registered receiver of `c` is
        told that `c` is gone, and the entry of `c` is deleted. */
    method DropEntry(c: Id)
      modifies this`connections, this`outbox
      ensures connections == old(connections) - {c}
      ensures outbox == old(outbox) + Fanout(Live(Targets(old(connections), c), clients), PeerDisconnected(c))
    {
      if c in connections {
        var peers := connections[c];
        var sent := [];
        for i := 0 to |peers|
          invariant sent == Fanout(Live(peers[..i], clients), PeerDisconnected(c))
          modifies {}
        {
          var p := peers[i];
          TakeSnoc(peers, i);
          LiveSnoc(peers[..i], p, clients);
          if p in clients {
            FanoutSnoc(Live(peers[..i], clients), p, PeerDisconnected(c));
            sent := sent + [Emit(p, PeerDisconnected(c))];
          }
        }
        TakeAll(peers);
        outbox := outbox + sent;
        connections := connections - {c};
      } else {
        assert Live([], clients) == [];
        assert connections == connections - {c};
      }
    }

    /** Second loop of disconnectClient, once the entry of `c` is gone: walking the
        transmitters in key order `order`, `c` is deleted from each set holding it and
        that transmitter, if registered, is told `c` is gone. */
    method DetachFromFeeders(c: Id, order: seq<Id>)
      requires c !in connections && KeyOrder(order, connections)
      modifies this`connections, this`outbox
      ensures connections == WithoutClient(old(connections), c)
      ensures outbox == old(outbox) + FeederNotices(c, order, old(connections), clients)
    {
      ghost var mid := connections;
      var routes, sent := connections, [];
      for i := 0 to |order|
        invariant routes == DetachedIn(mid, c, order[..i])
        invariant sent == FeederNotices(c, order[..i], mid, clients)
        modifies {}
      {
        var p := order[i];
        KeyOrderNext(order, mid, i);
        TakeSnoc(order, i);
        DetachedInSpec(mid, c, order[..i]);
        DetachedInSnoc(mid, c, order[..i], p);
        FeederNoticesSnoc(c, order[..i], p, mid, clients);
        if c in routes[p] {
          routes := routes[p := Remove(routes[p], c)];
          if p in clients {
            sent := sent + [Emit(p, PeerDisconnected(c))];
          }
        }
      }
      TakeAll(order);
      connections, outbox := routes, outbox + sent;
      DetachedInAll(mid, c, order);
    }

    /** The `disconnectClients` handler of connection `self`: an admin naming a client in
        `data.clientId` has every route of that client torn down. The admin page sends
        `client1`/`client2` instead, so a request shaped like it changes nothing. */
    method OnDisconnectClients(self: Id, data: Data)
      requires Valid()
      modifies this`connections, this`routeOrder, this`outbox
      ensures Valid()
      ensures IsAdmin(clients, self) && Present(data.clientId) ==>
        var c := data.clientId.value;
        && connections == WithoutClient(old(connections), c)
        && routeOrder == Remove(old(routeOrder), c)
        && outbox == old(outbox) + PeerNotices(c, old(connections), old(routeOrder), clients)
      ensures !(IsAdmin(clients, self) && Present(data.clientId)) ==>
        connections == old(connections) && routeOrder == old(routeOrder) && outbox == old(outbox)
    {
      if IsAdmin(clients, self) && Present(data.clientId) {
        ghost var connections0, routeOrder0 := connections, routeOrder;
        DisconnectClient(data.clientId.value);
        PurgeConsistent(clients, clientOrder, connections0, routeOrder0, data.clientId.value,
                        connections, routeOrder);
      }
    }

    /** The `clearConnections` handler of connection `self`: an admin empties the route map;
        the teardown loop that follows over the non-admin clients then finds no routes, so
        nobody is notified. */
    method OnClearConnections(self: Id)
      requires Valid()
      modifies this`connections, this`routeOrder, this`outbox
      ensures Valid()
      ensures IsAdmin(clients, self) ==> connections == map[] && routeOrder == []
      ensures !IsAdmin(clients, self) ==>
        connections == old(connections) && routeOrder == old(routeOrder)
      ensures outbox == old(outbox)
    {
      if IsAdmin(clients, self) {
        connections, routeOrder := map[], [];
        for i := 0 to |clientOrder|
          invariant Valid()
          invariant connections == map[] && routeOrder == []
          invariant outbox == old(outbox)
        {
          var id := clientOrder[i];
          if !clients[id].isAdmin {
            DisconnectClient(id);
            assert connections == map[];
          }
        }
      }
    }

    /** The `disconnect` handler of connection `self`: its routes are torn down as by
        disconnectClient, its entry is deleted and, if it was not an admin, the admins that
        remain are told it left. An unknown connection changes nothing. */
    method OnDisconnect(self: Id)
      requires Valid()
      modifies this
      ensures Valid()
      ensures self !in old(clients) ==>
        && clients == old(clients) && clientOrder == old(clientOrder)
        && connections == old(connections) && routeOrder == old(routeOrder)
        && outbox == old(outbox)
      ensures self in old(clients) ==>
        && clients == old(clients) - {self}
        && clientOrder == Remove(old(clientOrder), self)
        && connections == WithoutClient(old(connections), self)
        && routeOrder == Remove(old(routeOrder), self)
        && outbox == old(outbox) + PeerNotices(self, old(connections), old(routeOrder), old(clients))
             + if old(clients)[self].isAdmin then []
               else Fanout(Admins(clientOrder, clients), ClientDisconnected(self))
      ensures forall t, r :: HasEdge(connections, t, r) ==> t != self && r != self
    {
      if self in clients {
        var client := clients[self];
        ghost var clients0, clientOrder0 := clients, clientOrder;
        ghost var connections0, routeOrder0 := connections, routeOrder;
        DisconnectClient(self);
        clients := clients - {self};
        clientOrder := Remove(clientOrder, self);
        RetireConsistent(clients0, clientOrder0, connections0, routeOrder0, self,
                         clients, clientOrder, connections, routeOrder);
        if !client.isAdmin {
          NotifyAdmins(ClientDisconnected(self));
        }
      }
    }
  }
}
