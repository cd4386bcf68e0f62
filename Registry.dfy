/** Queries over the `clients` map of the server, walked in its insertion order `order`. */
module Registry {
  import opened OrderedSet
  import opened Protocol

  /** Whether `id` is a registered connection that came from the admin page. */
  predicate IsAdmin(clients: map<Id, Client>, id: Id) {
    id in clients && clients[id].isAdmin
  }

  /** The admins, in registration order: whom `notifyAdmins` writes to. */
  function Admins(order: seq<Id>, clients: map<Id, Client>): seq<Id>
  {
    if order == [] then []
    else
      var x := order[|order| - 1];
      Admins(order[..|order| - 1], clients) + (if IsAdmin(clients, x) then [x] else [])
  }

  /** `notifyAdmins` reaches exactly the registered admins, each once. */
  lemma {:induction false} AdminsSpec(order: seq<Id>, clients: map<Id, Client>)
    ensures forall x :: x in Admins(order, clients) <==> x in order && IsAdmin(clients, x)
    ensures NoDup(order) ==> NoDup(Admins(order, clients))
  {
    if order != [] {
      var init, x := order[..|order| - 1], order[|order| - 1];
      assert order == init + [x];
      AdminsSpec(init, clients);
      NoDupLast(order);
      if NoDup(order) && IsAdmin(clients, x) {
        NoDupSnoc(Admins(init, clients), x);
      }
    }
  }

  lemma AdminsSnoc(order: seq<Id>, x: Id, clients: map<Id, Client>)
    ensures IsAdmin(clients, x) ==> Admins(order + [x], clients) == Admins(order, clients) + [x]
    ensures !IsAdmin(clients, x) ==> Admins(order + [x], clients) == Admins(order, clients)
  {
    assert (order + [x])[..|order|] == order;
  }

  /** The `clientsList` sent to a newly registered admin `self`: the registration order
      filtered to the non-admins other than `self`. */
  function OtherClients(order: seq<Id>, clients: map<Id, Client>, self: Id): seq<Id>
  {
    if order == [] then []
    else
      var x := order[|order| - 1];
      OtherClients(order[..|order| - 1], clients, self)
        + (if x != self && x in clients && !clients[x].isAdmin then [x] else [])
  }

  /** The list holds exactly the registered non-admins other than `self`, each once. */
  lemma {:induction false} OtherClientsSpec(order: seq<Id>, clients: map<Id, Client>, self: Id)
    ensures forall x :: x in OtherClients(order, clients, self)
                    <==> x in order && x in clients && !clients[x].isAdmin && x != self
    ensures NoDup(order) ==> NoDup(OtherClients(order, clients, self))
  {
    if order != [] {
      var init, x := order[..|order| - 1], order[|order| - 1];
      assert order == init + [x];
      OtherClientsSpec(init, clients, self);
      NoDupLast(order);
      if NoDup(order) && x != self && x in clients && !clients[x].isAdmin {
        NoDupSnoc(OtherClients(init, clients, self), x);
      }
    }
  }

  /** The members of `peers` that are still registered (`clients.has(peerId)`). */
  function Live(peers: seq<Id>, clients: map<Id, Client>): seq<Id>
  {
    if peers == [] then []
    else
      var x := peers[|peers| - 1];
      Live(peers[..|peers| - 1], clients) + (if x in clients then [x] else [])
  }

  /** Exactly the registered peers, each once. */
  lemma {:induction false} LiveSpec(peers: seq<Id>, clients: map<Id, Client>)
    ensures forall x :: x in Live(peers, clients) <==> x in peers && x in clients
    ensures NoDup(peers) ==> NoDup(Live(peers, clients))
  {
    if peers != [] {
      var init, x := peers[..|peers| - 1], peers[|peers| - 1];
      assert peers == init + [x];
      LiveSpec(init, clients);
      NoDupLast(peers);
      if NoDup(peers) && x in clients {
        NoDupSnoc(Live(init, clients), x);
      }
    }
  }

  lemma LiveSnoc(peers: seq<Id>, x: Id, clients: map<Id, Client>)
    ensures x in clients ==> Live(peers + [x], clients) == Live(peers, clients) + [x]
    ensures x !in clients ==> Live(peers + [x], clients) == Live(peers, clients)
  {
    assert (peers + [x])[..|peers|] == peers;
  }

  /** Each admin of `order` receives an admin notification exactly once, and no one else
      receives it. */
  lemma AdminNoticeCount(order: seq<Id>, clients: map<Id, Client>, m: Msg, p: Id)
    requires NoDup(order)
    ensures CountTo(Fanout(Admins(order, clients), m), p)
         == if p in order && IsAdmin(clients, p) then 1 else 0
  {
    AdminsSpec(order, clients);
    FanoutCount(Admins(order, clients), m, p);
  }
}
