/** The values the coordinator works with: connection ids, the data objects that socket
    events carry, the registry entry of a connection, and the events the server emits. */
module Protocol {
  import opened OrderedSet

  /** A connection id: the v4 UUID string given to a socket when it connects. */
  type Id = string

  /** The handshake data one client relays to another; the server never looks inside. */
  type Payload = string

  datatype Option<T> = None | Some(value: T)

  /** JavaScript truthiness of an id-valued field of an event's data object:
      the field is there and is not the empty string. */
  predicate Present(field: Option<Id>) {
    field.Some? && field.value != ""
  }

  /** The data object of an inbound socket event, reduced to the fields the handlers read:
      `target` and `signal` (signal), `client1` and `client2` (connectClients),
      `clientId` (disconnectClients). */
  datatype Data = Data(
    target: Option<Id>,
    signal: Payload,
    client1: Option<Id>,
    client2: Option<Id>,
    clientId: Option<Id>)

  /** An entry of the `clients` map: whether the socket came from the admin page, and the
      ids this client was told to transmit to (its `connections` set). */
  datatype Client = Client(isAdmin: bool, mirror: set<Id>)

  /** The events the server emits, one constructor per event name. */
  datatype Msg =
    | ClientId(id: Id)
    | NewClient(id: Id)
    | ClientsList(ids: seq<Id>)
    | Signal(from: Id, signal: Payload)
    | InitiateConnection(peerId: Id, initiator: bool)
    | PeerDisconnected(id: Id)
    | ClientDisconnected(id: Id)

  /** `socket.emit(msg)` on the socket of connection `to`. */
  datatype Emit = Emit(to: Id, msg: Msg)

  /** The same event sent to each of `ids`, in order. */
  function Fanout(ids: seq<Id>, m: Msg): seq<Emit>
  {
    if ids == [] then []
    else Fanout(ids[..|ids| - 1], m) + [Emit(ids[|ids| - 1], m)]
  }

  /** A fan-out carries only `m`, and only to members of `ids`. */
  lemma {:induction false} FanoutTo(ids: seq<Id>, m: Msg)
    ensures forall e :: e in Fanout(ids, m) ==> e.msg == m && e.to in ids
  {
    if ids != [] {
      FanoutTo(ids[..|ids| - 1], m);
    }
  }

  /** Sending to one more id appends one event. */
  lemma FanoutSnoc(ids: seq<Id>, x: Id, m: Msg)
    ensures Fanout(ids + [x], m) == Fanout(ids, m) + [Emit(x, m)]
  {
    assert (ids + [x])[..|ids|] == ids;
  }

  lemma ConcatAssoc(a: seq<Emit>, b: seq<Emit>, d: seq<Emit>)
    ensures a + b + d == a + (b + d)
  {
  }

  /** How many of the emitted events went to connection `p`. */
  function CountTo(out: seq<Emit>, p: Id): nat
  {
    if out == [] then 0
    else CountTo(out[..|out| - 1], p) + (if out[|out| - 1].to == p then 1 else 0)
  }

  lemma {:induction false} CountToConcat(a: seq<Emit>, b: seq<Emit>, p: Id)
    ensures CountTo(a + b, p) == CountTo(a, p) + CountTo(b, p)
    decreases |b|
  {
    if b != [] {
      var b' := b[..|b| - 1];
      assert (a + b)[..|a + b| - 1] == a + b';
      CountToConcat(a, b', p);
    } else {
      assert a + b == a;
    }
  }

  /** A fan-out over distinct ids reaches each of them exactly once and nobody else. */
  lemma {:induction false} FanoutCount(ids: seq<Id>, m: Msg, p: Id)
    requires NoDup(ids)
    ensures CountTo(Fanout(ids, m), p) == if p in ids then 1 else 0
  {
    if ids != [] {
      var init := ids[..|ids| - 1];
      NoDupLast(ids);
      FanoutCount(init, m, p);
      CountToConcat(Fanout(init, m), [Emit(ids[|ids| - 1], m)], p);
      assert CountTo([Emit(ids[|ids| - 1], m)], p) == if ids[|ids| - 1] == p then 1 else 0 by {
        assert [Emit(ids[|ids| - 1], m)][..0] == [];
      }
      assert p in ids <==> p in init || p == ids[|ids| - 1] by {
        assert ids == init + [ids[|ids| - 1]];
      }
    }
  }
}
