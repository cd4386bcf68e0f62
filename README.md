# switchboard routing coordinator in Dafny

`server.js` of switchboard is a small Socket.IO server that routes audio between browser
clients. Clients open the client page; operators open the admin page and wire clients
together. The server keeps two `Map`s:

- `clients` maps a connection id to its entry. An entry records whether the connection
  came from the admin page, and holds a "mirror" set of the ids that connection was told
  to transmit to.
- `connections` maps a transmitter id to the `Set` of its receiver ids.

The socket handlers update these maps in place and emit events to connections. This
project models that coordinator as the class `Server.Coordinator`:

- `clients` and `connections` are `map` fields. Each map has a companion sequence,
  `clientOrder` or `routeOrder`, holding its keys in insertion order, because JavaScript
  iterates a `Map` in insertion order. Each inner `Set` of `connections` is a sequence
  without duplicates, for the same reason.
- Every `socket.emit` is appended to an `outbox` field as an `Emit(to, msg)` value.
- Each handler is one method with its loops. Its contract states the new maps and the
  exact events emitted, in terms of specification functions. Lemmas about those
  functions state what the handlers promise: which routes exist afterwards, who is
  notified and how many times, and that repeating `connectClients` changes nothing.
- The class invariant `Valid()` (the predicate `Server.Consistent`) holds after every
  handler:
  - each key order lists its map's keys exactly once;
  - no registered id is empty;
  - each receiver set has no duplicates;
  - every stored route joins two registered connections and is recorded in the
    transmitter's mirror set.

Files:

- `OrderedSet.dfy`: insertion-ordered sets and `Map` key orders.
- `Protocol.dfy`: ids, event data, the events.
- `Registry.dfy`: queries over `clients`.
- `Topology.dfy`: the `connections` map and the teardown notices.
- `Server.dfy`: the invariant and the `Coordinator` class.

The handlers are modelled as written. This includes four details:

- `disconnectClients` reads `data.clientId` and removes every route of that one client.
  The admin page (public/admin.js:136-139) sends `client1`/`client2` instead, so for the
  page's own requests the guard fails and the handler changes nothing. The contract of
  `OnDisconnectClients` states exactly that.
- `clearConnections` empties `connections` before its loop over the clients, so that loop
  finds no routes and nobody is notified.
- The mirror sets in `clients` grow on `connectClients` and are never pruned.
- An accepted `connectClients` re-sends both setup events even when the route already
  exists, and nothing rejects `client1 == client2`.

## Model

| member | source | states |
|---|---|---|
| OrderedSet.RemoveSpec | server.js:182 | `Set.delete(x)` drops `x` and keeps every other element as often as before, so members are exactly the old ones other than `x`; a set without duplicates stays so; deleting an absent id changes nothing |
| OrderedSet.InsertSpec | server.js:109 | `Set.add(x)` yields exactly the old members plus `x`, still without duplicates, and adding `x` a second time changes nothing |
| OrderedSet.KeyOrderSet | server.js:106-107 | setting a key of a `Map` keeps its iteration order listing each key once: a new key is appended, an existing key stays where it was |
| OrderedSet.KeyOrderDelete | server.js:176 | deleting a key of a `Map` removes it from the iteration order, which still lists each remaining key once |
| OrderedSet.KeyOrderKeys | server.js:47-48 | a `Map`'s iteration order has no repeated key and holds exactly its keys |
| Protocol.FanoutTo | server.js:191-197 | a broadcast over a list of ids carries only the one event, and only to ids of that list |
| Protocol.FanoutCount | server.js:191-197 | a broadcast over distinct ids delivers exactly one event to each of them and none to anybody else |
| Protocol.CountToConcat | server.js:168-188 | the events a connection receives from two successive batches add up |
| Registry.AdminsSpec | server.js:191-197 | `notifyAdmins` addresses exactly the registered admins, each once |
| Registry.AdminNoticeCount | server.js:191-197 | every registered admin receives an admin notification exactly once; a non-admin or unknown id receives none |
| Registry.OtherClientsSpec | server.js:84-86 | the `clientsList` sent to a new admin holds exactly the registered non-admin ids other than that admin, each once |
| Registry.LiveSpec | server.js:172-174 | the peers that are notified are exactly those still registered (`clients.has`), each once |
| Topology.WithRouteSpec | server.js:106-109 | storing `client1 -> client2` makes that route exist and keeps every other route; no route is lost or invented, receiver sets stay duplicate-free, and storing it again changes nothing |
| Topology.WithoutClientSpec | server.js:168-188 | after `disconnectClient(c)` no route starts or ends at `c`, every route not touching `c` survives, and the entry of `c` is gone |
| Topology.FeedersSpec | server.js:180-181 | the second teardown loop visits exactly the transmitters whose receiver set holds `c`, each once |
| Topology.DetachedInSpec | server.js:180-187 | the second teardown loop adds and deletes no entry of `connections`; each visited receiver set has lost `c`, and every unvisited one is as it was |
| Topology.PeerNoticesTo | server.js:168-188 | every `peerDisconnected(c)` event goes to a registered connection that shared a route with `c` |
| Topology.PeerNoticeCount | server.js:168-188 | a registered peer receives one `peerDisconnected(c)` for the route `c -> p` and one more for the route `p -> c` (none for a self-route seen twice); an unregistered peer receives none |
| Server.WithMirrorSpec | server.js:112 | recording a route in the mirror sets adds the receiver to the transmitter's set and changes no other set, no entry and no admin flag |
| Server.ConnectIdempotent | server.js:106-112 | accepting the same `connectClients` request twice leaves `connections`, its key order and the mirror sets as accepting it once |
| Server.RegisterConsistent | server.js:69-74 | registering a fresh non-empty id keeps the invariant |
| Server.ConnectConsistent | server.js:106-112 | storing a route between two registered connections keeps the invariant |
| Server.PurgeConsistent | server.js:168-188 | purging every route of a client keeps the invariant |
| Server.RetireConsistent | server.js:150-157 | purging a client's routes and then deleting its entry keeps the invariant and leaves no route that mentions it |
| Server.Coordinator.constructor | server.js:47-48 | the server starts with no clients, no routes and nothing sent, and the invariant holds |
| Server.Coordinator.NotifyAdmins | server.js:191-197 | the event is appended once for each registered admin, in registration order, and nothing else changes |
| Server.Coordinator.OnConnection | server.js:63-88 | registration adds exactly one entry (given admin flag, empty mirror set) at the end of the key order, leaves `connections` alone, sends the connection its id, then announces a client to the admins or sends an admin the list of other non-admin clients; the invariant holds |
| Server.Coordinator.OnSignal | server.js:91-98 | the payload is forwarded unchanged, tagged with the sender, only to a present and registered target; otherwise nothing is sent; no map changes |
| Server.Coordinator.OnConnectClients | server.js:101-125 | unless the caller is a registered admin and both ids are present and registered, nothing changes and nothing is sent; otherwise the route and its mirror entry are stored and `client1` (initiator) and `client2` are told to connect, in that order; the invariant holds |
| Server.Coordinator.DisconnectClient | server.js:168-188 | the routes become those without `c`, the key order loses `c`, and the events emitted are the receivers' notices followed by the transmitters' notices (`PeerNotices`) |
| Server.Coordinator.DropEntry | server.js:169-177 | if `c` transmits, each registered receiver of `c`, in set order, is told `c` is gone, and the entry of `c` is deleted; otherwise nothing happens |
| Server.Coordinator.DetachFromFeeders | server.js:180-187 | walking the transmitters in key order, `c` is deleted from every receiver set and each registered transmitter that held it is told, in that order |
| Server.Coordinator.OnDisconnectClients | server.js:128-133 | an admin naming a present `clientId` gets exactly the effect of `disconnectClient` on it; any other request changes nothing and sends nothing; the invariant holds |
| Server.Coordinator.OnClearConnections | server.js:136-147 | from an admin, `connections` ends empty, `clients` is unchanged and nothing is sent; from anyone else nothing changes |
| Server.Coordinator.OnDisconnect | server.js:150-164 | a known connection has its routes purged as by `disconnectClient` and its entry deleted, and if it was not an admin the remaining admins are told; no route mentions it afterwards; an unknown connection changes nothing and sends nothing; the invariant holds |

## Left out

- Express, HTTPS, the certificate reads, the HTTP-to-HTTPS redirect, `getLocalIP` and
  `listen` (server.js:1-45, 199-208): process start-up and I/O.
- Socket.IO transport. `socket.emit` becomes an append of `Emit(to, msg)` to `outbox`, so
  the `socket` field of an entry is not modelled. Delivery, ordering across sockets and
  the `disconnect` event's own firing are not modelled either.
- `uuidv4`: the fresh id is a parameter of `OnConnection`. It must be unregistered and
  non-empty, as a UUID string is.
- The `referer` test for admin status (server.js:67): this becomes the boolean `isAdmin`.
  A missing header gives `undefined`, which is falsy, and that is modelled as `false`.
- The `connected: false` field of a client entry: it is written once and never read.
- Event data objects are reduced to the fields the handlers read. Id fields are optional
  strings whose JavaScript truthiness is "present and non-empty" (`Present`). Non-string
  values in those fields, and a missing data object (the handler would throw), are not
  modelled. The `signal` payload is opaque.
- DropEntry and DetachFromFeeders: the model builds the updated routes and the emitted
  events in local variables and stores them when the loop ends. No other code runs in
  between, so the result is the same. Aliasing of the inner `Set` objects is not modelled.
- public/admin.js and public/client.js (the LiteGraph admin UI, WebRTC, WebAudio, the
  DOM) are not part of this model.
- Concurrency: Node runs each handler to completion, so each handler is one atomic
  method.
