# Event messaging over WebSocket connections: a Dafny model

This project models the connection lifecycle and event-dispatch core of a small Go
WebSocket event layer (`main.go`). Each connected peer is a `Cliente` with a
handler table, a send queue of capacity 256, a read loop and a write loop. A
process-wide `WebSocketServer` keeps the live set of clients and the connect observers,
and handles register and unregister requests one at a time in its loop `Ejecutar`.

The model serialises the goroutines and channels into discrete calls:

- a send on the register or unregister channel is the registry method that the loop runs
  for it (`Server.Register`, `Server.Unregister`, one turn `Server.Handle`, the loop
  `Server.Run` over a sequence of requests);
- a send that would block on a full queue, or panic on a closed one, is excluded by a
  precondition of `Client.Emit`; closing a closed queue (a panic in Go) is excluded by
  the precondition of `Client.CloseQueue`, and the registry's invariant `Server.Valid`
  (every live client's queue is open) is what discharges it;
- the write loop `Client.WriteLoop` writes everything queued, oldest first, and reports
  whether the range over the channel ended, which is exactly when the queue is closed and
  empty;
- the read loop `Client.ReadLoop` consumes a finite sequence of read results. Each result
  is a read error, or a message that is or is not a JSON document. It skips messages that
  do not decode, dispatches the others in arrival order, and stops at the first read
  error. `Client.ReadMessages` adds the deferred cleanup: exactly one unregister and the
  closing of the socket.

Handlers and observers are opaque identities. A dispatch produces the trace of handler
calls it makes. A connect observer is described by the `On` calls it makes on the new
client, which is how the application in `main.go` uses it. The pure modules state the
specification these methods are proved against:

- `Messages`: payload values, the envelope, and the JSON document codec;
- `Router`: handler tables, dispatch traces, and the effect of observers;
- `Inbound`: what the read loop dispatches from a stream of read results;
- `Membership`: the registry loop as a fold over requests;
- `Query`: the query-parameter capture.

Two decoding behaviours follow the code exactly:

- The code does not require a non-empty event name. `json.Unmarshal` accepts
  `{}` and `null` and yields an empty name, and the dispatch then looks that name up like
  any other (`Messages.Decode`).
- A `params` field that is absent or `null` gives an empty parameter map (in Go, a nil
  map, which reads as empty). A `nombre` or `params` of the wrong JSON type is a decode
  error, and so is a document that is not an object. The message is then skipped.

## Model

| member | source | states |
|---|---|---|
| Messages.Encode | main.go:102-111 | marshalling fails exactly when some parameter cannot be serialised; a successful encoding decodes back to the same event and parameters |
| Messages.Decode | main.go:126-132 | a null document gives the empty envelope; an object decodes exactly when `nombre` is a string or null and `params` an object or null, taking the name and parameters from those keys, with `""` for a missing or null name and the empty map for missing or null parameters; anything else fails |
| Messages.EncodeInjective | main.go:102-112 | two successful encodings are equal only for equal envelopes, so ordering of queued documents is ordering of emitted envelopes |
| Router.Calls | main.go:137-139 | one call per handler, in list order, each with the same parameters |
| Router.DispatchTrace | main.go:136-140 | dispatching an envelope calls exactly the handlers registered for its event, in order, with its parameters; an event without an entry produces no call |
| Router.AddHandler | main.go:96-100 | `On(e, h)` appends `h` to the list of `e` and leaves every other event's list unchanged |
| Router.DispatchAfterOn | main.go:96-100 | after `On(e, h)` a dispatch of `e` makes its previous calls and then calls `h` once; other events dispatch as before |
| Router.OnAccumulates | main.go:99 | registering twice for one event accumulates: both handlers fire, in registration order |
| Router.ApplySubscriptionsLookup | main.go:99 | after a sequence of `On` calls each event's list is its old list followed by exactly the handlers registered for it, in call order |
| Router.SubscribeAllLookup | main.go:51-53 | after every connect observer ran, each event's list is its old list followed by the observers' handlers for it, observer by observer |
| Inbound.DeliveredAppend | main.go:120-141 | while no read fails, the loop continues: what it dispatches from a longer stream is what it dispatched so far followed by what the rest yields |
| Inbound.MalformedSkipped | main.go:128-132 | a message that fails to decode is skipped, and only that message: the loop dispatches the same envelopes as if it had never arrived |
| Inbound.StopsAtFirstError | main.go:121-125 | nothing that arrives after the first read error is dispatched |
| Membership.CallsFor | main.go:51-53 | a registration calls each observer once, in observer order, with the new client |
| Membership.LiveByLastRequest | main.go:46-61 | a client is live after the loop exactly when the last request naming it is a register, or none names it and it was live before: no lost update, no duplicate |
| Membership.UnregisterIdempotent | main.go:54-58 | a second unregister of a client changes neither the live set nor the queues closed |
| Membership.CloseHasRequest | main.go:54-58 | every queue closed was closed by an unregister of its client |
| Membership.RegisteredWhileOpen | main.go:89-90 | when clients are never registered again after an unregister, a registering client's queue has not been closed |
| Membership.ClosedStaysOut | main.go:54-58 | once its queue is closed, a client that is never registered again stays out of the live set |
| Membership.ClosesAtMostOnce | main.go:55-57 | when no client is registered again after an unregister, no send queue is closed twice |
| Membership.ObserversSeeClientLive | main.go:49-53 | every observer call happens while its client is in the live set |
| Query.Capture | main.go:83-87 | the captured parameters have exactly the query's keys, each with the first value given for it, or the empty string when there is none |
| Socket.Client.constructor | main.go:89 | a new client has no handlers, an empty open send queue and an open socket |
| Socket.Client.On | main.go:96-100 | the handler table becomes `AddHandler` of the old one |
| Socket.Client.Emit | main.go:102-113 | an encodable envelope is queued at the tail of the send queue; an unencodable one is dropped; the queue stays within 256 |
| Socket.Client.WriteLoop | main.go:144-148 | the queued messages are written in queue order, the queue is left empty, everything ever queued keeps its order, and the loop has ended exactly when the queue is closed |
| Socket.Client.CloseQueue | main.go:57 | closes the send queue, which must be open |
| Socket.Client.Observe | main.go:51-53 | one observer's `On` calls, applied to the client in order |
| Socket.Client.Dispatch | main.go:136-140 | the calls made equal `DispatchTrace` of the current table; none for an unknown event |
| Socket.Client.ReadLoop | main.go:120-141 | the calls made are those of dispatching, in order, every decodable message before the first read error; the loop ends on a read error exactly when one occurs, and reads nothing after it |
| Socket.Client.ReadMessages | main.go:115-142 | as the read loop; after a read error the client is unregistered once and its socket closed; otherwise nothing is cleaned up |
| Socket.Server.constructor | main.go:37-44 | a new registry has no clients and no observers |
| Socket.Server.OnConnect | main.go:63-67 | the observer is appended after the existing ones, which keep their order |
| Socket.Server.Register | main.go:49-53 | the client joins the live set; every observer then runs once, in order, with the client already live, and its `On` calls are applied |
| Socket.Server.Unregister | main.go:54-58 | a live client is removed and its queue, open until then, closed; an absent client changes nothing; the live-queues-open invariant is kept |
| Socket.Server.Handle | main.go:48-59 | one turn of the loop: the live set takes one fold step, and only the named client's queue or handlers change |
| Socket.Server.HandleNext | main.go:47-60 | one turn of the loop extends the folds of the live set, the closed queues, the handler tables and the observer calls by one request |
| Socket.Server.Run | main.go:46-61 | after handling the requests in order, the live set is their fold, a queue is closed exactly when its client was unregistered while live, each client's table has one round of observer registrations per register, and the observer calls are the fold's |
| Socket.Server.HandleConnection | main.go:83-93 | a connection's client is fresh with the captured query; it is registered, then its read loop dispatches with the observers' handlers; after a read error it has left the live set with queue and socket closed |

## Left out

- The HTTP upgrade, origin check, listener and route (`SocketFeli`, `ListenAndServe`):
  I/O and the gorilla/websocket library, which implements RFC 6455.
- Byte-level JSON: decoding bytes into a document is an input to the read loop, and the
  byte layout of an encoded document is abstract. Also not modelled: case-insensitive
  key matching in `encoding/json`, float64 number encoding, and `Marshal` errors other
  than values it cannot represent.
- Goroutines, channel blocking and `sync.Mutex`: channel operations are serialised calls.
  Blocking on a full queue and the panic on a send to a closed queue are preconditions
  of `Client.Emit`. The write loop runs when called, not concurrently with the read loop.
  So the model does not show that dispatch reads the handler table without the lock while
  an observer may call `On`.
- Socket write errors: they are ignored by the code, and the write loop counts every
  message as written.
- What handlers and observers do beyond the `On` calls of observers: logging, `Emit`,
  and the webhook POST of the application in `main`. The handler table is therefore
  fixed while the read loop runs.
- Logging.
- Messages.Encode: a nil parameter map passed to `Emit` is marshalled by Go as
  `"params":null`, while the model always encodes the parameters as an object. The model
  has no nil map distinct from the empty one; both decode to the empty map.
- Router.Calls: every handler of one dispatch receives the same parameter map by
  reference, so a handler that mutates it changes what the later handlers see. An
  `Invocation` carries one immutable value, so this aliasing is not modelled.
- Socket.Server.Run: requires that no client is registered again after an unregister;
  the code never does this, because every connection builds a fresh client.
- Socket.Client.ReadLoop: when no read fails, the loop stops after `inbound` is used up,
  where the code would block waiting for the next message.
