/** The connection and the registry of main.go as objects whose fields change in place.
    Channel operations are serialised: a send on the register or unregister channel is a call
    of the registry method that its coordinating loop runs for it, a send that would block on
    a full queue or panic on a closed one is excluded by a precondition, and the write loop
    runs whenever it is called, draining what is queued. */
module Socket {
  import opened Messages
  import opened Router
  import opened Inbound
  import opened Membership
  import Query

  /** The buffer size of a client's send channel. */
  const Capacity: nat := 256

  /** Cliente: one peer's socket, its outbound queue and its handler table. */
  class Client {
    const server: Server
    /** The handshake-time query parameters, fixed for the connection's lifetime. */
    const params: map<string, string>
    /** eventHandlers */
    var handlers: Table
    /** The encoded messages in the send channel, oldest first. */
    var send: seq<Value>
    /** The send channel has been closed. */
    var closed: bool
    /** The messages the write loop has written to the socket, in the order written. */
    var written: seq<Value>
    /** The socket has been closed. */
    var connClosed: bool

    /** The send channel never holds more than its buffer. */
    ghost predicate Valid()
      reads this
    {
      |send| <= Capacity
    }

    /** Everything Emit ever queued, in Emit order: written first, then still queued. */
    ghost function Outbox(): seq<Value>
      reads this
    {
      written + send
    }

    /** A fresh client as ManejarConexiones builds it: no handlers, an empty open queue. */
    constructor (server: Server, params: map<string, string>)
      ensures this.server == server && this.params == params
      ensures handlers == map[] && send == [] && !closed && written == [] && !connClosed
      ensures Valid()
    {
      this.server := server;
      this.params := params;
      handlers := map[];
      send := [];
      closed := false;
      written := [];
      connClosed := false;
    }

    /** Appends `handler` to the handlers of `event`. */
    method On(event: string, handler: HandlerId)
      modifies this`handlers
      ensures handlers == AddHandler(old(handlers), event, handler)
      ensures Lookup(handlers, event) == Lookup(old(handlers), event) + [handler]
    {
      handlers := handlers[event := Lookup(handlers, event) + [handler]];
    }

    /** Encodes the envelope and queues it at the tail. A payload that cannot be encoded is
        dropped and the queue is untouched; otherwise the queue must be open (sending on a
        closed channel panics) and not full (the send would block). */
    method Emit(event: string, params: Params)
      requires Valid()
      requires EncodableParams(params) ==> !closed && |send| < Capacity
      modifies this`send
      ensures Valid()
      ensures EncodableParams(params) ==> send == old(send) + [Encode(event, params).value]
      ensures !EncodableParams(params) ==> send == old(send)
      ensures Outbox() == old(Outbox()) + (if EncodableParams(params) then [Encode(event, params).value] else [])
    {
      var message := Encode(event, params);
      if message.None? {
        return;
      }
      send := send + [message.value];
    }

    /** The write loop: writes the queued messages to the socket oldest first, and reports
        whether the range over the channel has ended, which happens exactly when the queue is
        closed and empty. Write errors are ignored, as the loop ignores them. */
    method WriteLoop() returns (finished: bool)
      requires Valid()
      modifies this`send, this`written
      ensures Valid()
      ensures written == old(written) + old(send) && send == []
      ensures Outbox() == old(Outbox())
      ensures finished == closed
    {
      while |send| > 0
        invariant written + send == old(written) + old(send)
        invariant |send| <= Capacity
        decreases |send|
      {
        written := written + [send[0]];
        send := send[1..];
      }
      finished := closed;
    }

    /** close(cliente.send); closing a channel twice panics. */
    method CloseQueue()
      requires !closed
      modifies this`closed
      ensures closed
    {
      closed := true;
    }

    /** The body of a connect observer run on this client: its On calls, in order. */
    method Observe(observer: Observer)
      modifies this`handlers
      ensures handlers == ApplySubscriptions(old(handlers), observer.subscriptions)
    {
      var subs := observer.subscriptions;
      var j := 0;
      while j < |subs|
        invariant 0 <= j <= |subs|
        invariant handlers == ApplySubscriptions(old(handlers), subs[..j])
      {
        assert subs[..j + 1][..j] == subs[..j];
        On(subs[j].event, subs[j].handler);
        j := j + 1;
      }
      assert subs[..j] == subs;
    }

    /** Calls every handler registered for the envelope's event, in order, with its parameters;
        an event without handlers does nothing. */
    method Dispatch(env: Envelope) returns (trace: seq<Invocation>)
      ensures trace == DispatchTrace(handlers, env)
      ensures env.event !in handlers ==> trace == []
    {
      trace := [];
      if env.event in handlers {
        var list := handlers[env.event];
        var i := 0;
        while i < |list|
          invariant 0 <= i <= |list|
          invariant |trace| == i
          invariant forall k :: 0 <= k < i ==> trace[k] == Invocation(list[k], env.params)
        {
          trace := trace + [Invocation(list[i], env.params)];
          i := i + 1;
        }
      }
    }

    /** The loop of leerMensajes: reads one result at a time; skips messages that do not
        decode; dispatches the others in arrival order; stops at the first read error.
        `consumed` is how many results it consumed. */
    method ReadLoop(inbound: seq<ReadResult>) returns (trace: seq<Invocation>, consumed: nat, disconnected: bool)
      ensures trace == DispatchAll(handlers, Delivered(inbound))
      ensures disconnected == Disconnects(inbound)
      ensures consumed <= |inbound|
      ensures disconnected ==> 0 < consumed && inbound[consumed - 1].ReadError? && !Disconnects(inbound[..consumed - 1])
      ensures !disconnected ==> consumed == |inbound|
    {
      trace := [];
      consumed := 0;
      disconnected := false;
      while consumed < |inbound| && !disconnected
        invariant consumed <= |inbound|
        invariant disconnected ==> 0 < consumed && inbound[consumed - 1].ReadError? && !Disconnects(inbound[..consumed - 1])
        invariant disconnected ==> trace == DispatchAll(handlers, Delivered(inbound[..consumed - 1]))
        invariant !disconnected ==> !Disconnects(inbound[..consumed])
        invariant !disconnected ==> trace == DispatchAll(handlers, Delivered(inbound[..consumed]))
        decreases |inbound| - consumed, if disconnected then 0 else 1
      {
        var result := inbound[consumed];
        ghost var before := inbound[..consumed];
        assert inbound[..consumed + 1] == before + [result];
        consumed := consumed + 1;
        match result {
          case ReadError =>
            disconnected := true;
          case Message(doc) =>
            DeliveredAppend(before, [result]);
            assert !Disconnects(before + [result]) by {
              forall i | 0 <= i < |before + [result]| ensures !(before + [result])[i].ReadError? {
                if i < |before| { assert (before + [result])[i] == before[i]; }
              }
            }
            var decoded := DecodeMessage(doc);
            if decoded.Some? {
              assert Delivered([result]) == [decoded.value];
              var calls := Dispatch(decoded.value);
              DispatchAllAppend(handlers, Delivered(before), [decoded.value]);
              assert DispatchAll(handlers, [decoded.value]) == calls;
              trace := trace + calls;
            } else {
              assert Delivered([result]) == [];
              assert Delivered(before + [result]) == Delivered(before);
            }
        }
      }
      if disconnected {
        var k := consumed - 1;
        assert inbound == inbound[..k] + [ReadError] + inbound[consumed..];
        StopsAtFirstError(inbound[..k], inbound[consumed..]);
      } else {
        assert inbound[..consumed] == inbound;
      }
    }

    /** leerMensajes with its deferred cleanup: once the loop has ended on a read error, the
        client is unregistered once and its socket closed. While no read has failed the loop
        is still running and nothing is cleaned up. */
    method ReadMessages(inbound: seq<ReadResult>) returns (trace: seq<Invocation>, disconnected: bool)
      requires server.Valid()
      modifies server`clients, this`closed, this`connClosed
      ensures server.Valid()
      ensures trace == DispatchAll(handlers, Delivered(inbound))
      ensures disconnected == Disconnects(inbound)
      ensures disconnected ==> server.clients == old(server.clients) - {this} && connClosed
                               && closed == (old(closed) || this in old(server.clients))
      ensures !disconnected ==> server.clients == old(server.clients) && closed == old(closed)
                                && connClosed == old(connClosed)
    {
      var consumed;
      trace, consumed, disconnected := ReadLoop(inbound);
      if disconnected {
        server.Unregister(this);
        connClosed := true;
      }
    }
  }

  /** WebSocketServer: the live client set and the connect observers. */
  class Server {
    var clients: set<Client>
    var connectHandlers: seq<Observer>

    /** Every live client's send queue is open, so unregistering a live client never closes a
        closed channel. */
    ghost predicate Valid()
      reads this, clients
    {
      forall c :: c in clients ==> !c.closed
    }

    /** NuevoServidorWebSocket */
    constructor ()
      ensures clients == {} && connectHandlers == []
      ensures Valid()
    {
      clients := {};
      connectHandlers := [];
    }

    /** Appends an observer run for every later registration. */
    method OnConnect(observer: Observer)
      modifies this`connectHandlers
      ensures connectHandlers == old(connectHandlers) + [observer]
    {
      connectHandlers := connectHandlers + [observer];
    }

    /** The register case of the loop: the client joins the live set first; then each connect
        observer runs once, in order, and makes its On calls on the client. `calls` records
        each observer call with the live set it ran under. */
    method Register(c: Client) returns (calls: seq<ConnectCall<Client>>)
      requires Valid()
      requires !c.closed
      modifies this`clients, c`handlers
      ensures Valid()
      ensures clients == old(clients) + {c}
      ensures c.handlers == SubscribeAll(old(c.handlers), connectHandlers)
      ensures calls == CallsFor(connectHandlers, c, clients)
      ensures forall i :: 0 <= i < |calls| ==> calls[i].client in calls[i].live
    {
      clients := clients + {c};
      calls := [];
      var i := 0;
      while i < |connectHandlers|
        invariant 0 <= i <= |connectHandlers|
        invariant clients == old(clients) + {c}
        invariant calls == CallsFor(connectHandlers[..i], c, clients)
        invariant c.handlers == SubscribeAll(old(c.handlers), connectHandlers[..i])
      {
        var observer := connectHandlers[i];
        assert connectHandlers[..i + 1][..i] == connectHandlers[..i];
        assert connectHandlers[..i + 1][i] == observer;
        calls := calls + [ConnectCall(observer.id, c, clients)];
        c.Observe(observer);
        i := i + 1;
      }
      assert connectHandlers[..i] == connectHandlers;
    }

    /** The unregister case of the loop: a live client is removed and its send queue, open
        until then, is closed; an absent client changes nothing. */
    method Unregister(c: Client)
      requires Valid()
      modifies this`clients, c`closed
      ensures Valid()
      ensures clients == old(clients) - {c}
      ensures c in old(clients) ==> !old(c.closed) && c.closed
      ensures c !in old(clients) ==> c.closed == old(c.closed)
    {
      if c in clients {
        clients := clients - {c};
        c.CloseQueue();
      }
    }

    /** One turn of Ejecutar's select: a register or an unregister request. */
    method Handle(r: Request<Client>) returns (calls: seq<ConnectCall<Client>>)
      requires Valid()
      requires r.RegisterReq? ==> !r.client.closed
      modifies this`clients, r.client`handlers, r.client`closed
      ensures Valid()
      ensures clients == Step(old(clients), r)
      ensures r.RegisterReq? ==> calls == CallsFor(connectHandlers, r.client, clients)
                                 && r.client.handlers == SubscribeAll(old(r.client.handlers), connectHandlers)
                                 && r.client.closed == old(r.client.closed)
      ensures r.UnregisterReq? ==> calls == [] && r.client.handlers == old(r.client.handlers)
                                   && r.client.closed == (old(r.client.closed) || r.client in old(clients))
    {
      match r {
        case RegisterReq(c) =>
          calls := Register(c);
        case UnregisterReq(c) =>
          calls := [];
          Unregister(c);
      }
    }

    /** Ejecutar: handles the requests one at a time, in the order received. The live set ends
        as the fold of the requests, a queue is closed exactly when its client is unregistered
        while live, and each registration runs every observer's On calls on its client. */
    method Run(reqs: seq<Request<Client>>) returns (calls: seq<ConnectCall<Client>>)
      requires Valid()
      requires forall i :: 0 <= i < |reqs| && reqs[i].RegisterReq? ==> !reqs[i].client.closed
      requires NoReRegistration(reqs)
      modifies this`clients, Mentioned(reqs)`handlers, Mentioned(reqs)`closed
      ensures Valid()
      ensures clients == Live(old(clients), reqs)
      ensures calls == ConnectTrace(connectHandlers, old(clients), reqs)
      ensures forall c :: c in Mentioned(reqs) ==> c.closed == (old(c.closed) || c in CloseEvents(old(clients), reqs))
      ensures forall c :: c in Mentioned(reqs) ==> c.handlers == SubscribeTimes(old(c.handlers), connectHandlers, Registrations(reqs, c))
    {
      ghost var live0 := clients;
      ghost var closed0 := map c | c in Mentioned(reqs) :: c.closed;
      ghost var handlers0 := map c | c in Mentioned(reqs) :: c.handlers;
      calls := [];
      var i := 0;
      while i < |reqs|
        invariant 0 <= i <= |reqs|
        invariant Valid()
        invariant clients == Live(live0, reqs[..i])
        invariant calls == ConnectTrace(connectHandlers, live0, reqs[..i])
        invariant forall c :: c in Mentioned(reqs) ==> c.closed == (closed0[c] || c in CloseEvents(live0, reqs[..i]))
        invariant forall c :: c in Mentioned(reqs) ==> c.handlers == SubscribeTimes(handlers0[c], connectHandlers, Registrations(reqs[..i], c))
      {
        var more := HandleNext(reqs, i, live0, closed0, handlers0);
        calls := calls + more;
        i := i + 1;
      }
      assert reqs[..i] == reqs;
    }

    /** One turn of Run's loop: handles reqs[i] and carries the loop's bookkeeping from the
        first i requests to the first i + 1. */
    method HandleNext(reqs: seq<Request<Client>>, i: nat, ghost live0: set<Client>,
                      ghost closed0: map<Client, bool>, ghost handlers0: map<Client, Table>)
      returns (more: seq<ConnectCall<Client>>)
      requires i < |reqs|
      requires Valid()
      requires NoReRegistration(reqs)
      requires Mentioned(reqs) <= closed0.Keys && Mentioned(reqs) <= handlers0.Keys
      requires forall j :: 0 <= j < |reqs| && reqs[j].RegisterReq? ==> !closed0[reqs[j].client]
      requires clients == Live(live0, reqs[..i])
      requires forall c :: c in Mentioned(reqs) ==> c.closed == (closed0[c] || c in CloseEvents(live0, reqs[..i]))
      requires forall c :: c in Mentioned(reqs) ==> c.handlers == SubscribeTimes(handlers0[c], connectHandlers, Registrations(reqs[..i], c))
      modifies this`clients, reqs[i].client`handlers, reqs[i].client`closed
      ensures Valid()
      ensures clients == Live(live0, reqs[..i + 1])
      ensures more == if reqs[i].RegisterReq? then CallsFor(connectHandlers, reqs[i].client, clients) else []
      ensures ConnectTrace(connectHandlers, live0, reqs[..i + 1]) == ConnectTrace(connectHandlers, live0, reqs[..i]) + more
      ensures forall c :: c in Mentioned(reqs) ==> c.closed == (closed0[c] || c in CloseEvents(live0, reqs[..i + 1]))
      ensures forall c :: c in Mentioned(reqs) ==> c.handlers == SubscribeTimes(handlers0[c], connectHandlers, Registrations(reqs[..i + 1], c))
    {
      var r := reqs[i];
      assert r.client in Mentioned(reqs);
      if r.RegisterReq? {
        RegisteredWhileOpen(live0, reqs, i);
      }
      StepFacts(connectHandlers, live0, reqs, i);
      label Before:
      more := Handle(r);
      forall c | c in Mentioned(reqs)
        ensures c.handlers == SubscribeTimes(handlers0[c], connectHandlers, Registrations(reqs[..i + 1], c))
      {
        RegistrationsStep(reqs, i, c);
        var n := Registrations(reqs[..i], c);
        assert old@Before(c.handlers) == SubscribeTimes(handlers0[c], connectHandlers, n);
        if c == r.client && r.RegisterReq? {
          assert Registrations(reqs[..i + 1], c) == n + 1;
          assert c.handlers == SubscribeAll(old@Before(c.handlers), connectHandlers);
        } else {
          assert Registrations(reqs[..i + 1], c) == n;
          assert c.handlers == old@Before(c.handlers);
        }
      }
      forall c | c in Mentioned(reqs)
        ensures c.closed == (closed0[c] || c in CloseEvents(live0, reqs[..i + 1]))
      {
        if c != r.client {
          assert c.closed == old@Before(c.closed);
        }
      }
    }

    /** ManejarConexiones after a successful upgrade: captures the query parameters, builds a
        fresh client, registers it, and runs its read loop until the first read error, after
        which the client is unregistered and its socket closed. The write loop runs alongside
        and is the client's WriteLoop. */
    method HandleConnection(query: map<string, seq<string>>, inbound: seq<ReadResult>)
      returns (c: Client, calls: seq<ConnectCall<Client>>, trace: seq<Invocation>, disconnected: bool)
      requires Valid()
      modifies this`clients
      ensures Valid()
      ensures fresh(c) && c.server == this
      ensures c.params.Keys == query.Keys
      ensures forall key :: key in c.params ==> c.params[key] == Query.First(query[key])
      ensures calls == CallsFor(connectHandlers, c, old(clients) + {c})
      ensures c.handlers == SubscribeAll(map[], connectHandlers)
      ensures trace == DispatchAll(SubscribeAll(map[], connectHandlers), Delivered(inbound))
      ensures disconnected == Disconnects(inbound)
      ensures clients == if disconnected then old(clients) else old(clients) + {c}
      ensures disconnected == c.closed && disconnected == c.connClosed
      ensures c.send == [] && c.written == []
    {
      var params := Query.Capture(query);
      c := new Client(this, params);
      calls := Register(c);
      trace, disconnected := c.ReadMessages(inbound);
    }
  }
}
