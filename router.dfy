/** The per-connection event router: a table from event name to the ordered list of
    handlers registered with On, the trace of calls one dispatch makes, and the connect
    observers whose registrations fill the table of a new connection. Handlers and
    observers are opaque identities; what a handler does when called is not modelled. */
module Router {
  import opened Messages

  type HandlerId = nat
  type ObserverId = nat

  /** eventHandlers: event name to handlers, in registration order. */
  type Table = map<string, seq<HandlerId>>

  /** One call `handler(params)` made by a dispatch. */
  datatype Invocation = Invocation(handler: HandlerId, params: Params)

  /** The handlers registered for `event`; none when the event has no entry. */
  function Lookup(table: Table, event: string): seq<HandlerId> {
    if event in table then table[event] else []
  }

  /** Every handler of the list called once with the same parameters, in list order. */
  function Calls(handlers: seq<HandlerId>, params: Params): (r: seq<Invocation>)
    ensures |r| == |handlers|
    ensures forall i :: 0 <= i < |r| ==> r[i] == Invocation(handlers[i], params)
  {
    if handlers == [] then [] else [Invocation(handlers[0], params)] + Calls(handlers[1..], params)
  }

  /** What dispatching one decoded envelope does: the calls of the handlers registered for its
      event; an event without an entry produces no call. */
  function DispatchTrace(table: Table, env: Envelope): (r: seq<Invocation>)
    ensures |r| == |Lookup(table, env.event)|
    ensures forall i :: 0 <= i < |r| ==> r[i].handler == Lookup(table, env.event)[i] && r[i].params == env.params
    ensures env.event !in table ==> r == []
  {
    Calls(Lookup(table, env.event), env.params)
  }

  /** The table after On(event, handler): the handler joins the end of that event's list;
      every other event's list is unchanged. */
  function AddHandler(table: Table, event: string, handler: HandlerId): (r: Table)
    ensures r.Keys == table.Keys + {event}
    ensures Lookup(r, event) == Lookup(table, event) + [handler]
    ensures forall e :: e != event ==> Lookup(r, e) == Lookup(table, e)
  {
    table[event := Lookup(table, event) + [handler]]
  }

  /** After On(e, h), a dispatch of e makes the calls it made before and then calls h once;
      a dispatch of any other event is unaffected. */
  lemma DispatchAfterOn(table: Table, e: string, h: HandlerId, env: Envelope)
    ensures DispatchTrace(AddHandler(table, e, h), env)
         == if env.event == e then DispatchTrace(table, env) + [Invocation(h, env.params)]
            else DispatchTrace(table, env)
  {
    var after := DispatchTrace(AddHandler(table, e, h), env);
    var before := DispatchTrace(table, env);
    if env.event == e {
      var expected := before + [Invocation(h, env.params)];
      assert |after| == |expected|;
      forall i | 0 <= i < |after| ensures after[i] == expected[i] {
        if i < |before| {
          assert Lookup(AddHandler(table, e, h), e)[i] == Lookup(table, e)[i];
        }
      }
    }
  }

  /** Registering the same event twice accumulates: both handlers are called, in order. */
  lemma OnAccumulates(table: Table, e: string, h1: HandlerId, h2: HandlerId, params: Params)
    ensures DispatchTrace(AddHandler(AddHandler(table, e, h1), e, h2), Envelope(e, params))
         == DispatchTrace(table, Envelope(e, params)) + [Invocation(h1, params), Invocation(h2, params)]
  {
    var env := Envelope(e, params);
    DispatchAfterOn(table, e, h1, env);
    DispatchAfterOn(AddHandler(table, e, h1), e, h2, env);
  }

  /** One `c.On(event, handler)` call made by a connect observer. */
  datatype Subscription = Subscription(event: string, handler: HandlerId)

  /** A connect observer (a function registered with OnConnect), described by the On calls it
      makes, in order, on the connection it is given. */
  datatype Observer = Observer(id: ObserverId, subscriptions: seq<Subscription>)

  /** The table after the On calls of `subs`, in order. */
  function ApplySubscriptions(table: Table, subs: seq<Subscription>): Table {
    if subs == [] then table
    else
      var last := subs[|subs| - 1];
      AddHandler(ApplySubscriptions(table, subs[..|subs| - 1]), last.event, last.handler)
  }

  /** The table after every observer, in order, made its On calls. */
  function SubscribeAll(table: Table, observers: seq<Observer>): Table {
    if observers == [] then table
    else ApplySubscriptions(SubscribeAll(table, observers[..|observers| - 1]), observers[|observers| - 1].subscriptions)
  }

  /** The table after `times` rounds of the observers' On calls (one per registration). */
  function SubscribeTimes(table: Table, observers: seq<Observer>, times: nat): Table {
    if times == 0 then table else SubscribeAll(SubscribeTimes(table, observers, times - 1), observers)
  }

  /** The handlers `subs` registers for `event`, in order. */
  function HandlersFor(subs: seq<Subscription>, event: string): seq<HandlerId> {
    if subs == [] then []
    else
      var last := subs[|subs| - 1];
      HandlersFor(subs[..|subs| - 1], event) + (if last.event == event then [last.handler] else [])
  }

  /** The handlers all observers register for `event`, observer by observer. */
  function ObserverHandlers(observers: seq<Observer>, event: string): seq<HandlerId> {
    if observers == [] then []
    else ObserverHandlers(observers[..|observers| - 1], event) + HandlersFor(observers[|observers| - 1].subscriptions, event)
  }

  /** A sequence of On calls leaves each event's list as it was followed by exactly the handlers
      registered for that event, in call order. */
  lemma {:induction false} ApplySubscriptionsLookup(table: Table, subs: seq<Subscription>, event: string)
    ensures Lookup(ApplySubscriptions(table, subs), event) == Lookup(table, event) + HandlersFor(subs, event)
  {
    if subs != [] {
      ApplySubscriptionsLookup(table, subs[..|subs| - 1], event);
    }
  }

  /** After the connect observers ran on a connection, each event's list is its old list
      followed by the observers' handlers for it, observer by observer. */
  lemma {:induction false} SubscribeAllLookup(table: Table, observers: seq<Observer>, event: string)
    ensures Lookup(SubscribeAll(table, observers), event) == Lookup(table, event) + ObserverHandlers(observers, event)
  {
    if observers != [] {
      var front := observers[..|observers| - 1];
      SubscribeAllLookup(table, front, event);
      ApplySubscriptionsLookup(SubscribeAll(table, front), observers[|observers| - 1].subscriptions, event);
    }
  }
}
