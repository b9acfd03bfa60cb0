/** The registry's coordinating loop as a fold over the register/unregister requests it
    receives, in the order it receives them. Generic in the client type `C`: the loop only
    compares clients for identity. */
module Membership {
  import opened Messages
  import opened Router

  /** A value received on the register or the unregister channel. */
  datatype Request<C> = RegisterReq(client: C) | UnregisterReq(client: C)

  /** One connect observer called with a newly registered client; `live` is the live set the
      loop holds while the call runs. */
  datatype ConnectCall<C> = ConnectCall(observer: ObserverId, client: C, live: set<C>)

  /** The live set after one request: register inserts; unregister removes, and removing an
      absent client changes nothing. */
  function Step<C>(live: set<C>, r: Request<C>): set<C> {
    match r
    case RegisterReq(c) => live + {c}
    case UnregisterReq(c) => live - {c}
  }

  /** The live set after the loop has handled `reqs`, one at a time, in order. */
  function Live<C>(live: set<C>, reqs: seq<Request<C>>): set<C> {
    if reqs == [] then live else Step(Live(live, reqs[..|reqs| - 1]), reqs[|reqs| - 1])
  }

  /** The send queues the loop closes while handling `reqs`, in order: one per unregister of a
      client that is live at that moment. */
  function CloseEvents<C>(live: set<C>, reqs: seq<Request<C>>): seq<C> {
    if reqs == [] then []
    else
      var front := reqs[..|reqs| - 1];
      var last := reqs[|reqs| - 1];
      CloseEvents(live, front) + (if last.UnregisterReq? && last.client in Live(live, front) then [last.client] else [])
  }

  /** The observer calls made for one registration of `c`, in observer order. */
  function CallsFor<C>(observers: seq<Observer>, c: C, live: set<C>): (r: seq<ConnectCall<C>>)
    ensures |r| == |observers|
    ensures forall i :: 0 <= i < |r| ==> r[i] == ConnectCall(observers[i].id, c, live)
  {
    if observers == [] then []
    else CallsFor(observers[..|observers| - 1], c, live) + [ConnectCall(observers[|observers| - 1].id, c, live)]
  }

  /** Every observer call the loop makes while handling `reqs`. */
  function ConnectTrace<C>(observers: seq<Observer>, live: set<C>, reqs: seq<Request<C>>): seq<ConnectCall<C>> {
    if reqs == [] then []
    else
      var last := reqs[|reqs| - 1];
      ConnectTrace(observers, live, reqs[..|reqs| - 1])
        + (if last.RegisterReq? then CallsFor(observers, last.client, Live(live, reqs)) else [])
  }

  /** The clients `reqs` names. */
  function Mentioned<C>(reqs: seq<Request<C>>): set<C> {
    set i | 0 <= i < |reqs| :: reqs[i].client
  }

  /** How many times `reqs` registers `c`. */
  function Registrations<C(==)>(reqs: seq<Request<C>>, c: C): nat {
    if reqs == [] then 0
    else Registrations(reqs[..|reqs| - 1], c) + (if reqs[|reqs| - 1] == RegisterReq(c) then 1 else 0)
  }

  /** The request that last names `c`: Some(true) for a register, Some(false) for an
      unregister, None when no request names it. */
  function LastFor<C(==)>(reqs: seq<Request<C>>, c: C): Option<bool> {
    if reqs == [] then None
    else if reqs[|reqs| - 1].client == c then Some(reqs[|reqs| - 1].RegisterReq?)
    else LastFor(reqs[..|reqs| - 1], c)
  }

  /** Clients are never registered again once they have been unregistered (each connection
      builds a fresh client). */
  predicate NoReRegistration<C(==)>(reqs: seq<Request<C>>) {
    forall i, j :: 0 <= i < j < |reqs| && reqs[i].UnregisterReq? && reqs[j].RegisterReq? ==> reqs[i].client != reqs[j].client
  }

  /** How one more request extends each fold: the live set steps, a close is appended
      exactly for an unregister of a live client, and a register adds one registration and
      the observer calls made under the new live set. */
  lemma StepFacts<C>(observers: seq<Observer>, live: set<C>, reqs: seq<Request<C>>, i: nat)
    requires i < |reqs|
    ensures Live(live, reqs[..i + 1]) == Step(Live(live, reqs[..i]), reqs[i])
    ensures CloseEvents(live, reqs[..i + 1]) == CloseEvents(live, reqs[..i])
              + (if reqs[i].UnregisterReq? && reqs[i].client in Live(live, reqs[..i]) then [reqs[i].client] else [])
    ensures ConnectTrace(observers, live, reqs[..i + 1]) == ConnectTrace(observers, live, reqs[..i])
              + (if reqs[i].RegisterReq? then CallsFor(observers, reqs[i].client, Live(live, reqs[..i + 1])) else [])
  {
    assert reqs[..i + 1][..i] == reqs[..i];
    assert reqs[..i + 1][i] == reqs[i];
  }

  lemma RegistrationsStep<C>(reqs: seq<Request<C>>, i: nat, c: C)
    requires i < |reqs|
    ensures Registrations(reqs[..i + 1], c) == Registrations(reqs[..i], c) + (if reqs[i] == RegisterReq(c) then 1 else 0)
  {
    assert reqs[..i + 1][..i] == reqs[..i];
    assert reqs[..i + 1][i] == reqs[i];
  }

  /** No lost update and no duplicate: a client is live after the loop exactly when the last
      request naming it is a register, or no request names it and it was live before. */
  lemma {:induction false} LiveByLastRequest<C>(live: set<C>, reqs: seq<Request<C>>, c: C)
    ensures c in Live(live, reqs) <==> match LastFor(reqs, c) case None => c in live case Some(registered) => registered
  {
    if reqs != [] {
      LiveByLastRequest(live, reqs[..|reqs| - 1], c);
    }
  }

  /** Unregister is idempotent: a second unregister of the same client changes neither the
      live set nor the queues closed. */
  lemma UnregisterIdempotent<C>(live: set<C>, reqs: seq<Request<C>>, c: C)
    ensures Live(live, reqs + [UnregisterReq(c), UnregisterReq(c)]) == Live(live, reqs + [UnregisterReq(c)])
    ensures CloseEvents(live, reqs + [UnregisterReq(c), UnregisterReq(c)]) == CloseEvents(live, reqs + [UnregisterReq(c)])
  {
    var once := reqs + [UnregisterReq(c)];
    assert (reqs + [UnregisterReq(c), UnregisterReq(c)])[..|once|] == once;
    assert once[..|reqs|] == reqs;
  }

  /** Every queue closed was closed by an unregister of its client. */
  lemma {:induction false} CloseHasRequest<C>(live: set<C>, reqs: seq<Request<C>>, c: C)
    ensures c in CloseEvents(live, reqs) ==> exists i :: 0 <= i < |reqs| && reqs[i] == UnregisterReq(c)
  {
    if reqs != [] {
      var front := reqs[..|reqs| - 1];
      CloseHasRequest(live, front, c);
      if c in CloseEvents(live, front) {
        var i :| 0 <= i < |front| && front[i] == UnregisterReq(c);
        assert reqs[i] == front[i];
      }
    }
  }

  /** A client that is never registered again after an unregister has not had its queue
      closed by the time it is registered. */
  lemma RegisteredWhileOpen<C>(live: set<C>, reqs: seq<Request<C>>, i: nat)
    requires NoReRegistration(reqs)
    requires i < |reqs| && reqs[i].RegisterReq?
    ensures reqs[i].client !in CloseEvents(live, reqs[..i])
  {
    var c := reqs[i].client;
    CloseHasRequest(live, reqs[..i], c);
    forall j | 0 <= j < |reqs[..i]| ensures reqs[..i][j] != UnregisterReq(c) {
      assert reqs[..i][j] == reqs[j];
    }
  }

  /** Once its queue is closed, a client that is never registered again stays out of the live
      set. */
  lemma {:induction false} ClosedStaysOut<C>(live: set<C>, reqs: seq<Request<C>>, c: C)
    requires NoReRegistration(reqs)
    requires c in CloseEvents(live, reqs)
    ensures c !in Live(live, reqs)
  {
    var front := reqs[..|reqs| - 1];
    var last := reqs[|reqs| - 1];
    assert NoReRegistration(front) by {
      forall i, j | 0 <= i < j < |front| && front[i].UnregisterReq? && front[j].RegisterReq?
        ensures front[i].client != front[j].client
      {
        assert front[i] == reqs[i] && front[j] == reqs[j];
      }
    }
    if c in CloseEvents(live, front) {
      ClosedStaysOut(live, front, c);
      CloseHasRequest(live, front, c);

      var i :| 0 <= i < |front| && front[i] == UnregisterReq(c);
      assert reqs[i] == UnregisterReq(c);
      assert last != RegisterReq(c);
    } else {
      assert last == UnregisterReq(c);
    }
  }

  /** No send queue is closed twice, provided no client is registered again after being
      unregistered: each close in the trace names a different client. */
  lemma {:induction false} ClosesAtMostOnce<C>(live: set<C>, reqs: seq<Request<C>>)
    requires NoReRegistration(reqs)
    ensures forall i, j :: 0 <= i < j < |CloseEvents(live, reqs)| ==> CloseEvents(live, reqs)[i] != CloseEvents(live, reqs)[j]
  {
    if reqs != [] {
      var front := reqs[..|reqs| - 1];
      var last := reqs[|reqs| - 1];
      assert NoReRegistration(front) by {
        forall i, j | 0 <= i < j < |front| && front[i].UnregisterReq? && front[j].RegisterReq?
          ensures front[i].client != front[j].client
        {
          assert front[i] == reqs[i] && front[j] == reqs[j];
        }
      }
      ClosesAtMostOnce(live, front);
      var before := CloseEvents(live, front);
      if last.UnregisterReq? && last.client in Live(live, front) {
        if last.client in before {
          ClosedStaysOut(live, front, last.client);
        }
        assert last.client !in before;
      }
    }
  }

  /** Every observer runs only once its client is in the live set. */
  lemma {:induction false} ObserversSeeClientLive<C>(observers: seq<Observer>, live: set<C>, reqs: seq<Request<C>>)
    ensures forall k :: 0 <= k < |ConnectTrace(observers, live, reqs)| ==>
              ConnectTrace(observers, live, reqs)[k].client in ConnectTrace(observers, live, reqs)[k].live
  {
    if reqs != [] {
      ObserversSeeClientLive(observers, live, reqs[..|reqs| - 1]);
    }
  }
}
