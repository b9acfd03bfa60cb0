/** The policy of a connection's read loop, as a function of what the socket delivers:
    each read yields a transport error or a text message; a message that does not decode
    into an envelope is skipped; the first transport error ends the loop. */
module Inbound {
  import opened Messages
  import opened Router

  /** One ReadMessage result: a transport error (peer gone, reset, protocol violation) or a
      message whose bytes parse as the JSON document `doc` (None: not JSON at all). */
  datatype ReadResult = ReadError | Message(doc: Option<Value>)

  /** json.Unmarshal of a message into an envelope. */
  function DecodeMessage(doc: Option<Value>): Option<Envelope> {
    match doc
    case None => None
    case Some(v) => Decode(v)
  }

  /** Some read in the stream fails, so the loop ends there. */
  predicate Disconnects(inbound: seq<ReadResult>) {
    exists i :: 0 <= i < |inbound| && inbound[i].ReadError?
  }

  /** The envelopes the read loop dispatches, in arrival order: every message before the first
      read error that decodes, and nothing from the error on. */
  function Delivered(inbound: seq<ReadResult>): seq<Envelope> {
    if inbound == [] then []
    else match inbound[0]
      case ReadError => []
      case Message(doc) =>
        match DecodeMessage(doc)
        case None => Delivered(inbound[1..])
        case Some(env) => [env] + Delivered(inbound[1..])
  }

  /** The calls of dispatching each envelope in turn. */
  function DispatchAll(table: Table, envs: seq<Envelope>): seq<Invocation> {
    if envs == [] then [] else DispatchTrace(table, envs[0]) + DispatchAll(table, envs[1..])
  }

  lemma {:induction false} DispatchAllAppend(table: Table, xs: seq<Envelope>, ys: seq<Envelope>)
    ensures DispatchAll(table, xs + ys) == DispatchAll(table, xs) + DispatchAll(table, ys)
  {
    if xs != [] {
      assert (xs + ys)[1..] == xs[1..] + ys;
      DispatchAllAppend(table, xs[1..], ys);
    } else {
      assert xs + ys == ys;
    }
  }

  /** Over a stretch without read errors, the loop keeps going: what it dispatches from a
      longer stream is what it dispatched so far followed by what the rest yields. */
  lemma {:induction false} DeliveredAppend(a: seq<ReadResult>, b: seq<ReadResult>)
    requires !Disconnects(a)
    ensures Delivered(a + b) == Delivered(a) + Delivered(b)
  {
    if a != [] {
      assert (a + b)[1..] == a[1..] + b;
      assert a[0].Message?;
      assert !Disconnects(a[1..]) by {
        forall i | 0 <= i < |a[1..]| ensures !a[1..][i].ReadError? {
          assert a[1..][i] == a[i + 1];
        }
      }
      DeliveredAppend(a[1..], b);
    } else {
      assert a + b == b;
    }
  }

  /** A message that fails to decode is skipped and only that message: the loop continues and
      dispatches the same envelopes as if it had never arrived. */
  lemma {:induction false} MalformedSkipped(a: seq<ReadResult>, doc: Option<Value>, b: seq<ReadResult>)
    requires DecodeMessage(doc).None?
    ensures Delivered(a + [Message(doc)] + b) == Delivered(a + b)
  {
    if a == [] {
      assert a + [Message(doc)] + b == [Message(doc)] + b;
      assert ([Message(doc)] + b)[1..] == b;
      assert a + b == b;
    } else {
      assert (a + [Message(doc)] + b)[1..] == a[1..] + [Message(doc)] + b;
      assert (a + b)[1..] == a[1..] + b;
      assert (a + [Message(doc)] + b)[0] == a[0] == (a + b)[0];
      MalformedSkipped(a[1..], doc, b);
    }
  }

  /** The first read error ends the loop: nothing that arrives after it is dispatched. */
  lemma {:induction false} StopsAtFirstError(a: seq<ReadResult>, b: seq<ReadResult>)
    requires !Disconnects(a)
    ensures Delivered(a + [ReadError] + b) == Delivered(a)
  {
    assert a + [ReadError] + b == a + ([ReadError] + b);
    DeliveredAppend(a, [ReadError] + b);
    assert Delivered([ReadError] + b) == [];
  }
}
