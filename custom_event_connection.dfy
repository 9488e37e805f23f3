/**
 * The multiplexed request/response protocol over document events: every
 * message carries a `requestId`; the client keeps a correlation map of
 * response handlers, the server a map of abort controllers. The client
 * class is the same in `CustomEventConnection.js` and
 * `ContentScriptClient.js`.
 */
module CustomEventConnection {
  import opened Wrappers
  import opened JsValues

  /** The `detail` of an event, `{ requestId, type, payload }`. */
  datatype Envelope = Envelope(requestId: nat, kind: string, payload: Value)

  /** `Math.floor(Math.random() * Math.pow(2, 32))` lies below this bound. */
  const IdBound: nat := 0x1_0000_0000

  /** The payload of the `abort` the client sends when its writer settles. */
  const WriterClosedPayload: Value := Str("fetchSummary writer closed")

  function RequestEventName(prefix: string): string { prefix + "-client-to-server" }
  function ResponseEventName(prefix: string): string { prefix + "-server-to-client" }

  /** The two directions use different event names, so neither side hears its own messages. */
  lemma EventNamesDiffer(prefix: string)
    ensures RequestEventName(prefix) != ResponseEventName(prefix)
  {
    assert RequestEventName(prefix)[|prefix| + 1] == 'c';
    assert ResponseEventName(prefix)[|prefix| + 1] == 's';
  }

  function AbortEnvelope(id: nat): Envelope { Envelope(id, "abort", WriterClosedPayload) }

  // ---------------------------------------------------------------------
  // The client side of one fetch
  // ---------------------------------------------------------------------

  /** The writer of a fetch's response stream. */
  datatype WriterState = Writable | WriterClosed | WriterErrored(reason: Value)

  /** One `fetch` call: its id, what its stream has received, its writer and its `writerAborted` flag. */
  datatype FetchState = FetchState(requestId: nat, received: seq<Value>, writer: WriterState, writerAborted: bool)

  function Fresh(id: nat): FetchState { FetchState(id, [], Writable, false) }

  /** The writer can only be flagged as aborted once it has settled. */
  predicate Consistent(f: FetchState) {
    f.writer == Writable ==> !f.writerAborted
  }

  /**
   * `writer.closed.finally(...)`: when a step settles the writer, an
   * `abort` goes to the server unless a server `error` set the flag.
   */
  function Settle(before: FetchState, after: FetchState): (r: seq<Envelope>)
    ensures |r| <= 1
  {
    if before.writer == Writable && after.writer != Writable && !after.writerAborted
    then [AbortEnvelope(before.requestId)] else []
  }

  /**
   * The response handler of one fetch: `close` closes the writer, `error`
   * raises the flag and aborts it, `response` writes the payload, and any
   * other type is only logged. Returns the new state and what it sends.
   */
  function Handle(f: FetchState, m: Envelope): (r: (FetchState, seq<Envelope>))
    ensures r.0.requestId == f.requestId
    ensures Consistent(f) ==> Consistent(r.0)
  {
    var g :=
      if m.kind == "close" then
        f.(writer := if f.writer == Writable then WriterClosed else f.writer)
      else if m.kind == "error" then
        f.(writerAborted := true, writer := if f.writer == Writable then WriterErrored(m.payload) else f.writer)
      else if m.kind == "response" then
        f.(received := if f.writer == Writable then f.received + [m.payload] else f.received)
      else f;
    (g, Settle(f, g))
  }

  /** The reader cancels the response stream: the writer errors, and the server is told unless it sent `error`. */
  function Cancel(f: FetchState, reason: Value): (r: (FetchState, seq<Envelope>))
    ensures r.0.requestId == f.requestId
    ensures Consistent(f) ==> Consistent(r.0)
  {
    var g := f.(writer := if f.writer == Writable then WriterErrored(reason) else f.writer);
    (g, Settle(f, g))
  }

  /** `abort` is sent only by the step that settles the writer, and only without a prior `error`. */
  lemma SettleOnce(f: FetchState, m: Envelope, reason: Value)
    requires Consistent(f)
    ensures f.writer != Writable ==> Handle(f, m).1 == [] && Cancel(f, reason).1 == []
    ensures Handle(f, m).1 != [] <==> f.writer == Writable && m.kind == "close"
    ensures Cancel(f, reason).1 != [] <==> f.writer == Writable
    ensures Handle(f, m).1 != [] ==> Handle(f, m).1 == [AbortEnvelope(f.requestId)]
  {
  }

  /** What reaches one fetch: a server message, or its reader cancelling. */
  datatype ClientEvent = FromServer(message: Envelope) | ReaderCancel(reason: Value)

  /**
   * A fetch over its events, with everything it sends; after `close` its
   * handler is deleted and nothing more reaches it.
   */
  function Deliver(f: FetchState, events: seq<ClientEvent>): (r: (FetchState, seq<Envelope>))
    ensures r.0.requestId == f.requestId
    decreases |events|
  {
    if events == [] then (f, [])
    else
      var step := match events[0]
        case FromServer(m) => Handle(f, m)
        case ReaderCancel(reason) => Cancel(f, reason);
      if events[0].FromServer? && events[0].message.kind == "close" then step
      else
        var rest := Deliver(step.0, events[1..]);
        (rest.0, step.1 + rest.1)
  }

  /** Whatever arrives, a fetch sends at most one `abort`, carrying its own id. */
  lemma {:induction false} AtMostOneAbort(f: FetchState, events: seq<ClientEvent>)
    requires Consistent(f)
    ensures |Deliver(f, events).1| <= (if f.writer == Writable then 1 else 0)
    ensures forall i :: 0 <= i < |Deliver(f, events).1| ==> Deliver(f, events).1[i] == AbortEnvelope(f.requestId)
    ensures Deliver(f, events).0.requestId == f.requestId
    decreases |events|
  {
    if events != [] {
      var step := match events[0]
        case FromServer(m) => Handle(f, m)
        case ReaderCancel(reason) => Cancel(f, reason);
      match events[0] {
        case FromServer(m) => SettleOnce(f, m, Undefined);
        case ReaderCancel(reason) => SettleOnce(f, Envelope(0, "", Undefined), reason);
      }
      if !(events[0].FromServer? && events[0].message.kind == "close") {
        AtMostOneAbort(step.0, events[1..]);
      }
    }
  }

  // ---------------------------------------------------------------------
  // The server side
  // ---------------------------------------------------------------------

  /** What the server sends for one request: `response` per value, then exactly one of `close` or `error`. */
  function Emission(id: nat, values: seq<Value>, failure: Option<Value>): (ms: seq<Envelope>)
    ensures |ms| == |values| + 1
    ensures forall i :: 0 <= i < |values| ==> ms[i] == Envelope(id, "response", values[i])
    ensures ms[|values|] == if failure.Some? then Envelope(id, "error", failure.value) else Envelope(id, "close", Undefined)
  {
    Responses(id, values) + [if failure.Some? then Envelope(id, "error", failure.value) else Envelope(id, "close", Undefined)]
  }

  function Responses(id: nat, values: seq<Value>): (ms: seq<Envelope>)
    ensures |ms| == |values|
    ensures forall i :: 0 <= i < |values| ==> ms[i] == Envelope(id, "response", values[i])
  {
    seq(|values|, i requires 0 <= i < |values| => Envelope(id, "response", values[i]))
  }

  predicate Terminal(m: Envelope) { m.kind == "close" || m.kind == "error" }

  /** Exactly one terminal message per request, and it comes last; every message carries the request's id. */
  lemma OneTerminal(id: nat, values: seq<Value>, failure: Option<Value>)
    ensures var ms := Emission(id, values, failure);
      && Terminal(ms[|ms| - 1])
      && (forall i :: 0 <= i < |ms| - 1 ==> !Terminal(ms[i]))
      && (forall i :: 0 <= i < |ms| ==> ms[i].requestId == id)
  {
  }

  /** Server responses before the end reach the fetch's stream in order. */
  lemma {:induction false} DeliverResponses(f: FetchState, values: seq<Value>, tail: seq<ClientEvent>)
    requires f.writer == Writable && !f.writerAborted
    ensures var r := Deliver(f, AsEvents(Responses(f.requestId, values)) + tail);
      r == Deliver(f.(received := f.received + values), tail)
    decreases |values|
  {
    var evs := AsEvents(Responses(f.requestId, values)) + tail;
    if values == [] {
      assert evs == tail;
      assert f.received + values == f.received;
      assert f.(received := f.received) == f;
    } else {
      var g := f.(received := f.received + [values[0]]);
      assert evs[0] == FromServer(Envelope(f.requestId, "response", values[0]));
      assert evs[1..] == AsEvents(Responses(f.requestId, values[1..])) + tail by {
        assert Responses(f.requestId, values)[1..] == Responses(f.requestId, values[1..]);
      }
      assert Handle(f, evs[0].message) == (g, []);
      DeliverResponses(g, values[1..], tail);
      assert g.received + values[1..] == f.received + values;
      var rest := Deliver(g, evs[1..]);
      assert Deliver(f, evs) == (rest.0, [] + rest.1);
      assert [] + rest.1 == rest.1;
    }
  }

  function AsEvents(ms: seq<Envelope>): (evs: seq<ClientEvent>)
    ensures |evs| == |ms|
    ensures forall i :: 0 <= i < |ms| ==> evs[i] == FromServer(ms[i])
  {
    seq(|ms|, i requires 0 <= i < |ms| => FromServer(ms[i]))
  }

  /**
   * A fetch fed the server's whole emission receives exactly the
   * handler's values; after `close` it sends one `abort` back, after
   * `error` none.
   */
  lemma RoundTrip(id: nat, values: seq<Value>, failure: Option<Value>)
    ensures var r := Deliver(Fresh(id), AsEvents(Emission(id, values, failure)));
      && r.0.received == values
      && r.0.writer == (if failure.Some? then WriterErrored(failure.value) else WriterClosed)
      && r.0.writerAborted == failure.Some?
      && r.1 == (if failure.Some? then [] else [AbortEnvelope(id)])
  {
    var last := if failure.Some? then Envelope(id, "error", failure.value) else Envelope(id, "close", Undefined);
    assert AsEvents(Emission(id, values, failure)) == AsEvents(Responses(id, values)) + [FromServer(last)];
    DeliverResponses(Fresh(id), values, [FromServer(last)]);
    var f := Fresh(id).(received := [] + values);
    assert [] + values == values;
    assert [FromServer(last)][1..] == [];
  }

  /** The client: one correlation map shared by all fetches. */
  class CustomEventClient {
    const requestEventName: string
    /** `responseHandlers`: a request id to the fetch whose handler is registered under it. */
    var responseHandlers: map<nat, nat>
    /** Every fetch made so far, in call order. */
    var fetches: seq<FetchState>
    /** The messages dispatched to the server, in order. */
    var sent: seq<Envelope>

    ghost predicate Valid()
      reads this
    {
      && (forall id :: id in responseHandlers ==>
            responseHandlers[id] < |fetches| && fetches[responseHandlers[id]].requestId == id)
      && (forall k :: 0 <= k < |fetches| ==> Consistent(fetches[k]) && fetches[k].requestId < IdBound)
    }

    constructor (eventNamePrefix: string)
      ensures Valid()
      ensures requestEventName == RequestEventName(eventNamePrefix)
      ensures responseHandlers == map[] && fetches == [] && sent == []
    {
      requestEventName := RequestEventName(eventNamePrefix);
      responseHandlers := map[];
      fetches := [];
      sent := [];
    }

    /**
     * `fetch(request)` with the random id drawn: the handler is registered
     * under the id, then the `request` is sent. A second fetch drawing the
     * same id takes the entry over.
     */
    method Fetch(request: Value, requestId: nat) returns (index: nat)
      requires Valid() && requestId < IdBound
      modifies this
      ensures Valid()
      ensures index == |old(fetches)| && fetches == old(fetches) + [Fresh(requestId)]
      ensures responseHandlers == old(responseHandlers)[requestId := index]
      ensures sent == old(sent) + [Envelope(requestId, "request", request)]
    {
      index := |fetches|;
      fetches := fetches + [Fresh(requestId)];
      responseHandlers := responseHandlers[requestId := index];
      sent := sent + [Envelope(requestId, "request", request)];
    }

    /**
     * The `-server-to-client` listener: the message goes to the handler
     * under its id alone; with no handler there the call throws and
     * nothing changes. `close` deletes the entry, nothing else does.
     */
    method Dispatch(detail: Envelope) returns (delivered: bool)
      requires Valid()
      modifies this
      ensures Valid()
      ensures delivered <==> detail.requestId in old(responseHandlers)
      ensures !delivered ==> fetches == old(fetches) && sent == old(sent) && responseHandlers == old(responseHandlers)
      ensures delivered ==>
        var k := old(responseHandlers)[detail.requestId];
        var r := Handle(old(fetches)[k], detail);
        && fetches == old(fetches)[k := r.0]
        && sent == old(sent) + r.1
        && responseHandlers == if detail.kind == "close" then old(responseHandlers) - {detail.requestId} else old(responseHandlers)
      ensures forall j :: 0 <= j < |fetches| && (detail.requestId !in old(responseHandlers) || j != old(responseHandlers)[detail.requestId]) ==>
        (j < |old(fetches)| && fetches[j] == old(fetches)[j])
    {
      if detail.requestId !in responseHandlers {
        return false;
      }
      var k := responseHandlers[detail.requestId];
      var r := Handle(fetches[k], detail);
      fetches := fetches[k := r.0];
      sent := sent + r.1;
      if detail.kind == "close" {
        responseHandlers := responseHandlers - {detail.requestId};
      }
      delivered := true;
    }

    /** The reader of fetch `index` cancels its stream. */
    method CancelReader(index: nat, reason: Value)
      requires Valid() && index < |fetches|
      modifies this
      ensures Valid()
      ensures fetches == old(fetches)[index := Cancel(old(fetches)[index], reason).0]
      ensures sent == old(sent) + Cancel(old(fetches)[index], reason).1
      ensures responseHandlers == old(responseHandlers)
    {
      var r := Cancel(fetches[index], reason);
      fetches := fetches[index := r.0];
      sent := sent + r.1;
    }
  }

  /** The server: one abort controller per request in flight. */
  class CustomEventServer {
    const requestEventName: string
    const responseEventName: string
    /** `abortControllers`: a request id to its controller. */
    var abortControllers: map<nat, nat>
    /** Each controller ever made: its abort reason, once aborted. */
    var controllers: seq<Option<Value>>
    /** The messages dispatched to clients, in order. */
    var sent: seq<Envelope>
    /** The client messages only logged. */
    var logged: seq<Envelope>

    ghost predicate Valid()
      reads this
    {
      forall id :: id in abortControllers ==> abortControllers[id] < |controllers|
    }

    constructor (eventNamePrefix: string)
      ensures Valid()
      ensures requestEventName == RequestEventName(eventNamePrefix)
      ensures responseEventName == ResponseEventName(eventNamePrefix)
      ensures abortControllers == map[] && controllers == [] && sent == [] && logged == []
    {
      requestEventName := RequestEventName(eventNamePrefix);
      responseEventName := ResponseEventName(eventNamePrefix);
      abortControllers := map[];
      controllers := [];
      sent := [];
      logged := [];
    }

    /** `abort`: aborts and deletes the entry if there is one; an unknown id changes nothing. */
    method HandleAbort(requestId: nat, payload: Value)
      requires Valid()
      modifies this
      ensures Valid()
      ensures abortControllers == old(abortControllers) - {requestId}
      ensures requestId in old(abortControllers) ==>
        var c := old(abortControllers)[requestId];
        controllers == old(controllers)[c := if old(controllers)[c].None? then Some(payload) else old(controllers)[c]]
      ensures requestId !in old(abortControllers) ==> controllers == old(controllers)
      ensures sent == old(sent) && logged == old(logged)
    {
      if requestId in abortControllers {
        var c := abortControllers[requestId];
        if controllers[c].None? {
          controllers := controllers[c := Some(payload)];
        }
      }
      abortControllers := abortControllers - {requestId};
    }

    /** `request` arrives: a fresh controller is registered under its id. */
    method BeginRequest(requestId: nat) returns (c: nat)
      requires Valid()
      modifies this
      ensures Valid()
      ensures c == |old(controllers)| && controllers == old(controllers) + [None]
      ensures abortControllers == old(abortControllers)[requestId := c]
      ensures sent == old(sent) && logged == old(logged)
    {
      c := |controllers|;
      controllers := controllers + [None];
      abortControllers := abortControllers[requestId := c];
    }

    /** One value from the handler's stream; the abort state is not consulted. */
    method SendResponse(requestId: nat, v: Value)
      modifies this
      ensures sent == old(sent) + [Envelope(requestId, "response", v)]
      ensures abortControllers == old(abortControllers) && controllers == old(controllers) && logged == old(logged)
    {
      sent := sent + [Envelope(requestId, "response", v)];
    }

    /**
     * The end of a request: `close`, or on failure the controller is
     * aborted unless it already was and `error` is sent; then whatever
     * entry is under the id is deleted.
     */
    method FinishRequest(requestId: nat, c: nat, failure: Option<Value>)
      requires Valid() && c < |controllers|
      modifies this
      ensures Valid()
      ensures sent == old(sent) + [if failure.Some? then Envelope(requestId, "error", failure.value) else Envelope(requestId, "close", Undefined)]
      ensures controllers == if failure.Some? && old(controllers)[c].None? then old(controllers)[c := failure] else old(controllers)
      ensures abortControllers == old(abortControllers) - {requestId}
      ensures logged == old(logged)
    {
      if failure.Some? {
        if controllers[c].None? {
          controllers := controllers[c := failure];
        }
        sent := sent + [Envelope(requestId, "error", failure.value)];
      } else {
        sent := sent + [Envelope(requestId, "close", Undefined)];
      }
      abortControllers := abortControllers - {requestId};
    }

    /**
     * A request served without interruption: the `for await` loop sends
     * one `response` per value, then the request ends.
     */
    method ServeRequest(requestId: nat, values: seq<Value>, failure: Option<Value>)
      requires Valid()
      modifies this
      ensures Valid()
      ensures sent == old(sent) + Emission(requestId, values, failure)
      ensures controllers == old(controllers) + [failure]
      ensures abortControllers == old(abortControllers) - {requestId}
      ensures logged == old(logged)
    {
      var c := BeginRequest(requestId);
      var i := 0;
      while i < |values|
        invariant 0 <= i <= |values|
        invariant Valid() && c < |controllers|
        invariant sent == old(sent) + Responses(requestId, values[..i])
        invariant controllers == old(controllers) + [None]
        invariant abortControllers == old(abortControllers)[requestId := c]
        invariant logged == old(logged)
      {
        SendResponse(requestId, values[i]);
        assert Responses(requestId, values[..i + 1]) == Responses(requestId, values[..i]) + [Envelope(requestId, "response", values[i])];
        i := i + 1;
      }
      assert values[..i] == values;
      FinishRequest(requestId, c, failure);
      assert old(abortControllers)[requestId := c] - {requestId} == old(abortControllers) - {requestId};
    }

    /**
     * The `-client-to-server` listener; for a `request`, the handler's
     * values and failure stand for what it does.
     */
    method OnClientMessage(detail: Envelope, values: seq<Value>, failure: Option<Value>)
      requires Valid()
      modifies this
      ensures Valid()
      ensures detail.kind == "request" ==> sent == old(sent) + Emission(detail.requestId, values, failure)
      ensures detail.kind != "request" ==> sent == old(sent)
      ensures detail.kind == "abort" || detail.kind == "request" ==>
        abortControllers == old(abortControllers) - {detail.requestId}
      ensures detail.kind != "abort" && detail.kind != "request" ==>
        logged == old(logged) + [detail] && abortControllers == old(abortControllers) && controllers == old(controllers)
    {
      if detail.kind == "abort" {
        HandleAbort(detail.requestId, detail.payload);
      } else if detail.kind == "request" {
        ServeRequest(detail.requestId, values, failure);
      } else {
        logged := logged + [detail];
      }
    }
  }
}
