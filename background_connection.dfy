/**
 * The point-to-point port protocol between a page-side client and the
 * background script: the client writes one request, the server answers
 * `stream-start`, one `stream-message` per value, possibly `error`, and
 * ends by disconnecting the port.
 */
module BackgroundConnection {
  import opened Wrappers
  import opened JsValues

  /** A message on the port, `{ type, payload }`; `undefined` stands for a missing payload. */
  datatype Message = Message(kind: string, payload: Value)

  function StreamStart(): Message { Message("stream-start", Undefined) }
  function StreamMessage(v: Value): Message { Message("stream-message", v) }
  function ErrorMessage(e: Value): Message { Message("error", e) }

  /** The posted object itself, as an invalid-message error record carries it. */
  function AsValue(m: Message): Value {
    if m.payload == Undefined then Obj([("type", Str(m.kind))])
    else Obj([("type", Str(m.kind)), ("payload", m.payload)])
  }

  /** One `stream-message` per value, in order. */
  function StreamMessages(values: seq<Value>): (ms: seq<Message>)
    ensures |ms| == |values|
    ensures forall i :: 0 <= i < |values| ==> ms[i] == StreamMessage(values[i])
  {
    seq(|values|, i requires 0 <= i < |values| => StreamMessage(values[i]))
  }

  // ---------------------------------------------------------------------
  // The readable side of a stream, as far as the protocol uses it
  // ---------------------------------------------------------------------

  /** A stream still open, closed by its writer, or errored with a reason. */
  datatype StreamState = Open | Closed | Errored(reason: Value)

  /** What `reader.read()` settles to; `Pending` is a read that has to wait. */
  datatype ReadResult<T> = Chunk(value: T) | Done | Failed(reason: Value) | Pending

  /** What a call returned, or the value it threw. */
  datatype Outcome<T> = Returned(value: T) | Threw(reason: Value)

  function Min(a: nat, b: nat): nat { if a <= b then a else b }

  /** The readable end of a stream: the chunks written and not yet read, and its state. */
  class Readable<T> {
    var queue: seq<T>
    var state: StreamState

    /** An errored stream has discarded its queue. */
    ghost predicate Valid()
      reads this
    {
      state.Errored? ==> queue == []
    }

    constructor ()
      ensures Valid() && queue == [] && state == Open
    {
      queue := [];
      state := Open;
    }

    /** `writer.write(x)`: queued while the stream is open, refused otherwise. */
    method Write(x: T)
      requires Valid()
      modifies this
      ensures Valid() && state == old(state)
      ensures queue == if old(state) == Open then old(queue) + [x] else old(queue)
    {
      if state == Open {
        queue := queue + [x];
      }
    }

    /** `writer.close()`: the queued chunks stay readable, then the reader sees `done`. */
    method Close()
      requires Valid()
      modifies this
      ensures Valid() && queue == old(queue)
      ensures state == if old(state) == Open then Closed else old(state)
    {
      if state == Open {
        state := Closed;
      }
    }

    /** `writer.abort(e)`: an open stream errors with `e` and drops its queue. */
    method Abort(e: Value)
      requires Valid()
      modifies this
      ensures Valid()
      ensures old(state) == Open ==> state == Errored(e) && queue == []
      ensures old(state) != Open ==> state == old(state) && queue == old(queue)
    {
      if state == Open {
        state := Errored(e);
        queue := [];
      }
    }

    /** `reader.read()`: the oldest chunk, else `done`, the error, or a wait. */
    method Read() returns (r: ReadResult<T>)
      requires Valid()
      modifies this
      ensures Valid() && state == old(state)
      ensures old(queue) != [] ==> r == Chunk(old(queue)[0]) && queue == old(queue)[1..]
      ensures old(queue) == [] ==> queue == [] && r == match state
        case Open => Pending
        case Closed => Done
        case Errored(e) => Failed(e)
    {
      if queue != [] {
        r := Chunk(queue[0]);
        queue := queue[1..];
      } else {
        r := match state
          case Open => Pending
          case Closed => Done
          case Errored(e) => Failed(e);
      }
    }
  }

  /**
   * `take(n, readable)`: reads until it has `n` chunks or the stream is
   * done; a read that rejects makes `take` throw. Only reads answered by
   * what has already arrived are modelled.
   */
  method Take<T>(n: nat, readable: Readable<T>) returns (result: Outcome<seq<T>>)
    requires readable.Valid()
    requires n <= |readable.queue| || readable.state != Open
    modifies readable
    ensures readable.Valid() && readable.state == old(readable.state)
    ensures result.Threw? <==> n > |old(readable.queue)| && readable.state.Errored?
    ensures result.Threw? ==> result.reason == readable.state.reason
    ensures result.Returned? ==>
      var k := Min(n, |old(readable.queue)|);
      result.value == old(readable.queue)[..k] && readable.queue == old(readable.queue)[k..]
  {
    ghost var q := readable.queue;
    var taken: seq<T> := [];
    var i := 0;
    while i != n
      invariant i <= n && i <= |q|
      invariant readable.Valid() && readable.state == old(readable.state)
      invariant taken == q[..i] && readable.queue == q[i..]
      decreases n - i
    {
      var r := readable.Read();
      match r {
        case Chunk(x) =>
          taken := taken + [x];
          assert q[..i + 1] == q[..i] + [x];
        case Done =>
          return Returned(taken);
        case Failed(e) =>
          return Threw(e);
        case Pending =>
          assert false;
      }
      i := i + 1;
    }
    result := Returned(taken);
  }

  // ---------------------------------------------------------------------
  // The client: BackgroundClientConnection and makeBackgroundRequest
  // ---------------------------------------------------------------------

  /** An `AbortSignal` as the client is handed it. */
  datatype Signal = Signal(aborted: bool, reason: Value)

  /**
   * The client end of one port. `responses` is the readable the port's
   * messages are written to.
   */
  class ClientConnection {
    const responses: Readable<Message>
    /** Set when the background side disconnects the port. */
    var backgroundDisconnected: bool
    /** Set when this side calls `port.disconnect()`. */
    var portDisconnected: bool
    /** Set once the signal's abort event has fired. */
    var abortFired: bool
    /** The requests posted on the port. */
    var posted: seq<Value>

    ghost predicate Valid()
      reads this, responses
    {
      && responses.Valid()
      && (portDisconnected <==> abortFired && !backgroundDisconnected)
      && (responses.state == Open <==> !backgroundDisconnected && !abortFired)
      && (responses.state == Closed <==> backgroundDisconnected)
    }

    /** Connected to the background script, with nothing received yet. */
    constructor ()
      ensures Valid() && fresh(responses)
      ensures responses.queue == [] && responses.state == Open
      ensures !backgroundDisconnected && !portDisconnected && !abortFired && posted == []
    {
      responses := new Readable();
      backgroundDisconnected := false;
      portDisconnected := false;
      abortFired := false;
      posted := [];
    }

    /** The writable side: `port.postMessage(message)` while the port is live. */
    method Send(message: Value)
      requires Valid()
      modifies this
      ensures Valid()
      ensures posted == if !backgroundDisconnected && !portDisconnected then old(posted) + [message] else old(posted)
      ensures backgroundDisconnected == old(backgroundDisconnected)
      ensures portDisconnected == old(portDisconnected) && abortFired == old(abortFired)
    {
      if !backgroundDisconnected && !portDisconnected {
        posted := posted + [message];
      }
    }

    /** `port.onMessage`: every message of a live port is queued, none is lost. */
    method OnMessage(m: Message)
      requires Valid() && !backgroundDisconnected && !portDisconnected
      modifies responses
      ensures Valid()
      ensures responses.queue == old(responses.queue) + [m] && responses.state == Open
    {
      responses.Write(m);
    }

    /** `port.onDisconnect`: the response stream closes cleanly, its queue kept. */
    method OnDisconnect()
      requires Valid() && !backgroundDisconnected && !portDisconnected
      modifies this, responses
      ensures Valid()
      ensures backgroundDisconnected
      ensures responses.state == Closed && responses.queue == old(responses.queue)
      ensures portDisconnected == old(portDisconnected) && abortFired == old(abortFired)
      ensures posted == old(posted)
    {
      responses.Close();
      backgroundDisconnected := true;
    }

    /**
     * The signal's abort event: the port is disconnected only if the
     * background side has not done so already, and the response stream is
     * errored with the event unless it was already closed.
     */
    method OnAbort(e: Value)
      requires Valid() && !abortFired
      modifies this, responses
      ensures Valid()
      ensures abortFired && backgroundDisconnected == old(backgroundDisconnected)
      ensures portDisconnected == !old(backgroundDisconnected)
      ensures !old(backgroundDisconnected) ==> responses.state == Errored(e) && responses.queue == []
      ensures old(backgroundDisconnected) ==> responses.state == Closed && responses.queue == old(responses.queue)
      ensures posted == old(posted)
    {
      if !backgroundDisconnected {
        portDisconnected := true;
      }
      responses.Abort(e);
      abortFired := true;
    }
  }

  /** What `new BackgroundClientConnection(signal)` gives: a connection, or the signal's reason thrown. */
  datatype Connection = Connected(connection: ClientConnection) | Refused(reason: Value)

  /** An already-aborted signal throws its reason before any port is opened. */
  method Connect(signal: Signal) returns (r: Connection)
    ensures r.Refused? <==> signal.aborted
    ensures r.Refused? ==> r.reason == signal.reason
    ensures r.Connected? ==> fresh(r.connection) && r.connection.Valid()
    ensures r.Connected? ==> r.connection.posted == [] && r.connection.responses.queue == []
    ensures r.Connected? ==> !r.connection.backgroundDisconnected && !r.connection.abortFired
  {
    if signal.aborted {
      return Refused(signal.reason);
    }
    var c := new ClientConnection();
    r := Connected(c);
  }

  /** How the stream `makeBackgroundRequest` returns ends. */
  datatype StreamEnd = EndClosed | EndErrored(reason: Value)

  /** What `makeBackgroundRequest` gives: a rejection, or the values its stream yields and how it ends. */
  datatype ClientOutcome = Rejected(reason: Value) | Streamed(values: seq<Value>, end: StreamEnd)

  const NoMessagesError: Value := Str("Port was disconnected before receiving any messages")

  function UnexpectedFirst(kind: string): Value {
    Str("Unexpected message type from background: " + kind)
  }

  /** The error record for a message after the first that is neither `stream-message` nor `error`. */
  function InvalidMessage(m: Message): Value {
    Obj([("error", Str("Invalid message type " + m.kind + " in message from background script.  Expected 'stream-message'.")),
         ("message", AsValue(m))])
  }

  /**
   * The transform the rest of the messages are piped through: payloads of
   * `stream-message` in order, up to the first `error` (its payload) or
   * other message (an invalid-message record), else to the end of the port.
   */
  function Pipe(messages: seq<Message>, state: StreamState): (r: (seq<Value>, StreamEnd))
    requires state != Open
    ensures |r.0| <= |messages|
  {
    if messages == [] then
      ([], if state.Errored? then EndErrored(state.reason) else EndClosed)
    else if messages[0].kind == "error" then ([], EndErrored(messages[0].payload))
    else if messages[0].kind == "stream-message" then
      var rest := Pipe(messages[1..], state);
      ([messages[0].payload] + rest.0, rest.1)
    else ([], EndErrored(InvalidMessage(messages[0])))
  }

  /**
   * The client's reading of everything the port delivered: the first
   * message decides between a rejection and a stream.
   */
  function Interpret(messages: seq<Message>, state: StreamState): (r: ClientOutcome)
    requires state != Open
    ensures r.Streamed? ==> |r.values| < |messages|
  {
    if messages == [] then
      if state.Errored? then Rejected(state.reason) else Rejected(NoMessagesError)
    else if messages[0].kind == "stream-start" then
      var p := Pipe(messages[1..], state);
      Streamed(p.0, p.1)
    else if messages[0].kind == "error" then Rejected(messages[0].payload)
    else Rejected(UnexpectedFirst(messages[0].kind))
  }

  /**
   * `makeBackgroundRequest` once the port has delivered everything: the
   * first message through `take(1, …)`, then the rest through the
   * transform, read to the end.
   */
  method MakeBackgroundRequest(readable: Readable<Message>) returns (outcome: ClientOutcome)
    requires readable.Valid() && readable.state != Open
    modifies readable
    ensures outcome == Interpret(old(readable.queue), old(readable.state))
  {
    ghost var q := readable.queue;
    var first := Take(1, readable);
    if first.Threw? {
      return Rejected(first.reason);
    }
    if first.value == [] {
      return Rejected(NoMessagesError);
    }
    var m := first.value[0];
    if m.kind != "stream-start" {
      if m.kind == "error" {
        return Rejected(m.payload);
      }
      return Rejected(UnexpectedFirst(m.kind));
    }
    var values: seq<Value> := [];
    while true
      invariant readable.Valid() && readable.state == old(readable.state)
      invariant |q| >= 1
      invariant Pipe(q[1..], readable.state).0 == values + Pipe(readable.queue, readable.state).0
      invariant Pipe(q[1..], readable.state).1 == Pipe(readable.queue, readable.state).1
      decreases |readable.queue|
    {
      ghost var before := readable.queue;
      var r := readable.Read();
      match r {
        case Chunk(msg) =>
          if msg.kind == "error" {
            return Streamed(values, EndErrored(msg.payload));
          } else if msg.kind == "stream-message" {
            assert Pipe(before, readable.state).0 == [msg.payload] + Pipe(readable.queue, readable.state).0;
            values := values + [msg.payload];
          } else {
            return Streamed(values, EndErrored(InvalidMessage(msg)));
          }
        case Done =>
          return Streamed(values, EndClosed);
        case Failed(e) =>
          return Streamed(values, EndErrored(e));
        case Pending =>
          assert false;
      }
    }
  }

  /** The first message decides: `stream-start` streams, `error` rejects with its payload, anything else rejects. */
  lemma FirstMessage(m: Message, rest: seq<Message>, state: StreamState)
    requires state != Open
    ensures m.kind == "stream-start" <==> Interpret([m] + rest, state).Streamed?
    ensures m.kind == "error" ==> Interpret([m] + rest, state) == Rejected(m.payload)
    ensures m.kind != "stream-start" && m.kind != "error" ==>
      Interpret([m] + rest, state) == Rejected(UnexpectedFirst(m.kind))
  {
    assert ([m] + rest)[0] == m && ([m] + rest)[1..] == rest;
  }

  /** A port that closes with nothing on it rejects the request; an abort rejects with its reason. */
  lemma NothingReceived(state: StreamState)
    requires state != Open
    ensures state == Closed ==> Interpret([], state) == Rejected(NoMessagesError)
    ensures state.Errored? ==> Interpret([], state) == Rejected(state.reason)
  {
  }

  /** `stream-message` payloads come out in order, and the port's close ends the stream cleanly. */
  lemma {:induction false} PipeMessages(values: seq<Value>, tail: seq<Message>, state: StreamState)
    requires state != Open
    ensures Pipe(StreamMessages(values) + tail, state)
         == (values + Pipe(tail, state).0, Pipe(tail, state).1)
  {
    if values != [] {
      var ms := StreamMessages(values) + tail;
      assert ms[0] == StreamMessage(values[0]);
      assert ms[1..] == StreamMessages(values[1..]) + tail;
      PipeMessages(values[1..], tail, state);
      var rest := Pipe(tail, state);
      assert Pipe(ms, state) == ([values[0]] + Pipe(ms[1..], state).0, Pipe(ms[1..], state).1);
      assert [values[0]] + (values[1..] + rest.0) == values + rest.0;
    } else {
      assert StreamMessages(values) + tail == tail;
      assert values + Pipe(tail, state).0 == Pipe(tail, state).0;
    }
  }

  /**
   * Once the stream has started, the first message that is not a
   * `stream-message` ends it, whatever follows and however the port ends:
   * an `error` with its payload, any other type with the invalid-message
   * record.
   */
  lemma StreamStops(values: seq<Value>, m: Message, rest: seq<Message>, state: StreamState)
    requires state != Open
    requires m.kind != "stream-message"
    ensures Interpret([StreamStart()] + StreamMessages(values) + [m] + rest, state)
         == Streamed(values, if m.kind == "error" then EndErrored(m.payload) else EndErrored(InvalidMessage(m)))
  {
    var ms := [StreamStart()] + StreamMessages(values) + [m] + rest;
    assert ms[0] == StreamStart();
    assert ms[1..] == StreamMessages(values) + ([m] + rest);
    PipeMessages(values, [m] + rest, state);
    assert ([m] + rest)[0] == m;
    assert values + [] == values;
  }

  // ---------------------------------------------------------------------
  // The server: runBackgroundScriptServer, one port
  // ---------------------------------------------------------------------

  /** Where the server's handler run is. */
  datatype Phase = AwaitingHandler | Streaming | Finished

  /** What happens to one port after the request arrived. */
  datatype ServerEvent =
    | Resolve             // the request handler resolves to a stream
    | Yield(value: Value) // the stream produces a value
    | Complete            // the stream ends
    | Fail(error: Value)  // the handler rejects, or the stream throws
    | ClientDisconnect    // the client disconnects the port

  /** The server's state for one port. */
  datatype ServerState = ServerState(
    phase: Phase,
    clientDisconnected: bool,
    abortReason: Option<Value>, // the handler signal's reason, once aborted
    posted: seq<Message>,       // messages delivered to the client
    portClosed: bool,           // the server has disconnected the port
    rethrown: Option<Value>)    // the error rethrown to the console

  const PortDisconnected: Value := Str("port disconnected")

  /** What `postMessage` throws on a port the other side has disconnected. */
  const DisconnectedPortError: Value := Str("Attempting to use a disconnected port object")

  function Initial(): ServerState {
    ServerState(AwaitingHandler, false, None, [], false, None)
  }

  /** `aborter.abort(reason)`: a second abort keeps the first reason. */
  function AbortWith(current: Option<Value>, reason: Value): (r: Option<Value>)
    ensures current.Some? ==> r == current
    ensures current.None? ==> r == Some(reason)
  {
    if current.Some? then current else Some(reason)
  }

  /**
   * The `catch` and `finally` blocks: abort the signal unless already
   * aborted, post `error` and disconnect unless the client is gone.
   */
  function Failure(s: ServerState, e: Value): (r: ServerState)
    ensures r.abortReason.Some? && (s.abortReason.Some? ==> r.abortReason == s.abortReason)
  {
    ServerState(
      Finished,
      s.clientDisconnected,
      AbortWith(s.abortReason, e),
      if s.clientDisconnected then s.posted else s.posted + [ErrorMessage(e)],
      !s.clientDisconnected,
      Some(e))
  }

  /** Posting a message: delivered while the client is connected, else `postMessage` throws. */
  function Post(s: ServerState, m: Message, next: Phase): (r: ServerState)
    ensures s.posted <= r.posted && |r.posted| <= |s.posted| + 1
  {
    if s.clientDisconnected then Failure(s, DisconnectedPortError)
    else s.(posted := s.posted + [m], phase := next)
  }

  /** One event; an event that cannot happen in the current phase changes nothing. */
  function Step(s: ServerState, ev: ServerEvent): (r: ServerState)
    ensures s.posted <= r.posted && |r.posted| <= |s.posted| + 1
  {
    match ev
    case ClientDisconnect =>
      if s.clientDisconnected || s.portClosed then s
      else s.(clientDisconnected := true, abortReason := AbortWith(s.abortReason, PortDisconnected))
    case Resolve =>
      if s.phase != AwaitingHandler then s else Post(s, StreamStart(), Streaming)
    case Yield(v) =>
      if s.phase != Streaming then s else Post(s, StreamMessage(v), Streaming)
    case Complete =>
      if s.phase != Streaming then s else s.(phase := Finished, portClosed := !s.clientDisconnected)
    case Fail(e) =>
      if s.phase == Finished then s else Failure(s, e)
  }

  /** The state after a sequence of events. */
  function RunFrom(s: ServerState, events: seq<ServerEvent>): (r: ServerState)
    ensures s.posted <= r.posted && |r.posted| <= |s.posted| + |events|
    decreases |events|
  {
    if events == [] then s else RunFrom(Step(s, events[0]), events[1..])
  }

  function Yields(values: seq<Value>): (evs: seq<ServerEvent>)
    ensures |evs| == |values|
    ensures forall i :: 0 <= i < |values| ==> evs[i] == Yield(values[i])
  {
    seq(|values|, i requires 0 <= i < |values| => Yield(values[i]))
  }

  /** One port of the server. */
  class PortServer {
    var phase: Phase
    var clientDisconnected: bool
    var abortReason: Option<Value>
    var posted: seq<Message>
    var portClosed: bool
    var rethrown: Option<Value>

    function State(): ServerState
      reads this
    {
      ServerState(phase, clientDisconnected, abortReason, posted, portClosed, rethrown)
    }

    /** The server keeps its own rules: it closes the port only once finished, and only while the client is there. */
    ghost predicate Valid()
      reads this
    {
      && (portClosed ==> phase == Finished && !clientDisconnected)
      && (clientDisconnected ==> abortReason.Some?)
      && (rethrown.Some? ==> phase == Finished)
      && (phase == Finished ==> portClosed || clientDisconnected)
    }

    /** The request has arrived; the handler has been called with the signal. */
    constructor ()
      ensures Valid() && State() == Initial()
    {
      phase := AwaitingHandler;
      clientDisconnected := false;
      abortReason := None;
      posted := [];
      portClosed := false;
      rethrown := None;
    }

    method HandlerFailed(e: Value)
      requires Valid() && phase != Finished
      modifies this
      ensures Valid() && State() == Failure(old(State()), e)
    {
      if abortReason.None? {
        abortReason := Some(e);
      }
      if !clientDisconnected {
        posted := posted + [ErrorMessage(e)];
      }
      rethrown := Some(e);
      portClosed := !clientDisconnected;
      phase := Finished;
    }

    method PostMessage(m: Message, next: Phase)
      requires Valid() && phase != Finished && next != Finished
      modifies this
      ensures Valid() && State() == Post(old(State()), m, next)
    {
      if clientDisconnected {
        HandlerFailed(DisconnectedPortError);
      } else {
        posted := posted + [m];
        phase := next;
      }
    }

    /** The handler resolved: `stream-start` is posted only now. */
    method HandlerResolved()
      requires Valid() && phase == AwaitingHandler
      modifies this
      ensures Valid() && State() == Step(old(State()), Resolve)
    {
      PostMessage(StreamStart(), Streaming);
    }

    /** One turn of the `for await` loop. */
    method StreamYielded(v: Value)
      requires Valid() && phase == Streaming
      modifies this
      ensures Valid() && State() == Step(old(State()), Yield(v))
    {
      PostMessage(StreamMessage(v), Streaming);
    }

    /**
     * The `for await` loop over values the stream has ready: one
     * `stream-message` each, until a post fails.
     */
    method Pump(values: seq<Value>)
      requires Valid() && phase == Streaming
      modifies this
      ensures Valid() && State() == RunFrom(old(State()), Yields(values))
    {
      var i := 0;
      while i < |values| && phase == Streaming
        invariant 0 <= i <= |values|
        invariant Valid() && phase != AwaitingHandler
        invariant RunFrom(old(State()), Yields(values)) == RunFrom(State(), Yields(values[i..]))
      {
        assert Yields(values[i..])[0] == ServerEvent.Yield(values[i]);
        assert Yields(values[i..])[1..] == Yields(values[i + 1..]);
        StreamYielded(values[i]);
        i := i + 1;
      }
      if i < |values| {
        FinishedIsFinal(State(), Yields(values[i..]));
      } else {
        assert Yields(values[i..]) == [];
      }
    }

    /** The stream ended: no closing message, the port is disconnected instead. */
    method StreamCompleted()
      requires Valid() && phase == Streaming
      modifies this
      ensures Valid() && State() == Step(old(State()), Complete)
    {
      phase := Finished;
      portClosed := !clientDisconnected;
    }

    /** `port.onDisconnect`: the handler's signal is aborted with `'port disconnected'`. */
    method OnClientDisconnect()
      requires Valid() && !clientDisconnected && !portClosed
      modifies this
      ensures Valid() && State() == Step(old(State()), ClientDisconnect)
    {
      clientDisconnected := true;
      if abortReason.None? {
        abortReason := Some(PortDisconnected);
      }
    }
  }

  lemma {:induction false} RunAppend(s: ServerState, a: seq<ServerEvent>, b: seq<ServerEvent>)
    ensures RunFrom(s, a + b) == RunFrom(RunFrom(s, a), b)
    decreases |a|
  {
    if a != [] {
      assert (a + b)[0] == a[0] && (a + b)[1..] == a[1..] + b;
      RunAppend(Step(s, a[0]), a[1..], b);
    } else {
      assert a + b == b;
    }
  }

  /** Once the handler run is over, nothing changes any more. */
  lemma {:induction false} FinishedIsFinal(s: ServerState, events: seq<ServerEvent>)
    requires s.phase == Finished && (s.portClosed || s.clientDisconnected)
    ensures RunFrom(s, events) == s
    decreases |events|
  {
    if events != [] {
      FinishedIsFinal(Step(s, events[0]), events[1..]);
    }
  }

  /** Nothing is posted once the client has disconnected. */
  lemma {:induction false} SilentAfterDisconnect(s: ServerState, events: seq<ServerEvent>)
    requires s.clientDisconnected && !s.portClosed
    ensures RunFrom(s, events).posted == s.posted
    ensures RunFrom(s, events).clientDisconnected && !RunFrom(s, events).portClosed
    decreases |events|
  {
    if events != [] {
      var t := Step(s, events[0]);
      assert t.posted == s.posted && t.clientDisconnected && !t.portClosed;
      SilentAfterDisconnect(t, events[1..]);
    }
  }

  /** One value while the client stays: one `stream-message`, nothing else changes. */
  lemma YieldStep(s: ServerState, v: Value)
    requires s.phase == Streaming && !s.clientDisconnected
    ensures Step(s, Yield(v)) == s.(posted := s.posted + [StreamMessage(v)])
  {
  }

  /** While the client stays, each value becomes one `stream-message`, in production order. */
  lemma {:induction false} StreamingPosts(s: ServerState, values: seq<Value>)
    requires s.phase == Streaming && !s.clientDisconnected
    ensures RunFrom(s, Yields(values)) == s.(posted := s.posted + StreamMessages(values))
    decreases |values|
  {
    if values == [] {
      assert Yields(values) == [];
      assert s.posted + StreamMessages(values) == s.posted;
    } else {
      var t := s.(posted := s.posted + [StreamMessage(values[0])]);
      StreamingPosts(t, values[1..]);
      YieldsFirst(s, values);
      MessagesFirst(s.posted, values);
    }
  }

  /** The first value, then the rest from the state it leaves. */
  lemma YieldsFirst(s: ServerState, values: seq<Value>)
    requires s.phase == Streaming && !s.clientDisconnected && values != []
    ensures RunFrom(s, Yields(values))
         == RunFrom(s.(posted := s.posted + [StreamMessage(values[0])]), Yields(values[1..]))
  {
    var evs := Yields(values);
    assert evs[0] == Yield(values[0]) && evs[1..] == Yields(values[1..]);
    YieldStep(s, values[0]);
  }

  /** The first value's message, then the rest's. */
  lemma MessagesFirst(posted: seq<Message>, values: seq<Value>)
    requires values != []
    ensures posted + [StreamMessage(values[0])] + StreamMessages(values[1..]) == posted + StreamMessages(values)
  {
    assert StreamMessages(values) == [StreamMessage(values[0])] + StreamMessages(values[1..]);
  }

  /** A handler that rejects before resolving sends `error` and never `stream-start`. */
  lemma RejectedHandler(e: Value, later: seq<ServerEvent>)
    ensures RunFrom(Initial(), [Fail(e)] + later).posted == [ErrorMessage(e)]
    ensures RunFrom(Initial(), [Fail(e)] + later).abortReason == Some(e)
    ensures RunFrom(Initial(), [Fail(e)] + later).portClosed
  {
    RunAppend(Initial(), [Fail(e)], later);
    var s := RunFrom(Initial(), [Fail(e)]);
    assert s == Failure(Initial(), e);
    FinishedIsFinal(s, later);
  }

  /** The whole exchange when the stream completes: `stream-start`, the values, then a disconnect. */
  lemma CompletedExchange(values: seq<Value>)
    ensures var s := RunFrom(Initial(), [Resolve] + Yields(values) + [Complete]);
      && s.posted == [StreamStart()] + StreamMessages(values)
      && s.portClosed && s.abortReason == None && s.rethrown == None
      && Interpret(s.posted, Closed) == Streamed(values, EndClosed)
  {
    var s1 := Step(Initial(), Resolve);
    assert RunFrom(Initial(), [Resolve]) == s1;
    RunAppend(Initial(), [Resolve], Yields(values));
    StreamingPosts(s1, values);
    var s2 := RunFrom(s1, Yields(values));
    RunAppend(Initial(), [Resolve] + Yields(values), [Complete]);
    assert RunFrom(s2, [Complete]) == Step(s2, Complete);
    var s := Step(s2, Complete);
    PipeMessages(values, [], Closed);
    assert s.posted[1..] == StreamMessages(values) + [];
  }

  /** A run of one event is that event's step. */
  lemma RunOne(s: ServerState, ev: ServerEvent)
    ensures RunFrom(s, [ev]) == Step(s, ev)
  {
    assert [ev][1..] == [];
  }

  /** The server's side when the stream throws `e`: the values, then `error`, then a disconnect. */
  lemma FailedRun(values: seq<Value>, e: Value)
    ensures var s := RunFrom(Initial(), [Resolve] + Yields(values) + [Fail(e)]);
      && s.posted == [StreamStart()] + StreamMessages(values) + [ErrorMessage(e)]
      && s.portClosed && s.abortReason == Some(e) && s.rethrown == Some(e)
  {
    var s1 := Initial().(posted := [StreamStart()], phase := Streaming);
    RunOne(Initial(), Resolve);
    assert RunFrom(Initial(), [Resolve]) == s1;
    RunAppend(Initial(), [Resolve], Yields(values));
    StreamingPosts(s1, values);
    var s2 := s1.(posted := s1.posted + StreamMessages(values));
    assert RunFrom(Initial(), [Resolve] + Yields(values)) == s2;
    RunAppend(Initial(), [Resolve] + Yields(values), [Fail(e)]);
    RunOne(s2, Fail(e));
    assert Step(s2, Fail(e)) == Failure(s2, e);
  }

  /** The whole exchange when the stream throws `e`: the client's stream errors with `e` after the values. */
  lemma FailedExchange(values: seq<Value>, e: Value)
    ensures var s := RunFrom(Initial(), [Resolve] + Yields(values) + [Fail(e)]);
      && s.posted == [StreamStart()] + StreamMessages(values) + [ErrorMessage(e)]
      && s.portClosed && s.abortReason == Some(e) && s.rethrown == Some(e)
      && Interpret(s.posted, Closed) == Streamed(values, EndErrored(e))
  {
    FailedRun(values, e);
    var posted := [StreamStart()] + StreamMessages(values) + [ErrorMessage(e)];
    PipeMessages(values, [ErrorMessage(e)], Closed);
    assert posted[1..] == StreamMessages(values) + [ErrorMessage(e)];
  }

  /** A handler rejection reaches the client as the rejection of its request. */
  lemma RejectedExchange(e: Value)
    ensures Interpret(RunFrom(Initial(), [Fail(e)]).posted, Closed) == Rejected(e)
  {
    RejectedHandler(e, []);
    assert [Fail(e)] + [] == [Fail(e)];
  }

  /**
   * A client that disconnects after `k` values: the handler's signal is
   * aborted with `'port disconnected'`, nothing more is posted whatever
   * the handler does, and the server leaves the port alone.
   */
  lemma DisconnectedExchange(values: seq<Value>, later: seq<ServerEvent>)
    ensures var s := RunFrom(Initial(), [Resolve] + Yields(values) + [ClientDisconnect] + later);
      && s.posted == [StreamStart()] + StreamMessages(values)
      && s.abortReason == Some(PortDisconnected)
      && !s.portClosed
  {
    var s1 := Step(Initial(), Resolve);
    assert RunFrom(Initial(), [Resolve]) == s1;
    RunAppend(Initial(), [Resolve], Yields(values));
    StreamingPosts(s1, values);
    var s2 := RunFrom(s1, Yields(values));
    RunAppend(Initial(), [Resolve] + Yields(values), [ClientDisconnect]);
    assert RunFrom(s2, [ClientDisconnect]) == Step(s2, ClientDisconnect);
    var s3 := Step(s2, ClientDisconnect);
    RunAppend(Initial(), [Resolve] + Yields(values) + [ClientDisconnect], later);
    SilentAfterDisconnect(s3, later);
    AbortKept(s3, later);
  }

  /** Once aborted, the signal's reason never changes. */
  lemma {:induction false} AbortKept(s: ServerState, events: seq<ServerEvent>)
    requires s.abortReason.Some?
    ensures RunFrom(s, events).abortReason == s.abortReason
    decreases |events|
  {
    if events != [] {
      AbortKept(Step(s, events[0]), events[1..]);
    }
  }
}
