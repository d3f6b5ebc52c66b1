/**
 * The WebSocket client session: one connection over a raw or TLS stream, its
 * state machine, the blocking `Run` (setup, then the receive loop), `Send`,
 * `Close` and handler registration. The state-change observer and the
 * message handler are user code; the session records each call of them.
 */
module Websocket {
  import opened Transport
  import opened Lifecycle

  class Session {
    const kind: StreamKind
    const url: Url
    /** Kept from the URL at construction; nothing reads it. */
    const scheme: string

    var stream: Stream
    var currentState: State
    var handler: Option<HandlerId>
    /** Every call of the state-change observer, with the state it was given. */
    var observed: seq<State>
    /** Every call of a message handler. */
    var delivered: seq<Delivery>

    /** The observer has seen every state change, so its last call names the current state. */
    ghost predicate Valid()
      reads this
      ensures Valid() && currentState != Unknown ==> observed != []
    {
      && (observed == [] ==> currentState == Unknown)
      && (observed != [] ==> observed[|observed| - 1] == currentState)
    }

    constructor (kind: StreamKind, url: Url, stream: Stream)
      ensures Valid()
      ensures this.kind == kind && this.url == url && this.scheme == url.scheme && this.stream == stream
      ensures currentState == Unknown && observed == []
      ensures handler == None && delivered == []
    {
      this.kind := kind;
      this.url := url;
      this.scheme := url.scheme;
      this.stream := stream;
      currentState := Unknown;
      handler := None;
      observed := [];
      delivered := [];
    }

    /** Stores the new state, then calls the observer once with it. */
    method SetCurrentState(s: State)
      modifies this`currentState, this`observed
      ensures Valid()
      ensures currentState == s && observed == old(observed) + [s]
    {
      currentState := s;
      observed := observed + [s];
    }

    function CurrentState(): (s: State)
      reads this
      requires Valid()
      ensures observed == [] ==> s == Unknown
      ensures observed != [] ==> s == observed[|observed| - 1]
    {
      currentState
    }

    /** One call on the resolver or stream that carries out a setup step. */
    method PerformStep(step: Step, path: string) returns (o: Outcome)
      modifies this`stream
      ensures o == old(stream).setup.OutcomeOf(step)
      ensures stream == old(stream).(
        trace := old(stream.trace) + [StepOp(step, url, path)],
        open := old(stream.open) || (step == WsHandshake && o.Ok?))
    {
      o := stream.setup.OutcomeOf(step);
      stream := stream.(
        trace := stream.trace + [StepOp(step, url, path)],
        open := stream.open || (step == WsHandshake && o.Ok?));
    }

    /** The stream-specific connection routine, chosen by the stream type; the first failing step ends it. */
    method MakeConnection(path: string) returns (o: Outcome)
      modifies this`stream
      ensures var a := Attempt(old(stream).setup, ConnectionSteps(kind));
        && o == a.outcome
        && stream == old(stream).(
          trace := old(stream.trace) + SetupOps(url, path, a.tried),
          open := old(stream.open) || o.Ok?)
    {
      if kind == Raw {
        o := MakeRawConnection(path);
      } else {
        o := MakeTlsConnection(path);
      }
    }

    /** The raw-stream routine: TCP connect, then the WebSocket handshake. */
    method MakeRawConnection(path: string) returns (o: Outcome)
      modifies this`stream
      ensures var a := Attempt(old(stream).setup, ConnectionSteps(Raw));
        && o == a.outcome
        && stream == old(stream).(
          trace := old(stream.trace) + SetupOps(url, path, a.tried),
          open := old(stream.open) || o.Ok?)
    {
      ConnectionUnfolds(stream.setup, Raw);
      ConnectionOps(url, path);
      ghost var t0 := stream.trace;
      o := PerformStep(TcpConnect, path);
      if o.Ok? {
        o := PerformStep(WsHandshake, path);
        Associative(t0, [ConnectOp], [WsHandshakeOp(url.host, path)]);
        assert stream.trace == t0 + [ConnectOp, WsHandshakeOp(url.host, path)];
      }
    }

    /** The TLS-stream routine: TCP connect, the TLS client handshake, then the WebSocket handshake. */
    method MakeTlsConnection(path: string) returns (o: Outcome)
      modifies this`stream
      ensures var a := Attempt(old(stream).setup, ConnectionSteps(Tls));
        && o == a.outcome
        && stream == old(stream).(
          trace := old(stream.trace) + SetupOps(url, path, a.tried),
          open := old(stream.open) || o.Ok?)
    {
      ConnectionUnfolds(stream.setup, Tls);
      ConnectionOps(url, path);
      ghost var t0 := stream.trace;
      o := PerformStep(TcpConnect, path);
      if o.Ok? {
        o := PerformStep(TlsHandshake, path);
        Associative(t0, [ConnectOp], [TlsHandshakeOp]);
        assert stream.trace == t0 + [ConnectOp, TlsHandshakeOp];
        if o.Ok? {
          o := PerformStep(WsHandshake, path);
          Associative(t0, [ConnectOp, TlsHandshakeOp], [WsHandshakeOp(url.host, path)]);
          assert stream.trace == t0 + [ConnectOp, TlsHandshakeOp, WsHandshakeOp(url.host, path)];
        }
      }
    }

    /**
     * The control frames a read handles before it completes; the installed
     * control callback sets `Closed` for each close frame.
     */
    method HandleControlFrames()
      requires Valid() && stream.controlCallback
      modifies this`stream, this`currentState, this`observed
      ensures Valid()
      ensures var evs := old(stream.incoming); var j := ReadEnd(evs);
        && stream == old(stream).(incoming := evs[j..])
        && observed == old(observed) + Notifications(evs[..j])
    {
      ghost var evs := stream.incoming;
      ReadEndIsFirst(evs);
      ghost var c: nat := 0;
      while stream.incoming != [] && IsControl(stream.incoming[0])
        invariant Valid()
        invariant c <= ReadEnd(evs)
        invariant stream == old(stream).(incoming := evs[c..])
        invariant observed == old(observed) + Notifications(evs[..c])
        decreases |stream.incoming|
      {
        ghost var seen := observed;
        var ev := stream.incoming[0];
        assert ev == evs[c];
        stream := stream.(incoming := stream.incoming[1..]);
        assert stream.incoming == evs[c + 1..];
        if ev.CloseFrame? {
          SetCurrentState(Closed);
        }
        ghost var note: seq<State> := if ev.CloseFrame? then [Closed] else [];
        assert observed == seen + note;
        NotificationsSnoc(evs, c);
        Associative(old(observed), Notifications(evs[..c]), note);
        c := c + 1;
      }
    }

    /**
     * The blocking read of the stream: handles control frames on the way and
     * completes with the first message or failure.
     */
    method ReadMessage() returns (ec: ErrorCode, payload: Payload)
      requires Valid() && stream.controlCallback
      modifies this`stream, this`currentState, this`observed
      ensures Valid()
      ensures var n := NextRead(old(stream.incoming));
        && ec == n.ec && payload == n.payload
        && stream == old(stream).(incoming := n.rest, open := old(stream.open) && !Failed(ec))
        && observed == old(observed) + n.closes
    {
      ghost var evs := stream.incoming;
      HandleControlFrames();
      ghost var j := ReadEnd(evs);
      if stream.incoming == [] {
        assert evs[..j] == evs;
        ec, payload := EndOfStream, [];
        stream := stream.(open := false);
      } else {
        var ev := stream.incoming[0];
        assert ev == evs[j];
        stream := stream.(incoming := stream.incoming[1..]);
        if ev.Message? {
          ec, payload := NoError, ev.payload;
        } else {
          ec, payload := ev.ec, [];
          stream := stream.(open := false);
        }
      }
    }

    /** Setup: resolution, then the connection routine; the first failing step ends it. */
    method Setup(path: string) returns (o: Outcome)
      modifies this`stream
      ensures var a := Attempt(old(stream).setup, SetupSteps(kind));
        && o == a.outcome
        && stream == old(stream).(
          trace := old(stream.trace) + SetupOps(url, path, a.tried),
          open := old(stream.open) || o.Ok?)
    {
      ghost var s0 := stream;
      SetupUnfolds(s0.setup, kind, url, path);
      o := PerformStep(Resolve, path);
      if o.Ok? {
        ghost var s1 := stream;
        o := MakeConnection(path);
        ghost var tail := SetupOps(url, path, Attempt(s0.setup, ConnectionSteps(kind)).tried);
        assert stream.trace == s0.trace + [StepOp(Resolve, url, path)] + tail;
        Associative(s0.trace, [StepOp(Resolve, url, path)], tail);
      }
    }

    /** One pass of the receive loop: a read, then the message to the handler if the read succeeded. */
    method ReceiveOne() returns (code: ErrorCode)
      requires Valid() && stream.controlCallback
      modifies this`stream, this`currentState, this`observed, this`delivered
      ensures Valid()
      ensures var n := NextRead(old(stream.incoming));
        && code == n.ec
        && stream == old(stream).(incoming := n.rest, open := old(stream.open) && !Failed(code))
        && observed == old(observed) + n.closes
        && delivered == old(delivered) + (if !Failed(code) && handler.Some? then [Delivery(handler.value, n.payload)] else [])
    {
      var payload;
      code, payload := ReadMessage();
      if !Failed(code) && handler.Some? {
        delivered := delivered + [Delivery(handler.value, payload)];
      }
    }

    /**
     * The receive loop: reads until the first failing read, hands each message
     * to the registered handler, if any, and returns that read's error.
     */
    method Receive() returns (ec: FailureCode)
      requires Valid() && stream.controlCallback
      modifies this`stream, this`currentState, this`observed, this`delivered
      ensures Valid()
      ensures var evs := old(stream.incoming); var k := FailIndex(evs);
        && ec == ReadError(evs)
        && observed == old(observed) + Notifications(evs[..k])
        && delivered == old(delivered) + Deliveries(handler, Messages(evs[..k]))
        && stream == old(stream).(incoming := Unread(evs), open := false)
    {
      ghost var evs := stream.incoming;
      ghost var i: nat := 0;
      var code: ErrorCode := NoError;
      while true
        invariant Valid()
        invariant i <= |evs| && i <= FailIndex(evs)
        invariant stream == old(stream).(incoming := evs[i..], open := stream.open)
        invariant observed == old(observed) + Notifications(evs[..i])
        invariant delivered == old(delivered) + Deliveries(handler, Messages(evs[..i]))
        decreases |stream.incoming|
      {
        ghost var n := NextRead(evs[i..]);
        code := ReceiveOne();
        Associative(old(observed), Notifications(evs[..i]), n.closes);
        if Failed(code) {
          ReadStepFails(evs, i);
          break;
        }
        ghost var next := ReadStepSucceeds(evs, i);
        ghost var ms := Messages(evs[..i]);
        DeliveriesSnoc(handler, ms, n.payload);
        ghost var more := if handler.Some? then [Delivery(handler.value, n.payload)] else [];
        Associative(old(delivered), Deliveries(handler, ms), more);
        i := next;
      }
      ec := code;
    }

    /**
     * Runs setup; a failing step sets `Unknown` and raises its error.
     * Otherwise installs the control callback, sets `Connected` and runs the
     * receive loop, returning the error of the read that ended it.
     */
    method Run(path: string) returns (r: RunOutcome)
      requires Valid()
      modifies this`stream, this`currentState, this`observed, this`delivered
      ensures Valid()
      ensures var a := Attempt(old(stream).setup, SetupSteps(kind));
        a.outcome.Fail? ==>
          && r == Raised(a.outcome.ec)
          && currentState == Unknown
          && observed == old(observed) + [Unknown]
          && delivered == old(delivered)
          && stream == old(stream).(trace := old(stream.trace) + SetupOps(url, path, a.tried))
      ensures var a := Attempt(old(stream).setup, SetupSteps(kind));
        var evs := old(stream.incoming); var k := FailIndex(evs);
        a.outcome.Ok? ==>
          && r == Returned(ReadError(evs))
          && currentState == (if CloseFrame in evs[..k] then Closed else Connected)
          && observed == old(observed) + [Connected] + Notifications(evs[..k])
          && delivered == old(delivered) + Deliveries(handler, Messages(evs[..k]))
          && stream == old(stream).(
            trace := old(stream.trace) + SetupOps(url, path, SetupSteps(kind)) + [ControlCallbackOp],
            incoming := Unread(evs),
            open := false,
            controlCallback := true)
    {
      var o := Setup(path);
      if o.Fail? {
        SetCurrentState(Unknown);
        r := Raised(o.ec);
        return;
      }
      stream := stream.(controlCallback := true, trace := stream.trace + [ControlCallbackOp]);
      SetCurrentState(Connected);
      ghost var evs := stream.incoming;
      var ec := Receive();
      NotificationsAreCloses(evs[..FailIndex(evs)]);
      r := Returned(ec);
    }

    /** Writes one message; returns exactly the write's error code. */
    method Send(data: Payload) returns (ec: ErrorCode)
      requires Valid()
      modifies this`stream
      ensures Valid()
      ensures ec == old(stream).NextWriteResult()
      ensures stream == old(stream).(
        writeResults := old(stream).RemainingWriteResults(),
        open := old(stream.open) && !Failed(ec),
        trace := old(stream.trace) + [WriteOp(data)])
    {
      ec := stream.NextWriteResult();
      stream := stream.(
        writeResults := stream.RemainingWriteResults(),
        open := stream.open && !Failed(ec),
        trace := stream.trace + [WriteOp(data)]);
    }

    /** Closes the stream with the normal close code if it is open; otherwise succeeds without touching it. */
    method Close() returns (ec: ErrorCode)
      requires Valid()
      modifies this`stream
      ensures Valid()
      ensures old(stream.open) ==>
        ec == old(stream.closeResult) && stream == old(stream).(open := false, trace := old(stream.trace) + [CloseOp(NormalClosure)])
      ensures !old(stream.open) ==> ec == NoError && stream == old(stream)
    {
      ec := NoError;
      if stream.open {
        ec := stream.closeResult;
        stream := stream.(open := false, trace := stream.trace + [CloseOp(NormalClosure)]);
      }
    }

    /** Replaces any registered message handler. */
    method OnMessage(h: HandlerId)
      requires Valid()
      modifies this`handler
      ensures Valid()
      ensures handler == Some(h)
    {
      handler := Some(h);
    }

    /** What destruction does: always closes, and the result is discarded. */
    method Dispose()
      requires Valid()
      modifies this`stream
      ensures Valid()
      ensures old(stream.open) ==> stream == old(stream).(open := false, trace := old(stream.trace) + [CloseOp(NormalClosure)])
      ensures !old(stream.open) ==> stream == old(stream)
    {
      var _ := Close();
    }
  }
}
