/**
 * Concrete sessions over fixed transport scripts: what a client of the
 * session sees in a few typical runs.
 */
module Scenarios {
  import opened Transport
  import opened Lifecycle
  import opened Websocket

  const Echo: Url := Url("echo.example", "80", "ws")
  const AllOk: SetupScript := SetupScript(Ok, Ok, Ok, Ok)
  /** The bytes of "hello". */
  const Hello: Payload := [104, 101, 108, 108, 111]
  /** The error a read reports once the peer has closed the connection. */
  const PeerClosed: FailureCode := 1

  /** The path `run` requests by default. */
  const Root: string := "/"
  const SecureEcho: Url := Url("echo.example", "443", "wss")
  const TlsRefused: SetupScript := SetupScript(Ok, Ok, Fail(5), Ok)
  const HelloEvents: seq<ReadEvent> := [Message(Hello), CloseFrame, ReadFailed(PeerClosed)]
  const TwoMessages: seq<ReadEvent> := [Message(Hello), OtherControl(Ping), Message([]), ReadFailed(PeerClosed)]

  function Script(setup: SetupScript, incoming: seq<ReadEvent>, open: bool): Stream {
    Stream(setup, incoming, [], NoError, open, false, [])
  }

  /** A new session is `Unknown` and has not called its observer. */
  method NewSessionIsUnknown(kind: StreamKind, url: Url, stream: Stream) returns (s: State, calls: nat)
    ensures s == Unknown && calls == 0
  {
    var session := new Session(kind, url, stream);
    s := session.CurrentState();
    calls := |session.observed|;
  }

  /**
   * The peer sends "hello", then a close frame, then the connection reports
   * that it is closed: the handler gets the message once, the observer sees
   * `Connected` then `Closed`, and `Run` returns the read's error.
   */
  method HelloThenClose() returns (r: RunOutcome, observed: seq<State>, delivered: seq<Delivery>, trace: seq<Op>)
    ensures r == Returned(PeerClosed)
    ensures observed == [Connected, Closed]
    ensures delivered == [Delivery(7, Hello)]
    ensures trace == [ResolveOp(Echo.host, Echo.port), ConnectOp, WsHandshakeOp(Echo.host, Root), ControlCallbackOp]
  {
    var session := new Session(Raw, Echo, Script(AllOk, HelloEvents, false));
    session.OnMessage(7);
    RawSetupSucceeds();
    HelloEventsRead();
    assert session.stream.incoming == HelloEvents && session.stream.trace == [] && session.observed == [];
    r := session.Run(Root);
    assert session.observed == [] + [Connected] + [Closed];
    assert session.delivered == [] + [Delivery(7, Hello)];
    assert session.stream.trace == [] + SetupOps(Echo, Root, SetupSteps(Raw)) + [ControlCallbackOp];
    assert !session.stream.open;
    session.Dispose();
    observed, delivered, trace := session.observed, session.delivered, session.stream.trace;
  }

  /** Name resolution fails: nothing else is tried, the state is `Unknown` and the error is raised. */
  method UnreachableHost() returns (r: RunOutcome, s: State, observed: seq<State>, trace: seq<Op>)
    ensures r == Raised(3)
    ensures s == Unknown && observed == [Unknown]
    ensures trace == [ResolveOp(Echo.host, Echo.port)]
  {
    var session := new Session(Raw, Echo, Script(SetupScript(Fail(3), Ok, Ok, Ok), [CloseFrame], false));
    r := session.Run(Root);
    s := session.CurrentState();
    observed, trace := session.observed, session.stream.trace;
  }

  /**
   * The TLS handshake fails: the WebSocket handshake is never attempted, no
   * event is read, and destroying the session closes nothing.
   */
  method TlsHandshakeFails() returns (r: RunOutcome, observed: seq<State>, unread: seq<ReadEvent>, trace: seq<Op>)
    ensures r == Raised(5)
    ensures observed == [Unknown]
    ensures unread == [Message(Hello)]
    ensures trace == [ResolveOp(SecureEcho.host, SecureEcho.port), ConnectOp, TlsHandshakeOp]
  {
    var session := new Session(Tls, SecureEcho, Script(TlsRefused, [Message(Hello)], false));
    TlsSetupFails();
    r := session.Run(Root);
    session.Dispose();
    observed, unread, trace := session.observed, session.stream.incoming, session.stream.trace;
  }

  /** Each send reports its own write's error; a failed write leaves the stream closed, and the state is untouched. */
  method SendTwice() returns (first: ErrorCode, second: ErrorCode, open: bool, s: State)
    ensures first == NoError && second == 4
    ensures !open && s == Unknown
  {
    var session := new Session(Raw, Echo, Stream(AllOk, [], [NoError, 4], NoError, true, false, []));
    first := session.Send(Hello);
    second := session.Send(Hello);
    open := session.stream.open;
    s := session.CurrentState();
  }

  /** Closing twice closes the stream once; neither close changes the state or calls the observer. */
  method CloseTwice() returns (first: ErrorCode, second: ErrorCode, trace: seq<Op>, observed: seq<State>)
    ensures first == 6 && second == NoError
    ensures trace == [CloseOp(1000)]
    ensures observed == []
  {
    var session := new Session(Raw, Echo, Stream(AllOk, [], [], 6, true, false, []));
    first := session.Close();
    second := session.Close();
    trace, observed := session.stream.trace, session.observed;
  }

  /** A handler registered later replaces the earlier one for every delivery. */
  method HandlerReplaced() returns (r: RunOutcome, delivered: seq<Delivery>)
    ensures r == Returned(PeerClosed)
    ensures delivered == [Delivery(2, Hello), Delivery(2, [])]
  {
    var session := new Session(Raw, Echo, Script(AllOk, TwoMessages, false));
    session.OnMessage(1);
    session.OnMessage(2);
    RawSetupSucceeds();
    TwoMessagesRead();
    assert session.stream.incoming == TwoMessages && session.delivered == [] && session.handler == Some(2);
    r := session.Run(Root);
    delivered := session.delivered;
  }

  // ---------------------------------------------------------------- the scripts, evaluated

  lemma RawSetupSucceeds()
    ensures Attempt(AllOk, SetupSteps(Raw)).outcome == Ok
    ensures SetupOps(Echo, Root, SetupSteps(Raw)) + [ControlCallbackOp] ==
      [ResolveOp(Echo.host, Echo.port), ConnectOp, WsHandshakeOp(Echo.host, Root), ControlCallbackOp]
  {
    SetupUnfolds(AllOk, Raw, Echo, Root);
    ConnectionUnfolds(AllOk, Raw);
    assert SetupSteps(Raw) == [Resolve, TcpConnect, WsHandshake];
  }

  lemma TlsSetupFails()
    ensures var a := Attempt(TlsRefused, SetupSteps(Tls));
      && a.outcome == Fail(5)
      && SetupOps(SecureEcho, Root, a.tried) == [ResolveOp(SecureEcho.host, SecureEcho.port), ConnectOp, TlsHandshakeOp]
  {
    SetupUnfolds(TlsRefused, Tls, SecureEcho, Root);
    ConnectionUnfolds(TlsRefused, Tls);
    ConnectionOps(SecureEcho, Root);
    var c := Attempt(TlsRefused, ConnectionSteps(Tls));
    assert c == Attempted([TcpConnect, TlsHandshake], Fail(5));
    assert SetupOps(SecureEcho, Root, c.tried) == [ConnectOp, TlsHandshakeOp];
    assert [StepOp(Resolve, SecureEcho, Root)] == [ResolveOp(SecureEcho.host, SecureEcho.port)];
  }

  lemma HelloEventsRead()
    ensures FailIndex(HelloEvents) == 2 && ReadError(HelloEvents) == PeerClosed && Unread(HelloEvents) == []
    ensures Messages(HelloEvents[..2]) == [Hello]
    ensures Notifications(HelloEvents[..2]) == [Closed]
    ensures CloseFrame in HelloEvents[..2]
    ensures Deliveries(Some(7), Messages(HelloEvents[..2])) == [Delivery(7, Hello)]
  {
    FirstFailure(HelloEvents, 2);
    var read := HelloEvents[..2];
    assert read == [Message(Hello), CloseFrame];
    assert read[1..] == [CloseFrame];
    assert read[1..][1..] == [];
    assert Messages(read[1..]) == [];
    assert Notifications(read[1..]) == [Closed];
  }

  lemma TwoMessagesRead()
    ensures FailIndex(TwoMessages) == 3 && ReadError(TwoMessages) == PeerClosed
    ensures Messages(TwoMessages[..3]) == [Hello, []]
    ensures Deliveries(Some(2), Messages(TwoMessages[..3])) == [Delivery(2, Hello), Delivery(2, [])]
  {
    FirstFailure(TwoMessages, 3);
    var read := TwoMessages[..3];
    assert read == [Message(Hello), OtherControl(Ping), Message([])];
    assert read[1..] == [OtherControl(Ping), Message([])];
    assert read[1..][1..] == [Message([])];
    assert read[1..][1..][1..] == [];
    assert Messages(read[1..][1..]) == [[]];
    assert Messages(read[1..]) == [[]];
  }
}
