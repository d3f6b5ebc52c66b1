/**
 * Pure specification of a session's lifecycle: the connection states, the
 * order of the setup steps and where setup stops, and what the receive loop
 * consumes, delivers and reports.
 */
module Lifecycle {
  import opened Transport

  /** The connection state; `Unknown` is both "never connected" and "setup failed". */
  datatype State = Unknown | Closed | Connected

  datatype Option<T> = None | Some(value: T)

  /** Stands for the identity of a registered message handler. */
  type HandlerId = nat

  /** One call of a message handler with one received message. */
  datatype Delivery = Delivery(handler: HandlerId, payload: Payload)

  /** How `run` ends: the setup error is raised, a read error is returned. */
  datatype RunOutcome = Raised(error: FailureCode) | Returned(ec: ErrorCode)

  // ---------------------------------------------------------------- setup

  /** The steps of the stream-specific connection routine. */
  function ConnectionSteps(kind: StreamKind): (steps: seq<Step>)
    ensures |steps| == if kind == Tls then 3 else 2
    ensures steps[0] == TcpConnect && steps[|steps| - 1] == WsHandshake
    ensures TlsHandshake in steps <==> kind == Tls
  {
    match kind
    case Raw => [TcpConnect, WsHandshake]
    case Tls => [TcpConnect, TlsHandshake, WsHandshake]
  }

  /** All of setup: resolution, then the stream's connection routine. */
  function SetupSteps(kind: StreamKind): (steps: seq<Step>)
    ensures |steps| == if kind == Tls then 4 else 3
    ensures steps[0] == Resolve && steps[1] == TcpConnect && steps[|steps| - 1] == WsHandshake
    ensures TlsHandshake in steps <==> kind == Tls
    ensures kind == Tls ==> steps[2] == TlsHandshake
    ensures forall i, j :: 0 <= i < j < |steps| ==> steps[i] != steps[j]
  {
    [Resolve] + ConnectionSteps(kind)
  }

  /** The steps that were carried out, and how setup as a whole turned out. */
  datatype Attempted = Attempted(tried: seq<Step>, outcome: Outcome)

  /** Runs steps in order and stops at the first one that fails. */
  function Attempt(script: SetupScript, steps: seq<Step>): (r: Attempted)
    ensures r.tried <= steps
    ensures forall i :: 0 <= i < |r.tried| - 1 ==> script.OutcomeOf(r.tried[i]).Ok?
    ensures r.outcome.Ok? <==> r.tried == steps && forall i :: 0 <= i < |steps| ==> script.OutcomeOf(steps[i]).Ok?
    ensures r.outcome.Fail? ==> r.tried != [] && script.OutcomeOf(r.tried[|r.tried| - 1]) == r.outcome
  {
    if steps == [] then Attempted([], Ok)
    else if script.OutcomeOf(steps[0]).Fail? then Attempted([steps[0]], script.OutcomeOf(steps[0]))
    else
      var rest := Attempt(script, steps[1..]);
      Attempted([steps[0]] + rest.tried, rest.outcome)
  }

  /** The calls that carry out the given steps. */
  function SetupOps(url: Url, path: string, steps: seq<Step>): (ops: seq<Op>)
    ensures |ops| == |steps|
    ensures forall i :: 0 <= i < |steps| ==> ops[i] == StepOp(steps[i], url, path)
  {
    if steps == [] then [] else [StepOp(steps[0], url, path)] + SetupOps(url, path, steps[1..])
  }

  /** The calls of each prefix of the connection routines. */
  lemma ConnectionOps(url: Url, path: string)
    ensures SetupOps(url, path, [TcpConnect]) == [ConnectOp]
    ensures SetupOps(url, path, [TcpConnect, TlsHandshake]) == [ConnectOp, TlsHandshakeOp]
    ensures SetupOps(url, path, [TcpConnect, WsHandshake]) == [ConnectOp, WsHandshakeOp(url.host, path)]
    ensures SetupOps(url, path, [TcpConnect, TlsHandshake, WsHandshake]) == [ConnectOp, TlsHandshakeOp, WsHandshakeOp(url.host, path)]
  {
  }

  /** A step that fails stops setup: nothing after it is tried. */
  lemma FailureStopsSetup(script: SetupScript, steps: seq<Step>, i: nat)
    requires i < |steps| && script.OutcomeOf(steps[i]).Fail?
    ensures Attempt(script, steps).outcome.Fail?
    ensures |Attempt(script, steps).tried| <= i + 1
  {
  }

  /** Setup is resolution followed by the connection routine, which runs only if resolution succeeds. */
  lemma SetupUnfolds(script: SetupScript, kind: StreamKind, url: Url, path: string)
    ensures var a := Attempt(script, SetupSteps(kind)); var c := Attempt(script, ConnectionSteps(kind));
      if script.resolve.Fail? then
        a.outcome == script.resolve && SetupOps(url, path, a.tried) == [StepOp(Resolve, url, path)]
      else
        a.outcome == c.outcome && SetupOps(url, path, a.tried) == [StepOp(Resolve, url, path)] + SetupOps(url, path, c.tried)
  {
    assert SetupSteps(kind)[1..] == ConnectionSteps(kind);
    var c := Attempt(script, ConnectionSteps(kind));
    assert ([Resolve] + c.tried)[1..] == c.tried;
  }

  /** The connection routine step by step: each overload stops at its first failing step. */
  lemma ConnectionUnfolds(script: SetupScript, kind: StreamKind)
    ensures Attempt(script, ConnectionSteps(kind)) ==
      if script.connect.Fail? then Attempted([TcpConnect], script.connect)
      else if kind == Tls && script.tls.Fail? then Attempted([TcpConnect, TlsHandshake], script.tls)
      else Attempted(ConnectionSteps(kind), script.handshake)
  {
    var last := Attempt(script, [WsHandshake]);
    assert [WsHandshake][1..] == [];
    assert last == Attempted([WsHandshake], script.handshake);
    if kind == Tls {
      assert [TlsHandshake, WsHandshake][1..] == [WsHandshake];
      var tail := Attempt(script, [TlsHandshake, WsHandshake]);
      assert tail == if script.tls.Fail? then Attempted([TlsHandshake], script.tls)
                     else Attempted([TlsHandshake, WsHandshake], script.handshake);
      assert ConnectionSteps(kind)[1..] == [TlsHandshake, WsHandshake];
    } else {
      assert ConnectionSteps(kind)[1..] == [WsHandshake];
    }
  }

  // ---------------------------------------------------------------- receive loop

  /** The number of events consumed before the first failing read (all of them if none fails). */
  function FailIndex(evs: seq<ReadEvent>): (k: nat)
    ensures k <= |evs|
    ensures k < |evs| ==> evs[k].ReadFailed?
  {
    if evs == [] || evs[0].ReadFailed? then 0 else 1 + FailIndex(evs[1..])
  }

  /** `FailIndex` is the index of the first failing read, or the length when none fails. */
  lemma {:induction false} FailIndexIsFirst(evs: seq<ReadEvent>)
    ensures forall i :: 0 <= i < FailIndex(evs) ==> !evs[i].ReadFailed?
  {
    if evs != [] && !evs[0].ReadFailed? {
      FailIndexIsFirst(evs[1..]);
    }
  }

  /** The error of the first failing read. */
  function ReadError(evs: seq<ReadEvent>): (ec: FailureCode)
    ensures FailIndex(evs) < |evs| ==> evs[FailIndex(evs)] == ReadFailed(ec)
    ensures FailIndex(evs) == |evs| ==> ec == EndOfStream
  {
    var k := FailIndex(evs);
    if k < |evs| then evs[k].ec else EndOfStream
  }

  /** What is left on the stream after the first failing read. */
  function Unread(evs: seq<ReadEvent>): (u: seq<ReadEvent>)
    ensures FailIndex(evs) < |evs| ==> evs == evs[..FailIndex(evs) + 1] + u
    ensures FailIndex(evs) == |evs| ==> u == []
  {
    var k := FailIndex(evs);
    if k < |evs| then
      assert evs == evs[..k + 1] + evs[k + 1..];
      evs[k + 1..]
    else []
  }

  /** The index of the event that completes the next read: the first message or failure. */
  function ReadEnd(evs: seq<ReadEvent>): (j: nat)
    ensures j <= |evs|
    ensures j < |evs| ==> !IsControl(evs[j])
  {
    if evs == [] || !IsControl(evs[0]) then 0 else 1 + ReadEnd(evs[1..])
  }

  /** No failing read among the first `m` events puts the first failure at `m` or later. */
  lemma NoFailureBefore(evs: seq<ReadEvent>, m: nat)
    requires m <= |evs|
    requires forall i :: 0 <= i < m ==> !evs[i].ReadFailed?
    ensures m <= FailIndex(evs)
  {
  }

  /** The first failing read is the one with no failing read before it. */
  lemma FirstFailure(evs: seq<ReadEvent>, m: nat)
    requires m < |evs| && evs[m].ReadFailed?
    requires forall i :: 0 <= i < m ==> !evs[i].ReadFailed?
    ensures FailIndex(evs) == m
  {
    NoFailureBefore(evs, m);
    FailIndexIsFirst(evs);
  }

  /** `ReadEnd` is the index of the first event that is not a control frame, or the length. */
  lemma {:induction false} ReadEndIsFirst(evs: seq<ReadEvent>)
    ensures forall i :: 0 <= i < ReadEnd(evs) ==> IsControl(evs[i])
  {
    if evs != [] && IsControl(evs[0]) {
      ReadEndIsFirst(evs[1..]);
    }
  }

  /** The message bodies among the events, in the order they were read. */
  function Messages(evs: seq<ReadEvent>): (ms: seq<Payload>)
    ensures |ms| <= |evs|
  {
    if evs == [] then []
    else (if evs[0].Message? then [evs[0].payload] else []) + Messages(evs[1..])
  }

  /** The states the control callback reports for the events: `Closed` for each close frame. */
  function Notifications(evs: seq<ReadEvent>): (ns: seq<State>)
    ensures |ns| <= |evs|
  {
    if evs == [] then []
    else (if evs[0].CloseFrame? then [Closed] else []) + Notifications(evs[1..])
  }

  /** The handler calls for the given bodies: one per body, in order, or none with no handler. */
  function Deliveries(h: Option<HandlerId>, ps: seq<Payload>): (ds: seq<Delivery>)
    ensures h.None? ==> ds == []
    ensures h.Some? ==> |ds| == |ps| && forall i :: 0 <= i < |ps| ==> ds[i] == Delivery(h.value, ps[i])
  {
    if h.None? || ps == [] then []
    else [Delivery(h.value, ps[0])] + Deliveries(h, ps[1..])
  }

  /**
   * Regrouping a concatenation. Dafny proves it unaided; the callers name it
   * so that the solver sees the regrouped form at the step that needs it.
   */
  lemma Associative<T>(a: seq<T>, b: seq<T>, c: seq<T>)
    ensures a + b + c == a + (b + c)
  {
  }

  lemma {:induction false} MessagesAppend(a: seq<ReadEvent>, b: seq<ReadEvent>)
    ensures Messages(a + b) == Messages(a) + Messages(b)
  {
    if a == [] {
      assert a + b == b;
    } else {
      assert (a + b)[0] == a[0];
      assert (a + b)[1..] == a[1..] + b;
      MessagesAppend(a[1..], b);
      var h: seq<Payload> := if a[0].Message? then [a[0].payload] else [];
      assert Messages(a + b) == h + Messages(a[1..] + b);
      assert Messages(a) == h + Messages(a[1..]);
    }
  }

  lemma {:induction false} NotificationsAppend(a: seq<ReadEvent>, b: seq<ReadEvent>)
    ensures Notifications(a + b) == Notifications(a) + Notifications(b)
  {
    if a == [] {
      assert a + b == b;
    } else {
      assert (a + b)[0] == a[0];
      assert (a + b)[1..] == a[1..] + b;
      NotificationsAppend(a[1..], b);
      var h: seq<State> := if a[0].CloseFrame? then [Closed] else [];
      assert Notifications(a + b) == h + Notifications(a[1..] + b);
      assert Notifications(a) == h + Notifications(a[1..]);
    }
  }

  /** Reading one more event adds at most its own notification. */
  lemma NotificationsSnoc(evs: seq<ReadEvent>, c: nat)
    requires c < |evs|
    ensures Notifications(evs[..c + 1]) == Notifications(evs[..c]) + (if evs[c].CloseFrame? then [Closed] else [])
  {
    assert evs[..c + 1] == evs[..c] + [evs[c]];
    NotificationsAppend(evs[..c], [evs[c]]);
    assert [evs[c]][1..] == [];
  }

  /** One more body gives one more call, to the registered handler. */
  lemma DeliveriesSnoc(h: Option<HandlerId>, ps: seq<Payload>, p: Payload)
    ensures Deliveries(h, ps + [p]) == Deliveries(h, ps) + (if h.Some? then [Delivery(h.value, p)] else [])
  {
  }

  /** Only close frames notify, always with `Closed`; other events never change the state. */
  lemma {:induction false} NotificationsAreCloses(evs: seq<ReadEvent>)
    ensures forall i :: 0 <= i < |Notifications(evs)| ==> Notifications(evs)[i] == Closed
    ensures Notifications(evs) == [] <==> CloseFrame !in evs
  {
    if evs != [] {
      assert evs == [evs[0]] + evs[1..];
      NotificationsAreCloses(evs[1..]);
    }
  }

  /** Every body handed over is that of a message event, and there is one exactly when a message was read. */
  lemma {:induction false} MessagesAreBodies(evs: seq<ReadEvent>)
    ensures forall i :: 0 <= i < |Messages(evs)| ==> Message(Messages(evs)[i]) in evs
    ensures Messages(evs) == [] <==> forall i :: 0 <= i < |evs| ==> !evs[i].Message?
  {
    if evs != [] {
      assert evs == [evs[0]] + evs[1..];
      MessagesAreBodies(evs[1..]);
      if !evs[0].Message? {
        assert forall i :: 1 <= i < |evs| ==> evs[i] == evs[1..][i - 1];
      }
    }
  }

  /** Control frames complete no read, so they carry no message. */
  lemma {:induction false} ControlsCarryNoMessages(evs: seq<ReadEvent>)
    requires forall i :: 0 <= i < |evs| ==> IsControl(evs[i])
    ensures Messages(evs) == []
  {
    if evs != [] {
      ControlsCarryNoMessages(evs[1..]);
    }
  }

  /**
   * What one read consumes, starting after `i` events that contained no
   * failing read: the control frames before the event that completes it,
   * none of which fails and none of which carries a message.
   */
  lemma {:induction false} ReadControls(evs: seq<ReadEvent>, i: nat)
    requires i <= FailIndex(evs)
    ensures var j := ReadEnd(evs[i..]);
      && i + j <= FailIndex(evs)
      && Messages(evs[..i + j]) == Messages(evs[..i])
      && Notifications(evs[..i + j]) == Notifications(evs[..i]) + Notifications(evs[i..][..j])
  {
    var rest := evs[i..];
    var j := ReadEnd(rest);
    ControlsPrecedeFailure(evs, i);
    assert evs[..i + j] == evs[..i] + rest[..j];
    ReadEndIsFirst(rest);
    ControlsCarryNoMessages(rest[..j]);
    MessagesAppend(evs[..i], rest[..j]);
    NotificationsAppend(evs[..i], rest[..j]);
  }

  /** The control frames a read handles come before the first failing read. */
  lemma {:induction false} ControlsPrecedeFailure(evs: seq<ReadEvent>, i: nat)
    requires i <= FailIndex(evs)
    ensures i + ReadEnd(evs[i..]) <= FailIndex(evs)
  {
    var rest := evs[i..];
    var j := ReadEnd(rest);
    ReadEndIsFirst(rest);
    FailIndexIsFirst(evs);
    forall m | 0 <= m < i + j ensures !evs[m].ReadFailed? {
      if i <= m {
        assert evs[m] == rest[m - i];
      }
    }
    NoFailureBefore(evs, i + j);
  }

  /** A read that completes with a message. */
  lemma {:induction false} ReadStepMessage(evs: seq<ReadEvent>, i: nat)
    requires i <= FailIndex(evs)
    requires i + ReadEnd(evs[i..]) < |evs| && evs[i + ReadEnd(evs[i..])].Message?
    ensures var j := ReadEnd(evs[i..]);
      && i + j + 1 <= FailIndex(evs)
      && Messages(evs[..i + j + 1]) == Messages(evs[..i]) + [evs[i + j].payload]
      && Notifications(evs[..i + j + 1]) == Notifications(evs[..i]) + Notifications(evs[i..][..j])
      && NextRead(evs[i..]) == ReadResult(NoError, evs[i + j].payload, evs[i + j + 1..], Notifications(evs[i..][..j]))
  {
    var rest := evs[i..];
    var j := ReadEnd(rest);
    ReadControls(evs, i);
    var m := evs[i + j];
    assert rest[j] == m;
    assert rest[j + 1..] == evs[i + j + 1..];
    assert evs[..i + j + 1] == evs[..i + j] + [m];
    MessagesAppend(evs[..i + j], [m]);
    NotificationsAppend(evs[..i + j], [m]);
    assert [m][..0] == [];
  }

  /** What one blocking read reports and leaves on the stream. */
  datatype ReadResult = ReadResult(ec: ErrorCode, payload: Payload, rest: seq<ReadEvent>, closes: seq<State>)

  /**
   * One blocking read: control frames are handled on the way and each close
   * frame among them is reported to the control callback; the read completes
   * with the first message or failure, or with `EndOfStream` once nothing is left.
   */
  function NextRead(evs: seq<ReadEvent>): (n: ReadResult)
    ensures |n.rest| <= |evs| && n.rest == evs[|evs| - |n.rest|..]
    ensures !Failed(n.ec) ==> |n.rest| < |evs|
    ensures Failed(n.ec) ==> n.payload == []
  {
    var j := ReadEnd(evs);
    if j == |evs| then ReadResult(EndOfStream, [], [], Notifications(evs))
    else if evs[j].Message? then ReadResult(NoError, evs[j].payload, evs[j + 1..], Notifications(evs[..j]))
    else ReadResult(evs[j].ec, [], evs[j + 1..], Notifications(evs[..j]))
  }

  /** A read fails exactly when it does not complete with a message. */
  lemma NextReadFails(evs: seq<ReadEvent>)
    ensures Failed(NextRead(evs).ec) <==> !(ReadEnd(evs) < |evs| && evs[ReadEnd(evs)].Message?)
  {
    var j := ReadEnd(evs);
    var n := NextRead(evs);
    if j == |evs| {
      assert n.ec == EndOfStream;
    } else if evs[j].Message? {
      assert n.ec == NoError;
    } else {
      assert n.ec == evs[j].ec;
    }
  }

  /**
   * A pass of the receive loop whose read succeeds, after `i` events that
   * contained no failing read: it delivers exactly one message and leaves
   * the loop at `next`, still before the first failure.
   */
  lemma ReadStepSucceeds(evs: seq<ReadEvent>, i: nat) returns (next: nat)
    requires i <= FailIndex(evs)
    requires !Failed(NextRead(evs[i..]).ec)
    ensures var n := NextRead(evs[i..]);
      && i < next <= FailIndex(evs)
      && evs[next..] == n.rest
      && Messages(evs[..next]) == Messages(evs[..i]) + [n.payload]
      && Notifications(evs[..next]) == Notifications(evs[..i]) + n.closes
  {
    var rest := evs[i..];
    var j := ReadEnd(rest);
    NextReadFails(rest);
    assert rest[j] == evs[i + j];
    ReadStepMessage(evs, i);
    next := i + j + 1;
  }

  /**
   * A pass of the receive loop whose read fails: it is the first failing
   * read, reports the loop's final error and delivers no message.
   */
  lemma ReadStepFails(evs: seq<ReadEvent>, i: nat)
    requires i <= FailIndex(evs)
    requires Failed(NextRead(evs[i..]).ec)
    ensures var n := NextRead(evs[i..]);
      && n.ec == ReadError(evs)
      && n.rest == Unread(evs)
      && Messages(evs[..FailIndex(evs)]) == Messages(evs[..i])
      && Notifications(evs[..FailIndex(evs)]) == Notifications(evs[..i]) + n.closes
  {
    FailureEndsRead(evs, i);
    ReadToFailure(evs, i);
    NextReadAtFailure(evs, i);
  }

  /** A read that fails ends at the first failing read (or at the end of the events). */
  lemma FailureEndsRead(evs: seq<ReadEvent>, i: nat)
    requires i <= FailIndex(evs)
    requires Failed(NextRead(evs[i..]).ec)
    ensures FailIndex(evs) == i + ReadEnd(evs[i..])
  {
    var rest := evs[i..];
    var j := ReadEnd(rest);
    NextReadFails(rest);
    ControlsPrecedeFailure(evs, i);
    if i + j < |evs| {
      assert rest[j] == evs[i + j];
      FailIndexIsFirst(evs);
    }
  }

  /** The events up to the first failing read are the earlier ones and the control frames of the last read. */
  lemma ReadToFailure(evs: seq<ReadEvent>, i: nat)
    requires i <= FailIndex(evs)
    requires FailIndex(evs) == i + ReadEnd(evs[i..])
    ensures Messages(evs[..FailIndex(evs)]) == Messages(evs[..i])
    ensures Notifications(evs[..FailIndex(evs)]) == Notifications(evs[..i]) + Notifications(evs[i..][..ReadEnd(evs[i..])])
  {
    ReadControls(evs, i);
  }

  /** A read that ends at the first failing read reports the loop's final error and leaves the unread events. */
  lemma NextReadAtFailure(evs: seq<ReadEvent>, i: nat)
    requires i <= FailIndex(evs)
    requires FailIndex(evs) == i + ReadEnd(evs[i..])
    ensures NextRead(evs[i..]) == ReadResult(ReadError(evs), [], Unread(evs), Notifications(evs[i..][..ReadEnd(evs[i..])]))
  {
    var rest := evs[i..];
    var j := ReadEnd(rest);
    if i + j < |evs| {
      assert rest[j] == evs[i + j];
      assert rest[j + 1..] == evs[i + j + 1..];
    } else {
      assert rest[..j] == rest;
    }
  }
}
