/**
 * The collaborators a WebSocket session talks to, reduced to what the session
 * can observe of them: the resolver and the stream (raw TCP, or TLS over TCP)
 * are a script of step outcomes and incoming read events. The setup,
 * callback-installation, write and close calls the session makes are recorded
 * in a trace; a read shows up only as events leaving the script, and the
 * `is_open` queries and stream options are not recorded.
 */
module Transport {

  /** An error code reduced to its value: zero is success, anything else has failed. */
  type ErrorCode = nat

  const NoError: ErrorCode := 0

  predicate Failed(ec: ErrorCode) {
    ec != 0
  }

  /** An error code that has failed. */
  type FailureCode = ec: ErrorCode | ec != 0 witness 1

  /** What a read reports once the scripted peer has nothing more to send (the value of end-of-file). */
  const EndOfStream: FailureCode := 2

  /** WebSocket close status 1000, "normal closure" (section 7.4.1 of RFC 6455). */
  const NormalClosure: nat := 1000

  newtype Byte = b: int | 0 <= b < 256

  /** A message body; the session never looks inside it. */
  type Payload = seq<Byte>

  /** The parts of the parsed URL the session uses. */
  datatype Url = Url(host: string, port: string, scheme: string)

  /** The two stream types the session is instantiated with. */
  datatype StreamKind = Raw | Tls

  /** The setup steps: name resolution, TCP connect, TLS client handshake, WebSocket opening handshake. */
  datatype Step = Resolve | TcpConnect | TlsHandshake | WsHandshake

  /** A setup step either succeeds or fails (the library throws) with an error code. */
  datatype Outcome = Ok | Fail(ec: FailureCode)

  /** How each setup step turns out on this transport. */
  datatype SetupScript = SetupScript(resolve: Outcome, connect: Outcome, tls: Outcome, handshake: Outcome)
  {
    function OutcomeOf(step: Step): Outcome {
      match step
      case Resolve => resolve
      case TcpConnect => connect
      case TlsHandshake => tls
      case WsHandshake => handshake
    }
  }

  /** Control frames other than close. */
  datatype ControlKind = Ping | Pong

  /** What the peer (or the network) produces next on the stream. */
  datatype ReadEvent =
    | Message(payload: Payload)
    | CloseFrame
    | OtherControl(kind: ControlKind)
    | ReadFailed(ec: FailureCode)

  /** A control frame is handled inside a read and does not complete it. */
  predicate IsControl(ev: ReadEvent) {
    ev.CloseFrame? || ev.OtherControl?
  }

  /** A recorded call on the resolver or stream: setup, callback installation, write or close (reads are not recorded). */
  datatype Op =
    | ResolveOp(host: string, port: string)
    | ConnectOp
    | TlsHandshakeOp
    | WsHandshakeOp(host: string, path: string)
    | ControlCallbackOp
    | WriteOp(data: Payload)
    | CloseOp(code: nat)

  /** The call that carries out a setup step against the URL's host and port and the requested path. */
  function StepOp(step: Step, url: Url, path: string): Op {
    match step
    case Resolve => ResolveOp(url.host, url.port)
    case TcpConnect => ConnectOp
    case TlsHandshake => TlsHandshakeOp
    case WsHandshake => WsHandshakeOp(url.host, path)
  }

  /**
   * The stream the session owns. The first four fields script the transport:
   * setup outcomes, the events still to be read, the results of successive
   * writes (a write beyond the script succeeds) and the result of a close.
   * `open` is the stream's is-open flag, `controlCallback` whether a
   * control-frame callback is installed, and `trace` the recorded calls so
   * far. As in Boost.Beast, a failed read or write leaves the stream not open.
   */
  datatype Stream = Stream(
    setup: SetupScript,
    incoming: seq<ReadEvent>,
    writeResults: seq<ErrorCode>,
    closeResult: ErrorCode,
    open: bool,
    controlCallback: bool,
    trace: seq<Op>)
  {
    function NextWriteResult(): ErrorCode {
      if writeResults == [] then NoError else writeResults[0]
    }

    function RemainingWriteResults(): seq<ErrorCode> {
      if writeResults == [] then [] else writeResults[1..]
    }
  }
}
