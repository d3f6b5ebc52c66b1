# savanna WebSocket session, modelled in Dafny

This project models the `session<T>` class template of the savanna C++
library: a blocking WebSocket client over either a raw TCP stream or a TLS
stream. A session has a URL, a stream, a connection state (`unknown`,
`closed`, `connected`), a user-supplied state-change observer
(`state_changed`) and an optional message handler. `run` resolves the host,
connects, does the TLS handshake on the TLS stream and the WebSocket opening
handshake, installs a control-frame callback, and then reads messages until
the first failing read. `send` writes one message. `close` closes the stream
if it is open, and the destructor calls `close`.

Files:

- `transport.dfy` (module `Transport`): what the session sees of the resolver and the stream.
  - Error codes are `nat`, and 0 means success.
  - The four setup steps each have a scripted outcome.
  - Read events are a message, a close frame, another control frame or a failed read.
  - Writes and the close have scripted results.
  - The stream keeps an is-open flag and a trace of the setup, callback-installation, write and close calls. Reads are not in the trace: a read shows up only as events leaving the script. The `is_open` checks and the stream options set by `set_option` are not recorded either.
- `lifecycle.dfy` (module `Lifecycle`): the pure specification.
  - The connection states.
  - The order of the setup steps, and where setup stops (`Attempt`).
  - What the receive loop consumes, delivers and reports (`FailIndex`, `ReadError`, `Unread`, `Messages`, `Notifications`, `Deliveries`, `NextRead`).
  - The lemmas that connect a single read to the whole loop.
- `session.dfy` (module `Websocket`): class `Session`.
  - Its fields are the state, the handler, the stream, the observer log `observed` (one entry per call of `state_changed`) and the handler log `delivered`.
  - Its invariant `Valid` says that the last observer entry is the current state, and that no entry means `Unknown`.
  - `Run`, `Setup`, the connection routines and the read methods are proved against the `Lifecycle` functions.
  - `Send`, `Close`, `OnMessage`, `Dispose`, `SetCurrentState` and `PerformStep` state their new state directly. The first five also promise `Valid` afterwards.
- `scenarios.dfy` (module `Scenarios`): concrete sessions over fixed scripts, with their outcomes stated exactly.

Message handlers and observers are user code. The model stands for a handler by a `HandlerId` and records each call of a handler or the observer in a log.

The model follows the code in two places where it differs from the intended design:

- An explicit `close()` never changes the state and never calls the observer (`include/savanna/websocket.hpp:164-171`). Only a received close frame produces `Closed`.
- The stream type is never chosen from the URL scheme. `scheme_` is stored at construction and never read. The caller fixes the stream type, and so does the model's `kind`.

## Model

| member | source | states |
|---|---|---|
| Lifecycle.ConnectionSteps | include/savanna/websocket.hpp:54-73 | The steps of the stream's connection routine: TCP connect first and the WebSocket handshake last, with the TLS handshake between them exactly for the TLS stream. |
| Lifecycle.SetupSteps | include/savanna/websocket.hpp:54-73 | Setup is resolve, then TCP connect, then the WebSocket handshake. Only the TLS stream has a TLS handshake, which comes third. No step repeats. |
| Lifecycle.Attempt | include/savanna/websocket.hpp:133-141 | Only a prefix of the steps is tried, and every tried step but the last succeeded. Setup succeeds exactly when every step was tried and succeeded. A failed setup reports the last tried step's error. |
| Lifecycle.SetupOps | include/savanna/websocket.hpp:54-73 | One call per tried step, in order, each made with the URL's host and port or the requested path. |
| Lifecycle.FailureStopsSetup | include/savanna/websocket.hpp:133-140 | A failing step makes setup fail, and no step after it is tried. |
| Lifecycle.SetupUnfolds | include/savanna/websocket.hpp:133-134 | A failed resolution ends setup with only the resolve call made. Otherwise setup is the resolve call followed by the connection routine, and ends with the routine's outcome. |
| Lifecycle.ConnectionUnfolds | include/savanna/websocket.hpp:54-73 | Each connection routine stops at its first failing step. Raw: connect, handshake. TLS: connect, TLS handshake, handshake. |
| Lifecycle.FailIndex | include/savanna/websocket.hpp:143-148 | The position of the first failing read, bounded by the number of events. When it is inside the events, that event is a failed read. |
| Lifecycle.FailIndexIsFirst | include/savanna/websocket.hpp:143-148 | No event before that position is a failed read. |
| Lifecycle.NoFailureBefore | include/savanna/websocket.hpp:143-148 | If none of the first `m` events is a failed read, the first failure is at `m` or later. |
| Lifecycle.FirstFailure | include/savanna/websocket.hpp:143-148 | A failed read with no failed read before it is the one that ends the loop. |
| Lifecycle.ReadEnd | include/savanna/websocket.hpp:126-145 | Where the next read completes: at the end of the events, or at an event that is not a control frame. |
| Lifecycle.ReadEndIsFirst | include/savanna/websocket.hpp:126-145 | Every event before that position is a control frame, which the read handles without completing. |
| Lifecycle.ReadError | include/savanna/websocket.hpp:145-154 | What `run` returns after a successful setup: the error carried by the first failing read event, or `EndOfStream` when the script ends first. |
| Lifecycle.Unread | include/savanna/websocket.hpp:143-154 | The events after the first failing read. The events are exactly those up to and including that read, followed by the unread ones. None are left when the script ends first. |
| Lifecycle.Messages | include/savanna/websocket.hpp:143-153 | The bodies the loop hands over, in the order they were read. There are never more of them than events. |
| Lifecycle.MessagesAreBodies | include/savanna/websocket.hpp:143-153 | Every body handed over belongs to a message event. There is none exactly when no message event was read. |
| Lifecycle.Notifications | include/savanna/websocket.hpp:126-131 | The observer calls that the control callback makes, in order. There are never more of them than events. |
| Lifecycle.NextRead | include/savanna/websocket.hpp:144-146 | One blocking `stream_.read`. It leaves a suffix of the events. A successful read consumes at least one event, and a failed read yields no body. |
| Lifecycle.Deliveries | include/savanna/websocket.hpp:149-152 | With no handler there are no calls. With a handler there is exactly one call per message body, in order, each to that handler. |
| Lifecycle.MessagesAppend | include/savanna/websocket.hpp:143-153 | The messages in two runs of events are the messages of the first run followed by those of the second. |
| Lifecycle.NotificationsAppend | include/savanna/websocket.hpp:126-131 | The observer calls from two runs of events are those of the first run followed by those of the second. |
| Lifecycle.NotificationsSnoc | include/savanna/websocket.hpp:126-131 | One more event adds one observer call with `Closed` if it is a close frame, and none otherwise. |
| Lifecycle.DeliveriesSnoc | include/savanna/websocket.hpp:149-152 | One more message adds one call, to the registered handler, if there is one. |
| Lifecycle.NotificationsAreCloses | include/savanna/websocket.hpp:126-131 | Every observer call that a read makes passes `Closed`. There is such a call exactly when a close frame was read, so other control frames never change the state. |
| Lifecycle.ControlsCarryNoMessages | include/savanna/websocket.hpp:126-145 | Events that are all control frames contain no message. |
| Lifecycle.ReadControls | include/savanna/websocket.hpp:126-148 | The control frames a read handles come before the first failing read and carry no message. The observer calls they cause follow the earlier ones. |
| Lifecycle.ControlsPrecedeFailure | include/savanna/websocket.hpp:143-148 | The control frames handled by the reads complete none of them and come before the first failing read. |
| Lifecycle.ReadStepMessage | include/savanna/websocket.hpp:145-152 | A read that ends at a message adds exactly that message to those delivered, stays before the first failure, and reports success. |
| Lifecycle.NextReadFails | include/savanna/websocket.hpp:145-146 | A read fails exactly when it does not complete with a message. |
| Lifecycle.ReadStepSucceeds | include/savanna/websocket.hpp:143-153 | One loop pass whose read succeeds consumes up to and including one message, adds exactly that message, and stays before the first failure. |
| Lifecycle.ReadStepFails | include/savanna/websocket.hpp:145-154 | The pass whose read fails is at the first failing read, or at the end of the events. Its error is the loop's result, and it adds no message. |
| Lifecycle.FailureEndsRead | include/savanna/websocket.hpp:145-148 | A failing read ends at the first failing read of the whole sequence. |
| Lifecycle.ReadToFailure | include/savanna/websocket.hpp:143-148 | The events up to the first failure add no message and no observer call beyond those of the last read's control frames. |
| Lifecycle.NextReadAtFailure | include/savanna/websocket.hpp:145-154 | The last read reports the loop's error and leaves exactly the events after the first failure unread. |
| Lifecycle.ConnectionOps | include/savanna/websocket.hpp:54-73 | The calls each connection routine makes up to and including the step where it stops. |
| Websocket.Session.Valid | include/savanna/websocket.hpp:97-121 | The class invariant: the last observer call named the current state, and with no call the state is `Unknown`. So a state other than `Unknown` has always been reported. |
| Websocket.Session.constructor | include/savanna/websocket.hpp:105-111 | A new session is `Unknown`, has made no observer call, has no handler, and stores the URL, its scheme and the stream. |
| Websocket.Session.SetCurrentState | include/savanna/websocket.hpp:97-101 | Stores the state, then calls the observer exactly once with that state, so `Valid` holds afterwards. |
| Websocket.Session.CurrentState | include/savanna/websocket.hpp:118-121 | Returns the last state passed to the observer, or `Unknown` when the observer has not been called. |
| Websocket.Session.PerformStep | include/savanna/websocket.hpp:54-73 | Makes one step's call and returns its scripted outcome. A successful WebSocket handshake opens the stream. |
| Websocket.Session.MakeConnection | include/savanna/websocket.hpp:54-73 | Runs the steps of `ConnectionSteps(kind)` and stops at the first failure. The trace gains exactly the calls of the tried steps, and the stream is open exactly when the routine succeeded. |
| Websocket.Session.MakeRawConnection | include/savanna/websocket.hpp:54-62 | The raw overload: connect, then the handshake with the URL's host and the path. |
| Websocket.Session.MakeTlsConnection | include/savanna/websocket.hpp:64-73 | The TLS overload: connect, then the TLS client handshake, then the WebSocket handshake. |
| Websocket.Session.Setup | include/savanna/websocket.hpp:133-134 | Resolution, then the connection routine. The outcome and the calls are those of `Attempt(setup, SetupSteps(kind))`. |
| Websocket.Session.HandleControlFrames | include/savanna/websocket.hpp:126-145 | Consumes the leading control frames. The installed callback calls the observer with `Closed` once per close frame and makes no call for other control frames. |
| Websocket.Session.ReadMessage | include/savanna/websocket.hpp:144-146 | One blocking read equals `NextRead`: its error, its body and the events it leaves. A failed read closes the stream, and the observer calls are those of the control frames it handled. |
| Websocket.Session.ReceiveOne | include/savanna/websocket.hpp:144-152 | One pass of the loop: a read, then exactly one handler call when the read succeeded and a handler is registered. |
| Websocket.Session.Receive | include/savanna/websocket.hpp:142-154 | The loop returns the error of the first failing read, and leaves exactly the events after that read unread. The handler is called once per message read before it, in order. The observer is called with `Closed` once per close frame read before it. |
| Websocket.Session.Run | include/savanna/websocket.hpp:123-155 | A failed setup makes no read, no callback installation and no handler call. It ends with the state `Unknown`, one observer call with `Unknown`, and the step's error raised. A successful setup installs the callback and then sets `Connected`. `Run` then returns the first failing read's error. The state at the end is `Closed` exactly when a close frame was read before that failure, and `Connected` otherwise. |
| Websocket.Session.Send | include/savanna/websocket.hpp:157-162 | Returns exactly the write's error code and records one write. It changes only the stream, so the state, the handler and the logs are untouched. |
| Websocket.Session.Close | include/savanna/websocket.hpp:164-171 | Calls close with code 1000 only when the stream is open, and returns that call's result. Otherwise it returns success and leaves the stream as it was. The state is never touched. |
| Websocket.Session.OnMessage | include/savanna/websocket.hpp:173-176 | Replaces any registered handler with the new one, so every later delivery goes to it. |
| Websocket.Session.Dispose | include/savanna/websocket.hpp:113-116 | Destruction always goes through `Close`, so an open stream is closed with code 1000 and any other stream is left alone. |
| Scenarios.NewSessionIsUnknown | include/savanna/websocket.hpp:105-121 | Any newly built session reports `Unknown` and has made no observer call. |
| Scenarios.HelloThenClose | include/savanna/websocket.hpp:123-155 | The events are "hello", a close frame, then a closed connection. The handler gets "hello" once, and the observer sees `Connected` then `Closed`. `run` returns the read error. The recorded calls are resolve, connect, handshake, callback; the two reads and the destructor's `is_open` check are not recorded. |
| Scenarios.UnreachableHost | include/savanna/websocket.hpp:133-141 | A failed resolution raises its error. Nothing else is called, and the observer sees `Unknown` once. |
| Scenarios.TlsHandshakeFails | include/savanna/websocket.hpp:64-73 | A failed TLS handshake raises its error. The WebSocket handshake is never attempted, nothing is read, and destruction closes nothing. |
| Scenarios.SendTwice | include/savanna/websocket.hpp:157-162 | Each send returns its own write's result, and the state stays as it was. |
| Scenarios.CloseTwice | include/savanna/websocket.hpp:164-171 | A second close finds the stream closed and returns success without a second close call. The observer is never called. |
| Scenarios.HandlerReplaced | include/savanna/websocket.hpp:142-176 | After a second `on_message`, every message, the empty one included, goes to the second handler, and a ping delivers nothing. |
| Scenarios.RawSetupSucceeds | include/savanna/websocket.hpp:133-136 | With every step succeeding, raw setup succeeds with resolve, connect, handshake, and `run` installs the callback after them. |
| Scenarios.TlsSetupFails | include/savanna/websocket.hpp:64-73 | A TLS handshake failure stops setup after connect. |
| Scenarios.HelloEventsRead | include/savanna/websocket.hpp:126-154 | In "hello, close frame, closed", the first failure is the third event. The bodies read before it are just "hello", and there is one `Closed` notification. |
| Scenarios.TwoMessagesRead | include/savanna/websocket.hpp:143-154 | A ping between two messages delivers nothing, and both messages precede the failure. |

## Left out

- Networking itself: DNS resolution, TCP, the TLS handshake and certificates, and WebSocket framing and masking. These belong to Boost.Asio and Boost.Beast. Each step is an abstract outcome, an error code or success, taken from a script.
- The user-agent decorator (`include/savanna/websocket.hpp:57-59, 67-69`). It only sets a request header inside the library, so the model records the handshake call without the header.
- `on_read` and `on_write` (`include/savanna/websocket.hpp:75-95`). Nothing calls them.
- Concurrency. The code adds no synchronisation between a blocking `run` and `send` or `close` called from another thread, so the model is sequential.
- The URL parser (`url.hpp`). It is not part of this model, and the model takes the host, the port and the scheme as given.
- The kinds of exception. The code catches only `boost::wrapexcept<boost::system::system_error>`, so a failed step is a single error outcome, and `Run` reports it as `Raised(error)`.
- Buffer contents. Payloads are opaque byte sequences, and the unused member `buffer_` is not modelled.
- The observer's own behaviour. `state_changed` is user code, and the model only logs each call of it. Replacing the observer, a public field, is not modelled.
- `Run` path: the default argument `"/"` has no counterpart, since Dafny has no default parameters. Callers pass the path.
- Websocket.Session.ReadMessage: when the script has no events left, the read fails with `EndOfStream` (2). A real stream would block instead. That is a consequence of the script being finite.
- Websocket.Session.Send: each write's result is taken from the script, including for a stream that is not open. The library's own error for writing to a closed stream is not modelled.
- Websocket.Session.Run: the contract covers any call on a valid session, a second call included. A repeat call replays the same setup script, appends the same setup calls to the trace again, and then reads on from the events the first call left. A real stream that has already been used does not behave like that, and the model does not capture what Boost.Beast would do.
- Websocket.Session.OnMessage: handlers are assumed to return normally and not to call back into the session. An empty `std::function` passed to `on_message` still counts as a registered handler, and the first message would then throw `std::bad_function_call` from `run`. Any exception a handler throws escapes `run`, because the receive loop is outside the `try`, so the state stays `Connected`. The model always records a delivery instead.
- Websocket.Session.ReadMessage: a failed read or write leaves the stream not open. This follows Boost.Beast's `is_open`, and it is why destroying a session after `run` closes nothing.
- Websocket.Session.HandleControlFrames: a close frame is handled like any other control frame, and the read goes on. Boost.Beast instead ends the read at a close frame with `websocket::error::closed`. So the script admits runs that Beast never produces, such as a message after a close frame, which the model delivers.
