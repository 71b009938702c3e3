# Chat service over gRPC streams: a Dafny model

This project models a small chat service. The service has four remote
calls, one for each kind of gRPC call:

- unary;
- server streaming;
- client streaming;
- bidirectional streaming.

It models the four server-side handlers in `chat/chat.go` and the
command-line client's drivers in `cmd/client/client.go`. For the
bidirectional call, only the driver's send half is modelled.

Modules:

- **Transport** (`transport.dfy`) is the stream handle the handlers and
  drivers use.
  - A `Stream` object holds five things:
    - the script of entries the peer delivers: messages, then end of
      stream or an error;
    - a scripted send fault;
    - the record of every call made on the handle;
    - the messages the peer accepted;
    - whether the send direction is closed.
  - Each primitive is a method: `Recv`, `Send`, `CloseSend`,
    `CloseAndRecv` and `SendAndClose`. Each method's contract ties the new
    state to a step function on a `StreamState` value.
  - The module also proves the facts shared by every loop over a stream:
    - how a script splits into its leading messages and its terminator;
    - what a receive loop consumes;
    - what a send loop delivers when all Sends succeed, and when the Send
      at a given index fails.
- **Format** (`format.dfy`) renders a number in decimal, as `%d` does, and
  reads it back.
- **Chat** (`chat.dfy`) holds the handlers.
  - `MessageUnary` is a function.
  - The three streaming handlers are methods with loops over a `Stream`.
    Each one is proved against a recursive function on stream states, and
    that function's closed form is proved as a lemma.
- **Client** (`client.dfy`) holds the drivers.
  - A driver's printed and logged lines become a sequence of
    observations, which the driver returns.
  - Whether opening the call succeeded is a parameter.
- **Exchange** (`exchange.dfy`) joins a driver to its handler. What one
  side sends is what the other side receives, delivered in order and
  followed by end of stream.

The stream semantics the model assumes:

- A message is consumed once it is received.
- End of stream and an error are not consumed: every later Recv reports
  them again.
- A script that has run out reads as end of stream.
- A fault `FailAfter(n, c)` lets the next n Sends through. Every Send
  after them fails with `c`.
- A Send on a closed send direction fails with `Internal`.
- `CloseAndRecv` with no response (the peer ended the stream) fails with
  `Internal`.

## Model

| member | source | states |
|---|---|---|
| Chat.MessageUnary | chat/chat.go:15-18 | whatever the request, the reply is a success whose body is "Hello From the Server!" |
| Chat.MessageServertream | chat/chat.go:21-32 | the handler's result and the new stream state are exactly those of the send loop over "message 0", "message 1" and "message 2" |
| Chat.ServerStreamMessagesSpelledOut | chat/chat.go:24-26 | the messages are "message 0", "message 1" and "message 2", in that order |
| Chat.ServerStreamSendsAll | chat/chat.go:24-31 | when no Send fails, the handler returns nil, and the peer holds exactly the three messages in order, one Send each; nothing is received |
| Chat.ServerStreamStopsAtFailure | chat/chat.go:25-28 | when the Send at index n fails, that error is returned; the peer holds exactly the first n messages; the failing Send is the last call |
| Chat.ReportRoundTrip | chat/chat.go:42-44 | the report "received n messages" reads back as n, so the count is stated unambiguously |
| Chat.MessageClientStream | chat/chat.go:35-52 | the result and the new state are those of the receive-and-count specification, starting from a count of 0 |
| Chat.ClientStreamFromDrains | chat/chat.go:37-50 | the handler reads every leading message and the terminator, one Recv each; on an error it returns that error; at end of stream it sends the report of the number of messages read |
| Chat.ClientStreamRespondsOnce | chat/chat.go:39-45 | at end of stream after k messages there are k + 1 Recvs, then exactly one SendAndClose of "received k messages", and no call after it; the result is nil exactly when the transport accepts that response |
| Chat.ClientStreamStopsOnError | chat/chat.go:46-48 | on a receive error the handler returns it and sends no response |
| Chat.ClientStreamZeroMessages | chat/chat.go:40-44 | a client that sends nothing is told "received 0 messages" |
| Chat.MessageBiStreams | chat/chat.go:55-74 | the result and the new state are those of the receive-and-echo specification |
| Chat.BiDiEchoesAll | chat/chat.go:56-73 | when no Send fails, each leading message gets one Recv followed by one Send of "echo: " + body, in order; then the terminator is read; the handler returns nil at end of stream or the error read |
| Chat.BiDiStopsAtSendFailure | chat/chat.go:68-71 | when the echo of the message at index n fails, that error is returned at once; the peer holds exactly the first n echoes; no call follows the failed Send |
| Format.Decimal | chat/chat.go:26 | the rendering of a number is a non-empty string of digits; it starts with '0' only for zero |
| Format.DecimalRoundTrip | chat/chat.go:26 | reading back the rendering of n gives n |
| Format.DecimalInjective | chat/chat.go:26 | different numbers render differently, so "message i" differs for different i |
| Transport.SendAll | chat/chat.go:24-30 | a send loop attempts at most all the messages; on success it attempted all of them; on failure it attempted at least one |
| Transport.SendAllDelivers | cmd/client/client.go:143-148 | when every Send is accepted, all messages are sent in order, one Send each, and the loop succeeds |
| Transport.SendAllStopsAtFailure | cmd/client/client.go:143-148 | when the Send at index n fails, the loop returns that error after n + 1 Sends; the peer holds exactly the n messages before it |
| Transport.ScriptSplit | chat/chat.go:38-51 | a script is its leading messages followed by the rest; the rest is empty or starts with the terminator a receive loop stops at |
| Transport.DeliverThen | cmd/client/client.go:119-129 | from a script of messages `ms` then a terminator, a receive loop reads back exactly `ms` and then that terminator |
| Client.DoUnary | cmd/client/client.go:100-105 | the driver shows exactly one line: the reply's body when the call succeeds, otherwise the logged error |
| Client.DoServerStream | cmd/client/client.go:109-131 | when opening fails, the driver logs the error and touches nothing; otherwise its observations and the new state are those of the receive loop's specification |
| Client.ServerStreamDriverShowsAll | cmd/client/client.go:119-129 | the driver shows the body of every leading message, in arrival order, then the receive error if there was one; one Recv per message plus the one that read the end |
| Client.DoClientStream | cmd/client/client.go:134-155 | when opening fails, the driver logs the error and touches nothing; otherwise its observations and the new state are those of the send-then-close specification |
| Client.ClientStreamDriverSendsAll | cmd/client/client.go:143-154 | when every Send is accepted, the texts are sent in order, followed by exactly one CloseAndRecv; the driver shows that one response, or logs the close error |
| Client.ClientStreamDriverStopsAtSendError | cmd/client/client.go:144-147 | when the Send at index n fails, the driver logs that error and stops: n + 1 Sends, no CloseAndRecv, and the peer holds exactly the first n texts |
| Client.DoBiDiStream | cmd/client/client.go:158-197 | when opening fails, the driver logs the error and touches nothing; otherwise its observations and the new state are those of the send-half specification |
| Client.BiDiSendDriverSendsAll | cmd/client/client.go:187-194 | when every Send is accepted, each text is shown and sent in order, and the send direction is closed once, after the last Send |
| Client.BiDiSendDriverBreaksAtSendError | cmd/client/client.go:187-194 | when the Send at index n fails, n + 1 texts are shown and the error is logged; the send direction is still closed once, after the failed Send |
| Exchange.UnaryExchange | cmd/client/client.go:100-105 | a unary call always shows the server's greeting |
| Exchange.DeliveredInOrder | cmd/client/client.go:119-129 | a stream that delivers `ms` shows exactly the bodies of `ms`, in order, with |ms| + 1 Recvs |
| Exchange.ServerStreamExchange | chat/chat.go:24-31 | the three messages the handler sends reach the driver, which shows "message 0", "message 1" and "message 2" |
| Exchange.ClientStreamExchange | chat/chat.go:38-44 | the driver's texts reach the handler, which reports their number in one response; the driver reads that number back and shows the response |
| Exchange.ClientStreamExchangeEmpty | chat/chat.go:40-44 | a client stream with no texts gets "received 0 messages" |
| Exchange.BiDiExchange | chat/chat.go:56-73 | every text the bidirectional driver sends comes back as its echo, in order, and the handler returns nil |
| Exchange.BiDiExchangeAB | chat/chat.go:68-70 | the texts "a" and "b" come back as "echo: a" and "echo: b" |

## Left out

- The client's `main` function, its interactive menu and its reading of
  standard input (cmd/client/client.go:17-93) are user interface, not
  protocol logic.
- Dialling the server, transport credentials and the generated gRPC stubs
  are network code that cannot be modelled here. The result of opening a
  call is a parameter of each driver.
- Context deadlines and cancellation are left out because they need a
  clock. A deadline that fires shows up only as an error entry
  (`DeadlineExceeded`) in the script or as the send fault.
- The receive goroutine of `doBiDiStream`, its `done` channel and the wait
  on it (cmd/client/client.go:169-184, 195) are left out because the model
  has no concurrency. `Client.DoBiDiStream` models the send half.
  `Client.DoServerStream` has the same receive loop.
- Client.DoServerStream: the request text is carried by the call that
  opens the stream, which is a parameter. The header line and the trailing
  blank line the driver prints are not observations.
- Client.DoUnary: the request text, the call itself and its five-second
  timeout are left out. The function takes the call's reply.
- Printing with `fmt` and logging with `log.Printf` become observations,
  so their exact text formatting is left out. The server's log lines
  (chat/chat.go:16, 22, 49, 65) are left out entirely.
- Protocol Buffers serialisation is left out, because a message is its
  body string.
- Chat.MessageClientStream: the count is an unbounded natural number.
  Go's `int` would overflow only after more than 2^63 messages.
- The handle's edge-case behaviour is an assumption of the model, not code
  in these files. The assumed behaviours are:
  - end of stream and errors are sticky;
  - a `CloseAndRecv` without a response gives `Internal`;
  - a Send after closing gives `Internal`.
