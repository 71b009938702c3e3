/** The stream handle the chat service's handlers and drivers work on.
    The transport behind it (connection, framing, serialisation) is not
    modelled: what the peer delivers is a script, and whether a Send is
    accepted is decided by a scripted fault. Every call made on the handle
    is recorded, so that what a handler or driver did can be stated exactly. */
module Transport {

  /** The one payload type of the service: a message with a text body. */
  datatype Message = Message(body: string)

  /** Status codes a failed stream operation carries. */
  datatype Code = Canceled | Unknown | DeadlineExceeded | Unavailable | Internal

  /** A Go `error` result: Ok stands for nil. */
  datatype Status = Ok | Fail(code: Code)

  /** A value-or-error result, as a Go call returning (T, error) gives. */
  datatype Result<T> = Success(value: T) | Failure(code: Code)

  /** What one Recv hands back: a message, end of stream (io.EOF), or an error. */
  datatype RecvResult = Msg(msg: Message) | EndOfStream | Err(code: Code)

  /** How the outbound direction behaves from now on: every Send succeeds,
      or the next `remaining` Sends succeed and every later one fails with
      `code`. */
  datatype Fault = NoFault | FailAfter(remaining: nat, code: Code)

  /** One call made on a stream handle. */
  datatype Call =
    | RecvCall
    | SendCall(msg: Message)
    | CloseSendCall
    | CloseAndRecvCall
    | SendAndCloseCall(msg: Message)

  /** Everything a stream handle holds:
      `inbox`, what the peer has delivered and is still to be received, in order;
      `fault`, the behaviour of the outbound direction;
      `calls`, every call made on the handle so far, in order;
      `sent`, every message the peer has accepted, in order;
      `sendClosed`, whether the local send direction is closed. */
  datatype StreamState = StreamState(
    inbox: seq<RecvResult>,
    fault: Fault,
    calls: seq<Call>,
    sent: seq<Message>,
    sendClosed: bool)

  // ---------------------------------------------------------------------
  // The stream primitives, as functions on the state

  /** Recv: a message is consumed; end of stream and errors are not, so
      that every later Recv reports them again. An exhausted inbox reads as
      end of stream. */
  function RecvStep(st: StreamState): (RecvResult, StreamState)
  {
    var st1 := st.(calls := st.calls + [RecvCall]);
    if st.inbox == [] then (EndOfStream, st1)
    else if st.inbox[0].Msg? then (st.inbox[0], st1.(inbox := st.inbox[1..]))
    else (st.inbox[0], st1)
  }

  /** Whether the outbound direction accepts one more message, and how the
      fault evolves. A Send on a closed send direction is refused. */
  function Accept(st: StreamState): (Status, Fault)
  {
    if st.sendClosed then (Fail(Internal), st.fault)
    else match st.fault
      case NoFault => (Ok, NoFault)
      case FailAfter(n, c) => if n == 0 then (Fail(c), st.fault) else (Ok, FailAfter(n - 1, c))
  }

  /** Send: the peer gets `m` exactly when the transport accepts it. */
  function SendStep(st: StreamState, m: Message): (Status, StreamState)
  {
    var (e, f) := Accept(st);
    (e, st.(fault := f, calls := st.calls + [SendCall(m)],
            sent := if e.Ok? then st.sent + [m] else st.sent))
  }

  /** CloseSend: the local send direction closes. */
  function CloseSendStep(st: StreamState): StreamState
  {
    st.(calls := st.calls + [CloseSendCall], sendClosed := true)
  }

  /** CloseAndRecv: the send direction closes and the single response is
      read. A peer that ends the stream without a response is reported as
      an Internal error. */
  function CloseAndRecvStep(st: StreamState): (Result<Message>, StreamState)
  {
    var st1 := st.(calls := st.calls + [CloseAndRecvCall], sendClosed := true);
    if st.inbox == [] then (Failure(Internal), st1)
    else match st.inbox[0]
      case Msg(m) => (Success(m), st1.(inbox := st.inbox[1..]))
      case EndOfStream => (Failure(Internal), st1)
      case Err(c) => (Failure(c), st1)
  }

  /** SendAndClose: the single response of a client-streaming call is sent
      and the send direction closes. */
  function SendAndCloseStep(st: StreamState, m: Message): (Status, StreamState)
  {
    var (e, f) := Accept(st);
    (e, st.(fault := f, calls := st.calls + [SendAndCloseCall(m)],
            sent := if e.Ok? then st.sent + [m] else st.sent, sendClosed := true))
  }

  // ---------------------------------------------------------------------
  // The stream handle

  class Stream {
    var inbox: seq<RecvResult>
    var fault: Fault
    var calls: seq<Call>
    var sent: seq<Message>
    var sendClosed: bool

    function State(): StreamState
      reads this
    {
      StreamState(inbox, fault, calls, sent, sendClosed)
    }

    /** A new call: nothing received, nothing sent, both directions open. */
    constructor (script: seq<RecvResult>, sendFault: Fault)
      ensures State() == StreamState(script, sendFault, [], [], false)
    {
      inbox, fault, calls, sent, sendClosed := script, sendFault, [], [], false;
    }

    method Recv() returns (r: RecvResult)
      modifies this
      ensures (r, State()) == RecvStep(old(State()))
    {
      calls := calls + [RecvCall];
      if inbox == [] {
        r := EndOfStream;
      } else {
        r := inbox[0];
        if r.Msg? {
          inbox := inbox[1..];
        }
      }
    }

    /** Whether the transport takes one more message; updates the fault. */
    method Admit() returns (err: Status)
      modifies this
      ensures (err, fault) == Accept(old(State()))
      ensures inbox == old(inbox) && calls == old(calls) && sent == old(sent)
      ensures sendClosed == old(sendClosed)
    {
      if sendClosed {
        err := Fail(Internal);
      } else if fault.FailAfter? {
        if fault.remaining == 0 {
          err := Fail(fault.code);
        } else {
          err := Ok;
          fault := FailAfter(fault.remaining - 1, fault.code);
        }
      } else {
        err := Ok;
      }
    }

    method Send(m: Message) returns (err: Status)
      modifies this
      ensures (err, State()) == SendStep(old(State()), m)
    {
      err := Admit();
      calls := calls + [SendCall(m)];
      if err.Ok? {
        sent := sent + [m];
      }
    }

    method CloseSend()
      modifies this
      ensures State() == CloseSendStep(old(State()))
    {
      calls := calls + [CloseSendCall];
      sendClosed := true;
    }

    method CloseAndRecv() returns (reply: Result<Message>)
      modifies this
      ensures (reply, State()) == CloseAndRecvStep(old(State()))
    {
      calls := calls + [CloseAndRecvCall];
      sendClosed := true;
      if inbox == [] {
        reply := Failure(Internal);
      } else {
        match inbox[0]
        case Msg(m) =>
          reply := Success(m);
          inbox := inbox[1..];
        case EndOfStream =>
          reply := Failure(Internal);
        case Err(c) =>
          reply := Failure(c);
      }
    }

    method SendAndClose(m: Message) returns (err: Status)
      modifies this
      ensures (err, State()) == SendAndCloseStep(old(State()), m)
    {
      err := Admit();
      calls := calls + [SendAndCloseCall(m)];
      if err.Ok? {
        sent := sent + [m];
      }
      sendClosed := true;
    }
  }

  // ---------------------------------------------------------------------
  // Reading an inbound script: the messages the peer delivers before its
  // first end-of-stream or error, and that terminating entry.

  /** The script in which the peer delivers `ms` in order. */
  function Deliver(ms: seq<Message>): (s: seq<RecvResult>)
  {
    seq(|ms|, i requires 0 <= i < |ms| => Msg(ms[i]))
  }

  function LeadingMessages(s: seq<RecvResult>): (ms: seq<Message>)
    ensures |ms| <= |s|
    ensures forall i :: 0 <= i < |ms| ==> s[i] == Msg(ms[i])
  {
    if s != [] && s[0].Msg? then [s[0].msg] + LeadingMessages(s[1..]) else []
  }

  function AfterMessages(s: seq<RecvResult>): seq<RecvResult>
  {
    if s != [] && s[0].Msg? then AfterMessages(s[1..]) else s
  }

  /** What a receive loop reads when the messages run out; never a message. */
  function Terminator(s: seq<RecvResult>): (t: RecvResult)
    ensures !t.Msg?
  {
    if s == [] then EndOfStream else if s[0].Msg? then Terminator(s[1..]) else s[0]
  }

  /** A script splits into its leading messages and the rest, which starts
      with the terminator (or is empty, which reads as end of stream). */
  lemma {:induction false} ScriptSplit(s: seq<RecvResult>)
    ensures s == Deliver(LeadingMessages(s)) + AfterMessages(s)
    ensures AfterMessages(s) == [] || !AfterMessages(s)[0].Msg?
    ensures Terminator(s) == if AfterMessages(s) == [] then EndOfStream else AfterMessages(s)[0]
  {
    if s != [] && s[0].Msg? {
      ScriptSplit(s[1..]);
      ScriptAfterFirst(s);
      var ms := LeadingMessages(s[1..]);
      assert Deliver([s[0].msg] + ms) == [s[0]] + Deliver(ms);
    }
  }

  /** Conversely, the messages and the terminator are read back from any
      script built that way. */
  lemma {:induction false} DeliverThen(ms: seq<Message>, rest: seq<RecvResult>)
    requires rest == [] || !rest[0].Msg?
    ensures LeadingMessages(Deliver(ms) + rest) == ms
    ensures AfterMessages(Deliver(ms) + rest) == rest
    ensures Terminator(Deliver(ms) + rest) == if rest == [] then EndOfStream else rest[0]
    decreases |ms|
  {
    if ms != [] {
      var s := Deliver(ms) + rest;
      assert s[1..] == Deliver(ms[1..]) + rest;
      DeliverThen(ms[1..], rest);
      assert [ms[0]] + ms[1..] == ms;
    }
  }

  function RecvCalls(n: nat): (cs: seq<Call>)
  {
    seq(n, i => RecvCall)
  }

  /** The state after a receive loop has read every leading message and
      then the terminator, one Recv each. */
  function Drained(st: StreamState): StreamState
  {
    st.(inbox := AfterMessages(st.inbox),
        calls := st.calls + RecvCalls(|LeadingMessages(st.inbox)| + 1))
  }

  /** A Recv that reads the terminator is the whole of a drain. */
  lemma DrainedAtTerminator(st: StreamState)
    requires st.inbox == [] || !st.inbox[0].Msg?
    ensures Drained(st) == RecvStep(st).1
  {
    assert RecvCalls(1) == [RecvCall];
  }

  /** Taking a leading message off a script leaves the rest of its leading
      messages, the same remainder and the same terminator. */
  lemma ScriptAfterFirst(s: seq<RecvResult>)
    requires s != [] && s[0].Msg?
    ensures LeadingMessages(s) == [s[0].msg] + LeadingMessages(s[1..])
    ensures LeadingMessages(s[1..]) == LeadingMessages(s)[1..]
    ensures AfterMessages(s[1..]) == AfterMessages(s)
    ensures Terminator(s[1..]) == Terminator(s)
  {
  }

  /** One Recv that hands back a message leaves a state that drains to the
      same place. */
  lemma DrainedAfterMessage(st: StreamState)
    requires st.inbox != [] && st.inbox[0].Msg?
    ensures Drained(RecvStep(st).1) == Drained(st)
  {
    var k := |LeadingMessages(st.inbox[1..])|;
    assert RecvCalls(k + 2) == [RecvCall] + RecvCalls(k + 1);
  }

  // ---------------------------------------------------------------------
  // A send loop: the messages are sent in order and the loop stops at the
  // first Send that fails.

  datatype SendRun = SendRun(status: Status, attempted: nat, state: StreamState)

  function SendAll(st: StreamState, ms: seq<Message>): (r: SendRun)
    ensures r.attempted <= |ms|
    ensures r.status.Ok? ==> r.attempted == |ms|
    ensures r.status.Fail? ==> r.attempted >= 1
    decreases |ms|
  {
    if ms == [] then SendRun(Ok, 0, st)
    else
      var (e, st1) := SendStep(st, ms[0]);
      if e.Fail? then SendRun(e, 1, st1)
      else
        var r := SendAll(st1, ms[1..]);
        r.(attempted := r.attempted + 1)
  }

  function SendCalls(ms: seq<Message>): (cs: seq<Call>)
  {
    seq(|ms|, i requires 0 <= i < |ms| => SendCall(ms[i]))
  }

  /** Whether the fault lets `n` more Sends through. */
  predicate Allows(f: Fault, n: nat)
  {
    f.NoFault? || n <= f.remaining
  }

  function Spend(f: Fault, n: nat): Fault
    requires Allows(f, n)
  {
    if f.NoFault? then NoFault else FailAfter(f.remaining - n, f.code)
  }

  /** The state a send loop leaves when the transport accepts every one of
      `ms`. */
  function AllSent(st: StreamState, ms: seq<Message>): StreamState
    requires Allows(st.fault, |ms|)
  {
    st.(fault := Spend(st.fault, |ms|), calls := st.calls + SendCalls(ms), sent := st.sent + ms)
  }

  lemma AllSentRound(st: StreamState, ms: seq<Message>)
    requires !st.sendClosed && ms != [] && Allows(st.fault, |ms|)
    ensures SendStep(st, ms[0]).0 == Ok
    ensures Allows(SendStep(st, ms[0]).1.fault, |ms| - 1)
    ensures AllSent(SendStep(st, ms[0]).1, ms[1..]) == AllSent(st, ms)
  {
    var st1 := SendStep(st, ms[0]).1;
    assert st1.fault == Spend(st.fault, 1);
    assert Spend(st1.fault, |ms| - 1) == Spend(st.fault, |ms|);
    SendCallsCons(ms);
    assert st1.calls + SendCalls(ms[1..]) == st.calls + SendCalls(ms);
    assert st1.sent + ms[1..] == st.sent + ms;
  }

  /** When the transport accepts them all, every message is sent, in order,
      one Send each, and the loop reports success. */
  lemma {:induction false} SendAllDelivers(st: StreamState, ms: seq<Message>)
    requires !st.sendClosed && Allows(st.fault, |ms|)
    ensures SendAll(st, ms) == SendRun(Ok, |ms|, AllSent(st, ms))
    decreases |ms|
  {
    if ms == [] {
      assert SendCalls(ms) == [];
      assert AllSent(st, ms) == st;
    } else {
      AllSentRound(st, ms);
      SendAllDelivers(SendStep(st, ms[0]).1, ms[1..]);
    }
  }

  /** The state a send loop leaves when the Send at index
      `st.fault.remaining` of `ms` fails. */
  function SentUntilFailure(st: StreamState, ms: seq<Message>): StreamState
    requires st.fault.FailAfter? && st.fault.remaining < |ms|
  {
    var n := st.fault.remaining;
    st.(fault := FailAfter(0, st.fault.code),
        calls := st.calls + SendCalls(ms[..n + 1]),
        sent := st.sent + ms[..n])
  }

  lemma SentUntilFailureRound(st: StreamState, ms: seq<Message>)
    requires !st.sendClosed && st.fault.FailAfter? && 0 < st.fault.remaining < |ms|
    ensures SendStep(st, ms[0]).0 == Ok
    ensures SendStep(st, ms[0]).1.fault == FailAfter(st.fault.remaining - 1, st.fault.code)
    ensures SentUntilFailure(SendStep(st, ms[0]).1, ms[1..]) == SentUntilFailure(st, ms)
  {
    var n := st.fault.remaining;
    var st1 := SendStep(st, ms[0]).1;
    var tail := ms[1..];
    SendCallsCons(ms[..n + 1]);
    assert ms[..n + 1][1..] == tail[..n];
    assert st1.calls + SendCalls(tail[..n]) == st.calls + SendCalls(ms[..n + 1]);
    assert ms[..n] == [ms[0]] + tail[..n - 1];
    assert st1.sent + tail[..n - 1] == st.sent + ms[..n];
  }

  /** When the Send at index n fails, the loop returns that error after
      n + 1 Sends, the peer holds exactly the n messages before it, and
      nothing is sent after it. */
  lemma {:induction false} SendAllStopsAtFailure(st: StreamState, ms: seq<Message>)
    requires !st.sendClosed && st.fault.FailAfter? && st.fault.remaining < |ms|
    ensures SendAll(st, ms)
         == SendRun(Fail(st.fault.code), st.fault.remaining + 1, SentUntilFailure(st, ms))
    decreases st.fault.remaining
  {
    if st.fault.remaining == 0 {
      assert SendCalls(ms[..1]) == [SendCall(ms[0])];
      assert ms[..0] == [];
      assert SentUntilFailure(st, ms) == SendStep(st, ms[0]).1;
    } else {
      SentUntilFailureRound(st, ms);
      SendAllStopsAtFailure(SendStep(st, ms[0]).1, ms[1..]);
    }
  }

  lemma SendCallsCons(ms: seq<Message>)
    requires ms != []
    ensures SendCalls(ms) == [SendCall(ms[0])] + SendCalls(ms[1..])
  {
  }
}
