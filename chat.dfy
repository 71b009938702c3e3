/** The chat service's four server-side handlers (chat/chat.go), each run
    against a stream handle, with the specification of what each does to
    the stream and the properties proved of it. Server-side log lines are
    not modelled. */
module Chat {
  import opened Format
  import opened Transport

  // ---------------------------------------------------------------------
  // Unary

  const Greeting := "Hello From the Server!"

  /** Whatever the request, the reply is the fixed greeting and no error. */
  function MessageUnary(req: Message): (reply: Result<Message>)
    ensures reply.Success? && reply.value.body == Greeting
  {
    Success(Message(Greeting))
  }

  // ---------------------------------------------------------------------
  // Server streaming: a fixed number of numbered messages

  const ServerStreamCount: nat := 3

  /** The i-th message of a server stream: "message i". */
  function Numbered(i: nat): Message
  {
    Message("message " + Decimal(i))
  }

  function ServerStreamMessages(): (ms: seq<Message>)
  {
    seq(ServerStreamCount, i requires 0 <= i < ServerStreamCount => Numbered(i))
  }

  lemma ServerStreamMessagesSpelledOut()
    ensures ServerStreamMessages()
         == [Message("message 0"), Message("message 1"), Message("message 2")]
  {
    var ms := ServerStreamMessages();
    assert Decimal(0) == "0" && Decimal(1) == "1" && Decimal(2) == "2";
    assert ms[0] == Message("message 0");
    assert ms[1] == Message("message 1");
    assert ms[2] == Message("message 2");
  }

  /** Sends "message 0", "message 1", "message 2" in turn and returns the
      first Send error, if any, without sending further. */
  method MessageServertream(req: Message, stream: Stream) returns (err: Status)
    modifies stream
    ensures var run := SendAll(old(stream.State()), ServerStreamMessages());
      err == run.status && stream.State() == run.state
  {
    ghost var ms := ServerStreamMessages();
    var i := 0;
    while i < ServerStreamCount
      invariant 0 <= i <= ServerStreamCount
      invariant SendAll(stream.State(), ms[i..]).status == SendAll(old(stream.State()), ms).status
      invariant SendAll(stream.State(), ms[i..]).state == SendAll(old(stream.State()), ms).state
    {
      assert ms[i..][1..] == ms[i + 1..];
      err := stream.Send(Message("message " + Decimal(i)));
      if err.Fail? {
        return;
      }
      i := i + 1;
    }
    err := Ok;
  }

  /** With no send failure, exactly the three numbered messages are sent,
      in order, one Send each, and the handler returns nil. */
  lemma ServerStreamSendsAll(st: StreamState)
    requires !st.sendClosed && Allows(st.fault, ServerStreamCount)
    ensures var run := SendAll(st, ServerStreamMessages());
      run.status == Ok
      && run.state.sent == st.sent + [Message("message 0"), Message("message 1"), Message("message 2")]
      && run.state.calls == st.calls + [SendCall(Message("message 0")), SendCall(Message("message 1")),
                                        SendCall(Message("message 2"))]
      && run.state.inbox == st.inbox
  {
    var ms := ServerStreamMessages();
    SendAllDelivers(st, ms);
    var run := SendAll(st, ms);
    assert run.state.sent == st.sent + ms && run.state.calls == st.calls + SendCalls(ms);
    ServerStreamMessagesSpelledOut();
    ThreeSendCalls(ms);
  }

  lemma ThreeSendCalls(ms: seq<Message>)
    requires |ms| == 3
    ensures SendCalls(ms) == [SendCall(ms[0]), SendCall(ms[1]), SendCall(ms[2])]
  {
  }

  /** When the Send at index n < 3 fails, the handler returns that error,
      the peer holds exactly the n messages before it, and the failing Send
      is the last call made. */
  lemma ServerStreamStopsAtFailure(st: StreamState)
    requires !st.sendClosed && st.fault.FailAfter? && st.fault.remaining < ServerStreamCount
    ensures var n := st.fault.remaining;
      var run := SendAll(st, ServerStreamMessages());
      run.status == Fail(st.fault.code)
      && run.state.sent == st.sent + ServerStreamMessages()[..n]
      && run.state.calls == st.calls + SendCalls(ServerStreamMessages()[..n + 1])
  {
    SendAllStopsAtFailure(st, ServerStreamMessages());
  }

  // ---------------------------------------------------------------------
  // Client streaming: count the messages, answer once at end of stream

  const ReportPrefix := "received "
  const ReportSuffix := " messages"

  /** The single response of a client stream: "received n messages". */
  function Report(n: nat): string
  {
    ReportPrefix + Decimal(n) + ReportSuffix
  }

  /** The count a response reports, if it is a response. */
  function ParseReport(s: string): Option<nat>
  {
    var p := |ReportPrefix|;
    var q := |ReportSuffix|;
    if |s| > p + q && s[..p] == ReportPrefix && s[|s| - q..] == ReportSuffix
       && AllDigits(s[p..|s| - q])
    then Some(DigitsValue(s[p..|s| - q]))
    else None
  }

  /** The response states the count unambiguously: it reads back as n. */
  lemma ReportRoundTrip(n: nat)
    ensures ParseReport(Report(n)) == Some(n)
  {
    var d := Decimal(n);
    var s := Report(n);
    assert s[..|ReportPrefix|] == ReportPrefix;
    assert s[|s| - |ReportSuffix|..] == ReportSuffix;
    assert s[|ReportPrefix|..|s| - |ReportSuffix|] == d;
    DecimalRoundTrip(n);
  }

  /** What the handler does from a state in which it has counted `cnt`
      messages: receive; at end of stream send the report and return its
      Send result; on an error return it; on a message count it and go on. */
  function ClientStreamFrom(st: StreamState, cnt: nat): (Status, StreamState)
    decreases |st.inbox|
  {
    var (r, st1) := RecvStep(st);
    match r
    case EndOfStream => SendAndCloseStep(st1, Message(Report(cnt)))
    case Err(c) => (Fail(c), st1)
    case Msg(_) => ClientStreamFrom(st1, cnt + 1)
  }

  method MessageClientStream(stream: Stream) returns (err: Status)
    modifies stream
    ensures (err, stream.State()) == ClientStreamFrom(old(stream.State()), 0)
  {
    var cnt := 0;
    while true
      invariant ClientStreamFrom(stream.State(), cnt) == ClientStreamFrom(old(stream.State()), 0)
      decreases |stream.inbox|
    {
      var r := stream.Recv();
      if r.EndOfStream? {
        err := stream.SendAndClose(Message(Report(cnt)));
        return;
      }
      if r.Err? {
        return Fail(r.code);
      }
      cnt := cnt + 1;
    }
  }

  /** The handler reads every leading message and the terminator, one Recv
      each and nothing after; the count it reports adds the messages read. */
  lemma {:induction false} ClientStreamFromDrains(st: StreamState, cnt: nat)
    ensures ClientStreamFrom(st, cnt) ==
      if Terminator(st.inbox).Err? then (Fail(Terminator(st.inbox).code), Drained(st))
      else SendAndCloseStep(Drained(st), Message(Report(cnt + |LeadingMessages(st.inbox)|)))
    decreases |st.inbox|
  {
    if st.inbox != [] && st.inbox[0].Msg? {
      var st1 := RecvStep(st).1;
      ClientStreamFromDrains(st1, cnt + 1);
      DrainedAfterMessage(st);
    } else {
      DrainedAtTerminator(st);
    }
  }

  /** At end of stream after k messages the handler receives k + 1 times,
      then sends exactly one response, "received k messages", and makes no
      call after it; it returns the result of that one Send. */
  lemma ClientStreamRespondsOnce(st: StreamState)
    requires Terminator(st.inbox) == EndOfStream && !st.sendClosed
    ensures var k := |LeadingMessages(st.inbox)|;
      var resp := Message(Report(k));
      var (err, st') := ClientStreamFrom(st, 0);
      st'.calls == st.calls + RecvCalls(k + 1) + [SendAndCloseCall(resp)]
      && st'.inbox == AfterMessages(st.inbox)
      && st'.sendClosed
      && (err == Ok <==> Allows(st.fault, 1))
      && st'.sent == st.sent + (if err == Ok then [resp] else [])
  {
    var k := |LeadingMessages(st.inbox)|;
    var resp := Message(Report(k));
    ClientStreamFromDrains(st, 0);
    var d := Drained(st);
    assert ClientStreamFrom(st, 0) == SendAndCloseStep(d, resp);
    assert Accept(d).0 == Ok <==> Allows(st.fault, 1);
  }

  /** On a receive error the handler returns it after reading the leading
      messages, and sends no response. */
  lemma ClientStreamStopsOnError(st: StreamState)
    requires Terminator(st.inbox).Err?
    ensures var (err, st') := ClientStreamFrom(st, 0);
      err == Fail(Terminator(st.inbox).code)
      && st'.calls == st.calls + RecvCalls(|LeadingMessages(st.inbox)| + 1)
      && st'.sent == st.sent && st'.sendClosed == st.sendClosed
  {
    ClientStreamFromDrains(st, 0);
  }

  /** A client that sends nothing and closes gets "received 0 messages". */
  lemma ClientStreamZeroMessages(st: StreamState)
    requires st.inbox == [EndOfStream] && st.fault == NoFault && !st.sendClosed
    ensures ClientStreamFrom(st, 0).1.sent == st.sent + [Message("received 0 messages")]
  {
    assert Decimal(0) == "0";
    assert Report(0) == "received 0 messages";
    DrainedAtTerminator(st);
  }

  // ---------------------------------------------------------------------
  // Bidirectional streaming: echo every message

  function Echo(m: Message): Message
  {
    Message("echo: " + m.body)
  }

  function Echoes(ms: seq<Message>): (es: seq<Message>)
  {
    seq(|ms|, i requires 0 <= i < |ms| => Echo(ms[i]))
  }

  /** The calls of a loop that receives each of `ms` and echoes it. */
  function EchoCalls(ms: seq<Message>): seq<Call>
    decreases |ms|
  {
    if ms == [] then [] else [RecvCall, SendCall(Echo(ms[0]))] + EchoCalls(ms[1..])
  }

  /** What the handler returns for the terminator it reads. */
  function TerminalStatus(t: RecvResult): Status
  {
    if t.Err? then Fail(t.code) else Ok
  }

  /** What the handler does from a state: receive; at end of stream return
      nil; on an error return it; on a message send its echo, returning a
      Send error, and go on. */
  function BiDiFrom(st: StreamState): (Status, StreamState)
    decreases |st.inbox|
  {
    var (r, st1) := RecvStep(st);
    match r
    case EndOfStream => (Ok, st1)
    case Err(c) => (Fail(c), st1)
    case Msg(m) =>
      var (e, st2) := SendStep(st1, Echo(m));
      if e.Fail? then (e, st2) else BiDiFrom(st2)
  }

  method MessageBiStreams(stream: Stream) returns (err: Status)
    modifies stream
    ensures (err, stream.State()) == BiDiFrom(old(stream.State()))
  {
    while true
      invariant BiDiFrom(stream.State()) == BiDiFrom(old(stream.State()))
      decreases |stream.inbox|
    {
      var r := stream.Recv();
      if r.EndOfStream? {
        return Ok;
      }
      if r.Err? {
        return Fail(r.code);
      }
      err := stream.Send(Message("echo: " + r.msg.body));
      if err.Fail? {
        return;
      }
    }
  }

  /** The state after one round of the loop whose echo was accepted. */
  function EchoRound(st: StreamState): StreamState
    requires st.inbox != [] && st.inbox[0].Msg?
  {
    var m := st.inbox[0].msg;
    st.(inbox := st.inbox[1..], fault := Accept(st).1,
        calls := st.calls + [RecvCall, SendCall(Echo(m))], sent := st.sent + [Echo(m)])
  }

  /** One round of the loop: a message is read and its echo accepted. */
  lemma BiDiRound(st: StreamState)
    requires st.inbox != [] && st.inbox[0].Msg? && Accept(st).0 == Ok
    ensures BiDiFrom(st) == BiDiFrom(EchoRound(st))
  {
    var m := st.inbox[0].msg;
    assert st.calls + [RecvCall] + [SendCall(Echo(m))] == st.calls + [RecvCall, SendCall(Echo(m))];
  }

  /** The last round of the loop after a send failure: a message is read
      and the Send of its echo is refused. */
  lemma BiDiFailedRound(st: StreamState)
    requires st.inbox != [] && st.inbox[0].Msg? && Accept(st).0.Fail?
    ensures var m := st.inbox[0].msg;
      BiDiFrom(st) == (Accept(st).0, st.(inbox := st.inbox[1..], fault := Accept(st).1,
        calls := st.calls + [RecvCall, SendCall(Echo(m))]))
  {
    var m := st.inbox[0].msg;
    assert st.calls + [RecvCall] + [SendCall(Echo(m))] == st.calls + [RecvCall, SendCall(Echo(m))];
  }

  /** The last round of the loop: the terminator is read. */
  lemma BiDiAtTerminator(st: StreamState)
    requires st.inbox == [] || !st.inbox[0].Msg?
    ensures BiDiFrom(st) == (TerminalStatus(Terminator(st.inbox)), st.(calls := st.calls + [RecvCall]))
  {
  }

  /** The final state when every leading message is echoed. */
  function AllEchoed(st: StreamState): StreamState
    requires Allows(st.fault, |LeadingMessages(st.inbox)|)
  {
    var ms := LeadingMessages(st.inbox);
    st.(inbox := AfterMessages(st.inbox),
        fault := Spend(st.fault, |ms|),
        calls := st.calls + EchoCalls(ms) + [RecvCall],
        sent := st.sent + Echoes(ms))
  }

  lemma AllEchoedRound(st: StreamState)
    requires !st.sendClosed && st.inbox != [] && st.inbox[0].Msg?
    requires Allows(st.fault, |LeadingMessages(st.inbox)|)
    ensures Accept(st).0 == Ok && Allows(EchoRound(st).fault, |LeadingMessages(EchoRound(st).inbox)|)
    ensures AllEchoed(EchoRound(st)) == AllEchoed(st)
    ensures Terminator(EchoRound(st).inbox) == Terminator(st.inbox)
  {
    var ms := LeadingMessages(st.inbox);
    var st2 := EchoRound(st);
    EchoRoundLog(st);
    assert Spend(st2.fault, |ms| - 1) == Spend(st.fault, |ms|);
  }

  /** One accepted round takes the first leading message off the script,
      and the first echo and its calls off what is left to do. */
  lemma EchoRoundLog(st: StreamState)
    requires st.inbox != [] && st.inbox[0].Msg?
    ensures LeadingMessages(EchoRound(st).inbox) == LeadingMessages(st.inbox)[1..]
    ensures AfterMessages(EchoRound(st).inbox) == AfterMessages(st.inbox)
    ensures EchoRound(st).calls + EchoCalls(LeadingMessages(st.inbox)[1..])
         == st.calls + EchoCalls(LeadingMessages(st.inbox))
    ensures EchoRound(st).sent + Echoes(LeadingMessages(st.inbox)[1..])
         == st.sent + Echoes(LeadingMessages(st.inbox))
  {
    ScriptAfterFirst(st.inbox);
    var ms := LeadingMessages(st.inbox);
    assert ms[0] == st.inbox[0].msg;
    EchoCallsAfter(st.calls, ms);
    EchoesAfter(st.sent, ms);
  }

  lemma EchoCallsAfter(calls: seq<Call>, ms: seq<Message>)
    requires ms != []
    ensures calls + [RecvCall, SendCall(Echo(ms[0]))] + EchoCalls(ms[1..]) == calls + EchoCalls(ms)
  {
    var head := [RecvCall, SendCall(Echo(ms[0]))];
    assert EchoCalls(ms) == head + EchoCalls(ms[1..]);
    assert calls + head + EchoCalls(ms[1..]) == calls + (head + EchoCalls(ms[1..]));
  }

  lemma EchoesAfter(sent: seq<Message>, ms: seq<Message>)
    requires ms != []
    ensures sent + [Echo(ms[0])] + Echoes(ms[1..]) == sent + Echoes(ms)
  {
    EchoesCons(ms);
    assert sent + [Echo(ms[0])] + Echoes(ms[1..]) == sent + ([Echo(ms[0])] + Echoes(ms[1..]));
  }

  lemma EchoesCons(ms: seq<Message>)
    requires ms != []
    ensures Echoes(ms) == [Echo(ms[0])] + Echoes(ms[1..])
  {
  }

  /** With no send failure the handler alternates one Recv and one Send
      per message, sends "echo: " + body for each in order, then reads the
      terminator, makes no further call and returns nil or the error read. */
  lemma {:induction false} BiDiEchoesAll(st: StreamState)
    requires !st.sendClosed && Allows(st.fault, |LeadingMessages(st.inbox)|)
    ensures BiDiFrom(st) == (TerminalStatus(Terminator(st.inbox)), AllEchoed(st))
    decreases |st.inbox|
  {
    if st.inbox == [] || !st.inbox[0].Msg? {
      BiDiAtTerminator(st);
      var ms := LeadingMessages(st.inbox);
      assert ms == [] && AfterMessages(st.inbox) == st.inbox;
      assert Echoes(ms) == [] && EchoCalls(ms) == [];
      assert Spend(st.fault, 0) == st.fault;
      assert st.sent + Echoes(ms) == st.sent;
      assert st.calls + EchoCalls(ms) + [RecvCall] == st.calls + [RecvCall];
      assert AllEchoed(st) == st.(calls := st.calls + [RecvCall]);
    } else {
      AllEchoedRound(st);
      BiDiRound(st);
      BiDiEchoesAll(EchoRound(st));
    }
  }

  /** The final state when the echo of the message at index `remaining`
      is refused. */
  function EchoedUntilFailure(st: StreamState): StreamState
    requires st.fault.FailAfter? && st.fault.remaining < |LeadingMessages(st.inbox)|
  {
    var ms := LeadingMessages(st.inbox);
    var n := st.fault.remaining;
    st.(inbox := st.inbox[n + 1..],
        fault := FailAfter(0, st.fault.code),
        calls := st.calls + EchoCalls(ms[..n]) + [RecvCall, SendCall(Echo(ms[n]))],
        sent := st.sent + Echoes(ms[..n]))
  }

  lemma EchoedUntilFailureRound(st: StreamState)
    requires !st.sendClosed && st.fault.FailAfter? && 0 < st.fault.remaining
    requires st.fault.remaining < |LeadingMessages(st.inbox)|
    ensures Accept(st).0 == Ok
    ensures EchoRound(st).fault == FailAfter(st.fault.remaining - 1, st.fault.code)
    ensures EchoRound(st).fault.remaining < |LeadingMessages(EchoRound(st).inbox)|
    ensures EchoedUntilFailure(EchoRound(st)) == EchoedUntilFailure(st)
  {
    ScriptAfterFirst(st.inbox);
    var ms := LeadingMessages(st.inbox);
    var n := st.fault.remaining;
    var st2 := EchoRound(st);
    var tail := ms[1..];
    assert ms[0] == st.inbox[0].msg;
    assert ms[..n][1..] == tail[..n - 1] && ms[..n][0] == ms[0] && tail[n - 1] == ms[n];
    EchoCallsAfter(st.calls, ms[..n]);
    EchoesAfter(st.sent, ms[..n]);
    assert st2.inbox[n..] == st.inbox[n + 1..];
  }

  /** When the echo of the message at index n fails to send, the handler
      returns that error at once: the peer holds the first n echoes, and
      that Send is the last call made. */
  lemma {:induction false} BiDiStopsAtSendFailure(st: StreamState)
    requires !st.sendClosed && st.fault.FailAfter?
    requires st.fault.remaining < |LeadingMessages(st.inbox)|
    ensures BiDiFrom(st) == (Fail(st.fault.code), EchoedUntilFailure(st))
    decreases st.fault.remaining
  {
    var ms := LeadingMessages(st.inbox);
    assert st.inbox[0] == Msg(ms[0]);
    if st.fault.remaining == 0 {
      var m := ms[0];
      BiDiFailedRound(st);
      assert Accept(st) == (Fail(st.fault.code), st.fault);
      assert ms[..0] == [] && Echoes(ms[..0]) == [] && EchoCalls(ms[..0]) == [];
      assert st.sent + Echoes(ms[..0]) == st.sent;
      assert st.calls + EchoCalls(ms[..0]) + [RecvCall, SendCall(Echo(ms[0]))]
          == st.calls + [RecvCall, SendCall(Echo(m))];
      assert EchoedUntilFailure(st) == st.(inbox := st.inbox[1..],
          calls := st.calls + [RecvCall, SendCall(Echo(m))]);
    } else {
      EchoedUntilFailureRound(st);
      BiDiRound(st);
      BiDiStopsAtSendFailure(EchoRound(st));
    }
  }
}
