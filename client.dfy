/** The command-line client's drivers (cmd/client/client.go), one per kind
    of call. What a driver prints or logs becomes an observation it returns;
    whether opening the call succeeded is a parameter, since the call is
    opened by generated code over the network. */
module Client {
  import opened Transport

  /** Which step of a driver a logged error comes from. */
  datatype Stage = Calling | Opening | Receiving | Sending | Closing

  /** What a driver shows its user: a response body printed, a text it is
      about to send, or an error logged. */
  datatype Observation =
    | Response(body: string)
    | Outgoing(text: string)
    | Logged(stage: Stage, code: Code)

  function Responses(ms: seq<Message>): (obs: seq<Observation>)
  {
    seq(|ms|, i requires 0 <= i < |ms| => Response(ms[i].body))
  }

  function Outgoings(texts: seq<string>): (obs: seq<Observation>)
  {
    seq(|texts|, i requires 0 <= i < |texts| => Outgoing(texts[i]))
  }

  /** The requests a driver sends for its input texts, one per text. */
  function Messages(texts: seq<string>): (ms: seq<Message>)
  {
    seq(|texts|, i requires 0 <= i < |texts| => Message(texts[i]))
  }

  // ---------------------------------------------------------------------
  // Unary

  /** The unary driver shows the reply's body, or logs the call's error. */
  function DoUnary(reply: Result<Message>): (obs: seq<Observation>)
    ensures |obs| == 1
    ensures obs[0].Response? <==> reply.Success?
    ensures reply.Success? ==> obs[0].body == reply.value.body
    ensures reply.Failure? ==> obs[0] == Logged(Calling, reply.code)
  {
    match reply
    case Success(m) => [Response(m.body)]
    case Failure(c) => [Logged(Calling, c)]
  }

  // ---------------------------------------------------------------------
  // Server streaming: receive until end of stream

  /** What the receive loop shows from a state: every message body in
      turn; nothing more at end of stream; the error, and nothing more,
      on a receive error. */
  function ServerStreamDriver(st: StreamState): (seq<Observation>, StreamState)
    decreases |st.inbox|
  {
    var (r, st1) := RecvStep(st);
    match r
    case EndOfStream => ([], st1)
    case Err(c) => ([Logged(Receiving, c)], st1)
    case Msg(m) =>
      var (obs, st2) := ServerStreamDriver(st1);
      ([Response(m.body)] + obs, st2)
  }

  method DoServerStream(open: Status, stream: Stream) returns (obs: seq<Observation>)
    modifies stream
    ensures open.Fail? ==> obs == [Logged(Opening, open.code)] && stream.State() == old(stream.State())
    ensures open.Ok? ==> (obs, stream.State()) == ServerStreamDriver(old(stream.State()))
  {
    if open.Fail? {
      return [Logged(Opening, open.code)];
    }
    obs := [];
    while true
      invariant obs + ServerStreamDriver(stream.State()).0 == ServerStreamDriver(old(stream.State())).0
      invariant ServerStreamDriver(stream.State()).1 == ServerStreamDriver(old(stream.State())).1
      decreases |stream.inbox|
    {
      ghost var before := stream.State();
      var r := stream.Recv();
      if r.EndOfStream? {
        assert ServerStreamDriver(before) == ([], stream.State());
        assert obs + [] == obs;
        break;
      }
      if r.Err? {
        obs := obs + [Logged(Receiving, r.code)];
        return;
      }
      assert ServerStreamDriver(before).0 == [Response(r.msg.body)] + ServerStreamDriver(stream.State()).0;
      obs := obs + [Response(r.msg.body)];
    }
  }

  /** What the driver shows for the terminator it reads: the receive error,
      or nothing at end of stream. */
  function ReceiveEnd(t: RecvResult): seq<Observation>
  {
    if t.Err? then [Logged(Receiving, t.code)] else []
  }

  /** The driver's outcome in closed form: every leading message's body,
      then how the stream ended, with the script drained. */
  function Shown(st: StreamState): (seq<Observation>, StreamState)
  {
    (Responses(LeadingMessages(st.inbox)) + ReceiveEnd(Terminator(st.inbox)), Drained(st))
  }

  lemma ShownAtTerminator(st: StreamState)
    requires st.inbox == [] || !st.inbox[0].Msg?
    ensures ServerStreamDriver(st) == Shown(st)
  {
    DrainedAtTerminator(st);
    var ms := LeadingMessages(st.inbox);
    assert Responses(ms) == [];
    var t := Terminator(st.inbox);
    assert st.inbox != [] ==> t == st.inbox[0];
    assert [] + ReceiveEnd(t) == ReceiveEnd(t);
    assert ServerStreamDriver(st) == (ReceiveEnd(t), RecvStep(st).1);
  }

  lemma ShownAfterMessage(st: StreamState)
    requires st.inbox != [] && st.inbox[0].Msg?
    ensures var st1 := RecvStep(st).1;
      Shown(st) == ([Response(st.inbox[0].msg.body)] + Shown(st1).0, Shown(st1).1)
  {
    var ms := LeadingMessages(st.inbox);
    var st1 := RecvStep(st).1;
    var m := st.inbox[0].msg;
    assert LeadingMessages(st1.inbox) == ms[1..] && ms[0] == m;
    assert Terminator(st1.inbox) == Terminator(st.inbox);
    DrainedAfterMessage(st);
    var e := ReceiveEnd(Terminator(st.inbox));
    assert Responses(ms) == [Response(m.body)] + Responses(ms[1..]);
    assert [Response(m.body)] + (Responses(ms[1..]) + e) == Responses(ms) + e;
  }

  /** The driver shows exactly the bodies of the leading messages, in
      arrival order, then the receive error if the stream ended with one;
      it makes one Recv per message plus the one that read the end. */
  lemma {:induction false} ServerStreamDriverShowsAll(st: StreamState)
    ensures ServerStreamDriver(st) == Shown(st)
    decreases |st.inbox|
  {
    if st.inbox == [] || !st.inbox[0].Msg? {
      ShownAtTerminator(st);
    } else {
      var st1 := RecvStep(st).1;
      ServerStreamDriverShowsAll(st1);
      ShownAfterMessage(st);
    }
  }

  // ---------------------------------------------------------------------
  // Client streaming: send every text, then close and read the response

  function ClientStreamDriver(st: StreamState, texts: seq<string>): (seq<Observation>, StreamState)
  {
    var run := SendAll(st, Messages(texts));
    if run.status.Fail? then ([Logged(Sending, run.status.code)], run.state)
    else
      var (reply, st1) := CloseAndRecvStep(run.state);
      match reply
      case Success(m) => ([Response(m.body)], st1)
      case Failure(c) => ([Logged(Closing, c)], st1)
  }

  method DoClientStream(texts: seq<string>, open: Status, stream: Stream) returns (obs: seq<Observation>)
    modifies stream
    ensures open.Fail? ==> obs == [Logged(Opening, open.code)] && stream.State() == old(stream.State())
    ensures open.Ok? ==> (obs, stream.State()) == ClientStreamDriver(old(stream.State()), texts)
  {
    if open.Fail? {
      return [Logged(Opening, open.code)];
    }
    ghost var ms := Messages(texts);
    for i := 0 to |texts|
      invariant SendAll(stream.State(), ms[i..]).status == SendAll(old(stream.State()), ms).status
      invariant SendAll(stream.State(), ms[i..]).state == SendAll(old(stream.State()), ms).state
    {
      assert ms[i..][1..] == ms[i + 1..];
      var err := stream.Send(Message(texts[i]));
      if err.Fail? {
        return [Logged(Sending, err.code)];
      }
    }
    var reply := stream.CloseAndRecv();
    match reply
    case Success(m) =>
      obs := [Response(m.body)];
    case Failure(c) =>
      obs := [Logged(Closing, c)];
  }

  /** When every Send is accepted, the texts are sent in order, one Send
      each, followed by exactly one CloseAndRecv; the driver shows the
      response the peer delivered, or logs the error. */
  lemma ClientStreamDriverSendsAll(st: StreamState, texts: seq<string>)
    requires !st.sendClosed && Allows(st.fault, |texts|)
    ensures var (obs, st') := ClientStreamDriver(st, texts);
      st'.calls == st.calls + SendCalls(Messages(texts)) + [CloseAndRecvCall]
      && st'.sent == st.sent + Messages(texts)
      && st'.sendClosed
      && |obs| == 1
      && (st.inbox != [] && st.inbox[0].Msg? ==> obs == [Response(st.inbox[0].msg.body)])
      && (!(st.inbox != [] && st.inbox[0].Msg?) ==> obs[0].Logged? && obs[0].stage == Closing)
  {
    SendAllDelivers(st, Messages(texts));
  }

  /** When the Send of the text at index n fails, the driver logs that error
      and stops: n + 1 Sends and no CloseAndRecv; the peer holds exactly the
      first n texts. */
  lemma ClientStreamDriverStopsAtSendError(st: StreamState, texts: seq<string>)
    requires !st.sendClosed && st.fault.FailAfter? && st.fault.remaining < |texts|
    ensures var n := st.fault.remaining;
      ClientStreamDriver(st, texts) == ([Logged(Sending, st.fault.code)],
        st.(fault := FailAfter(0, st.fault.code),
            calls := st.calls + SendCalls(Messages(texts)[..n + 1]),
            sent := st.sent + Messages(texts)[..n]))
  {
    SendAllStopsAtFailure(st, Messages(texts));
  }

  // ---------------------------------------------------------------------
  // Bidirectional streaming: the send half

  /** What the send half does from a state: shows and sends each text in
      turn, stops at the first failed Send after logging its error, and
      then closes the send direction. */
  function BiDiSendDriver(st: StreamState, texts: seq<string>): (seq<Observation>, StreamState)
  {
    var run := SendAll(st, Messages(texts));
    (Outgoings(texts[..run.attempted])
       + (if run.status.Fail? then [Logged(Sending, run.status.code)] else []),
     CloseSendStep(run.state))
  }

  method DoBiDiStream(texts: seq<string>, open: Status, stream: Stream) returns (obs: seq<Observation>)
    modifies stream
    ensures open.Fail? ==> obs == [Logged(Opening, open.code)] && stream.State() == old(stream.State())
    ensures open.Ok? ==> (obs, stream.State()) == BiDiSendDriver(old(stream.State()), texts)
  {
    if open.Fail? {
      return [Logged(Opening, open.code)];
    }
    ghost var ms := Messages(texts);
    ghost var run := SendAll(stream.State(), ms);
    obs := [];
    var i := 0;
    while i < |texts|
      invariant 0 <= i <= |texts|
      invariant obs == Outgoings(texts[..i])
      invariant SendAll(stream.State(), ms[i..]).status == run.status
      invariant SendAll(stream.State(), ms[i..]).state == run.state
      invariant SendAll(stream.State(), ms[i..]).attempted + i == run.attempted
    {
      ghost var before := stream.State();
      assert ms[i..][0] == Message(texts[i]) && ms[i..][1..] == ms[i + 1..];
      var err := stream.Send(Message(texts[i]));
      OutgoingsSnoc(texts, i);
      obs := obs + [Outgoing(texts[i])];
      if err.Fail? {
        assert SendAll(before, ms[i..]) == SendRun(err, 1, stream.State());
        obs := obs + [Logged(Sending, err.code)];
        break;
      }
      i := i + 1;
    }
    assert obs == Outgoings(texts[..run.attempted])
      + (if run.status.Fail? then [Logged(Sending, run.status.code)] else []);
    stream.CloseSend();
  }

  lemma OutgoingsSnoc(texts: seq<string>, i: nat)
    requires i < |texts|
    ensures Outgoings(texts[..i + 1]) == Outgoings(texts[..i]) + [Outgoing(texts[i])]
  {
  }

  /** When every Send is accepted, each text is shown and sent in order,
      and the send direction is closed exactly once, after the last Send. */
  lemma BiDiSendDriverSendsAll(st: StreamState, texts: seq<string>)
    requires !st.sendClosed && Allows(st.fault, |texts|)
    ensures BiDiSendDriver(st, texts) == (Outgoings(texts),
      st.(fault := Spend(st.fault, |texts|),
          calls := st.calls + SendCalls(Messages(texts)) + [CloseSendCall],
          sent := st.sent + Messages(texts),
          sendClosed := true))
  {
    SendAllDelivers(st, Messages(texts));
    assert texts[..|texts|] == texts;
    assert Outgoings(texts) + [] == Outgoings(texts);
  }

  /** When the Send of the text at index n fails, the loop breaks after
      showing n + 1 texts and logging the error; the send direction is
      still closed exactly once, after that failed Send. */
  lemma BiDiSendDriverBreaksAtSendError(st: StreamState, texts: seq<string>)
    requires !st.sendClosed && st.fault.FailAfter? && st.fault.remaining < |texts|
    ensures var n := st.fault.remaining;
      BiDiSendDriver(st, texts) == (Outgoings(texts[..n + 1]) + [Logged(Sending, st.fault.code)],
        st.(fault := FailAfter(0, st.fault.code),
            calls := st.calls + SendCalls(Messages(texts)[..n + 1]) + [CloseSendCall],
            sent := st.sent + Messages(texts)[..n],
            sendClosed := true))
  {
    SendAllStopsAtFailure(st, Messages(texts));
  }
}
