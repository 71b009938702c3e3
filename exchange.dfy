/** Whole exchanges: what a driver sends is what the handler receives and
    the other way round, over a transport that delivers every message in
    order and then ends the stream. */
module Exchange {
  import opened Format
  import opened Transport
  import opened Chat
  import opened Client

  /** A freshly opened stream whose peer delivers `ms` and then ends the
      stream, and whose sends all succeed. */
  function Opened(ms: seq<Message>): StreamState
  {
    StreamState(Deliver(ms) + [EndOfStream], NoFault, [], [], false)
  }

  /** Every unary call is answered with the greeting, which the driver
      shows once. */
  lemma UnaryExchange(text: string)
    ensures DoUnary(MessageUnary(Message(text))) == [Response(Greeting)]
  {
  }

  /** A receive-until-end loop over a stream carrying `ms` shows exactly
      the bodies of `ms` in order, with |ms| + 1 Recvs, and stops at the
      end of stream. */
  lemma DeliveredInOrder(ms: seq<Message>)
    ensures ServerStreamDriver(Opened(ms))
         == (Responses(ms), Opened(ms).(inbox := [EndOfStream], calls := RecvCalls(|ms| + 1)))
  {
    DeliverThen(ms, [EndOfStream]);
    ServerStreamDriverShowsAll(Opened(ms));
    assert Responses(ms) + [] == Responses(ms);
    assert [] + RecvCalls(|ms| + 1) == RecvCalls(|ms| + 1);
  }

  /** The three messages the server-streaming handler sends reach the
      driver, which shows "message 0", "message 1" and "message 2". */
  lemma ServerStreamExchange(server: StreamState)
    requires !server.sendClosed && Allows(server.fault, ServerStreamCount) && server.sent == []
    ensures var run := SendAll(server, ServerStreamMessages());
      run.status == Ok
      && ServerStreamDriver(Opened(run.state.sent)).0
         == [Response("message 0"), Response("message 1"), Response("message 2")]
  {
    ServerStreamSendsAll(server);
    var ms := [Message("message 0"), Message("message 1"), Message("message 2")];
    var run := SendAll(server, ServerStreamMessages());
    assert run.state.sent == ms;
    DeliveredInOrder(ms);
    ThreeResponses(ms);
  }

  lemma ThreeResponses(ms: seq<Message>)
    requires |ms| == 3
    ensures Responses(ms) == [Response(ms[0].body), Response(ms[1].body), Response(ms[2].body)]
  {
  }

  /** The client-streaming driver's texts reach the handler, which reports
      their number in its one response; that response reaches the driver,
      which shows it. */
  lemma ClientStreamExchange(texts: seq<string>)
    ensures var (err, server) := ClientStreamFrom(Opened(Messages(texts)), 0);
      err == Ok
      && server.sent == [Message(Report(|texts|))]
      && ParseReport(server.sent[0].body) == Some(|texts|)
      && var (obs, client) := ClientStreamDriver(StreamState(Deliver(server.sent), NoFault, [], [], false), texts);
         client.sent == Messages(texts)
         && obs == [Response(Report(|texts|))]
  {
    var ms := Messages(texts);
    DeliverThen(ms, [EndOfStream]);
    ClientStreamRespondsOnce(Opened(ms));
    ReportRoundTrip(|texts|);
    var resp := Message(Report(|texts|));
    ClientStreamDriverSendsAll(StreamState(Deliver([resp]), NoFault, [], [], false), texts);
  }

  /** A client that sends nothing is told "received 0 messages". */
  lemma ClientStreamExchangeEmpty()
    ensures ClientStreamFrom(Opened([]), 0).1.sent == [Message("received 0 messages")]
  {
    ClientStreamExchange([]);
    assert Messages([]) == [];
    assert Decimal(0) == "0";
    assert Report(0) == "received 0 messages";
  }

  /** Every text the bidirectional driver sends comes back from the handler
      as its echo, in order, and the handler then returns nil. */
  lemma BiDiExchange(texts: seq<string>)
    ensures var (_, client) := BiDiSendDriver(StreamState([], NoFault, [], [], false), texts);
      client.sent == Messages(texts)
      && var (err, server) := BiDiFrom(Opened(client.sent));
         err == Ok && server.sent == Echoes(Messages(texts))
  {
    var ms := Messages(texts);
    BiDiSendDriverSendsAll(StreamState([], NoFault, [], [], false), texts);
    DeliverThen(ms, [EndOfStream]);
    BiDiEchoesAll(Opened(ms));
  }

  /** The texts "a" and "b" come back as "echo: a" and "echo: b". */
  lemma BiDiExchangeAB()
    ensures BiDiFrom(Opened(Messages(["a", "b"]))).1.sent
         == [Message("echo: a"), Message("echo: b")]
  {
    BiDiExchange(["a", "b"]);
    var es := Echoes(Messages(["a", "b"]));
    assert es[0] == Message("echo: a") && es[1] == Message("echo: b");
  }
}
