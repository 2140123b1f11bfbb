/** The client's part in the pair: its state, its log and the turns agree. */
module TlsClientTurns {
  import opened Wrappers
  import opened TlsTranscript
  import opened TlsPair
  import Client = TlsClient

  function ClientTurnOf(s: Client.State, resumed: bool): Turn {
    match s
    case StartConnect => ClientTurn
    case SendClientCertificate => ClientTurn
    case SendClientKeyExchange => ClientTurn
    case SendClientCertificateVerify => ClientTurn
    case SendClientFinished => ClientTurn
    case FinishFlight => if resumed then NobodysTurn else ServerTurn
    case FinishClientHandshake => NobodysTurn
    case Done => NobodysTurn
    case _ => ServerTurn
  }

  /** The client's state and its log agree on whose turn it is. */
  ghost predicate ClientRight(h: Client.Client) {
    && Client.Disciplined(h)
    && TurnAfter(h.c.log) == ClientTurnOf(h.state, h.p.resumed)
    && ResumedIn(h.c.log) == h.p.resumed
  }

  ghost predicate ClientGood(h: Client.Client, sc: Conn) {
    && TurnAfter(h.c.log) == ClientTurnOf(h.state, h.p.resumed)
    && ResumedIn(h.c.log) == h.p.resumed
    && Paired(h.c, sc)
  }

  lemma ClientQuiet(h: Client.Client, g: Client.Client, sc: Conn)
    requires ClientGood(h, sc) && g.p == h.p
    requires g.c.log == h.c.log && g.c.inbox == h.c.inbox && g.c.outbox == h.c.outbox
    requires ClientTurnOf(g.state, h.p.resumed) == ClientTurnOf(h.state, h.p.resumed)
    ensures ClientGood(g, sc)
  {
    SameMessages(h.c, sc, g.c);
  }

  /** Reading a message that does not end a flight. */
  lemma ClientReadsOn(h: Client.Client, g: Client.Client, sc: Conn)
    requires ClientGood(h, sc) && Reads(h.c, g.c) && ClientTurnOf(g.state, g.p.resumed) == ServerTurn
    requires var m := h.c.inbox[0];
             && m.kind !in {ClientHello, ServerHelloDone, Finished}
             && (m.kind.ServerHello? ==> m.body == Hello(g.p))
             && (!m.kind.ServerHello? ==> g.p == h.p)
    ensures ClientGood(g, sc)
  {
    hide Paired, TurnAfter, ResumedIn;
    ClientReads(h.c, sc, g.c);
    TurnMore(h.c.log, h.c.inbox[0]);
  }

  lemma ClientReadsLast(h: Client.Client, g: Client.Client, sc: Conn)
    requires ClientGood(h, sc) && Reads(h.c, g.c) && g.p == h.p && h.c.inbox[0].fromServer
    requires h.c.inbox[0].kind == ServerHelloDone ==> g.state.SendClientCertificate?
    requires h.c.inbox[0].kind == Finished ==>
               g.state == if h.p.resumed then Client.SendClientFinished else Client.FinishClientHandshake
    requires h.c.inbox[0].kind in {ServerHelloDone, Finished}
    ensures ClientGood(g, sc)
  {
    hide Paired, TurnAfter, ResumedIn;
    ClientReads(h.c, sc, g.c);
    TurnMore(h.c.log, h.c.inbox[0]);
  }

  /** Sending a message that does not end the flight. */
  lemma ClientSendsOn(h: Client.Client, m: Msg, g: Client.Client, sc: Conn)
    requires ClientGood(h, sc) && Sends(h.c, g.c, m) && g.p == h.p && !m.fromServer && TruthfulAt(m, h.c.log)
    requires ClientTurnOf(h.state, h.p.resumed) == ClientTurn == ClientTurnOf(g.state, h.p.resumed)
    requires m.kind !in {ClientHello, ServerHello, ServerHelloDone, Finished}
    ensures ClientGood(g, sc)
  {
    hide Paired, TurnAfter, ResumedIn;
    ClientSends(h.c, sc, m, g.c);
    TurnMore(h.c.log, m);
  }

  lemma ClientSendsLast(h: Client.Client, m: Msg, g: Client.Client, sc: Conn)
    requires ClientGood(h, sc) && Sends(h.c, g.c, m) && g.p == h.p && !m.fromServer && TruthfulAt(m, h.c.log)
    requires ClientTurnOf(h.state, h.p.resumed) == ClientTurn
    requires m.kind == ClientHello ==> g.state.EnterEarlyData?
    requires m.kind == Finished ==> g.state.FinishFlight?
    requires m.kind in {ClientHello, Finished}
    ensures ClientGood(g, sc)
  {
    hide Paired, TurnAfter, ResumedIn;
    ClientSends(h.c, sc, m, g.c);
    TurnMore(h.c.log, m);
  }

  /** A read state: nothing, or one message of the kind. */
  lemma ClientExpects(h: Client.Client, kind: Kind, ch: Choice, next: Client.State, sc: Conn)
    requires ClientGood(h, sc) && ClientTurnOf(h.state, h.p.resumed) == ServerTurn
    requires kind !in {ClientHello, ServerHello, Finished}
    requires (forall i :: 0 <= i < |h.c.inbox| ==> h.c.inbox[i].fromServer)
    requires if kind == ServerHelloDone then next == Client.SendClientCertificate
             else ClientTurnOf(next, h.p.resumed) == ServerTurn
    ensures ClientGood(Client.Expect(h, kind, ch, next).0, sc)
  {
    hide Paired, TurnAfter, ResumedIn;
    var (g, wait) := Client.Expect(h, kind, ch, next);
    if wait.Ok? {
      if kind == ServerHelloDone {
        ClientReadsLast(h, g, sc);
      } else {
        ClientReadsOn(h, g, sc);
      }
    }
  }

  lemma ClientHellos(h: Client.Client, ch: Choice, sc: Conn)
    requires ClientRight(h) && ClientGood(h, sc) && Client.BeforeHello(h.state)
    requires h.c.inbox != [] ==> h.c.inbox[0].kind != HelloVerifyRequest
    ensures ClientGood(Client.Step(h, ch).0, sc)
  {
    hide Paired, TurnAfter, ResumedIn, Faithful, InOrder;
    var g := Client.Step(h, ch).0;
    match h.state
    case StartConnect =>
      if !ch.fails {
        ClientSendsLast(h, ClientSays(ClientHello, Opaque(ch.body)), g, sc);
      }
    case EnterEarlyData => ClientQuiet(h, g, sc);
    case ReadHelloVerifyRequest => ClientQuiet(h, g, sc);
    case ReadingServerHello =>
      if Client.Step(h, ch).1.Ok? {
        ClientReadsOn(h, g, sc);
      }
  }

  lemma ClientReadsFlight(h: Client.Client, ch: Choice, sc: Conn)
    requires ClientRight(h) && ClientGood(h, sc) && (Client.FullFlight(h.state) || h.state.ReadServerHelloDone?)
    ensures ClientGood(Client.Step(h, ch).0, sc)
  {
    hide Paired, TurnAfter, ResumedIn, Faithful, InOrder, Client.Expect;
    match h.state
    case ReadServerCertificate => {
      ClientQuiet(h, h.(state := Client.ReadCertificateStatus), sc);
      ClientExpects(h, Certificate, ch, Client.ReadCertificateStatus, sc);
    }
    case ReadCertificateStatus => {
      ClientQuiet(h, h.(state := Client.VerifyServerCertificate), sc);
      ClientExpects(h, CertificateStatus, ch, Client.VerifyServerCertificate, sc);
    }
    case VerifyServerCertificate => ClientQuiet(h, h.(state := Client.ReadServerKeyExchange), sc);
    case ReadServerKeyExchange => {
      ClientQuiet(h, h.(state := Client.ReadCertificateRequest), sc);
      ClientExpects(h, ServerKeyExchange, ch, Client.ReadCertificateRequest, sc);
    }
    case ReadCertificateRequest => {
      var (g, wait) := Client.Expect(h, CertificateRequest, ch, Client.ReadServerHelloDone);
      ClientQuiet(h, h.(state := Client.ReadServerHelloDone), sc);
      ClientQuiet(h, h.(c := FreeBuffer(h.c), state := Client.ReadServerHelloDone), sc);
      ClientExpects(h, CertificateRequest, ch, Client.ReadServerHelloDone, sc);
      ClientQuiet(g, g.(certRequest := true), sc);
    }
    case ReadServerHelloDone => ClientExpects(h, ServerHelloDone, ch, Client.SendClientCertificate, sc);
  }

  lemma ClientSendsFlight(h: Client.Client, ch: Choice, sc: Conn)
    requires ClientRight(h) && ClientGood(h, sc)
    requires h.state.SendClientCertificate? || h.state.SendClientKeyExchange? || h.state.SendClientCertificateVerify?
    ensures ClientGood(Client.Step(h, ch).0, sc)
  {
    hide Paired, TurnAfter, ResumedIn, InOrder;
    var (g, wait) := Client.Step(h, ch);
    match h.state
    case SendClientCertificate =>
      if h.certRequest && !ch.fails && !ch.blocks {
        ClientSendsOn(h, ClientSays(Certificate, Opaque(if ch.flag then ch.body + 1 else 0)), g, sc);
      } else {
        ClientQuiet(h, g, sc);
      }
    case SendClientKeyExchange =>
      if !ch.fails {
        ClientSendsOn(h, ClientSays(ClientKeyExchange, Opaque(ch.body)), g, sc);
      }
    case SendClientCertificateVerify =>
      if g.c.log != h.c.log {
        ClientSendsOn(h, ClientSays(CertificateVerify, Signed(h.c.buffer.value)), g, sc);
      } else {
        ClientQuiet(h, g, sc);
      }
  }

  lemma ClientSendsIf(h: Client.Client, yes: bool, m: Msg, sc: Conn)
    requires ClientGood(h, sc) && Faithful(h.c) && h.c.hash.Some? && h.state.SendClientFinished?
    requires m.kind in {NextProto, ChannelId} && !m.fromServer
    ensures var g := h.(c := SendIf(h.c, yes, m));
            ClientGood(g, sc) && Faithful(g.c) && g.c.hash.Some?
  {
    hide Paired, TurnAfter, ResumedIn;
    if yes {
      ClientSendsOn(h, m, h.(c := Send(h.c, m)), sc);
    }
  }

  lemma ClientSendsFinished(h: Client.Client, ch: Choice, sc: Conn)
    requires ClientRight(h) && ClientGood(h, sc) && h.state.SendClientFinished?
    ensures ClientGood(Client.DoSendFinished(h, ch).0, sc)
  {
    hide Paired, TurnAfter, ResumedIn, InOrder;
    if Client.DoSendFinished(h, ch).1.Flush? {
      var np, cid := ClientSays(NextProto, Opaque(ch.body)), ClientSays(ChannelId, Opaque(ch.body));
      ClientSendsIf(h, h.p.nextProto, np, sc);
      var h1 := h.(c := SendIf(h.c, h.p.nextProto, np));
      ClientSendsIf(h1, h.p.channelId, cid, sc);
      var h2 := h1.(c := SendIf(h1.c, h.p.channelId, cid));
      hide SendIf;
      ClientSendsLast(h2, ClientSays(Finished, Mac(false, h2.c.hash.value)), Client.DoSendFinished(h, ch).0, sc);
    }
  }

  lemma ClientReadsFinished(h: Client.Client, sc: Conn)
    requires ClientRight(h) && ClientGood(h, sc) && h.state.ReadServerFinished?
    ensures ClientGood(Client.DoReadServerFinished(h).0, sc)
  {
    hide Paired, TurnAfter, ResumedIn, InOrder, Faithful;
    var g := Client.DoReadServerFinished(h).0;
    if g != h {
      ClientReadsLast(h, g, sc);
    }
  }

  lemma ClientReadsTicket(h: Client.Client, ch: Choice, sc: Conn)
    requires ClientRight(h) && ClientGood(h, sc) && h.state.ReadSessionTicket?
    ensures ClientGood(Client.DoReadSessionTicket(h, ch).0, sc)
  {
    hide Paired, TurnAfter, ResumedIn, InOrder, Faithful, Client.Expect;
    var g := Client.DoReadSessionTicket(h, ch).0;
    var (e, wait) := Client.Expect(h, NewSessionTicket, ch, Client.ProcessChangeCipherSpec);
    ClientExpects(h, NewSessionTicket, ch, Client.ProcessChangeCipherSpec, sc);
    if !h.ticketExpected {
      ClientQuiet(h, g, sc);
    } else {
      ClientQuiet(e, g, sc);
    }
  }

  lemma ClientEnds(h: Client.Client, ch: Choice, sc: Conn)
    requires ClientRight(h) && ClientGood(h, sc)
    requires h.state.FinishFlight? || h.state.ProcessChangeCipherSpec? || h.state.FinishClientHandshake?
             || h.state.Done?
    ensures ClientGood(Client.Step(h, ch).0, sc)
  {
    hide Paired, TurnAfter, ResumedIn, Client.Disciplined;
    ClientQuiet(h, Client.Step(h, ch).0, sc);
  }

  /** One call of a client state function, with everything it may send or consume. */
  lemma ClientStepGood(h: Client.Client, ch: Choice, sc: Conn)
    requires ClientRight(h) && Paired(h.c, sc)
    requires h.c.inbox != [] ==> h.c.inbox[0].kind != HelloVerifyRequest
    ensures var (g, wait) := Client.Step(h, ch);
            !wait.Error? ==> ClientRight(g) && Paired(g.c, sc)
  {
    hide Client.Disciplined, Client.Step, Paired, TurnAfter, ResumedIn;
    Client.StepDisciplined(h, ch);
    match h.state
    case StartConnect => ClientHellos(h, ch, sc);
    case EnterEarlyData => ClientHellos(h, ch, sc);
    case ReadHelloVerifyRequest => ClientHellos(h, ch, sc);
    case ReadingServerHello => ClientHellos(h, ch, sc);
    case SendClientCertificate => ClientSendsFlight(h, ch, sc);
    case SendClientKeyExchange => ClientSendsFlight(h, ch, sc);
    case SendClientCertificateVerify => ClientSendsFlight(h, ch, sc);
    case SendClientFinished => ClientFinishedStep(h, ch, sc);
    case FinishFlight => ClientEnds(h, ch, sc);
    case ReadSessionTicket => ClientTicketStep(h, ch, sc);
    case ProcessChangeCipherSpec => ClientEnds(h, ch, sc);
    case ReadServerFinished => ClientTicketStep(h, ch, sc);
    case FinishClientHandshake => ClientEnds(h, ch, sc);
    case Done => ClientEnds(h, ch, sc);
    case _ => ClientReadsFlight(h, ch, sc);
  }

  lemma ClientTicketStep(h: Client.Client, ch: Choice, sc: Conn)
    requires ClientRight(h) && ClientGood(h, sc) && (h.state.ReadSessionTicket? || h.state.ReadServerFinished?)
    ensures ClientGood(Client.Step(h, ch).0, sc)
  {
    hide Client.Disciplined, Client.DoReadSessionTicket, Client.DoReadServerFinished, Paired, TurnAfter, ResumedIn;
    if h.state.ReadSessionTicket? {
      ClientReadsTicket(h, ch, sc);
    } else {
      ClientReadsFinished(h, sc);
    }
  }

  lemma ClientFinishedStep(h: Client.Client, ch: Choice, sc: Conn)
    requires ClientRight(h) && ClientGood(h, sc) && h.state.SendClientFinished?
    ensures ClientGood(Client.Step(h, ch).0, sc)
  {
    hide Client.Disciplined, Client.DoSendFinished, Paired, TurnAfter, ResumedIn;
    ClientSendsFinished(h, ch, sc);
  }
}
