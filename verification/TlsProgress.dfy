/** A call of a state function that does not fail either brings the handshake nearer to its end or leaves it as it is;
    it does that only where an operation is not ready or a message has not arrived. */
module TlsProgress {
  import opened Wrappers
  import opened TlsTranscript
  import opened TlsClientTurns
  import opened TlsServerTurns
  import C = TlsClientDriver
  import S = TlsServerDriver
  import Client = TlsClient
  import Server = TlsServer

  ghost predicate ClientAdvances(h: Client.Client, ch: Choice, r: (Client.Client, Wait)) {
    || r.1.Error?
    || (r.0 == h && (ch.blocks || (h.c.inbox == [] && ClientTurnOf(h.state, h.p.resumed) == ServerTurn)))
    || (C.StatesLeft(r.0.state, r.0.p.resumed) < C.StatesLeft(h.state, h.p.resumed)
        && |r.0.c.outbox| <= |h.c.outbox| + 3)
  }

  lemma ClientExpectAdvances(h: Client.Client, kind: Kind, ch: Choice, next: Client.State)
    requires ClientTurnOf(h.state, h.p.resumed) == ServerTurn
    requires C.StatesLeft(next, h.p.resumed) < C.StatesLeft(h.state, h.p.resumed)
    ensures ClientAdvances(h, ch, Client.Expect(h, kind, ch, next))
  {
  }

  lemma ConnectAdvances(h: Client.Client, ch: Choice)
    requires h.state.StartConnect?
    ensures ClientAdvances(h, ch, Client.DoStartConnect(h, ch))
  {
  }

  lemma HelloVerifyAdvances(h: Client.Client, ch: Choice)
    requires h.state.ReadHelloVerifyRequest?
    ensures ClientAdvances(h, ch, Client.DoReadHelloVerifyRequest(h, ch))
  {
  }

  lemma HelloAdvances(h: Client.Client, ch: Choice)
    requires h.state.ReadingServerHello?
    ensures ClientAdvances(h, ch, Client.DoReadServerHello(h, ch))
  {
  }

  lemma ClientReadsAdvance(h: Client.Client, ch: Choice)
    ensures h.state.ReadServerCertificate? ==> ClientAdvances(h, ch, Client.DoReadServerCertificate(h, ch))
    ensures h.state.ReadCertificateStatus? ==> ClientAdvances(h, ch, Client.DoReadCertificateStatus(h, ch))
    ensures h.state.VerifyServerCertificate? ==> ClientAdvances(h, ch, Client.DoVerifyServerCertificate(h, ch))
    ensures h.state.ReadServerKeyExchange? ==> ClientAdvances(h, ch, Client.DoReadServerKeyExchange(h, ch))
    ensures h.state.ReadServerHelloDone? ==>
              ClientAdvances(h, ch, Client.Expect(h, ServerHelloDone, ch, Client.SendClientCertificate))
  {
    hide Client.Expect;
    match h.state
    case ReadServerCertificate => ClientExpectAdvances(h, Certificate, ch, Client.ReadCertificateStatus);
    case ReadCertificateStatus => ClientExpectAdvances(h, CertificateStatus, ch, Client.VerifyServerCertificate);
    case ReadServerKeyExchange => ClientExpectAdvances(h, ServerKeyExchange, ch, Client.ReadCertificateRequest);
    case ReadServerHelloDone => ClientExpectAdvances(h, ServerHelloDone, ch, Client.SendClientCertificate);
    case _ =>
  }

  lemma RequestAdvances(h: Client.Client, ch: Choice)
    requires h.state.ReadCertificateRequest?
    ensures ClientAdvances(h, ch, Client.DoReadCertificateRequest(h, ch))
  {
    hide Client.Expect;
    ClientExpectAdvances(h, CertificateRequest, ch, Client.ReadServerHelloDone);
    ExpectFlag(h, ch);
  }

  lemma ExpectFlag(h: Client.Client, ch: Choice)
    ensures var (g, w) := Client.Expect(h, CertificateRequest, ch, Client.ReadServerHelloDone);
            w.Ok? ==> g.state.ReadServerHelloDone? && g.p == h.p && g.c.outbox == h.c.outbox
  {
  }

  lemma TicketAdvances(h: Client.Client, ch: Choice)
    requires h.state.ReadSessionTicket?
    ensures ClientAdvances(h, ch, Client.DoReadSessionTicket(h, ch))
  {
    hide Read;
    ReadKeepsOutbox(h.c);
  }

  lemma ReadKeepsOutbox(c: Conn)
    ensures c.inbox != [] ==> Read(c).outbox == c.outbox
  {
  }

  lemma ServerFinishedAdvances(h: Client.Client, ch: Choice)
    requires h.state.ReadServerFinished?
    ensures ClientAdvances(h, ch, Client.DoReadServerFinished(h))
  {
    hide CheckFinished;
    if h.c.inbox != [] && CheckFinished(h.c, true).Some? {
      CheckKeepsOutbox(h.c, true);
    }
  }

  lemma CheckKeepsOutbox(c: Conn, fromServer: bool)
    requires c.inbox != [] && CheckFinished(c, fromServer).Some?
    ensures CheckFinished(c, fromServer).value.outbox == c.outbox
  {
  }

  lemma CertificateAdvances(h: Client.Client, ch: Choice)
    requires h.state.SendClientCertificate?
    ensures ClientAdvances(h, ch, Client.DoSendClientCertificate(h, ch))
  {
  }

  lemma KeyExchangeAdvances(h: Client.Client, ch: Choice)
    requires h.state.SendClientKeyExchange?
    ensures ClientAdvances(h, ch, Client.DoSendClientKeyExchange(h, ch))
  {
  }

  lemma SignatureAdvances(h: Client.Client, ch: Choice)
    requires h.state.SendClientCertificateVerify?
    ensures ClientAdvances(h, ch, Client.DoSendCertificateVerify(h, ch))
  {
  }

  lemma FinishedAdvances(h: Client.Client, ch: Choice)
    requires h.state.SendClientFinished?
    ensures ClientAdvances(h, ch, Client.DoSendFinished(h, ch))
  {
  }

  lemma FlightAdvances(h: Client.Client, ch: Choice)
    requires h.state.FinishFlight?
    ensures ClientAdvances(h, ch, Client.DoFinishFlight(h, ch))
  {
  }

  lemma ClientMoves(h: Client.Client, ch: Choice)
    requires !h.state.Done?
    ensures ClientAdvances(h, ch, Client.Step(h, ch))
  {
    hide Client.Expect, Client.DoStartConnect, Client.DoReadHelloVerifyRequest, Client.DoReadServerHello,
         Client.DoReadServerCertificate, Client.DoReadCertificateStatus, Client.DoVerifyServerCertificate,
         Client.DoReadServerKeyExchange, Client.DoReadCertificateRequest, Client.DoReadSessionTicket,
         Client.DoSendClientCertificate, Client.DoSendClientKeyExchange, Client.DoSendCertificateVerify,
         Client.DoSendFinished, Client.DoFinishFlight, Client.DoReadServerFinished;
    match h.state
    case StartConnect => ConnectAdvances(h, ch);
    case ReadHelloVerifyRequest => HelloVerifyAdvances(h, ch);
    case ReadingServerHello => HelloAdvances(h, ch);
    case ReadCertificateRequest => RequestAdvances(h, ch);
    case SendClientCertificate => CertificateAdvances(h, ch);
    case SendClientKeyExchange => KeyExchangeAdvances(h, ch);
    case SendClientCertificateVerify => SignatureAdvances(h, ch);
    case SendClientFinished => FinishedAdvances(h, ch);
    case FinishFlight => FlightAdvances(h, ch);
    case ReadSessionTicket => TicketAdvances(h, ch);
    case ReadServerFinished => ServerFinishedAdvances(h, ch);
    case _ => ClientReadsAdvance(h, ch);
  }

  ghost predicate ServerAdvances(h: Server.Server, ch: Choice, r: (Server.Server, Wait)) {
    || r.1.Error?
    || (r.0 == h && (ch.blocks || (h.c.inbox == [] && ServerTurnOf(h.state) == ClientTurn)))
    || (S.StatesLeft(r.0.state, r.0.p.resumed) < S.StatesLeft(h.state, h.p.resumed)
        && |r.0.c.outbox| <= |h.c.outbox| + 3)
  }

  lemma ServerExpectAdvances(h: Server.Server, kind: Kind, ch: Choice, pending: Wait, next: Server.State)
    requires ServerTurnOf(h.state) == ClientTurn
    requires S.StatesLeft(next, h.p.resumed) < S.StatesLeft(h.state, h.p.resumed)
    ensures ServerAdvances(h, ch, Server.Expect(h, kind, ch, pending, next))
  {
  }

  lemma ServerHellosAdvance(h: Server.Server, ch: Choice)
    ensures h.state.ReadClientHello? ==> ServerAdvances(h, ch, Server.DoReadClientHello(h, ch))
    ensures h.state.SelectCertificate? ==> ServerAdvances(h, ch, Server.DoSelectCertificate(h, ch))
    ensures h.state.SelectParameters? ==> ServerAdvances(h, ch, Server.DoSelectParameters(h, ch))
    ensures h.state.SendServerHello? ==> ServerAdvances(h, ch, Server.DoSendServerHello(h, ch))
  {
  }

  lemma ServerSendsAdvance(h: Server.Server, ch: Choice)
    ensures h.state.SendServerCertificate? ==> ServerAdvances(h, ch, Server.DoSendServerCertificate(h, ch))
    ensures h.state.SendServerKeyExchange? ==> ServerAdvances(h, ch, Server.DoSendServerKeyExchange(h, ch))
    ensures h.state.SendServerHelloDone? ==> ServerAdvances(h, ch, Server.DoSendServerHelloDone(h, ch))
    ensures h.state.SendServerFinished? ==> ServerAdvances(h, ch, Server.DoSendServerFinished(h, ch))
  {
  }

  lemma PeerCertificateAdvances(h: Server.Server, ch: Choice)
    requires h.state.ReadClientCertificate?
    ensures ServerAdvances(h, ch, Server.DoReadClientCertificate(h, ch))
  {
  }

  lemma PeerVerifyAdvances(h: Server.Server, ch: Choice)
    requires h.state.VerifyClientCertificate?
    ensures ServerAdvances(h, ch, Server.DoVerifyClientCertificate(h, ch))
  {
  }

  lemma PeerSignatureAdvances(h: Server.Server, ch: Choice)
    requires h.state.ReadClientCertificateVerify?
    ensures ServerAdvances(h, ch, Server.DoReadClientCertificateVerify(h, ch))
  {
  }

  lemma PeerFinishedAdvances(h: Server.Server, ch: Choice)
    requires h.state.ReadClientFinished?
    ensures ServerAdvances(h, ch, Server.DoReadClientFinished(h, ch))
  {
    hide CheckFinished;
    if h.c.inbox != [] && CheckFinished(h.c, false).Some? {
      CheckKeepsOutbox(h.c, false);
    }
  }

  lemma ServerExtrasAdvance(h: Server.Server, ch: Choice)
    ensures h.state.ReadNextProto? ==> ServerAdvances(h, ch, Server.DoReadNextProto(h, ch))
    ensures h.state.ReadChannelId? ==> ServerAdvances(h, ch, Server.DoReadChannelId(h, ch))
    ensures h.state.ReadClientKeyExchange? ==>
              ServerAdvances(h, ch, Server.Expect(h, ClientKeyExchange, ch, PrivateKeyOperation,
                                                  Server.ReadClientCertificateVerify))
  {
    hide Server.Expect;
    match h.state
    case ReadNextProto => ServerExpectAdvances(h, NextProto, ch, Ok, Server.ReadChannelId);
    case ReadChannelId => ServerExpectAdvances(h, ChannelId, ch, Ok, Server.ReadClientFinished);
    case ReadClientKeyExchange =>
      ServerExpectAdvances(h, ClientKeyExchange, ch, PrivateKeyOperation, Server.ReadClientCertificateVerify);
    case _ =>
  }

  lemma ServerMoves(h: Server.Server, ch: Choice)
    requires !h.state.Done?
    ensures ServerAdvances(h, ch, Server.Step(h, ch))
  {
    hide Server.Expect, Server.DoReadClientHello, Server.DoSelectCertificate, Server.DoSelectParameters,
         Server.DoSendServerHello, Server.DoSendServerCertificate, Server.DoSendServerKeyExchange,
         Server.DoSendServerHelloDone, Server.DoReadClientCertificate, Server.DoVerifyClientCertificate,
         Server.DoReadClientCertificateVerify, Server.DoReadNextProto, Server.DoReadChannelId,
         Server.DoReadClientFinished, Server.DoSendServerFinished;
    ServerHellosAdvance(h, ch);
    ServerSendsAdvance(h, ch);
    ServerExtrasAdvance(h, ch);
    match h.state
    case ReadClientCertificate => PeerCertificateAdvances(h, ch);
    case VerifyClientCertificate => PeerVerifyAdvances(h, ch);
    case ReadClientCertificateVerify => PeerSignatureAdvances(h, ch);
    case ReadClientFinished => PeerFinishedAdvances(h, ch);
    case _ =>
  }
}
