/** The server's part in the pair: its state, its log and the turns agree. */
module TlsServerTurns {
  import opened Wrappers
  import opened TlsTranscript
  import opened TlsPair
  import Server = TlsServer

  function ServerTurnOf(s: Server.State): Turn {
    match s
    case SendServerHello => ServerTurn
    case SendServerCertificate => ServerTurn
    case SendServerKeyExchange => ServerTurn
    case SendServerHelloDone => ServerTurn
    case SendServerFinished => ServerTurn
    case FinishServerHandshake => NobodysTurn
    case Done => NobodysTurn
    case _ => ClientTurn
  }

  /** The server's state and its log agree on whose turn it is. */
  ghost predicate ServerRight(h: Server.Server) {
    Server.Disciplined(h) && ServerInTurn(h)
  }

  ghost predicate ServerInTurn(h: Server.Server) {
    && TurnAfter(h.c.log) == ServerTurnOf(h.state)
    && ResumedIn(h.c.log) == (h.p.resumed && !h.state.SendServerHello?)
  }

  ghost predicate ServerGood(h: Server.Server, cc: Conn) {
    ServerInTurn(h) && Paired(cc, h.c)
  }

  lemma ServerQuiet(h: Server.Server, g: Server.Server, cc: Conn)
    requires ServerGood(h, cc) && g.p == h.p && !h.state.SendServerHello? && !g.state.SendServerHello?
    requires g.c.log == h.c.log && g.c.inbox == h.c.inbox && g.c.outbox == h.c.outbox
    requires ServerTurnOf(g.state) == ServerTurnOf(h.state)
    ensures ServerGood(g, cc)
  {
    SameMessages(h.c, cc, g.c);
  }

  /** Reading a message that does not end a flight. */
  lemma ServerReadsOn(h: Server.Server, g: Server.Server, cc: Conn)
    requires ServerGood(h, cc) && Reads(h.c, g.c) && g.p == h.p && ServerTurnOf(g.state) == ClientTurn
    requires !h.state.SendServerHello? && h.c.inbox[0].kind !in {ClientHello, ServerHello, ServerHelloDone, Finished}
    ensures ServerGood(g, cc)
  {
    hide Paired, TurnAfter, ResumedIn;
    ServerReads(cc, h.c, g.c);
    TurnMore(h.c.log, h.c.inbox[0]);
  }

  lemma ServerReadsLast(h: Server.Server, g: Server.Server, cc: Conn)
    requires ServerGood(h, cc) && Reads(h.c, g.c) && !h.c.inbox[0].fromServer && !h.state.SendServerHello?
    requires h.c.inbox[0].kind == ClientHello ==> g.state.SendServerHello? && !h.p.resumed
    requires h.c.inbox[0].kind == Finished ==>
               g.p == h.p && g.state == if h.p.resumed then Server.FinishServerHandshake else Server.SendServerFinished
    requires h.c.inbox[0].kind in {ClientHello, Finished}
    ensures ServerGood(g, cc)
  {
    hide Paired, TurnAfter, ResumedIn;
    ServerReads(cc, h.c, g.c);
    TurnMore(h.c.log, h.c.inbox[0]);
  }

  /** Sending a message that does not end the flight. */
  lemma ServerSendsOn(h: Server.Server, m: Msg, g: Server.Server, cc: Conn)
    requires ServerGood(h, cc) && Sends(h.c, g.c, m) && g.p == h.p && m.fromServer && TruthfulAt(m, h.c.log)
    requires ServerTurnOf(h.state) == ServerTurn == ServerTurnOf(g.state) && !g.state.SendServerHello?
    requires m.kind !in {ClientHello, ServerHelloDone, Finished}
    requires h.state.SendServerHello? <==> m.kind == ServerHello
    requires m.kind == ServerHello ==> m.body == Hello(h.p)
    ensures ServerGood(g, cc)
  {
    hide Paired, TurnAfter, ResumedIn;
    ServerSends(cc, h.c, m, g.c);
    TurnMore(h.c.log, m);
  }

  lemma ServerSendsLast(h: Server.Server, m: Msg, g: Server.Server, cc: Conn)
    requires ServerGood(h, cc) && Sends(h.c, g.c, m) && g.p == h.p && m.fromServer && TruthfulAt(m, h.c.log)
    requires ServerTurnOf(h.state) == ServerTurn && !h.state.SendServerHello?
    requires m.kind == ServerHelloDone ==> g.state.ReadClientCertificate?
    requires m.kind == Finished ==>
               g.state == if h.p.resumed then Server.ReadingChangeCipherSpec else Server.FinishServerHandshake
    requires m.kind in {ServerHelloDone, Finished}
    ensures ServerGood(g, cc)
  {
    hide Paired, TurnAfter, ResumedIn;
    ServerSends(cc, h.c, m, g.c);
    TurnMore(h.c.log, m);
  }

  lemma ServerExpects(h: Server.Server, kind: Kind, ch: Choice, pending: Wait, next: Server.State, cc: Conn)
    requires ServerGood(h, cc) && ServerTurnOf(next) == ClientTurn && !h.state.SendServerHello?
    requires kind !in {ClientHello, ServerHello, ServerHelloDone, Finished}
    ensures ServerGood(Server.Expect(h, kind, ch, pending, next).0, cc)
  {
    hide Paired, TurnAfter, ResumedIn;
    var (g, wait) := Server.Expect(h, kind, ch, pending, next);
    if wait.Ok? && g != h {
      ServerReadsOn(h, g, cc);
    }
  }

  lemma ServerSendsIf(h: Server.Server, yes: bool, m: Msg, cc: Conn)
    requires ServerGood(h, cc) && ServerTurnOf(h.state) == ServerTurn && !h.state.SendServerHello?
    requires m.kind in {Certificate, CertificateStatus, CertificateRequest, NewSessionTicket} && m.fromServer
    ensures ServerGood(h.(c := SendIf(h.c, yes, m)), cc)
  {
    hide Paired, TurnAfter, ResumedIn;
    if yes {
      ServerSendsOn(h, m, h.(c := Send(h.c, m)), cc);
    }
  }

  lemma SelectsParameters(h: Server.Server, ch: Choice, cc: Conn)
    requires ServerRight(h) && ServerGood(h, cc) && h.state.SelectParameters?
    ensures ServerGood(Server.DoSelectParameters(h, ch).0, cc)
  {
    hide Paired, TurnAfter, ResumedIn, InOrder, Faithful;
    var g := Server.DoSelectParameters(h, ch).0;
    if g != h {
      ServerReadsLast(h, g, cc);
    }
  }

  lemma SendsServerHello(h: Server.Server, ch: Choice, cc: Conn)
    requires ServerGood(h, cc) && h.state.SendServerHello?
    ensures ServerGood(Server.DoSendServerHello(h, ch).0, cc)
  {
    hide Paired, TurnAfter, ResumedIn;
    if !ch.fails {
      ServerSendsOn(h, ServerSays(ServerHello, Hello(h.p)), Server.DoSendServerHello(h, ch).0, cc);
    }
  }

  lemma SendsServerCertificate(h: Server.Server, ch: Choice, cc: Conn)
    requires ServerGood(h, cc) && h.state.SendServerCertificate?
    ensures ServerGood(Server.DoSendServerCertificate(h, ch).0, cc)
  {
    hide Paired, TurnAfter, ResumedIn, SendIf;
    if !ch.fails {
      var m, n := ServerSays(Certificate, Opaque(ch.body)), ServerSays(CertificateStatus, Opaque(ch.body));
      ServerSendsIf(h, h.p.certAuth, m, cc);
      var h1 := h.(c := SendIf(h.c, h.p.certAuth, m));
      ServerSendsIf(h1, h.p.certAuth && h.p.status, n, cc);
      var h2 := h1.(c := SendIf(h1.c, h.p.certAuth && h.p.status, n));
      ServerQuiet(h2, Server.DoSendServerCertificate(h, ch).0, cc);
    }
  }

  lemma SendsServerKeyExchange(h: Server.Server, ch: Choice, cc: Conn)
    requires ServerGood(h, cc) && h.state.SendServerKeyExchange?
    ensures ServerGood(Server.DoSendServerKeyExchange(h, ch).0, cc)
  {
    hide Paired, TurnAfter, ResumedIn;
    var g := Server.DoSendServerKeyExchange(h, ch).0;
    if g.c.log != h.c.log {
      ServerSendsOn(h, ServerSays(ServerKeyExchange, Opaque(ch.body)), g, cc);
    } else {
      ServerQuiet(h, g, cc);
    }
  }

  lemma SendsServerHelloDone(h: Server.Server, ch: Choice, cc: Conn)
    requires ServerGood(h, cc) && h.state.SendServerHelloDone?
    ensures ServerGood(Server.DoSendServerHelloDone(h, ch).0, cc)
  {
    hide Paired, TurnAfter, ResumedIn, SendIf;
    if !ch.fails {
      var m := ServerSays(CertificateRequest, Opaque(ch.body));
      ServerSendsIf(h, h.certRequest, m, cc);
      var h1 := h.(c := SendIf(h.c, h.certRequest, m));
      ServerSendsLast(h1, ServerSays(ServerHelloDone, Opaque(0)), Server.DoSendServerHelloDone(h, ch).0, cc);
    }
  }

  lemma ReadsClientCertificate(h: Server.Server, ch: Choice, cc: Conn)
    requires ServerGood(h, cc) && h.state.ReadClientCertificate?
    ensures ServerGood(Server.DoReadClientCertificate(h, ch).0, cc)
  {
    hide Paired, TurnAfter, ResumedIn, Server.Expect;
    var g := Server.DoReadClientCertificate(h, ch).0;
    var e := Server.Expect(h, Certificate, ch, Ok, Server.VerifyClientCertificate).0;
    ServerExpects(h, Certificate, ch, Ok, Server.VerifyClientCertificate, cc);
    ExpectStates(h, Certificate, ch, Ok, Server.VerifyClientCertificate);
    if !h.certRequest {
      ServerQuiet(h, g, cc);
    } else {
      ServerQuiet(e, g, cc);
    }
  }

  lemma ExpectStates(h: Server.Server, kind: Kind, ch: Choice, pending: Wait, next: Server.State)
    ensures var (g, wait) := Server.Expect(h, kind, ch, pending, next);
            g.p == h.p && (g.state == h.state || g.state == next)
  {
  }

  lemma ReadsCertificateVerify(h: Server.Server, ch: Choice, cc: Conn)
    requires ServerGood(h, cc) && h.state.ReadClientCertificateVerify?
    ensures ServerGood(Server.DoReadClientCertificateVerify(h, ch).0, cc)
  {
    hide Paired, TurnAfter, ResumedIn;
    var g := Server.DoReadClientCertificateVerify(h, ch).0;
    if g.c.log != h.c.log {
      ServerReadsOn(h, g, cc);
    } else {
      ServerQuiet(h, g, cc);
    }
  }

  lemma ReadsExtras(h: Server.Server, ch: Choice, cc: Conn)
    requires ServerGood(h, cc)
    ensures h.state.ReadNextProto? ==> ServerGood(Server.DoReadNextProto(h, ch).0, cc)
    ensures h.state.ReadChannelId? ==> ServerGood(Server.DoReadChannelId(h, ch).0, cc)
    ensures h.state.ReadClientKeyExchange? ==>
              ServerGood(Server.Expect(h, ClientKeyExchange, ch, PrivateKeyOperation,
                  Server.ReadClientCertificateVerify).0, cc)
  {
    hide Paired, TurnAfter, ResumedIn, Server.Expect;
    match h.state
    case ReadNextProto => {
      ServerQuiet(h, h.(state := Server.ReadChannelId), cc);
      ServerExpects(h, NextProto, ch, Ok, Server.ReadChannelId, cc);
    }
    case ReadChannelId => {
      ServerQuiet(h, h.(state := Server.ReadClientFinished), cc);
      ServerExpects(h, ChannelId, ch, Ok, Server.ReadClientFinished, cc);
    }
    case ReadClientKeyExchange =>
      ServerExpects(h, ClientKeyExchange, ch, PrivateKeyOperation, Server.ReadClientCertificateVerify, cc);
    case _ => {
    }
  }

  lemma ReadsClientFinished(h: Server.Server, ch: Choice, cc: Conn)
    requires ServerRight(h) && ServerGood(h, cc) && h.state.ReadClientFinished?
    ensures ServerGood(Server.DoReadClientFinished(h, ch).0, cc)
  {
    hide Paired, TurnAfter, ResumedIn, InOrder, Faithful;
    var g := Server.DoReadClientFinished(h, ch).0;
    if g != h {
      ServerReadsLast(h, g, cc);
    }
  }

  lemma SendsServerFinished(h: Server.Server, ch: Choice, cc: Conn)
    requires ServerRight(h) && ServerGood(h, cc) && h.state.SendServerFinished?
    ensures ServerGood(Server.DoSendServerFinished(h, ch).0, cc)
  {
    hide Paired, TurnAfter, ResumedIn, InOrder;
    if !ch.fails {
      var m := ServerSays(NewSessionTicket, Opaque(ch.body));
      ServerSendsIf(h, h.p.ticket, m, cc);
      var h1 := h.(c := SendIf(h.c, h.p.ticket, m));
      assert Faithful(h1.c) && h1.c.hash.Some?;
      hide SendIf;
      ServerSendsLast(h1, ServerSays(Finished, Mac(true, h1.c.hash.value)), Server.DoSendServerFinished(h, ch).0, cc);
    }
  }

  lemma ServerPasses(h: Server.Server, ch: Choice, cc: Conn)
    requires ServerGood(h, cc)
    requires h.state.StartAccept? || h.state.ReadClientHello? || h.state.SelectCertificate?
             || h.state.VerifyClientCertificate? || h.state.ReadingChangeCipherSpec? || h.state.ProcessChangeCipherSpec?
             || h.state.FinishServerHandshake? || h.state.Done?
    ensures ServerGood(Server.Step(h, ch).0, cc)
  {
    hide Paired, TurnAfter, ResumedIn;
    ServerQuiet(h, Server.Step(h, ch).0, cc);
  }

  /** One call of a server state function, with everything it may send or consume. */
  lemma ServerStepGood(h: Server.Server, ch: Choice, cc: Conn)
    requires ServerRight(h) && Paired(cc, h.c)
    ensures var (g, wait) := Server.Step(h, ch);
            !wait.Error? ==> ServerRight(g) && Paired(cc, g.c)
  {
    hide Server.Disciplined, Paired, TurnAfter, ResumedIn, Server.Expect, Server.DoSelectParameters,
         Server.DoSendServerHello, Server.DoSendServerCertificate, Server.DoSendServerKeyExchange,
         Server.DoSendServerHelloDone, Server.DoReadClientCertificate, Server.DoReadClientCertificateVerify,
         Server.DoReadNextProto, Server.DoReadChannelId, Server.DoReadClientFinished, Server.DoSendServerFinished,
         Server.DoReadClientHello, Server.DoSelectCertificate, Server.DoVerifyClientCertificate;
    Server.StepDisciplined(h, ch);
    ReadsExtras(h, ch, cc);
    match h.state
    case SelectParameters => SelectsParameters(h, ch, cc);
    case SendServerHello => SendsServerHello(h, ch, cc);
    case SendServerCertificate => SendsServerCertificate(h, ch, cc);
    case SendServerKeyExchange => SendsServerKeyExchange(h, ch, cc);
    case SendServerHelloDone => SendsServerHelloDone(h, ch, cc);
    case ReadClientCertificate => ReadsClientCertificate(h, ch, cc);
    case ReadClientCertificateVerify => ReadsCertificateVerify(h, ch, cc);
    case ReadClientFinished => ReadsClientFinished(h, ch, cc);
    case SendServerFinished => SendsServerFinished(h, ch, cc);
    case ReadNextProto => {
    }
    case ReadChannelId => {
    }
    case ReadClientKeyExchange => {
    }
    case _ => ServerPasses(h, ch, cc);
  }
}
