/** What each call of a server state function does to the messages and the transcript, whatever it computes besides. */
module TlsServerSteps {
  import opened Wrappers
  import opened TlsTranscript
  import opened TlsServer
  import opened TlsDriver

  /** The ClientHello is looked at, and it stays where it is, unhashed. */
  ghost predicate HelloSeen(h: Server, g: Server, w: Wait) {
    && g.c == h.c
    && (w.Ok? || w.Error? || Reading(w) || Asynchronous(w))
    && (w.Ok? ==> FirstIs(h.c, ClientHello))
  }

  /** The hash starts with what is buffered and takes the ClientHello; the buffer stays exactly where a certificate is
      going to be requested. */
  ghost predicate HelloTaken(h: Server, g: Server, w: Wait) {
    && (w.Ok? || w.ReadMessage? || w == Wait.PendingSession || w.Error?)
    && (w.Ok? ==>
          && Consumed(h.c, g.c, ClientHello)
          && g.c.hash == Some(h.c.log + [h.c.inbox[0]])
          && (g.c.buffer.Some? <==> g.certRequest) && (g.certRequest ==> g.p.certAuth && !g.p.resumed))
  }

  function Certificates(p: Params, body: nat): seq<Msg> {
    (if p.certAuth then [ServerSays(Certificate, Opaque(body))] else [])
    + (if p.certAuth && p.status then [ServerSays(CertificateStatus, Opaque(body))] else [])
  }

  /** The message is sent once, also where its signature is not ready and the call is made again. */
  ghost predicate KeyExchangeSent(h: Server, g: Server, w: Wait, body: nat) {
    && (w.Ok? || w.PrivateKeyOperation? || w.Error?)
    && (w.Ok? ==>
          && !g.sendsKeyExchange
          && if h.sendsKeyExchange then Emitted(h.c, g.c, [ServerSays(ServerKeyExchange, Opaque(body))])
             else Quiet(h.c, g.c))
  }

  function Closing(certRequest: bool, body: nat): seq<Msg> {
    (if certRequest then [ServerSays(CertificateRequest, Opaque(body))] else [])
    + [ServerSays(ServerHelloDone, Opaque(0))]
  }

  /** With a certificate the buffer is kept for the signature to be checked; without one it goes. What was sent is
      verified next. */
  ghost predicate CertificateRead(h: Server, g: Server, w: Wait) {
    && ReadWhere(h.certRequest, h.c, g.c, w, Certificate)
    && (w.Ok? ==> g.state.VerifyClientCertificate?)
    && (w.Ok? && h.certRequest ==>
          && (g.peerKey <==> h.c.inbox[0].body != Opaque(0))
          && (g.peerKey ==> g.c.buffer == Some(g.c.log)) && (!g.peerKey ==> g.c.buffer.None?))
  }

  /** A certificate is verified only where there is one, and a call that cannot tell yet leaves it to the next; the
      handshake goes on past one only with a call that neither failed nor had to wait. */
  ghost predicate CertificateVerified(h: Server, g: Server, w: Wait, ch: Choice) {
    && Quiet(h.c, g.c)
    && (w.Ok? <==> !h.peerKey || (!ch.fails && !ch.blocks))
    && (if w.Ok? then g.state.ReadClientKeyExchange? else g == h)
  }

  /** The signature is accepted if and only if it is over everything before it. */
  ghost predicate SignatureRead(h: Server, g: Server, w: Wait, fails: bool) {
    && ReadWhere(h.peerKey, h.c, g.c, w, CertificateVerify)
    && (w.Ok? <==> !h.peerKey || (!fails && FirstIs(h.c, CertificateVerify) && h.c.inbox[0].body == Signed(h.c.log)))
    && (w.Ok? ==> g.c.buffer.None?)
  }

  /** The Finished is accepted if and only if its value is over everything sent and consumed before it. */
  ghost predicate FinishedRead(h: Server, g: Server, w: Wait, fails: bool) {
    && (w.Ok? || w.ReadMessage? || w.Error?)
    && (w.Ok? <==> !fails && FirstIs(h.c, Finished) && h.c.inbox[0].body == Mac(false, h.c.log))
    && (w.Ok? ==>
          Consumed(h.c, g.c, Finished) && g.state == if h.p.resumed then FinishServerHandshake else SendServerFinished)
    && (w.ReadMessage? <==> h.c.inbox == [])
  }

  function Tickets(p: Params, body: nat): seq<Msg> {
    if p.ticket then [ServerSays(NewSessionTicket, Opaque(body))] else []
  }

  /** The Finished is over everything before it, a ticket sent along with it included. */
  ghost predicate FinishedSent(h: Server, g: Server, w: Wait, body: nat) {
    && (w.Flush? || w.Error?)
    && (w.Flush? ==>
          var tickets := Tickets(h.p, body);
          Emitted(h.c, g.c, tickets + [ServerSays(Finished, Mac(true, h.c.log + tickets))]))
  }

  /** The whole table. */
  ghost predicate Did(h: Server, g: Server, w: Wait, ch: Choice) {
    Patient(h, g, w) &&
    match h.state
    case ReadClientHello => HelloSeen(h, g, w)
    case SelectCertificate => HelloSeen(h, g, w)
    case SelectParameters => HelloTaken(h, g, w)
    case SendServerHello => Sends(h.c, g.c, w, [ServerSays(ServerHello, Hello(h.p))])
    case SendServerCertificate => Sends(h.c, g.c, w, Certificates(h.p, ch.body))
    case SendServerKeyExchange => KeyExchangeSent(h, g, w, ch.body)
    case SendServerHelloDone => Sends(h.c, g.c, w, Closing(h.certRequest, ch.body))
    case ReadClientCertificate => CertificateRead(h, g, w)
    case VerifyClientCertificate => CertificateVerified(h, g, w, ch)
    case ReadClientKeyExchange => ReadWhere(true, h.c, g.c, w, ClientKeyExchange)
    case ReadClientCertificateVerify => SignatureRead(h, g, w, ch.fails)
    case ReadNextProto => ReadWhere(h.p.nextProto, h.c, g.c, w, NextProto)
    case ReadChannelId => ReadWhere(h.p.channelId, h.c, g.c, w, ChannelId)
    case ReadClientFinished => FinishedRead(h, g, w, ch.fails)
    case SendServerFinished => FinishedSent(h, g, w, ch.body)
    case _ => Quiet(h.c, g.c)
  }

  /** A disciplined handshake's transcript. */
  lemma Transcript(h: Server)
    requires Disciplined(h)
    ensures Faithful(h.c) && (h.c.hash.None? <==> BeforeHello(h.state))
    ensures h.state.ReadClientCertificate? && h.certRequest ==> h.c.buffer.Some?
    ensures h.state.ReadClientCertificateVerify? && h.peerKey ==> h.c.buffer.Some?
    ensures h.state.ReadClientCertificate? ==> !h.peerKey
    ensures h.state.SelectCertificate? || h.state.SelectParameters? ==> FirstIs(h.c, ClientHello)
  {
  }

  /** Sending some message or none. */
  lemma MaybeSent(c: Conn, yes: bool, m: Msg)
    requires Faithful(c)
    ensures var d := SendIf(c, yes, m);
            Emitted(c, d, if yes then [m] else []) && Faithful(d) && d.hash.Some? == c.hash.Some?
  {
    assert c.log + [] == c.log && c.outbox + [] == c.outbox;
  }

  lemma BothSent(was: Conn, mid: Conn, now: Conn, a: seq<Msg>, b: seq<Msg>)
    requires Emitted(was, mid, a) && Emitted(mid, now, b)
    ensures Emitted(was, now, a + b)
  {
    assert was.log + (a + b) == (was.log + a) + b && was.outbox + (a + b) == (was.outbox + a) + b;
  }

  lemma HelloSeenDid(h: Server, ch: Choice)
    requires Disciplined(h) && h.state.ReadClientHello?
    ensures var r := DoReadClientHello(h, ch);
            Kept(r) && Patient(h, r.0, r.1) && HelloSeen(h, r.0, r.1)
  {
    hide Disciplined;
    StepDisciplined(h, ch);
  }

  lemma CertificateChosenDid(h: Server, ch: Choice)
    requires Disciplined(h) && h.state.SelectCertificate?
    ensures var r := DoSelectCertificate(h, ch);
            Kept(r) && Patient(h, r.0, r.1) && HelloSeen(h, r.0, r.1)
  {
    hide Disciplined;
    StepDisciplined(h, ch);
    Transcript(h);
  }

  lemma HelloTakenDid(h: Server, ch: Choice)
    requires Disciplined(h) && h.state.SelectParameters?
    ensures var r := DoSelectParameters(h, ch);
            Kept(r) && Patient(h, r.0, r.1) && HelloTaken(h, r.0, r.1)
  {
    hide Disciplined;
    StepDisciplined(h, ch);
    Transcript(h);
  }

  lemma HelloSentDid(h: Server, ch: Choice)
    requires Disciplined(h) && h.state.SendServerHello?
    ensures var r := DoSendServerHello(h, ch);
            Kept(r) && Patient(h, r.0, r.1) && Sends(h.c, r.0.c, r.1, [ServerSays(ServerHello, Hello(h.p))])
  {
    hide Disciplined;
    StepDisciplined(h, ch);
  }

  lemma CertificatesDid(h: Server, ch: Choice)
    requires Disciplined(h) && h.state.SendServerCertificate?
    ensures var r := DoSendServerCertificate(h, ch);
            Kept(r) && Patient(h, r.0, r.1) && Sends(h.c, r.0.c, r.1, Certificates(h.p, ch.body))
  {
    hide Disciplined;
    StepDisciplined(h, ch);
    Transcript(h);
    var m, n := ServerSays(Certificate, Opaque(ch.body)), ServerSays(CertificateStatus, Opaque(ch.body));
    var c1 := SendIf(h.c, h.p.certAuth, m);
    MaybeSent(h.c, h.p.certAuth, m);
    MaybeSent(c1, h.p.certAuth && h.p.status, n);
    BothSent(h.c, c1, SendIf(c1, h.p.certAuth && h.p.status, n), if h.p.certAuth then [m] else [],
             if h.p.certAuth && h.p.status then [n] else []);
  }

  lemma KeyExchangeDid(h: Server, ch: Choice)
    requires Disciplined(h) && h.state.SendServerKeyExchange?
    ensures var r := DoSendServerKeyExchange(h, ch);
            Kept(r) && Patient(h, r.0, r.1) && KeyExchangeSent(h, r.0, r.1, ch.body)
  {
    hide Disciplined;
    StepDisciplined(h, ch);
  }

  lemma HelloDoneDid(h: Server, ch: Choice)
    requires Disciplined(h) && h.state.SendServerHelloDone?
    ensures var r := DoSendServerHelloDone(h, ch);
            Kept(r) && Patient(h, r.0, r.1) && Sends(h.c, r.0.c, r.1, Closing(h.certRequest, ch.body))
  {
    hide Disciplined;
    StepDisciplined(h, ch);
    Transcript(h);
    var m, n := ServerSays(CertificateRequest, Opaque(ch.body)), ServerSays(ServerHelloDone, Opaque(0));
    var c1 := SendIf(h.c, h.certRequest, m);
    MaybeSent(h.c, h.certRequest, m);
    MaybeSent(c1, true, n);
    BothSent(h.c, c1, Send(c1, n), if h.certRequest then [m] else [], [n]);
  }

  lemma CertificateDid(h: Server, ch: Choice)
    requires Disciplined(h) && h.state.ReadClientCertificate?
    ensures var r := DoReadClientCertificate(h, ch);
            Kept(r) && Patient(h, r.0, r.1) && CertificateRead(h, r.0, r.1)
  {
    hide Disciplined;
    StepDisciplined(h, ch);
    Transcript(h);
  }

  lemma VerifiedDid(h: Server, ch: Choice)
    requires Disciplined(h) && h.state.VerifyClientCertificate?
    ensures var r := DoVerifyClientCertificate(h, ch);
            Kept(r) && Patient(h, r.0, r.1) && CertificateVerified(h, r.0, r.1, ch)
  {
    hide Disciplined;
    StepDisciplined(h, ch);
  }

  lemma SignatureDid(h: Server, ch: Choice)
    requires Disciplined(h) && h.state.ReadClientCertificateVerify?
    ensures var r := DoReadClientCertificateVerify(h, ch);
            Kept(r) && Patient(h, r.0, r.1) && SignatureRead(h, r.0, r.1, ch.fails)
  {
    hide Disciplined;
    StepDisciplined(h, ch);
    Transcript(h);
  }

  lemma FinishedDid(h: Server, ch: Choice)
    requires Disciplined(h) && h.state.ReadClientFinished?
    ensures var r := DoReadClientFinished(h, ch);
            Kept(r) && Patient(h, r.0, r.1) && FinishedRead(h, r.0, r.1, ch.fails)
  {
    hide Disciplined;
    StepDisciplined(h, ch);
    Transcript(h);
  }

  lemma FinishDid(h: Server, ch: Choice)
    requires Disciplined(h) && h.state.SendServerFinished?
    ensures var r := DoSendServerFinished(h, ch);
            Kept(r) && Patient(h, r.0, r.1) && FinishedSent(h, r.0, r.1, ch.body)
  {
    hide Disciplined;
    StepDisciplined(h, ch);
    Transcript(h);
    var m := ServerSays(NewSessionTicket, Opaque(ch.body));
    var c1 := SendIf(h.c, h.p.ticket, m);
    MaybeSent(h.c, h.p.ticket, m);
    var last := ServerSays(Finished, Mac(true, c1.log));
    assert SendFinished(c1, true) == Send(c1, last);
    MaybeSent(c1, true, last);
    BothSent(h.c, c1, Send(c1, last), Tickets(h.p, ch.body), [last]);
  }

  lemma ExpectedDid(h: Server, kind: Kind, ch: Choice, pending: Wait, next: State)
    requires pending.Ok? || Asynchronous(pending)
    ensures var r := Expect(h, kind, ch, pending, next);
            Patient(h, r.0, r.1) && ReadWhere(true, h.c, r.0.c, r.1, kind)
  {
  }

  /** One call, whatever arrives and whatever blocks. */
  lemma StepDid(h: Server, ch: Choice)
    requires Disciplined(h)
    ensures Did(h, Step(h, ch).0, Step(h, ch).1, ch)
  {
    hide Disciplined, HelloSeen, HelloTaken, KeyExchangeSent, CertificateRead, CertificateVerified, SignatureRead,
         FinishedRead, FinishedSent, Sends, DoReadClientHello, DoSelectCertificate, DoSelectParameters,
         DoSendServerHello, DoSendServerCertificate, DoSendServerKeyExchange, DoSendServerHelloDone,
         DoReadClientCertificate, DoVerifyClientCertificate, DoReadClientCertificateVerify, DoReadClientFinished,
         DoSendServerFinished, Expect;
    match h.state
    case ReadClientHello => HelloSeenDid(h, ch);
    case SelectCertificate => CertificateChosenDid(h, ch);
    case SelectParameters => HelloTakenDid(h, ch);
    case SendServerHello => HelloSentDid(h, ch);
    case SendServerCertificate => CertificatesDid(h, ch);
    case SendServerKeyExchange => KeyExchangeDid(h, ch);
    case SendServerHelloDone => HelloDoneDid(h, ch);
    case ReadClientCertificate => CertificateDid(h, ch);
    case VerifyClientCertificate => VerifiedDid(h, ch);
    case ReadClientCertificateVerify => SignatureDid(h, ch);
    case ReadClientFinished => FinishedDid(h, ch);
    case SendServerFinished => FinishDid(h, ch);
    case ReadClientKeyExchange =>
      ExpectedDid(h, ClientKeyExchange, ch, PrivateKeyOperation, ReadClientCertificateVerify);
    case ReadNextProto => ExpectedDid(h, NextProto, ch, Ok, ReadChannelId);
    case ReadChannelId => ExpectedDid(h, ChannelId, ch, Ok, ReadClientFinished);
    case _ => {
    }
  }

  /** So no call loses a message or repeats one. */
  lemma DidAccounts(h: Server, g: Server, w: Wait, ch: Choice)
    requires Did(h, g, w, ch) && !w.Error?
    ensures Accounted(h.c, g.c)
  {
    hide Certificates, Closing, Tickets;
    var (was, now) := (h.c, g.c);
    assert Quiet(was, now) ==> Emitted(was, now, []);
    assert forall ms: seq<Msg> :: Emitted(was, now, ms) ==> now.log[|was.log|..] == ms;
  }

  lemma StepKept(h: Server, ch: Choice)
    requires Disciplined(h)
    ensures var r := Step(h, ch);
            Kept(r) && Did(h, r.0, r.1, ch) && (!r.1.Error? ==> Accounted(h.c, r.0.c))
  {
    hide Disciplined, Step, Did, Accounted;
    StepDisciplined(h, ch);
    StepDid(h, ch);
    var r := Step(h, ch);
    if !r.1.Error? {
      DidAccounts(h, r.0, r.1, ch);
    }
  }
}
