/** What each call of a client state function does to the messages and the transcript, whatever it computes besides. */
module TlsClientSteps {
  import opened Wrappers
  import opened TlsTranscript
  import opened TlsClient
  import opened TlsDriver

  /** A HelloVerifyRequest is dropped and the transcript starts over; anything else is left for the next state. */
  ghost predicate HelloVerified(h: Client, g: Client, w: Wait) {
    && (w.Ok? || w.Flush? || w.ReadMessage? || w.Error?)
    && (w.Flush? ==> Restarted(h.c, g.c) && g.c.buffer == Some(g.c.log) && g.c.hash.None?)
    && (w.Ok? ==> Quiet(h.c, g.c) && h.c.inbox != [] && !FirstIs(h.c, HelloVerifyRequest))
  }

  /** The hash starts with what is buffered and takes the ServerHello; the buffer goes where no certificate request can
      come. */
  ghost predicate HelloRead(h: Client, g: Client, w: Wait) {
    && (w.Ok? || w == Wait.ReadServerHello || w.Error?)
    && (w.Ok? ==>
          && Consumed(h.c, g.c, ServerHello)
          && g.c.hash == Some(h.c.log + [h.c.inbox[0]]) && Hello(g.p) == h.c.inbox[0].body
          && (g.c.buffer.None? <==> g.p.resumed || !g.p.certAuth))
  }

  /** With a CertificateRequest the buffer is kept for the signature; without one it goes. */
  ghost predicate RequestRead(h: Client, g: Client, w: Wait) {
    && ReadWhere(g.certRequest, h.c, g.c, w, CertificateRequest)
    && (w.Ok? && g.certRequest ==> g.c.buffer == Some(g.c.log))
    && (w.Ok? && !g.certRequest && h.p.certAuth ==> g.c.buffer.None? && FirstIs(h.c, ServerHelloDone))
  }

  /** A requested certificate is sent once, and the buffer goes where there is none to sign with. */
  ghost predicate CertificateSent(h: Client, g: Client, w: Wait) {
    && (w.Ok? || w.X509Lookup? || w.Error?)
    && (w.Ok? && !h.certRequest ==> Quiet(h.c, g.c))
    && (w.Ok? && h.certRequest ==>
          && |g.c.log| == |h.c.log| + 1 && Emitted(h.c, g.c, g.c.log[|h.c.log|..])
          && var m := g.c.log[|h.c.log|];
             && m.kind == Certificate && (g.hasCert <==> m.body != Opaque(0))
             && (g.hasCert ==> g.c.buffer == Some(g.c.log)) && (!g.hasCert ==> g.c.buffer.None?))
  }

  /** The signature is over everything before the message. */
  ghost predicate VerifySent(h: Client, g: Client, w: Wait) {
    && (w.Ok? || w.PrivateKeyOperation? || w.Error?)
    && (w.Ok? ==>
          if h.certRequest && h.hasCert then
            Emitted(h.c, g.c, [ClientSays(CertificateVerify, Signed(h.c.log))]) && g.c.buffer.None?
          else
            Quiet(h.c, g.c))
  }

  /** What goes out between the ChangeCipherSpec and the Finished. */
  function Extras(p: Params, body: nat): seq<Msg> {
    (if p.nextProto then [ClientSays(NextProto, Opaque(body))] else [])
    + (if p.channelId then [ClientSays(ChannelId, Opaque(body))] else [])
  }

  /** The Finished is over everything before it, the messages sent along with it included. */
  ghost predicate FinishedSent(h: Client, g: Client, w: Wait, body: nat) {
    && (w.Flush? || w.ChannelIdLookup? || w.Error?)
    && (w.Flush? ==>
          var extras := Extras(h.p, body);
          Emitted(h.c, g.c, extras + [ClientSays(Finished, Mac(false, h.c.log + extras))]))
  }

  /** A promised ticket is read before the ChangeCipherSpec; an empty one takes the promise back. */
  ghost predicate TicketRead(h: Client, g: Client, w: Wait) {
    && (w.ReadChangeCipherSpec? || w.ReadMessage? || w.Error?)
    && (w.ReadChangeCipherSpec? ==>
          if h.ticketExpected then
            Consumed(h.c, g.c, NewSessionTicket) && (g.ticketExpected <==> h.c.inbox[0].body != Opaque(0))
          else
            Quiet(h.c, g.c))
  }

  /** The Finished is accepted if and only if its value is over everything sent and consumed before it. */
  ghost predicate FinishedRead(h: Client, g: Client, w: Wait) {
    && (w.Ok? || w.ReadMessage? || w.Error?)
    && (w.Ok? <==> FirstIs(h.c, Finished) && h.c.inbox[0].body == Mac(true, h.c.log))
    && (w.Ok? ==> Consumed(h.c, g.c, Finished))
    && (!w.Ok? ==> g == h && (w.ReadMessage? <==> h.c.inbox == []))
  }

  /** A resumed handshake is over with its flight; a full one reads on, possibly after an early return. */
  ghost predicate FlightFinished(h: Client, g: Client, w: Wait) {
    && Quiet(h.c, g.c)
    && (h.p.resumed ==> w.Ok? && g.state.FinishClientHandshake?)
    && (!h.p.resumed ==> w.Error? || ((w.Ok? || w.EarlyReturn?) && g.state.ReadSessionTicket?))
  }

  /** A status is consumed where there is one; either way the server's certificate is verified next. */
  ghost predicate StatusRead(h: Client, g: Client, w: Wait) {
    && ReadWhere(h.p.status && FirstIs(h.c, CertificateStatus), h.c, g.c, w, CertificateStatus)
    && (w.Ok? ==> g.state.VerifyServerCertificate?)
  }

  /** A certificate is verified only where the cipher has one, and a call that cannot tell yet leaves it to the next;
      the handshake goes on past one only with a call that neither failed nor had to wait. */
  ghost predicate CertificateVerified(h: Client, g: Client, w: Wait, ch: Choice) {
    && Quiet(h.c, g.c)
    && (w.Ok? <==> !h.p.certAuth || (!ch.fails && !ch.blocks))
    && (if w.Ok? then g.state.ReadServerKeyExchange? else g == h)
  }

  /** The whole table. */
  ghost predicate Did(h: Client, g: Client, w: Wait, ch: Choice) {
    Patient(h, g, w) &&
    match h.state
    case StartConnect => Sends(h.c, g.c, w, [ClientSays(ClientHello, Opaque(ch.body))])
    case ReadHelloVerifyRequest => HelloVerified(h, g, w)
    case ReadingServerHello => HelloRead(h, g, w)
    case ReadServerCertificate => ReadWhere(h.p.certAuth, h.c, g.c, w, Certificate)
    case ReadCertificateStatus => StatusRead(h, g, w)
    case ReadServerKeyExchange =>
      ReadWhere(FirstIs(h.c, ServerKeyExchange), h.c, g.c, w, ServerKeyExchange)
      && (w.Ok? && h.p.needsKeyExchange ==> FirstIs(h.c, ServerKeyExchange))
    case ReadCertificateRequest => RequestRead(h, g, w)
    case ReadServerHelloDone => ReadWhere(true, h.c, g.c, w, ServerHelloDone)
    case SendClientCertificate => CertificateSent(h, g, w)
    case SendClientKeyExchange => Sends(h.c, g.c, w, [ClientSays(ClientKeyExchange, Opaque(ch.body))])
    case SendClientCertificateVerify => VerifySent(h, g, w)
    case SendClientFinished => FinishedSent(h, g, w, ch.body)
    case ReadSessionTicket => TicketRead(h, g, w)
    case ReadServerFinished => FinishedRead(h, g, w)
    case VerifyServerCertificate => CertificateVerified(h, g, w, ch)
    case FinishFlight => FlightFinished(h, g, w)
    case _ => Quiet(h.c, g.c)
  }

  /** A disciplined handshake's transcript. */
  lemma Transcript(h: Client)
    requires Disciplined(h)
    ensures Faithful(h.c) && (h.c.hash.None? <==> BeforeHello(h.state))
    ensures h.state.ReadCertificateRequest? && h.p.certAuth ==> h.c.buffer.Some?
    ensures h.state.ReadCertificateRequest? ==> !h.certRequest
    ensures h.state.SendClientCertificate? && h.certRequest ==> h.c.buffer.Some?
  {
  }

  lemma ExtrasSent(c: Conn, p: Params, body: nat)
    requires Faithful(c) && c.hash.Some?
    ensures var d := SendIf(SendIf(c, p.nextProto, ClientSays(NextProto, Opaque(body))),
                            p.channelId, ClientSays(ChannelId, Opaque(body)));
            Emitted(c, d, Extras(p, body)) && Faithful(d) && d.hash.Some?
  {
    var np, cid := ClientSays(NextProto, Opaque(body)), ClientSays(ChannelId, Opaque(body));
    assert c.log + ([np] + [cid]) == (c.log + [np]) + [cid];
    assert c.outbox + ([np] + [cid]) == (c.outbox + [np]) + [cid];
    assert [] + [cid] == [cid] && [np] + [] == [np];
    assert c.log + ([] + []) == c.log && c.outbox + ([] + []) == c.outbox;
  }

  lemma ConnectDid(h: Client, ch: Choice)
    requires Disciplined(h) && h.state.StartConnect?
    ensures var r := DoStartConnect(h, ch);
            Kept(r) && Patient(h, r.0, r.1) && Sends(h.c, r.0.c, r.1, [ClientSays(ClientHello, Opaque(ch.body))])
  {
    hide Disciplined;
    StepDisciplined(h, ch);
  }

  lemma HelloVerifyDid(h: Client, ch: Choice)
    requires Disciplined(h) && h.state.ReadHelloVerifyRequest?
    ensures var r := DoReadHelloVerifyRequest(h, ch);
            Kept(r) && Patient(h, r.0, r.1) && HelloVerified(h, r.0, r.1)
  {
    hide Disciplined;
    StepDisciplined(h, ch);
    Transcript(h);
  }

  lemma HelloDid(h: Client, ch: Choice)
    requires Disciplined(h) && h.state.ReadingServerHello?
    ensures var r := DoReadServerHello(h, ch);
            Kept(r) && Patient(h, r.0, r.1) && HelloRead(h, r.0, r.1)
  {
    hide Disciplined;
    StepDisciplined(h, ch);
    Transcript(h);
  }

  lemma ServerCertificateDid(h: Client, ch: Choice)
    requires Disciplined(h) && h.state.ReadServerCertificate?
    ensures var r := DoReadServerCertificate(h, ch);
            Kept(r) && Patient(h, r.0, r.1) && ReadWhere(h.p.certAuth, h.c, r.0.c, r.1, Certificate)
  {
    hide Disciplined;
    StepDisciplined(h, ch);
  }

  lemma StatusDid(h: Client, ch: Choice)
    requires Disciplined(h) && h.state.ReadCertificateStatus?
    ensures var r := DoReadCertificateStatus(h, ch);
            Kept(r) && Patient(h, r.0, r.1) && StatusRead(h, r.0, r.1)
  {
    hide Disciplined;
    StepDisciplined(h, ch);
  }

  lemma VerifyDid(h: Client, ch: Choice)
    requires Disciplined(h) && h.state.VerifyServerCertificate?
    ensures var r := DoVerifyServerCertificate(h, ch);
            Kept(r) && Patient(h, r.0, r.1) && CertificateVerified(h, r.0, r.1, ch)
  {
    hide Disciplined;
    StepDisciplined(h, ch);
  }

  lemma KeyExchangeDid(h: Client, ch: Choice)
    requires Disciplined(h) && h.state.ReadServerKeyExchange?
    ensures var r := DoReadServerKeyExchange(h, ch);
            Kept(r) && Patient(h, r.0, r.1)
            && ReadWhere(FirstIs(h.c, ServerKeyExchange), h.c, r.0.c, r.1, ServerKeyExchange)
            && (r.1.Ok? && h.p.needsKeyExchange ==> FirstIs(h.c, ServerKeyExchange))
  {
    hide Disciplined;
    StepDisciplined(h, ch);
  }

  lemma RequestDid(h: Client, ch: Choice)
    requires Disciplined(h) && h.state.ReadCertificateRequest?
    ensures var r := DoReadCertificateRequest(h, ch);
            Kept(r) && Patient(h, r.0, r.1) && RequestRead(h, r.0, r.1)
  {
    hide Disciplined;
    StepDisciplined(h, ch);
    Transcript(h);
  }

  lemma CertificateDid(h: Client, ch: Choice)
    requires Disciplined(h) && h.state.SendClientCertificate?
    ensures var r := DoSendClientCertificate(h, ch);
            Kept(r) && Patient(h, r.0, r.1) && CertificateSent(h, r.0, r.1)
  {
    hide Disciplined;
    StepDisciplined(h, ch);
    Transcript(h);
  }

  lemma ClientKeyDid(h: Client, ch: Choice)
    requires Disciplined(h) && h.state.SendClientKeyExchange?
    ensures var r := DoSendClientKeyExchange(h, ch);
            Kept(r) && Patient(h, r.0, r.1) && Sends(h.c, r.0.c, r.1, [ClientSays(ClientKeyExchange, Opaque(ch.body))])
  {
    hide Disciplined;
    StepDisciplined(h, ch);
  }

  lemma SignatureDid(h: Client, ch: Choice)
    requires Disciplined(h) && h.state.SendClientCertificateVerify?
    ensures var r := DoSendCertificateVerify(h, ch);
            Kept(r) && Patient(h, r.0, r.1) && VerifySent(h, r.0, r.1)
  {
    hide Disciplined;
    StepDisciplined(h, ch);
    Transcript(h);
  }

  lemma FinishDid(h: Client, ch: Choice)
    requires Disciplined(h) && h.state.SendClientFinished?
    ensures var r := DoSendFinished(h, ch);
            Kept(r) && Patient(h, r.0, r.1) && FinishedSent(h, r.0, r.1, ch.body)
  {
    hide Disciplined;
    Transcript(h);
    SendFinishedKeeps(h, ch);
    if DoSendFinished(h, ch).1.Flush? {
      var extras := Extras(h.p, ch.body);
      var last := ClientSays(Finished, Mac(false, h.c.log + extras));
      var c1 := SendIf(h.c, h.p.nextProto, ClientSays(NextProto, Opaque(ch.body)));
      var c2 := SendIf(c1, h.p.channelId, ClientSays(ChannelId, Opaque(ch.body)));
      ExtrasSent(h.c, h.p, ch.body);
      assert SendFinished(c2, false) == Send(c2, last);
      assert h.c.log + (extras + [last]) == (h.c.log + extras) + [last];
      assert h.c.outbox + (extras + [last]) == (h.c.outbox + extras) + [last];
    }
  }

  lemma FlightDid(h: Client, ch: Choice)
    requires Disciplined(h) && h.state.FinishFlight?
    ensures var r := DoFinishFlight(h, ch);
            Kept(r) && Patient(h, r.0, r.1) && FlightFinished(h, r.0, r.1)
  {
    hide Disciplined;
    StepDisciplined(h, ch);
  }

  lemma TicketDid(h: Client, ch: Choice)
    requires Disciplined(h) && h.state.ReadSessionTicket?
    ensures var r := DoReadSessionTicket(h, ch);
            Kept(r) && Patient(h, r.0, r.1) && TicketRead(h, r.0, r.1)
  {
    hide Disciplined;
    StepDisciplined(h, ch);
  }

  lemma ServerFinishedDid(h: Client, ch: Choice)
    requires Disciplined(h) && h.state.ReadServerFinished?
    ensures var r := DoReadServerFinished(h);
            Kept(r) && Patient(h, r.0, r.1) && FinishedRead(h, r.0, r.1)
  {
    hide Disciplined;
    StepDisciplined(h, ch);
    Transcript(h);
  }

  lemma DoneDid(h: Client, ch: Choice)
    requires h.state.ReadServerHelloDone?
    ensures var r := Expect(h, ServerHelloDone, ch, SendClientCertificate);
            Patient(h, r.0, r.1) && ReadWhere(true, h.c, r.0.c, r.1, ServerHelloDone)
  {
  }

  /** One call, whatever arrives and whatever blocks. */
  lemma StepDid(h: Client, ch: Choice)
    requires Disciplined(h)
    ensures Did(h, Step(h, ch).0, Step(h, ch).1, ch)
  {
    hide Disciplined, HelloVerified, HelloRead, RequestRead, CertificateSent, VerifySent, FinishedSent, TicketRead,
         FinishedRead, CertificateVerified, StatusRead, FlightFinished, ReadWhere, Sends, DoStartConnect,
         DoReadHelloVerifyRequest, DoReadServerHello, DoReadServerCertificate, DoReadCertificateStatus,
         DoReadServerKeyExchange, DoReadCertificateRequest, DoSendClientCertificate, DoSendClientKeyExchange,
         DoSendCertificateVerify, DoSendFinished, DoFinishFlight, DoReadSessionTicket, DoReadServerFinished, Expect;
    match h.state
    case StartConnect => ConnectDid(h, ch);
    case ReadHelloVerifyRequest => HelloVerifyDid(h, ch);
    case ReadingServerHello => HelloDid(h, ch);
    case ReadServerCertificate => ServerCertificateDid(h, ch);
    case ReadCertificateStatus => StatusDid(h, ch);
    case VerifyServerCertificate => VerifyDid(h, ch);
    case ReadServerKeyExchange => KeyExchangeDid(h, ch);
    case ReadCertificateRequest => RequestDid(h, ch);
    case SendClientCertificate => CertificateDid(h, ch);
    case SendClientKeyExchange => ClientKeyDid(h, ch);
    case SendClientCertificateVerify => SignatureDid(h, ch);
    case SendClientFinished => FinishDid(h, ch);
    case FinishFlight => FlightDid(h, ch);
    case ReadSessionTicket => TicketDid(h, ch);
    case ReadServerFinished => ServerFinishedDid(h, ch);
    case ReadServerHelloDone => DoneDid(h, ch);
    case _ => {
    }
  }

  /** So no call loses a message or repeats one. */
  lemma DidAccounts(h: Client, g: Client, w: Wait, ch: Choice)
    requires Did(h, g, w, ch) && !w.Error?
    ensures Accounted(h.c, g.c)
  {
    var (was, now) := (h.c, g.c);
    assert Quiet(was, now) ==> Emitted(was, now, []);
    assert forall ms: seq<Msg> :: Emitted(was, now, ms) ==> now.log[|was.log|..] == ms;
  }

  lemma StepKept(h: Client, ch: Choice)
    requires Disciplined(h)
    ensures var r := Step(h, ch);
            Kept(r) && Did(h, r.0, r.1, ch) && (!r.1.Error? ==> Accounted(h.c, r.0.c))
  {
    hide Disciplined, Step, Did, Accounted;
    StepDisciplined(h, ch);
    StepDid(h, ch);
    var r := Step(h, ch);
    if !r.1.Error? {
      DidAccounts(h, r.0, r.1, ch);
    }
  }
}
