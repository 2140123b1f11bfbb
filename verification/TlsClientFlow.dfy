/** The client goes along the message flow: where the server does, nothing but its surroundings can make it fail. */
module TlsClientFlow {
  import opened Wrappers
  import opened TlsTranscript
  import opened TlsFlow
  import opened TlsClient

  /** What the promise of a ticket still decides. */
  predicate TicketDue(s: State, resumed: bool) {
    || s.ReadSessionTicket?
    || (!resumed && (FullFlight(s) || AwaitsVerify(s) || s.SendClientFinished? || s.FinishFlight?))
  }

  ghost predicate Settled(h: Client, x: Plan) {
    && (!BeforeHello(h.state) ==> h.p == x.p)
    && (AwaitsVerify(h.state) ==> h.certRequest == Requests(x))
    && ((h.state.SendClientKeyExchange? || h.state.SendClientCertificateVerify?) && h.certRequest ==>
          h.hasCert == x.hasCert)
    && (TicketDue(h.state, x.p.resumed) ==> h.ticketExpected == x.p.ticket)
  }

  ghost predicate Tracks(h: Client, x: Plan) {
    TagsOf(h.c.log) == Upto(x, Bound(h.state, x.p.resumed))
  }

  /** The client is where the flow is when everything up to its state has been sent and consumed, and it knows of the
      plan what has been settled by then. */
  ghost predicate ClientOn(h: Client, x: Plan) {
    Tracks(h, x) && Settled(h, x)
  }

  /** What has arrived is what comes next. */
  ghost predicate ClientReady(h: Client, x: Plan) {
    h.c.inbox != [] ==>
      var m := h.c.inbox[0];
      m.fromServer && Comes(x, Bound(h.state, x.p.resumed), m) && TruthfulAt(m, h.c.log) && Contents(x, m)
  }

  /** Nothing fails, and the client has a certificate where the plan says so. */
  predicate Follows(h: Client, ch: Choice, x: Plan) {
    !ch.fails && (h.state.SendClientCertificate? && h.certRequest ==> ch.flag == x.hasCert)
  }

  ghost predicate Grown(h: Client, g: Client, x: Plan) {
    h.c.log <= g.c.log && forall i :: |h.c.log| <= i < |g.c.log| ==> Contents(x, g.c.log[i])
  }

  ghost predicate Went(h: Client, r: (Client, Wait), x: Plan) {
    !r.1.Error? && ClientOn(r.0, x) && Grown(h, r.0, x)
  }

  /** The places from that of one state to that of the next are empty. */
  lemma Passes(h: Client, g: Client, x: Plan)
    requires Tracks(h, x) && g.c.log == h.c.log
    requires Bound(h.state, x.p.resumed) <= Bound(g.state, x.p.resumed)
    requires forall i :: Bound(h.state, x.p.resumed) <= i < Bound(g.state, x.p.resumed) ==> At(x, i) == []
    ensures Tracks(g, x) && Grown(h, g, x)
  {
    hide Upto, At, Bound;
    UptoSame(x, Bound(h.state, x.p.resumed), Bound(g.state, x.p.resumed));
  }

  lemma Takes(h: Client, g: Client, x: Plan)
    requires Tracks(h, x) && ClientReady(h, x) && h.c.inbox != []
    requires g.c.log == h.c.log + [h.c.inbox[0]]
    requires Bound(g.state, x.p.resumed) == Rank(x.p.resumed, h.c.inbox[0]) + 1
    ensures Tracks(g, x) && Grown(h, g, x)
  {
    hide Upto, At, Bound, Rank;
    ComesAlong(x, Bound(h.state, x.p.resumed), h.c.log, h.c.inbox[0]);
  }

  lemma Says(h: Client, g: Client, m: Msg, x: Plan)
    requires Tracks(h, x) && g.c.log == h.c.log + [m] && Contents(x, m)
    requires At(x, Bound(h.state, x.p.resumed)) == [TagOf(m)]
    requires Bound(g.state, x.p.resumed) == Bound(h.state, x.p.resumed) + 1
    ensures Tracks(g, x) && Grown(h, g, x)
  {
    hide Upto, At, Bound;
    Along(x, Bound(h.state, x.p.resumed), h.c.log, m);
  }

  lemma Known(h: Client)
    requires Disciplined(h)
    ensures Flags(h)
    ensures h.c.hash.None? ==> h.c.buffer == Some(h.c.log)
    ensures h.c.hash.Some? ==> h.c.hash.value == h.c.log && (h.c.buffer.Some? ==> h.c.buffer.value == h.c.log)
  {
  }

  /** What has arrived is what is due in this state, if anything is. */
  lemma Arrived(h: Client, x: Plan)
    requires ClientReady(h, x) && h.c.inbox != []
    ensures var n, m := Bound(h.state, x.p.resumed), h.c.inbox[0];
            && m.fromServer && TruthfulAt(m, h.c.log) && Contents(x, m)
            && (At(x, n) != [] ==> At(x, n) == [TagOf(m)] && Rank(x.p.resumed, m) == n)
            && (At(x, n) == [] ==> Comes(x, n + 1, m))
  {
    hide At, Rank, Bound, Comes, Contents, TruthfulAt;
    Due(x, Bound(h.state, x.p.resumed), h.c.inbox[0]);
  }

  lemma ConnectOn(h: Client, ch: Choice, x: Plan)
    requires Disciplined(h) && ClientOn(h, x) && Follows(h, ch, x) && h.state.StartConnect?
    ensures Went(h, DoStartConnect(h, ch), x)
  {
    hide Disciplined, Upto, Tracks, Grown;
    Known(h);
    Says(h, DoStartConnect(h, ch).0, ClientSays(ClientHello, Opaque(ch.body)), x);
  }

  lemma HelloVerifyOn(h: Client, ch: Choice, x: Plan)
    requires Disciplined(h) && ClientOn(h, x) && ClientReady(h, x) && Follows(h, ch, x)
    requires h.state.ReadHelloVerifyRequest?
    ensures Went(h, DoReadHelloVerifyRequest(h, ch), x)
  {
    hide Disciplined, Upto, Tracks, Grown, ClientReady, Comes, Send, Reset, Consume;
    Known(h);
    if h.c.inbox != [] {
      Arrived(h, x);
    }
    Passes(h, DoReadHelloVerifyRequest(h, ch).0, x);
  }

  lemma HelloOn(h: Client, ch: Choice, x: Plan)
    requires Disciplined(h) && ClientOn(h, x) && ClientReady(h, x) && Follows(h, ch, x)
    requires h.state.ReadingServerHello?
    ensures Went(h, DoReadServerHello(h, ch), x)
  {
    hide Disciplined, Upto, Tracks, Grown, ClientReady, Comes;
    Known(h);
    var g := DoReadServerHello(h, ch).0;
    if h.c.inbox == [] {
      Passes(h, g, x);
    } else {
      Arrived(h, x);
      Takes(h, g, x);
    }
  }

  /** One of the states that read one message of the server's, where it is due. */
  lemma ExpectOn(h: Client, kind: Kind, ch: Choice, next: State, x: Plan)
    requires Tracks(h, x) && ClientReady(h, x) && !ch.fails
    requires h.c.inbox != [] ==> h.c.inbox[0].kind == kind
    requires Bound(next, x.p.resumed) == Rank(x.p.resumed, Msg(kind, true, Opaque(0))) + 1
    ensures var (g, w) := Expect(h, kind, ch, next);
            && !w.Error? && Tracks(g, x) && Grown(h, g, x) && (w.Ok? <==> h.c.inbox != [])
            && g == h.(c := g.c, state := if w.Ok? then next else h.state)
  {
    hide Upto, At, Tracks, Grown, Comes, Contents;
    var g := Expect(h, kind, ch, next).0;
    if h.c.inbox != [] {
      Takes(h, g, x);
    } else {
      Passes(h, g, x);
    }
  }

  lemma CertificateOn(h: Client, ch: Choice, x: Plan)
    requires Disciplined(h) && ClientOn(h, x) && ClientReady(h, x) && Follows(h, ch, x)
    requires h.state.ReadServerCertificate?
    ensures Went(h, DoReadServerCertificate(h, ch), x)
  {
    hide Disciplined, Upto, Tracks, Grown, ClientReady, Comes, Contents, TruthfulAt, Expect;
    Known(h);
    if h.p.certAuth {
      if h.c.inbox != [] {
        Arrived(h, x);
      }
      ExpectOn(h, Certificate, ch, ReadCertificateStatus, x);
    } else {
      Passes(h, DoReadServerCertificate(h, ch).0, x);
    }
  }

  lemma VerifyOn(h: Client, ch: Choice, x: Plan)
    requires Disciplined(h) && ClientOn(h, x) && Follows(h, ch, x) && h.state.VerifyServerCertificate?
    ensures Went(h, DoVerifyServerCertificate(h, ch), x)
  {
    hide Disciplined, Upto, Tracks, Grown;
    Known(h);
    Passes(h, DoVerifyServerCertificate(h, ch).0, x);
  }

  lemma StatusOn(h: Client, ch: Choice, x: Plan)
    requires Disciplined(h) && ClientOn(h, x) && ClientReady(h, x) && Follows(h, ch, x)
    requires h.state.ReadCertificateStatus?
    ensures Went(h, DoReadCertificateStatus(h, ch), x)
  {
    hide Disciplined, Upto, Tracks, Grown, ClientReady, Comes, Contents, TruthfulAt, Expect;
    Known(h);
    if h.c.inbox != [] {
      Arrived(h, x);
    }
    if !h.p.status || (h.c.inbox != [] && h.c.inbox[0].kind != CertificateStatus) {
      Passes(h, DoReadCertificateStatus(h, ch).0, x);
    } else {
      ExpectOn(h, CertificateStatus, ch, VerifyServerCertificate, x);
    }
  }

  lemma KeyExchangeOn(h: Client, ch: Choice, x: Plan)
    requires Disciplined(h) && ClientOn(h, x) && ClientReady(h, x) && Follows(h, ch, x)
    requires h.state.ReadServerKeyExchange?
    ensures Went(h, DoReadServerKeyExchange(h, ch), x)
  {
    hide Disciplined, Upto, Tracks, Grown, ClientReady, Comes, Contents, TruthfulAt, Expect;
    Known(h);
    if h.c.inbox != [] {
      Arrived(h, x);
    }
    if h.c.inbox == [] || h.c.inbox[0].kind == ServerKeyExchange {
      ExpectOn(h, ServerKeyExchange, ch, ReadCertificateRequest, x);
    } else {
      Passes(h, DoReadServerKeyExchange(h, ch).0, x);
    }
  }

  lemma HelloDoneOn(h: Client, ch: Choice, x: Plan)
    requires Disciplined(h) && ClientOn(h, x) && ClientReady(h, x) && Follows(h, ch, x)
    requires h.state.ReadServerHelloDone?
    ensures Went(h, Expect(h, ServerHelloDone, ch, SendClientCertificate), x)
  {
    hide Disciplined, Upto, Tracks, Grown, ClientReady, Comes, Contents, TruthfulAt, Expect;
    Known(h);
    if h.c.inbox != [] {
      Arrived(h, x);
    }
    ExpectOn(h, ServerHelloDone, ch, SendClientCertificate, x);
  }

  lemma RequestOn(h: Client, ch: Choice, x: Plan)
    requires Disciplined(h) && ClientOn(h, x) && ClientReady(h, x) && Follows(h, ch, x)
    requires h.state.ReadCertificateRequest?
    ensures Went(h, DoReadCertificateRequest(h, ch), x)
  {
    hide Disciplined, Upto, Tracks, Grown, ClientReady, Comes, Contents, TruthfulAt, Expect;
    Known(h);
    var g := DoReadCertificateRequest(h, ch).0;
    if h.c.inbox != [] {
      Arrived(h, x);
      if !Requests(x) {
        Due(x, 6, h.c.inbox[0]);
      }
    }
    if !h.p.certAuth || h.c.inbox == [] || h.c.inbox[0].kind == ServerHelloDone {
      Passes(h, g, x);
    } else {
      ExpectOn(h, CertificateRequest, ch, ReadServerHelloDone, x);
      SameLog(h, Expect(h, CertificateRequest, ch, ReadServerHelloDone).0, g, x);
    }
  }

  lemma SameLog(h: Client, e: Client, g: Client, x: Plan)
    requires Tracks(e, x) && Grown(h, e, x) && g.c.log == e.c.log && g.state == e.state
    ensures Tracks(g, x) && Grown(h, g, x)
  {
  }

  lemma ClientCertificateOn(h: Client, ch: Choice, x: Plan)
    requires Disciplined(h) && ClientOn(h, x) && Follows(h, ch, x) && h.state.SendClientCertificate?
    ensures Went(h, DoSendClientCertificate(h, ch), x)
  {
    hide Disciplined, Upto, Tracks, Grown;
    Known(h);
    var g := DoSendClientCertificate(h, ch).0;
    if g.c.log == h.c.log {
      Passes(h, g, x);
    } else {
      Says(h, g, g.c.log[|h.c.log|], x);
    }
  }

  lemma ClientKeyOn(h: Client, ch: Choice, x: Plan)
    requires Disciplined(h) && ClientOn(h, x) && Follows(h, ch, x) && h.state.SendClientKeyExchange?
    ensures Went(h, DoSendClientKeyExchange(h, ch), x)
  {
    hide Disciplined, Upto, Tracks, Grown;
    Known(h);
    var g := DoSendClientKeyExchange(h, ch).0;
    if g.c.log == h.c.log {
      Passes(h, g, x);
    } else {
      Says(h, g, g.c.log[|h.c.log|], x);
    }
  }

  lemma SignatureOn(h: Client, ch: Choice, x: Plan)
    requires Disciplined(h) && ClientOn(h, x) && Follows(h, ch, x) && h.state.SendClientCertificateVerify?
    ensures Went(h, DoSendCertificateVerify(h, ch), x)
  {
    hide Disciplined, Upto, Tracks, Grown;
    Known(h);
    var g := DoSendCertificateVerify(h, ch).0;
    if g.c.log == h.c.log {
      Passes(h, g, x);
    } else {
      Says(h, g, g.c.log[|h.c.log|], x);
    }
  }

  /** A message sent where it was negotiated. */
  lemma MaybeSays(c: Conn, yes: bool, m: Msg, n: nat, x: Plan)
    requires TagsOf(c.log) == Upto(x, n) && At(x, n) == (if yes then [TagOf(m)] else []) && Contents(x, m)
    ensures var d := SendIf(c, yes, m);
            && TagsOf(d.log) == Upto(x, n + 1) && c.log <= d.log
            && forall i :: |c.log| <= i < |d.log| ==> Contents(x, d.log[i])
  {
    hide Upto, At, Contents;
    UptoNext(x, n);
    if yes {
      Along(x, n, c.log, m);
    }
  }

  lemma FinishedOn(h: Client, ch: Choice, x: Plan)
    requires Disciplined(h) && ClientOn(h, x) && Follows(h, ch, x) && h.state.SendClientFinished?
    ensures Went(h, DoSendFinished(h, ch), x)
  {
    hide Disciplined, Upto, SendIf, Send, At, Contents, Bound;
    Known(h);
    if !(h.p.channelId && ch.blocks) {
      var n := Bound(SendClientFinished, x.p.resumed);
      var np, cid := ClientSays(NextProto, Opaque(ch.body)), ClientSays(ChannelId, Opaque(ch.body));
      var c1 := SendIf(h.c, h.p.nextProto, np);
      var c2 := SendIf(c1, h.p.channelId, cid);
      var m := ClientSays(Finished, if c2.hash.Some? then Mac(false, c2.hash.value) else Opaque(0));
      LastPlaces(x, np, cid, m);
      MaybeSays(h.c, h.p.nextProto, np, n, x);
      MaybeSays(c1, h.p.channelId, cid, n + 1, x);
      MaybeSays(c2, true, m, n + 2, x);
      JustSends(c2, m);
    }
  }

  lemma JustSends(c: Conn, m: Msg)
    ensures SendIf(c, true, m) == Send(c, m)
  {
  }

  lemma LastPlaces(x: Plan, np: Msg, cid: Msg, m: Msg)
    requires np.kind.NextProto? && cid.kind.ChannelId? && m.kind.Finished?
    requires !np.fromServer && !cid.fromServer && !m.fromServer
    ensures Contents(x, np) && Contents(x, cid) && Contents(x, m)
    ensures var n := Bound(SendClientFinished, x.p.resumed);
            && At(x, n) == (if x.p.nextProto then [TagOf(np)] else [])
            && At(x, n + 1) == (if x.p.channelId then [TagOf(cid)] else [])
            && At(x, n + 2) == [TagOf(m)] && Bound(FinishFlight, x.p.resumed) == n + 3
  {
  }

  lemma FlightOn(h: Client, ch: Choice, x: Plan)
    requires Disciplined(h) && ClientOn(h, x) && Follows(h, ch, x) && h.state.FinishFlight?
    ensures Went(h, DoFinishFlight(h, ch), x)
  {
    hide Disciplined, Upto, Tracks, Grown, At, ClientReady;
    NothingMore(x);
    var g := DoFinishFlight(h, ch).0;
    assert h.p == x.p;
    if !x.p.resumed {
      assert Bound(h.state, false) == Bound(g.state, false);
    }
    Passes(h, g, x);
  }

  lemma NothingMore(x: Plan)
    ensures x.p.resumed ==> forall i :: 7 <= i < 15 ==> At(x, i) == []
  {
  }

  lemma EndsOn(h: Client, next: State, x: Plan)
    requires ClientOn(h, x)
    requires next == match h.state
                     case EnterEarlyData => if h.dtls then ReadHelloVerifyRequest else ReadingServerHello
                     case ProcessChangeCipherSpec => ReadServerFinished
                     case FinishClientHandshake => Done
                     case _ => h.state
    ensures Went(h, (h.(state := next), Ok), x)
  {
    hide Upto, Tracks, Grown;
    Passes(h, h.(state := next), x);
  }

  lemma TicketOn(h: Client, ch: Choice, x: Plan)
    requires Disciplined(h) && ClientOn(h, x) && ClientReady(h, x) && Follows(h, ch, x)
    requires h.state.ReadSessionTicket?
    ensures Went(h, DoReadSessionTicket(h, ch), x)
  {
    hide Disciplined, Upto, Tracks, Grown, ClientReady, Comes, Contents, TruthfulAt, Expect;
    Known(h);
    var g := DoReadSessionTicket(h, ch).0;
    if h.ticketExpected {
      if h.c.inbox != [] {
        Arrived(h, x);
      }
      var e := Expect(h, NewSessionTicket, ch, ProcessChangeCipherSpec).0;
      ExpectOn(h, NewSessionTicket, ch, ProcessChangeCipherSpec, x);
      SameLog(h, e, g, x);
    } else {
      Passes(h, g, x);
    }
  }

  lemma FinishedPlace(x: Plan)
    ensures At(x, Bound(ReadServerFinished, x.p.resumed)) == [Tag(Finished, true)]
    ensures Bound(if x.p.resumed then SendClientFinished else FinishClientHandshake, x.p.resumed) ==
            Bound(ReadServerFinished, x.p.resumed) + 1
  {
  }

  lemma ServerFinishedOn(h: Client, x: Plan)
    requires Disciplined(h) && ClientOn(h, x) && ClientReady(h, x) && h.state.ReadServerFinished?
    ensures Went(h, DoReadServerFinished(h), x)
  {
    hide Disciplined, Upto, Tracks, Grown, ClientReady, Comes, Contents, At, Rank, Bound;
    Known(h);
    var g := DoReadServerFinished(h).0;
    if h.c.inbox != [] {
      Arrived(h, x);
      FinishedPlace(x);
      Takes(h, g, x);
    } else {
      Passes(h, g, x);
    }
  }

  /** Where the server keeps to the flow and nothing around the client fails, no call of a client state function fails,
      and the client keeps to the flow as well. */
  lemma ClientStepOn(h: Client, ch: Choice, x: Plan)
    requires Disciplined(h) && ClientOn(h, x) && ClientReady(h, x) && Follows(h, ch, x)
    ensures Went(h, Step(h, ch), x)
  {
    hide Disciplined, ClientOn, ClientReady, Went, Expect, DoStartConnect, DoReadHelloVerifyRequest,
         DoReadServerHello, DoReadServerCertificate, DoReadCertificateStatus, DoVerifyServerCertificate,
         DoReadServerKeyExchange, DoReadCertificateRequest, DoSendClientCertificate, DoSendClientKeyExchange,
         DoSendCertificateVerify, DoSendFinished, DoFinishFlight, DoReadSessionTicket, DoReadServerFinished;
    match h.state
    case StartConnect => ConnectOn(h, ch, x);
    case EnterEarlyData => EndsOn(h, if h.dtls then ReadHelloVerifyRequest else ReadingServerHello, x);
    case ReadHelloVerifyRequest => HelloVerifyOn(h, ch, x);
    case ReadingServerHello => HelloOn(h, ch, x);
    case ReadServerCertificate => CertificateOn(h, ch, x);
    case ReadCertificateStatus => StatusOn(h, ch, x);
    case VerifyServerCertificate => VerifyOn(h, ch, x);
    case ReadServerKeyExchange => KeyExchangeOn(h, ch, x);
    case ReadCertificateRequest => RequestOn(h, ch, x);
    case ReadServerHelloDone => HelloDoneOn(h, ch, x);
    case SendClientCertificate => ClientCertificateOn(h, ch, x);
    case SendClientKeyExchange => ClientKeyOn(h, ch, x);
    case SendClientCertificateVerify => SignatureOn(h, ch, x);
    case SendClientFinished => FinishedOn(h, ch, x);
    case FinishFlight => FlightOn(h, ch, x);
    case ReadSessionTicket => TicketOn(h, ch, x);
    case ProcessChangeCipherSpec => EndsOn(h, ReadServerFinished, x);
    case ReadServerFinished => ServerFinishedOn(h, x);
    case FinishClientHandshake => EndsOn(h, Done, x);
    case Done => EndsOn(h, Done, x);
  }
}
