/** The server goes along the message flow: where the client does, nothing but its surroundings can make it fail. */
module TlsServerFlow {
  import opened Wrappers
  import opened TlsTranscript
  import opened TlsFlow
  import opened TlsServer

  predicate CertificateRead(s: State) {
    s.VerifyClientCertificate? || s.ReadClientKeyExchange? || s.ReadClientCertificateVerify?
  }

  ghost predicate Settled(h: Server, x: Plan) {
    && (!BeforeHello(h.state) ==> h.p == x.p)
    && (BeforeCertificate(h.state) ==> h.certRequest == Requests(x))
    && (h.state.SendServerKeyExchange? ==> h.sendsKeyExchange == Exchanges(x))
    && (CertificateRead(h.state) ==> h.peerKey == (Requests(x) && x.hasCert))
  }

  ghost predicate Tracks(h: Server, x: Plan) {
    TagsOf(h.c.log) == Upto(x, Bound(h.state, x.p.resumed))
  }

  /** The server is where the flow is when everything up to its state has been sent and consumed, and it knows of the
      plan what has been settled by then. */
  ghost predicate ServerOn(h: Server, x: Plan) {
    Tracks(h, x) && Settled(h, x)
  }

  /** What has arrived is what comes next. */
  ghost predicate ServerReady(h: Server, x: Plan) {
    h.c.inbox != [] ==>
      var m := h.c.inbox[0];
      !m.fromServer && Comes(x, Bound(h.state, x.p.resumed), m) && TruthfulAt(m, h.c.log) && Contents(x, m)
  }

  /** Nothing fails, and the server settles what the plan says. */
  predicate Follows(h: Server, ch: Choice, x: Plan) {
    && !ch.fails
    && (h.state.SelectParameters? ==> ch.p == x.p && (ch.flag && ch.p.certAuth && !ch.p.resumed <==> Requests(x)))
    && (h.state.SendServerCertificate? ==> (ch.flag || h.p.needsKeyExchange <==> Exchanges(x)))
  }

  ghost predicate Grown(h: Server, g: Server, x: Plan) {
    h.c.log <= g.c.log && forall i :: |h.c.log| <= i < |g.c.log| ==> Contents(x, g.c.log[i])
  }

  ghost predicate Went(h: Server, r: (Server, Wait), x: Plan) {
    !r.1.Error? && ServerOn(r.0, x) && Grown(h, r.0, x)
  }

  /** The places from that of one state to that of the next are empty. */
  lemma Passes(h: Server, g: Server, x: Plan)
    requires Tracks(h, x) && g.c.log == h.c.log
    requires Bound(h.state, x.p.resumed) <= Bound(g.state, x.p.resumed)
    requires forall i :: Bound(h.state, x.p.resumed) <= i < Bound(g.state, x.p.resumed) ==> At(x, i) == []
    ensures Tracks(g, x) && Grown(h, g, x)
  {
    hide Upto, At, Bound;
    UptoSame(x, Bound(h.state, x.p.resumed), Bound(g.state, x.p.resumed));
  }

  lemma Takes(h: Server, g: Server, x: Plan)
    requires Tracks(h, x) && ServerReady(h, x) && h.c.inbox != []
    requires g.c.log == h.c.log + [h.c.inbox[0]]
    requires var n := Rank(x.p.resumed, h.c.inbox[0]) + 1;
             n <= Bound(g.state, x.p.resumed) && forall i :: n <= i < Bound(g.state, x.p.resumed) ==> At(x, i) == []
    ensures Tracks(g, x) && Grown(h, g, x)
  {
    hide Upto, At, Bound, Rank;
    ComesAlong(x, Bound(h.state, x.p.resumed), h.c.log, h.c.inbox[0]);
    UptoSame(x, Rank(x.p.resumed, h.c.inbox[0]) + 1, Bound(g.state, x.p.resumed));
  }

  /** A message sent where it is due. */
  lemma MaybeSays(c: Conn, yes: bool, m: Msg, n: nat, x: Plan)
    requires TagsOf(c.log) == Upto(x, n) && At(x, n) == (if yes then [TagOf(m)] else []) && Contents(x, m)
    ensures var d := SendIf(c, yes, m);
            && TagsOf(d.log) == Upto(x, n + 1) && c.log <= d.log
            && forall i :: |c.log| <= i < |d.log| ==> Contents(x, d.log[i])
  {
    hide Upto, At, Contents;
    UptoNext(x, n);
    if yes {
      Along(x, n, c.log, m);
    }
  }

  lemma Known(h: Server)
    requires Disciplined(h)
    ensures Flags(h)
    ensures h.c.hash.None? ==> h.c.buffer == Some(h.c.log)
    ensures h.c.hash.Some? ==> h.c.hash.value == h.c.log && (h.c.buffer.Some? ==> h.c.buffer.value == h.c.log)
  {
  }

  /** What has arrived is what is due in this state, if anything is. */
  lemma Arrived(h: Server, x: Plan)
    requires ServerReady(h, x) && h.c.inbox != []
    ensures var n, m := Bound(h.state, x.p.resumed), h.c.inbox[0];
            && !m.fromServer && TruthfulAt(m, h.c.log) && Contents(x, m)
            && (At(x, n) != [] ==> At(x, n) == [TagOf(m)] && Rank(x.p.resumed, m) == n)
            && (At(x, n) == [] ==> Comes(x, n + 1, m))
  {
    hide At, Rank, Bound, Comes, Contents, TruthfulAt;
    Due(x, Bound(h.state, x.p.resumed), h.c.inbox[0]);
  }

  lemma MovesOn(h: Server, next: State, x: Plan)
    requires ServerOn(h, x)
    requires next == match h.state
                     case StartAccept => ReadClientHello
                     case ReadClientHello => SelectCertificate
                     case SelectCertificate => SelectParameters
                     case VerifyClientCertificate => ReadClientKeyExchange
                     case ReadingChangeCipherSpec => ProcessChangeCipherSpec
                     case ProcessChangeCipherSpec => ReadNextProto
                     case FinishServerHandshake => Done
                     case _ => h.state
    ensures ServerOn(h.(state := next), x) && Grown(h, h.(state := next), x) && ServerOn(h, x) && Grown(h, h, x)
  {
    hide Upto, Tracks, Grown;
    Passes(h, h.(state := next), x);
    Passes(h, h, x);
  }

  lemma HelloSeenOn(h: Server, ch: Choice, x: Plan)
    requires Disciplined(h) && ServerOn(h, x) && ServerReady(h, x) && Follows(h, ch, x)
    ensures h.state.ReadClientHello? ==> Went(h, DoReadClientHello(h, ch), x)
    ensures h.state.SelectCertificate? ==> Went(h, DoSelectCertificate(h, ch), x)
    ensures h.state.VerifyClientCertificate? ==> Went(h, DoVerifyClientCertificate(h, ch), x)
  {
    hide Disciplined, ServerReady, ServerOn, Grown, Comes, Contents, TruthfulAt;
    match h.state
    case ReadClientHello =>
      if h.c.inbox != [] {
        Arrived(h, x);
      }
      MovesOn(h, SelectCertificate, x);
    case SelectCertificate => MovesOn(h, SelectParameters, x);
    case VerifyClientCertificate => MovesOn(h, ReadClientKeyExchange, x);
    case _ =>
  }

  lemma ParametersOn(h: Server, ch: Choice, x: Plan)
    requires Disciplined(h) && ServerOn(h, x) && ServerReady(h, x) && Follows(h, ch, x) && h.state.SelectParameters?
    ensures Went(h, DoSelectParameters(h, ch), x)
  {
    hide Disciplined, Upto, Tracks, Grown, ServerReady, Comes, Contents, TruthfulAt;
    Known(h);
    var g := DoSelectParameters(h, ch).0;
    if h.c.inbox == [] || ch.blocks {
      Passes(h, g, x);
    } else {
      Arrived(h, x);
      Takes(h, g, x);
    }
  }

  lemma ServerHelloOn(h: Server, ch: Choice, x: Plan)
    requires ServerOn(h, x) && Follows(h, ch, x) && h.state.SendServerHello?
    ensures Went(h, DoSendServerHello(h, ch), x)
  {
    hide Upto, SendIf, Rank;
    var m := ServerSays(ServerHello, Hello(h.p));
    MaybeSays(h.c, true, m, 1, x);
    JustSends(h.c, m);
  }

  lemma JustSends(c: Conn, m: Msg)
    ensures SendIf(c, true, m) == Send(c, m)
  {
  }

  lemma CertificatesOn(h: Server, ch: Choice, x: Plan)
    requires Disciplined(h) && ServerOn(h, x) && Follows(h, ch, x) && h.state.SendServerCertificate?
    ensures Went(h, DoSendServerCertificate(h, ch), x)
  {
    hide Disciplined, Upto, SendIf, Rank;
    Known(h);
    var m, n := ServerSays(Certificate, Opaque(ch.body)), ServerSays(CertificateStatus, Opaque(ch.body));
    MaybeSays(h.c, h.p.certAuth, m, 2, x);
    MaybeSays(SendIf(h.c, h.p.certAuth, m), h.p.certAuth && h.p.status, n, 3, x);
  }

  lemma KeyExchangeOn(h: Server, ch: Choice, x: Plan)
    requires Disciplined(h) && ServerOn(h, x) && Follows(h, ch, x) && h.state.SendServerKeyExchange?
    ensures Went(h, DoSendServerKeyExchange(h, ch), x)
  {
    hide Disciplined, Upto, SendIf, Rank;
    Known(h);
    var m := ServerSays(ServerKeyExchange, Opaque(ch.body));
    MaybeSays(h.c, Exchanges(x), m, 4, x);
    JustSends(h.c, m);
    UptoNext(x, 4);
  }

  lemma HelloDoneOn(h: Server, ch: Choice, x: Plan)
    requires Disciplined(h) && ServerOn(h, x) && Follows(h, ch, x) && h.state.SendServerHelloDone?
    ensures Went(h, DoSendServerHelloDone(h, ch), x)
  {
    hide Disciplined, Upto, SendIf, Rank;
    Known(h);
    var m, n := ServerSays(CertificateRequest, Opaque(ch.body)), ServerSays(ServerHelloDone, Opaque(0));
    MaybeSays(h.c, h.certRequest, m, 5, x);
    MaybeSays(SendIf(h.c, h.certRequest, m), true, n, 6, x);
    JustSends(SendIf(h.c, h.certRequest, m), n);
  }

  /** One of the states that read one message of the client's, where it is due. */
  lemma ExpectOn(h: Server, kind: Kind, ch: Choice, pending: Wait, next: State, x: Plan)
    requires Tracks(h, x) && ServerReady(h, x) && !ch.fails && !pending.Error?
    requires h.c.inbox != [] ==> h.c.inbox[0].kind == kind
    requires Bound(next, x.p.resumed) == Rank(x.p.resumed, Msg(kind, false, Opaque(0))) + 1
    ensures var (g, w) := Expect(h, kind, ch, pending, next);
            && !w.Error? && Tracks(g, x) && Grown(h, g, x)
            && (w.Ok? <==> h.c.inbox != [] && (!ch.blocks || pending.Ok?))
            && g == h.(c := g.c, state := if w.Ok? then next else h.state)
  {
    hide Upto, At, Tracks, Grown, Comes, Contents, TruthfulAt;
    var (g, w) := Expect(h, kind, ch, pending, next);
    if w.Ok? {
      Takes(h, g, x);
    } else {
      Passes(h, g, x);
    }
  }

  lemma SameLog(h: Server, e: Server, g: Server, x: Plan)
    requires Tracks(e, x) && Grown(h, e, x) && g.c.log == e.c.log && g.state == e.state
    ensures Tracks(g, x) && Grown(h, g, x)
  {
  }

  lemma CertificateOn(h: Server, ch: Choice, x: Plan)
    requires Disciplined(h) && ServerOn(h, x) && ServerReady(h, x) && Follows(h, ch, x)
    requires h.state.ReadClientCertificate?
    ensures Went(h, DoReadClientCertificate(h, ch), x)
  {
    hide Disciplined, Upto, Tracks, Grown, ServerReady, Comes, TruthfulAt, Expect;
    Known(h);
    var g := DoReadClientCertificate(h, ch).0;
    if h.certRequest {
      if h.c.inbox != [] {
        Arrived(h, x);
      }
      ExpectOn(h, Certificate, ch, Ok, VerifyClientCertificate, x);
      SameLog(h, Expect(h, Certificate, ch, Ok, VerifyClientCertificate).0, g, x);
    } else {
      Passes(h, g, x);
    }
  }

  lemma ClientKeyOn(h: Server, ch: Choice, x: Plan)
    requires Disciplined(h) && ServerOn(h, x) && ServerReady(h, x) && Follows(h, ch, x)
    requires h.state.ReadClientKeyExchange?
    ensures Went(h, Expect(h, ClientKeyExchange, ch, PrivateKeyOperation, ReadClientCertificateVerify), x)
  {
    hide Disciplined, Upto, Tracks, Grown, ServerReady, Comes, TruthfulAt, Contents, Expect;
    Known(h);
    if h.c.inbox != [] {
      Arrived(h, x);
    }
    ExpectOn(h, ClientKeyExchange, ch, PrivateKeyOperation, ReadClientCertificateVerify, x);
  }

  lemma SignatureOn(h: Server, ch: Choice, x: Plan)
    requires Disciplined(h) && ServerOn(h, x) && ServerReady(h, x) && Follows(h, ch, x)
    requires h.state.ReadClientCertificateVerify?
    ensures Went(h, DoReadClientCertificateVerify(h, ch), x)
  {
    hide Disciplined, Upto, Tracks, Grown, ServerReady, Comes, Contents;
    Known(h);
    var g := DoReadClientCertificateVerify(h, ch).0;
    if h.peerKey && h.c.inbox != [] {
      Arrived(h, x);
      Takes(h, g, x);
    } else {
      Passes(h, g, x);
    }
  }

  lemma NextProtoOn(h: Server, ch: Choice, x: Plan)
    requires ServerOn(h, x) && ServerReady(h, x) && Follows(h, ch, x) && h.state.ReadNextProto?
    ensures Went(h, DoReadNextProto(h, ch), x)
  {
    hide Upto, Tracks, Grown, ServerReady, Comes, Contents, TruthfulAt, Expect;
    if h.p.nextProto {
      if h.c.inbox != [] {
        Arrived(h, x);
      }
      ExpectOn(h, NextProto, ch, Ok, ReadChannelId, x);
    } else {
      Passes(h, DoReadNextProto(h, ch).0, x);
    }
  }

  lemma ChannelIdOn(h: Server, ch: Choice, x: Plan)
    requires ServerOn(h, x) && ServerReady(h, x) && Follows(h, ch, x) && h.state.ReadChannelId?
    ensures Went(h, DoReadChannelId(h, ch), x)
  {
    hide Upto, Tracks, Grown, ServerReady, Comes, Contents, TruthfulAt, Expect;
    if h.p.channelId {
      if h.c.inbox != [] {
        Arrived(h, x);
      }
      ExpectOn(h, ChannelId, ch, Ok, ReadClientFinished, x);
    } else {
      Passes(h, DoReadChannelId(h, ch).0, x);
    }
  }

  lemma FinishedPlace(x: Plan)
    ensures At(x, Bound(ReadClientFinished, x.p.resumed)) == [Tag(Finished, false)]
    ensures var n := Bound(if x.p.resumed then FinishServerHandshake else SendServerFinished, x.p.resumed);
            Bound(ReadClientFinished, x.p.resumed) < n
            && forall i :: Bound(ReadClientFinished, x.p.resumed) < i < n ==> At(x, i) == []
  {
  }

  lemma ClientFinishedOn(h: Server, ch: Choice, x: Plan)
    requires Disciplined(h) && ServerOn(h, x) && ServerReady(h, x) && Follows(h, ch, x)
    requires h.state.ReadClientFinished?
    ensures Went(h, DoReadClientFinished(h, ch), x)
  {
    hide Disciplined, Upto, Tracks, Grown, ServerReady, Comes, Contents, At, Rank, Bound;
    Known(h);
    var g := DoReadClientFinished(h, ch).0;
    if h.c.inbox != [] {
      Arrived(h, x);
      FinishedPlace(x);
      Takes(h, g, x);
    } else {
      Passes(h, g, x);
    }
  }

  lemma LastPlaces(x: Plan, ticket: Msg, m: Msg)
    requires ticket.kind.NewSessionTicket? && m.kind.Finished? && ticket.fromServer && m.fromServer
    ensures Contents(x, ticket) && Contents(x, m)
    ensures var n := Bound(SendServerFinished, x.p.resumed);
            && At(x, n) == (if x.p.ticket then [TagOf(ticket)] else []) && At(x, n + 1) == [TagOf(m)]
            && Bound(if x.p.resumed then ReadingChangeCipherSpec else FinishServerHandshake, x.p.resumed) == n + 2
  {
  }

  lemma FinishedOn(h: Server, ch: Choice, x: Plan)
    requires ServerOn(h, x) && Follows(h, ch, x) && h.state.SendServerFinished?
    ensures Went(h, DoSendServerFinished(h, ch), x)
  {
    hide Upto, SendIf, Send, At, Contents, Bound;
    var n := Bound(SendServerFinished, x.p.resumed);
    var ticket := ServerSays(NewSessionTicket, Opaque(ch.body));
    var c1 := SendIf(h.c, h.p.ticket, ticket);
    var m := ServerSays(Finished, if c1.hash.Some? then Mac(true, c1.hash.value) else Opaque(0));
    LastPlaces(x, ticket, m);
    MaybeSays(h.c, h.p.ticket, ticket, n, x);
    MaybeSays(c1, true, m, n + 1, x);
    JustSends(c1, m);
  }

  /** Where the client keeps to the flow and nothing around the server fails, no call of a server state function fails,
      and the server keeps to the flow as well. */
  lemma ServerStepOn(h: Server, ch: Choice, x: Plan)
    requires Disciplined(h) && ServerOn(h, x) && ServerReady(h, x) && Follows(h, ch, x)
    ensures Went(h, Step(h, ch), x)
  {
    hide Disciplined, ServerOn, ServerReady, Grown, Expect, DoReadClientHello, DoSelectCertificate,
         DoSelectParameters, DoSendServerHello, DoSendServerCertificate, DoSendServerKeyExchange,
         DoSendServerHelloDone, DoReadClientCertificate, DoVerifyClientCertificate, DoReadClientCertificateVerify,
         DoReadNextProto, DoReadChannelId, DoReadClientFinished, DoSendServerFinished;
    HelloSeenOn(h, ch, x);
    match h.state
    case StartAccept => MovesOn(h, ReadClientHello, x);
    case SelectParameters => ParametersOn(h, ch, x);
    case SendServerHello => ServerHelloOn(h, ch, x);
    case SendServerCertificate => CertificatesOn(h, ch, x);
    case SendServerKeyExchange => KeyExchangeOn(h, ch, x);
    case SendServerHelloDone => HelloDoneOn(h, ch, x);
    case ReadClientCertificate => CertificateOn(h, ch, x);
    case ReadClientKeyExchange => ClientKeyOn(h, ch, x);
    case ReadClientCertificateVerify => SignatureOn(h, ch, x);
    case ReadingChangeCipherSpec => MovesOn(h, ProcessChangeCipherSpec, x);
    case ProcessChangeCipherSpec => MovesOn(h, ReadNextProto, x);
    case ReadNextProto => NextProtoOn(h, ch, x);
    case ReadChannelId => ChannelIdOn(h, ch, x);
    case ReadClientFinished => ClientFinishedOn(h, ch, x);
    case SendServerFinished => FinishedOn(h, ch, x);
    case FinishServerHandshake => MovesOn(h, Done, x);
    case Done => MovesOn(h, Done, x);
    case _ =>
  }
}
