/** The TLS 1.2 client handshake (handshake_client.cc). */
module TlsClient {
  import opened Wrappers
  import opened TlsTranscript

  datatype State =
    | StartConnect | EnterEarlyData | ReadHelloVerifyRequest | ReadingServerHello | ReadServerCertificate
    | ReadCertificateStatus | VerifyServerCertificate | ReadServerKeyExchange | ReadCertificateRequest
    | ReadServerHelloDone | SendClientCertificate | SendClientKeyExchange | SendClientCertificateVerify
    | SendClientFinished | FinishFlight | ReadSessionTicket | ProcessChangeCipherSpec | ReadServerFinished
    | FinishClientHandshake | Done

  datatype Client = Client(state: State, c: Conn, dtls: bool, p: Params, certRequest: bool, hasCert: bool,
                           ticketExpected: bool)

  function Start(dtls: bool): Client {
    Client(StartConnect, FRESH, dtls, NOTHING, false, false, false)
  }

  /** One message of the kind a state reads, or a wait or an error; `next` is the state after it. */
  function Expect(h: Client, kind: Kind, ch: Choice, next: State): (Client, Wait) {
    if h.c.inbox == [] then (h, ReadMessage)
    else if h.c.inbox[0].kind != kind || ch.fails then (h, Error)
    else (h.(c := Read(h.c), state := next), Ok)
  }

  function DoReadHelloVerifyRequest(h: Client, ch: Choice): (Client, Wait) {
    if h.c.inbox == [] then (h, ReadMessage)
    else if h.c.inbox[0].kind != HelloVerifyRequest then (h.(state := ReadingServerHello), Ok)
    else if ch.fails then (h, Error)
    else
      // The transcript starts over, with the second ClientHello.
      (h.(c := Send(Reset(Consume(h.c)), ClientSays(ClientHello, Opaque(ch.body))), state := ReadingServerHello), Flush)
  }

  function DoReadServerHello(h: Client, ch: Choice): (Client, Wait) {
    if h.c.inbox == [] then (h, Wait.ReadServerHello)
    else
      var m := h.c.inbox[0];
      if m.kind != ServerHello || !m.body.Hello? || ch.fails || h.c.buffer.None? then (h, Error)
      else
        var p := m.body.p;
        var hashed := Update(InitHash(h.c), m);
        var kept := if p.resumed || !p.certAuth then FreeBuffer(hashed) else hashed;
        (h.(c := Consume(kept), p := p, ticketExpected := p.ticket,
            state := if p.resumed then ReadSessionTicket else ReadServerCertificate), Ok)
  }

  function DoReadCertificateRequest(h: Client, ch: Choice): (Client, Wait) {
    if !h.p.certAuth then (h.(state := ReadServerHelloDone), Ok)
    else if h.c.inbox == [] then (h, ReadMessage)
    else if h.c.inbox[0].kind == ServerHelloDone then (h.(c := FreeBuffer(h.c), state := ReadServerHelloDone), Ok)
    else
      var (g, wait) := Expect(h, CertificateRequest, ch, ReadServerHelloDone);
      (if wait.Ok? then g.(certRequest := true) else g, wait)
  }

  function DoSendClientCertificate(h: Client, ch: Choice): (Client, Wait) {
    if !h.certRequest then (h.(state := SendClientKeyExchange), Ok)
    else if ch.blocks then (h, X509Lookup)
    else if ch.fails then (h, Error)
    else
      var c := if ch.flag then h.c else FreeBuffer(h.c);
      (h.(c := Send(c, ClientSays(Certificate, Opaque(if ch.flag then ch.body + 1 else 0))), hasCert := ch.flag,
          state := SendClientKeyExchange), Ok)
  }

  function DoSendCertificateVerify(h: Client, ch: Choice): (Client, Wait) {
    if !h.certRequest || !h.hasCert then (h.(state := SendClientFinished), Ok)
    else if ch.fails || h.c.buffer.None? then (h, Error)
    else if ch.blocks then (h, PrivateKeyOperation)
    else
      (h.(c := FreeBuffer(Send(h.c, ClientSays(CertificateVerify, Signed(h.c.buffer.value)))),
          state := SendClientFinished), Ok)
  }

  function DoSendFinished(h: Client, ch: Choice): (Client, Wait) {
    // Channel ID is resolved first, before any non-idempotent operation.
    if h.p.channelId && ch.blocks then (h, ChannelIdLookup)
    else if ch.fails then (h, Error)
    else
      var c1 := SendIf(h.c, h.p.nextProto, ClientSays(NextProto, Opaque(ch.body)));
      var c2 := SendIf(c1, h.p.channelId, ClientSays(ChannelId, Opaque(ch.body)));
      (h.(c := SendFinished(c2, false), state := FinishFlight), Flush)
  }

  function DoReadSessionTicket(h: Client, ch: Choice): (Client, Wait) {
    if !h.ticketExpected then (h.(state := ProcessChangeCipherSpec), Wait.ReadChangeCipherSpec)
    else
      var (g, wait) := Expect(h, NewSessionTicket, ch, ProcessChangeCipherSpec);
      if !wait.Ok? then (g, wait)
      else
        // An empty ticket: the server changed its mind.
        (g.(ticketExpected := h.c.inbox[0].body != Opaque(0)), Wait.ReadChangeCipherSpec)
  }

  function DoReadServerFinished(h: Client): (Client, Wait) {
    if h.c.inbox == [] then (h, ReadMessage)
    else
      match CheckFinished(h.c, true)
      case None => (h, Error)
      case Some(c) => (h.(c := c, state := if h.p.resumed then SendClientFinished else FinishClientHandshake), Ok)
  }

  function DoStartConnect(h: Client, ch: Choice): (Client, Wait) {
    if ch.fails then (h, Error)
    else (h.(c := Send(h.c, ClientSays(ClientHello, Opaque(ch.body))), state := EnterEarlyData), Flush)
  }

  function DoReadServerCertificate(h: Client, ch: Choice): (Client, Wait) {
    if !h.p.certAuth then (h.(state := ReadCertificateStatus), Ok)
    else Expect(h, Certificate, ch, ReadCertificateStatus)
  }

  function DoReadCertificateStatus(h: Client, ch: Choice): (Client, Wait) {
    // A server may negotiate the status and then change its mind.
    if !h.p.status || (h.c.inbox != [] && h.c.inbox[0].kind != CertificateStatus) then
      (h.(state := VerifyServerCertificate), Ok)
    else Expect(h, CertificateStatus, ch, VerifyServerCertificate)
  }

  function DoVerifyServerCertificate(h: Client, ch: Choice): (Client, Wait) {
    if !h.p.certAuth then (h.(state := ReadServerKeyExchange), Ok)
    else if ch.fails then (h, Error)
    else if ch.blocks then (h, CertificateVerifyPending)
    else (h.(state := ReadServerKeyExchange), Ok)
  }

  function DoReadServerKeyExchange(h: Client, ch: Choice): (Client, Wait) {
    if h.c.inbox != [] && h.c.inbox[0].kind != ServerKeyExchange then
      (if h.p.needsKeyExchange then (h, Error) else (h.(state := ReadCertificateRequest), Ok))
    else Expect(h, ServerKeyExchange, ch, ReadCertificateRequest)
  }

  function DoSendClientKeyExchange(h: Client, ch: Choice): (Client, Wait) {
    if ch.fails then (h, Error)
    else (h.(c := Send(h.c, ClientSays(ClientKeyExchange, Opaque(ch.body))), state := SendClientCertificateVerify), Ok)
  }

  function DoFinishFlight(h: Client, ch: Choice): (Client, Wait) {
    if h.p.resumed then (h.(state := FinishClientHandshake), Ok)
    else if ch.fails then (h, Error)
    else (h.(state := ReadSessionTicket), if ch.flag then EarlyReturn else Ok)
  }

  /** The state function of the current state. */
  function Step(h: Client, ch: Choice): (Client, Wait) {
    match h.state
    case StartConnect => DoStartConnect(h, ch)
    case EnterEarlyData => (h.(state := if h.dtls then ReadHelloVerifyRequest else ReadingServerHello), Ok)
    case ReadHelloVerifyRequest => DoReadHelloVerifyRequest(h, ch)
    case ReadingServerHello => DoReadServerHello(h, ch)
    case ReadServerCertificate => DoReadServerCertificate(h, ch)
    case ReadCertificateStatus => DoReadCertificateStatus(h, ch)
    case VerifyServerCertificate => DoVerifyServerCertificate(h, ch)
    case ReadServerKeyExchange => DoReadServerKeyExchange(h, ch)
    case ReadCertificateRequest => DoReadCertificateRequest(h, ch)
    case ReadServerHelloDone => Expect(h, ServerHelloDone, ch, SendClientCertificate)
    case SendClientCertificate => DoSendClientCertificate(h, ch)
    case SendClientKeyExchange => DoSendClientKeyExchange(h, ch)
    case SendClientCertificateVerify => DoSendCertificateVerify(h, ch)
    case SendClientFinished => DoSendFinished(h, ch)
    case FinishFlight => DoFinishFlight(h, ch)
    case ReadSessionTicket => DoReadSessionTicket(h, ch)
    case ProcessChangeCipherSpec => if ch.fails then (h, Error) else (h.(state := ReadServerFinished), Ok)
    case ReadServerFinished => DoReadServerFinished(h)
    case FinishClientHandshake => if ch.fails then (h, Error) else (h.(state := Done), Ok)
    case Done => (h, Ok)
  }

  // What holds in every state ------------------------------------------------------------------------------------

  /** The place in the handshake that everything sent and consumed so far comes before. */
  function Bound(s: State, resumed: bool): nat {
    match s
    case StartConnect => 0
    case EnterEarlyData => 1
    case ReadHelloVerifyRequest => 1
    case ReadingServerHello => 1
    case ReadServerCertificate => 2
    case ReadCertificateStatus => 3
    case VerifyServerCertificate => 4
    case ReadServerKeyExchange => 4
    case ReadCertificateRequest => 5
    case ReadServerHelloDone => 6
    case SendClientCertificate => 7
    case SendClientKeyExchange => 8
    case SendClientCertificateVerify => 9
    case SendClientFinished => if resumed then 4 else 10
    case FinishFlight => if resumed then 7 else 13
    case ReadSessionTicket => if resumed then 2 else 13
    case ProcessChangeCipherSpec => if resumed then 3 else 14
    case ReadServerFinished => if resumed then 3 else 14
    case FinishClientHandshake => 15
    case Done => 15
  }

  predicate BeforeHello(s: State) {
    s.StartConnect? || s.EnterEarlyData? || s.ReadHelloVerifyRequest? || s.ReadingServerHello?
  }

  /** States of the full handshake in which a CertificateVerify may still be to come. */
  predicate FullFlight(s: State) {
    s.ReadServerCertificate? || s.ReadCertificateStatus? || s.VerifyServerCertificate? || s.ReadServerKeyExchange?
    || s.ReadCertificateRequest?
  }

  predicate AwaitsVerify(s: State) {
    s.ReadServerHelloDone? || s.SendClientCertificate? || s.SendClientKeyExchange? || s.SendClientCertificateVerify?
  }

  /** Exactly once, in order, with the buffer there as long as a CertificateVerify may need it. */
  ghost predicate Disciplined(h: Client) {
    && Faithful(h.c)
    && InOrder(h.c.log, h.p.resumed, Bound(h.state, h.p.resumed))
    && (forall i :: 0 <= i < |h.c.inbox| ==> h.c.inbox[i].fromServer)
    && Flags(h)
  }

  ghost predicate Flags(h: Client) {
    && (h.c.hash.None? <==> BeforeHello(h.state))
    && (BeforeHello(h.state) ==> !h.p.resumed && !h.certRequest)
    && (FullFlight(h.state) || AwaitsVerify(h.state) ==> !h.p.resumed)
    && (FullFlight(h.state) ==> !h.certRequest && (h.p.certAuth ==> h.c.buffer.Some?))
    && (NeedsBuffer(h) ==> h.c.buffer.Some?)
  }

  predicate NeedsBuffer(h: Client) {
    && AwaitsVerify(h.state) && h.certRequest
    && (h.state.ReadServerHelloDone? || h.state.SendClientCertificate? || h.hasCert)
  }

  lemma StartDisciplined(dtls: bool)
    ensures Disciplined(Start(dtls))
  {
  }

  ghost predicate Kept(r: (Client, Wait)) {
    r.1.Error? || Disciplined(r.0)
  }

  /** Going on without a message. */
  lemma MoveKeeps(h: Client, next: State)
    requires Disciplined(h) && Flags(h.(state := next)) && Bound(h.state, h.p.resumed) <= Bound(next, h.p.resumed)
    ensures Disciplined(h.(state := next))
  {
    OrderLater(h.c.log, h.p.resumed, Bound(h.state, h.p.resumed), Bound(next, h.p.resumed));
  }

  lemma ReadOneKeeps(h: Client, next: State)
    requires Disciplined(h) && !BeforeHello(h.state) && h.c.inbox != []
    requires Flags(h.(state := next)) && !BeforeHello(next)
    requires Bound(h.state, h.p.resumed) <= Rank(h.p.resumed, h.c.inbox[0]) < Bound(next, h.p.resumed)
    ensures Disciplined(h.(c := Read(h.c), state := next))
  {
    ReadKeeps(h.c, h.p.resumed, Bound(h.state, h.p.resumed), Bound(next, h.p.resumed));
    hide Faithful, InOrder;
  }

  lemma ExpectKeeps(h: Client, kind: Kind, ch: Choice, next: State)
    requires Disciplined(h) && !BeforeHello(h.state)
    requires Flags(h.(state := next)) && !BeforeHello(next)
    requires var m := Msg(kind, true, Opaque(0));
             Bound(h.state, h.p.resumed) <= Rank(h.p.resumed, m) < Bound(next, h.p.resumed)
    ensures Kept(Expect(h, kind, ch, next))
  {
    if Expect(h, kind, ch, next).1.Ok? {
      assert Rank(h.p.resumed, h.c.inbox[0]) == Rank(h.p.resumed, Msg(kind, true, Opaque(0)));
      ReadOneKeeps(h, next);
    }
  }

  lemma FreeKeeps(h: Client, next: State)
    requires Disciplined(h) && h.c.hash.Some? && Flags(h.(c := FreeBuffer(h.c), state := next))
    requires Bound(h.state, h.p.resumed) <= Bound(next, h.p.resumed)
    ensures Disciplined(h.(c := FreeBuffer(h.c), state := next))
  {
    OrderLater(h.c.log, h.p.resumed, Bound(h.state, h.p.resumed), Bound(next, h.p.resumed));
  }

  lemma SendOneKeeps(h: Client, m: Msg, next: State)
    requires Disciplined(h) && Flags(h.(state := next)) && (BeforeHello(h.state) <==> BeforeHello(next))
    requires Bound(h.state, h.p.resumed) <= Rank(h.p.resumed, m) < Bound(next, h.p.resumed)
    ensures Disciplined(h.(c := Send(h.c, m), state := next))
  {
    SendKeeps(h.c, m, h.p.resumed, Bound(h.state, h.p.resumed), Bound(next, h.p.resumed));
    hide Faithful, InOrder;
  }

  lemma HelloVerifyKeeps(h: Client, ch: Choice)
    requires Disciplined(h) && h.state.ReadHelloVerifyRequest?
    ensures Kept(DoReadHelloVerifyRequest(h, ch))
  {
    if h.c.inbox != [] && h.c.inbox[0].kind == HelloVerifyRequest {
      var m := ClientSays(ClientHello, Opaque(ch.body));
      SendKeeps(Reset(Consume(h.c)), m, false, 0, 1);
      hide Faithful, InOrder;
    }
  }

  lemma HelloRank(resumed: bool, m: Msg)
    requires m.kind == ServerHello
    ensures Rank(resumed, m) == 1
  {
  }

  lemma ServerHelloKeeps(h: Client, ch: Choice)
    requires Disciplined(h) && h.state.ReadingServerHello?
    ensures Kept(DoReadServerHello(h, ch))
  {
    hide InOrder, Rank;
    if !DoReadServerHello(h, ch).1.Error? && h.c.inbox != [] {
      var m := h.c.inbox[0];
      var p := m.body.p;
      OrderBeforeHello(h.c.log, p.resumed);
      HelloRank(p.resumed, m);
      ReadKeeps(InitHash(h.c), p.resumed, 1, 2);
    }
  }

  lemma ReadKeepsAll(h: Client, ch: Choice)
    requires Disciplined(h) && FullFlight(h.state) && !h.state.ReadCertificateRequest?
    ensures Kept(Step(h, ch))
  {
    hide Faithful, InOrder;
    match h.state
    case ReadServerCertificate =>
      MoveKeeps(h, ReadCertificateStatus);
      ExpectKeeps(h, Certificate, ch, ReadCertificateStatus);
    case ReadCertificateStatus =>
      MoveKeeps(h, VerifyServerCertificate);
      ExpectKeeps(h, CertificateStatus, ch, VerifyServerCertificate);
    case VerifyServerCertificate =>
      MoveKeeps(h, ReadServerKeyExchange);
    case ReadServerKeyExchange =>
      MoveKeeps(h, ReadCertificateRequest);
      ExpectKeeps(h, ServerKeyExchange, ch, ReadCertificateRequest);
  }

  lemma CertificateRequestKeeps(h: Client, ch: Choice)
    requires Disciplined(h) && h.state.ReadCertificateRequest?
    ensures Kept(DoReadCertificateRequest(h, ch))
  {
    hide Faithful, InOrder;
    MoveKeeps(h, ReadServerHelloDone);
    FreeKeeps(h, ReadServerHelloDone);
    ExpectKeeps(h, CertificateRequest, ch, ReadServerHelloDone);
    ExpectKeepsBuffer(h, CertificateRequest, ch, ReadServerHelloDone);
  }

  lemma ExpectKeepsBuffer(h: Client, kind: Kind, ch: Choice, next: State)
    ensures Expect(h, kind, ch, next).0.c.buffer.Some? <==> h.c.buffer.Some?
  {
  }

  lemma ClientCertificateKeeps(h: Client, ch: Choice)
    requires Disciplined(h) && h.state.SendClientCertificate?
    ensures Kept(DoSendClientCertificate(h, ch))
  {
    var m := ClientSays(Certificate, Opaque(if ch.flag then ch.body + 1 else 0));
    var g := h.(hasCert := ch.flag);
    MoveKeeps(h, SendClientKeyExchange);
    if h.certRequest {
      if ch.flag {
        SendOneKeeps(g, m, SendClientKeyExchange);
      } else {
        SendKeeps(FreeBuffer(h.c), m, false, 7, 8);
        hide Faithful, InOrder;
      }
    }
  }

  lemma CertificateVerifyKeeps(h: Client, ch: Choice)
    requires Disciplined(h) && h.state.SendClientCertificateVerify?
    ensures Kept(DoSendCertificateVerify(h, ch))
  {
    MoveKeeps(h, SendClientFinished);
    if h.c.buffer.Some? {
      SendKeeps(h.c, ClientSays(CertificateVerify, Signed(h.c.buffer.value)), false, 9, 10);
      hide InOrder;
    }
  }

  lemma SendFinishedKeeps(h: Client, ch: Choice)
    requires Disciplined(h) && h.state.SendClientFinished?
    ensures Kept(DoSendFinished(h, ch))
  {
    hide Faithful, InOrder, Send, Rank;
    var r := h.p.resumed;
    var b := Bound(SendClientFinished, r);
    var np, cid := ClientSays(NextProto, Opaque(ch.body)), ClientSays(ChannelId, Opaque(ch.body));
    var c1 := SendIf(h.c, h.p.nextProto, np);
    var c2 := SendIf(c1, h.p.channelId, cid);
    FinishRanks(r, np, cid, ClientSays(Finished, Opaque(0)));
    SendIfKeeps(h.c, h.p.nextProto, np, r, b);
    SendIfKeeps(c1, h.p.channelId, cid, r, b + 1);
    FinishRanks(r, np, cid, ClientSays(Finished, Mac(false, c2.hash.value)));
    SendIfKeeps(c2, true, ClientSays(Finished, Mac(false, c2.hash.value)), r, b + 2);
  }

  lemma FinishRanks(resumed: bool, np: Msg, cid: Msg, finished: Msg)
    requires np.kind == NextProto && cid.kind == ChannelId && finished.kind == Finished && !finished.fromServer
    ensures var b := Bound(SendClientFinished, resumed);
            Rank(resumed, np) == b && Rank(resumed, cid) == b + 1 && Rank(resumed, finished) == b + 2
            && Bound(FinishFlight, resumed) == b + 3
  {
  }

  lemma SessionTicketKeeps(h: Client, ch: Choice)
    requires Disciplined(h) && h.state.ReadSessionTicket?
    ensures Kept(DoReadSessionTicket(h, ch))
  {
    hide Faithful, InOrder;
    MoveKeeps(h, ProcessChangeCipherSpec);
    ExpectKeeps(h, NewSessionTicket, ch, ProcessChangeCipherSpec);
  }

  lemma ServerFinishedKeeps(h: Client)
    requires Disciplined(h) && h.state.ReadServerFinished?
    ensures Kept(DoReadServerFinished(h))
  {
    if h.c.inbox != [] && CheckFinished(h.c, true).Some? {
      ReadOneKeeps(h, if h.p.resumed then SendClientFinished else FinishClientHandshake);
    }
  }

  lemma SimpleKeeps(h: Client, ch: Choice)
    requires Disciplined(h)
    ensures h.state.StartConnect? ==> Kept(DoStartConnect(h, ch))
    ensures h.state.SendClientKeyExchange? ==> Kept(DoSendClientKeyExchange(h, ch))
    ensures h.state.FinishFlight? ==> Kept(DoFinishFlight(h, ch))
    ensures h.state.ReadServerHelloDone? ==> Kept(Expect(h, ServerHelloDone, ch, SendClientCertificate))
  {
    hide Faithful, InOrder, Expect, Send;
    match h.state
    case StartConnect => SendOneKeeps(h, ClientSays(ClientHello, Opaque(ch.body)), EnterEarlyData);
    case SendClientKeyExchange =>
      SendOneKeeps(h, ClientSays(ClientKeyExchange, Opaque(ch.body)), SendClientCertificateVerify);
    case FinishFlight => MoveKeeps(h, if h.p.resumed then FinishClientHandshake else ReadSessionTicket);
    case ReadServerHelloDone => ExpectKeeps(h, ServerHelloDone, ch, SendClientCertificate);
    case _ => {
    }
  }

  lemma PassingKeeps(h: Client)
    requires Disciplined(h)
    ensures h.state.EnterEarlyData? ==>
              Disciplined(h.(state := ReadHelloVerifyRequest)) && Disciplined(h.(state := ReadingServerHello))
    ensures h.state.ProcessChangeCipherSpec? ==> Disciplined(h.(state := ReadServerFinished))
    ensures h.state.FinishClientHandshake? ==> Disciplined(h.(state := Done))
  {
    hide Faithful, InOrder;
    match h.state
    case EnterEarlyData => {
      MoveKeeps(h, ReadHelloVerifyRequest);
      MoveKeeps(h, ReadingServerHello);
    }
    case ProcessChangeCipherSpec => MoveKeeps(h, ReadServerFinished);
    case FinishClientHandshake => MoveKeeps(h, Done);
    case _ => {
    }
  }

  /** Whatever arrives, whatever blocks, and however often a state is entered again, one call of a state function keeps
      the transcript exactly the messages sent and consumed, in handshake order. */
  lemma StepDisciplined(h: Client, ch: Choice)
    requires Disciplined(h)
    ensures !Step(h, ch).1.Error? ==> Disciplined(Step(h, ch).0)
  {
    hide Disciplined, Expect, DoStartConnect, DoReadHelloVerifyRequest, DoReadServerHello, DoReadServerCertificate,
         DoReadCertificateStatus, DoVerifyServerCertificate, DoReadServerKeyExchange, DoReadCertificateRequest,
         DoSendClientCertificate, DoSendClientKeyExchange, DoSendCertificateVerify, DoSendFinished, DoFinishFlight,
         DoReadSessionTicket, DoReadServerFinished;
    SimpleKeeps(h, ch);
    PassingKeeps(h);
    match h.state
    case ReadHelloVerifyRequest => HelloVerifyKeeps(h, ch);
    case ReadingServerHello => ServerHelloKeeps(h, ch);
    case ReadServerCertificate => ReadKeepsAll(h, ch);
    case ReadCertificateStatus => ReadKeepsAll(h, ch);
    case VerifyServerCertificate => ReadKeepsAll(h, ch);
    case ReadServerKeyExchange => ReadKeepsAll(h, ch);
    case ReadCertificateRequest => CertificateRequestKeeps(h, ch);
    case SendClientCertificate => ClientCertificateKeeps(h, ch);
    case SendClientCertificateVerify => CertificateVerifyKeeps(h, ch);
    case SendClientFinished => SendFinishedKeeps(h, ch);
    case ReadSessionTicket => SessionTicketKeeps(h, ch);
    case ReadServerFinished => ServerFinishedKeeps(h);
    case _ => {
    }
  }

  /** A CertificateVerify, when one is due, is over exactly the transcript so far: the buffer has not been released. */
  lemma VerifySignsTranscript(h: Client, ch: Choice)
    requires Disciplined(h) && h.state.SendClientCertificateVerify? && h.certRequest && h.hasCert
    ensures !ch.fails ==> !Step(h, ch).1.Error?
    ensures Step(h, ch).1.Ok? ==>
              Step(h, ch).0.c.outbox == h.c.outbox + [ClientSays(CertificateVerify, Signed(h.c.log))]
  {
  }
}
