/** The TLS 1.2 server handshake (handshake_server.cc). */
module TlsServer {
  import opened Wrappers
  import opened TlsTranscript

  datatype State =
    | StartAccept | ReadClientHello | SelectCertificate | SelectParameters | SendServerHello | SendServerCertificate
    | SendServerKeyExchange | SendServerHelloDone | ReadClientCertificate | VerifyClientCertificate
    | ReadClientKeyExchange | ReadClientCertificateVerify | ReadingChangeCipherSpec | ProcessChangeCipherSpec
    | ReadNextProto | ReadChannelId | ReadClientFinished | SendServerFinished | FinishServerHandshake | Done

  /** `sendsKeyExchange` says that server parameters have been prepared, `peerKey` that the client has a certificate. */
  datatype Server = Server(state: State, c: Conn, p: Params, certRequest: bool, sendsKeyExchange: bool, peerKey: bool)

  const START := Server(StartAccept, FRESH, NOTHING, false, false, false)

  /** One message of the kind a state reads, or a wait or an error; `blocks` is for what may not be ready before the
      message is hashed. */
  function Expect(h: Server, kind: Kind, ch: Choice, pending: Wait, next: State): (Server, Wait) {
    if h.c.inbox == [] then (h, ReadMessage)
    else if h.c.inbox[0].kind != kind || ch.fails then (h, Error)
    else if ch.blocks && !pending.Ok? then (h, pending)
    else (h.(c := Read(h.c), state := next), Ok)
  }

  /** The ClientHello is looked at in three states and consumed in the last. */
  function DoReadClientHello(h: Server, ch: Choice): (Server, Wait) {
    if h.c.inbox == [] then (h, ReadMessage)
    else if h.c.inbox[0].kind != ClientHello || ch.fails then (h, Error)
    else if ch.blocks then (h, CertificateSelectionPending)
    else (h.(state := SelectCertificate), Ok)
  }

  function DoSelectCertificate(h: Server, ch: Choice): (Server, Wait) {
    if h.c.inbox == [] then (h, ReadMessage)
    else if ch.fails then (h, Error)
    else if ch.blocks then (h, X509Lookup)
    else (h.(state := SelectParameters), Ok)
  }

  function DoSelectParameters(h: Server, ch: Choice): (Server, Wait) {
    if h.c.inbox == [] then (h, ReadMessage)
    else if ch.fails || h.c.buffer.None? then (h, Error)
    else if ch.blocks then (h, Wait.PendingSession)
    else
      var request := !ch.p.resumed && ch.p.certAuth && ch.flag;
      var hashed := Update(InitHash(h.c), h.c.inbox[0]);
      var kept := if request then hashed else FreeBuffer(hashed);
      (h.(c := Consume(kept), p := ch.p, certRequest := request, state := SendServerHello), Ok)
  }

  function DoSendServerHello(h: Server, ch: Choice): (Server, Wait) {
    if ch.fails then (h, Error)
    else
      (h.(c := Send(h.c, ServerSays(ServerHello, Hello(h.p))),
          state := if h.p.resumed then SendServerFinished else SendServerCertificate), Ok)
  }

  function DoSendServerCertificate(h: Server, ch: Choice): (Server, Wait) {
    if ch.fails then (h, Error)
    else
      var c1 := SendIf(h.c, h.p.certAuth, ServerSays(Certificate, Opaque(ch.body)));
      var c2 := SendIf(c1, h.p.certAuth && h.p.status, ServerSays(CertificateStatus, Opaque(ch.body)));
      (h.(c := c2, sendsKeyExchange := h.p.needsKeyExchange || ch.flag, state := SendServerKeyExchange), Ok)
  }

  function DoSendServerKeyExchange(h: Server, ch: Choice): (Server, Wait) {
    if !h.sendsKeyExchange then (h.(state := SendServerHelloDone), Ok)
    else if ch.fails then (h, Error)
    else if h.p.certAuth && ch.blocks then (h, PrivateKeyOperation)
    else
      (h.(c := Send(h.c, ServerSays(ServerKeyExchange, Opaque(ch.body))), sendsKeyExchange := false,
          state := SendServerHelloDone), Ok)
  }

  function DoSendServerHelloDone(h: Server, ch: Choice): (Server, Wait) {
    if ch.fails then (h, Error)
    else
      var c1 := SendIf(h.c, h.certRequest, ServerSays(CertificateRequest, Opaque(ch.body)));
      (h.(c := Send(c1, ServerSays(ServerHelloDone, Opaque(0))), state := ReadClientCertificate), Flush)
  }

  function DoReadClientCertificate(h: Server, ch: Choice): (Server, Wait) {
    if !h.certRequest then (h.(state := VerifyClientCertificate), Ok)
    else
      var (g, wait) := Expect(h, Certificate, ch, Ok, VerifyClientCertificate);
      if !wait.Ok? then (g, wait)
      else if h.c.inbox[0].body == Opaque(0) then (g.(c := FreeBuffer(g.c)), wait)
      else (g.(peerKey := true), wait)
  }

  function DoVerifyClientCertificate(h: Server, ch: Choice): (Server, Wait) {
    if h.peerKey && ch.fails then (h, Error)
    else if h.peerKey && ch.blocks then (h, CertificateVerifyPending)
    else (h.(state := ReadClientKeyExchange), Ok)
  }

  /** The signature is checked over the buffer, which is then released; only then is the message hashed. */
  function DoReadClientCertificateVerify(h: Server, ch: Choice): (Server, Wait) {
    if !h.peerKey then (h.(c := FreeBuffer(h.c), state := ReadingChangeCipherSpec), Ok)
    else if h.c.inbox == [] then (h, ReadMessage)
    else
      var m := h.c.inbox[0];
      if m.kind != CertificateVerify || ch.fails || h.c.buffer.None? || m.body != Signed(h.c.buffer.value) then
        (h, Error)
      else (h.(c := Read(FreeBuffer(h.c)), state := ReadingChangeCipherSpec), Ok)
  }

  function DoReadNextProto(h: Server, ch: Choice): (Server, Wait) {
    if !h.p.nextProto then (h.(state := ReadChannelId), Ok) else Expect(h, NextProto, ch, Ok, ReadChannelId)
  }

  function DoReadChannelId(h: Server, ch: Choice): (Server, Wait) {
    if !h.p.channelId then (h.(state := ReadClientFinished), Ok) else Expect(h, ChannelId, ch, Ok, ReadClientFinished)
  }

  function DoReadClientFinished(h: Server, ch: Choice): (Server, Wait) {
    if h.c.inbox == [] then (h, ReadMessage)
    else
      match CheckFinished(h.c, false)
      case None => (h, Error)
      case Some(c) =>
        (h.(c := c, state := if h.p.resumed then FinishServerHandshake else SendServerFinished),
         if ch.fails then Error else Ok)
  }

  function DoSendServerFinished(h: Server, ch: Choice): (Server, Wait) {
    if ch.fails then (h, Error)
    else
      var c1 := SendIf(h.c, h.p.ticket, ServerSays(NewSessionTicket, Opaque(ch.body)));
      (h.(c := SendFinished(c1, true),
          state := if h.p.resumed then ReadingChangeCipherSpec else FinishServerHandshake), Flush)
  }

  /** The state function of the current state. */
  function Step(h: Server, ch: Choice): (Server, Wait) {
    match h.state
    case StartAccept => (h.(state := ReadClientHello), Ok)
    case ReadClientHello => DoReadClientHello(h, ch)
    case SelectCertificate => DoSelectCertificate(h, ch)
    case SelectParameters => DoSelectParameters(h, ch)
    case SendServerHello => DoSendServerHello(h, ch)
    case SendServerCertificate => DoSendServerCertificate(h, ch)
    case SendServerKeyExchange => DoSendServerKeyExchange(h, ch)
    case SendServerHelloDone => DoSendServerHelloDone(h, ch)
    case ReadClientCertificate => DoReadClientCertificate(h, ch)
    case VerifyClientCertificate => DoVerifyClientCertificate(h, ch)
    case ReadClientKeyExchange => Expect(h, ClientKeyExchange, ch, PrivateKeyOperation, ReadClientCertificateVerify)
    case ReadClientCertificateVerify => DoReadClientCertificateVerify(h, ch)
    case ReadingChangeCipherSpec => (h.(state := ProcessChangeCipherSpec), Wait.ReadChangeCipherSpec)
    case ProcessChangeCipherSpec => if ch.fails then (h, Error) else (h.(state := ReadNextProto), Ok)
    case ReadNextProto => DoReadNextProto(h, ch)
    case ReadChannelId => DoReadChannelId(h, ch)
    case ReadClientFinished => DoReadClientFinished(h, ch)
    case SendServerFinished => DoSendServerFinished(h, ch)
    case FinishServerHandshake => (h.(state := Done), Ok)
    case Done => (h, Ok)
  }

  // What holds in every state ------------------------------------------------------------------------------------

  /** The place in the handshake that everything sent and consumed so far comes before. */
  function Bound(s: State, resumed: bool): nat {
    match s
    case StartAccept => 0
    case ReadClientHello => 0
    case SelectCertificate => 0
    case SelectParameters => 0
    case SendServerHello => 1
    case SendServerCertificate => 2
    case SendServerKeyExchange => 4
    case SendServerHelloDone => 5
    case ReadClientCertificate => 7
    case VerifyClientCertificate => 8
    case ReadClientKeyExchange => 8
    case ReadClientCertificateVerify => 9
    case ReadingChangeCipherSpec => if resumed then 4 else 10
    case ProcessChangeCipherSpec => if resumed then 4 else 10
    case ReadNextProto => if resumed then 4 else 10
    case ReadChannelId => if resumed then 5 else 11
    case ReadClientFinished => if resumed then 6 else 12
    case SendServerFinished => if resumed then 2 else 13
    case FinishServerHandshake => 15
    case Done => 15
  }

  predicate BeforeHello(s: State) {
    s.StartAccept? || s.ReadClientHello? || s.SelectCertificate? || s.SelectParameters?
  }

  /** States only the full handshake goes through. */
  predicate FullOnly(s: State) {
    s.SendServerCertificate? || s.SendServerKeyExchange? || s.SendServerHelloDone? || s.ReadClientCertificate?
    || s.VerifyClientCertificate? || s.ReadClientKeyExchange? || s.ReadClientCertificateVerify?
  }

  predicate BeforeCertificate(s: State) {
    s.SendServerHello? || s.SendServerCertificate? || s.SendServerKeyExchange? || s.SendServerHelloDone?
    || s.ReadClientCertificate?
  }

  /** A CertificateVerify may still be to come. */
  predicate AwaitsVerify(h: Server) {
    || (BeforeCertificate(h.state) && h.certRequest)
    || ((h.state.VerifyClientCertificate? || h.state.ReadClientKeyExchange? || h.state.ReadClientCertificateVerify?)
        && h.peerKey)
  }

  ghost predicate Flags(h: Server) {
    && (h.c.hash.None? <==> BeforeHello(h.state))
    && (BeforeHello(h.state) ==> !h.p.resumed)
    && (FullOnly(h.state) ==> !h.p.resumed)
    && (BeforeHello(h.state) || BeforeCertificate(h.state) ==> !h.peerKey)
    && (AwaitsVerify(h) ==> h.c.buffer.Some?)
    && (h.state.SelectCertificate? || h.state.SelectParameters? ==> h.c.inbox != [] && h.c.inbox[0].kind == ClientHello)
  }

  ghost predicate Disciplined(h: Server) {
    && Faithful(h.c)
    && InOrder(h.c.log, h.p.resumed, Bound(h.state, h.p.resumed))
    && (forall i :: 0 <= i < |h.c.inbox| ==> !h.c.inbox[i].fromServer)
    && Flags(h)
  }

  lemma StartDisciplined()
    ensures Disciplined(START)
  {
  }

  ghost predicate Kept(r: (Server, Wait)) {
    r.1.Error? || Disciplined(r.0)
  }

  lemma MoveKeeps(h: Server, next: State)
    requires Disciplined(h) && Flags(h.(state := next)) && Bound(h.state, h.p.resumed) <= Bound(next, h.p.resumed)
    ensures Disciplined(h.(state := next))
  {
    OrderLater(h.c.log, h.p.resumed, Bound(h.state, h.p.resumed), Bound(next, h.p.resumed));
  }

  lemma ReadOneKeeps(h: Server, next: State)
    requires Disciplined(h) && !BeforeHello(h.state) && h.c.inbox != []
    requires Flags(h.(state := next)) && !BeforeHello(next)
    requires Bound(h.state, h.p.resumed) <= Rank(h.p.resumed, h.c.inbox[0]) < Bound(next, h.p.resumed)
    ensures Disciplined(h.(c := Read(h.c), state := next))
  {
    ReadKeeps(h.c, h.p.resumed, Bound(h.state, h.p.resumed), Bound(next, h.p.resumed));
    hide Faithful, InOrder;
  }

  lemma ExpectKeeps(h: Server, kind: Kind, ch: Choice, pending: Wait, next: State)
    requires Disciplined(h) && !BeforeHello(h.state)
    requires Flags(h.(state := next)) && !BeforeHello(next)
    requires var m := Msg(kind, false, Opaque(0));
             Bound(h.state, h.p.resumed) <= Rank(h.p.resumed, m) < Bound(next, h.p.resumed)
    ensures Kept(Expect(h, kind, ch, pending, next))
  {
    if Expect(h, kind, ch, pending, next).1.Ok? {
      assert Rank(h.p.resumed, h.c.inbox[0]) == Rank(h.p.resumed, Msg(kind, false, Opaque(0)));
      ReadOneKeeps(h, next);
    }
  }

  lemma SelectParametersKeeps(h: Server, ch: Choice)
    requires Disciplined(h) && h.state.SelectParameters?
    ensures Kept(DoSelectParameters(h, ch))
  {
    hide InOrder, Rank;
    if h.c.buffer.Some? {
      HelloRanks(ch.p.resumed, h.c.inbox[0], h.c.inbox[0]);
      OrderNothing(h.c.log, ch.p.resumed);
      ReadKeeps(InitHash(h.c), ch.p.resumed, 0, 1);
    }
  }

  lemma OrderNothing(log: seq<Msg>, resumed: bool)
    requires InOrder(log, false, 0)
    ensures InOrder(log, resumed, 0)
  {
    assert 0 < |log| ==> Rank(false, log[0]) < 0;
  }

  lemma HelloRanks(resumed: bool, clientHello: Msg, serverHello: Msg)
    ensures clientHello.kind == ClientHello ==> Rank(resumed, clientHello) == 0
    ensures serverHello.kind == ServerHello ==> Rank(resumed, serverHello) == 1
  {
  }

  lemma ServerHelloKeeps(h: Server, ch: Choice)
    requires Disciplined(h) && h.state.SendServerHello?
    ensures Kept(DoSendServerHello(h, ch))
  {
    hide Faithful, InOrder, Rank;
    var m := ServerSays(ServerHello, Hello(h.p));
    HelloRanks(h.p.resumed, m, m);
    SendIfKeeps(h.c, true, m, h.p.resumed, 1);
  }

  lemma ServerCertificateKeeps(h: Server, ch: Choice)
    requires Disciplined(h) && h.state.SendServerCertificate?
    ensures Kept(DoSendServerCertificate(h, ch))
  {
    hide Faithful, InOrder, Send;
    var m, n := ServerSays(Certificate, Opaque(ch.body)), ServerSays(CertificateStatus, Opaque(ch.body));
    SendIfKeeps(h.c, h.p.certAuth, m, false, 2);
    SendIfKeeps(SendIf(h.c, h.p.certAuth, m), h.p.certAuth && h.p.status, n, false, 3);
  }

  lemma ServerKeyExchangeKeeps(h: Server, ch: Choice)
    requires Disciplined(h) && h.state.SendServerKeyExchange?
    ensures Kept(DoSendServerKeyExchange(h, ch))
  {
    hide Faithful, InOrder;
    MoveKeeps(h, SendServerHelloDone);
    SendIfKeeps(h.c, true, ServerSays(ServerKeyExchange, Opaque(ch.body)), false, 4);
  }

  lemma ServerHelloDoneKeeps(h: Server, ch: Choice)
    requires Disciplined(h) && h.state.SendServerHelloDone?
    ensures Kept(DoSendServerHelloDone(h, ch))
  {
    hide Faithful, InOrder, Send;
    var m := ServerSays(CertificateRequest, Opaque(ch.body));
    SendIfKeeps(h.c, h.certRequest, m, false, 5);
    SendIfKeeps(SendIf(h.c, h.certRequest, m), true, ServerSays(ServerHelloDone, Opaque(0)), false, 6);
  }

  lemma ClientCertificateKeeps(h: Server, ch: Choice)
    requires Disciplined(h) && h.state.ReadClientCertificate?
    ensures Kept(DoReadClientCertificate(h, ch))
  {
    if !h.certRequest {
      OrderLater(h.c.log, false, 7, 8);
      hide Faithful, InOrder;
    } else if Expect(h, Certificate, ch, Ok, VerifyClientCertificate).1.Ok? {
      ReadKeeps(h.c, false, 7, 8);
      hide InOrder, Rank;
    }
  }

  lemma CertificateVerifyKeeps(h: Server, ch: Choice)
    requires Disciplined(h) && h.state.ReadClientCertificateVerify?
    ensures Kept(DoReadClientCertificateVerify(h, ch))
  {
    OrderLater(h.c.log, false, 9, 10);
    if h.c.inbox != [] && h.c.inbox[0].kind == CertificateVerify {
      ReadKeeps(FreeBuffer(h.c), false, 9, 10);
    }
    hide InOrder;
  }

  lemma ExtrasKeep(h: Server, ch: Choice)
    requires Disciplined(h)
    ensures h.state.ReadNextProto? ==> Kept(DoReadNextProto(h, ch))
    ensures h.state.ReadChannelId? ==> Kept(DoReadChannelId(h, ch))
    ensures h.state.ReadClientKeyExchange? ==>
              Kept(Expect(h, ClientKeyExchange, ch, PrivateKeyOperation, ReadClientCertificateVerify))
    ensures h.state.VerifyClientCertificate? ==> Kept(DoVerifyClientCertificate(h, ch))
  {
    hide Faithful, InOrder, Expect;
    match h.state
    case ReadNextProto => {
      MoveKeeps(h, ReadChannelId);
      ExpectKeeps(h, NextProto, ch, Ok, ReadChannelId);
    }
    case ReadChannelId => {
      MoveKeeps(h, ReadClientFinished);
      ExpectKeeps(h, ChannelId, ch, Ok, ReadClientFinished);
    }
    case ReadClientKeyExchange =>
      ExpectKeeps(h, ClientKeyExchange, ch, PrivateKeyOperation, ReadClientCertificateVerify);
    case VerifyClientCertificate => MoveKeeps(h, ReadClientKeyExchange);
    case _ => {
    }
  }

  lemma ClientFinishedKeeps(h: Server, ch: Choice)
    requires Disciplined(h) && h.state.ReadClientFinished?
    ensures Kept(DoReadClientFinished(h, ch))
  {
    if h.c.inbox != [] && CheckFinished(h.c, false).Some? {
      ReadOneKeeps(h, if h.p.resumed then FinishServerHandshake else SendServerFinished);
    }
  }

  lemma ServerFinishedKeeps(h: Server, ch: Choice)
    requires Disciplined(h) && h.state.SendServerFinished?
    ensures Kept(DoSendServerFinished(h, ch))
  {
    hide Faithful, InOrder, Send, Rank;
    var r := h.p.resumed;
    var b := Bound(SendServerFinished, r);
    var m := ServerSays(NewSessionTicket, Opaque(ch.body));
    var c1 := SendIf(h.c, h.p.ticket, m);
    FinishRanks(r, m, ServerSays(Finished, Opaque(0)));
    SendIfKeeps(h.c, h.p.ticket, m, r, b);
    FinishRanks(r, m, ServerSays(Finished, Mac(true, c1.hash.value)));
    SendIfKeeps(c1, true, ServerSays(Finished, Mac(true, c1.hash.value)), r, b + 1);
  }

  lemma FinishRanks(resumed: bool, ticket: Msg, finished: Msg)
    requires ticket.kind == NewSessionTicket && finished.kind == Finished && finished.fromServer
    ensures var b := Bound(SendServerFinished, resumed);
            Rank(resumed, ticket) == b && Rank(resumed, finished) == b + 1
            && Bound(if resumed then ReadingChangeCipherSpec else FinishServerHandshake, resumed) == b + 2
  {
  }

  lemma PassingKeeps(h: Server, ch: Choice)
    requires Disciplined(h)
    ensures h.state.StartAccept? ==> Disciplined(h.(state := ReadClientHello))
    ensures h.state.ReadClientHello? ==> Kept(DoReadClientHello(h, ch))
    ensures h.state.SelectCertificate? ==> Kept(DoSelectCertificate(h, ch))
    ensures h.state.ReadingChangeCipherSpec? ==> Disciplined(h.(state := ProcessChangeCipherSpec))
    ensures h.state.ProcessChangeCipherSpec? ==> Disciplined(h.(state := ReadNextProto))
    ensures h.state.FinishServerHandshake? ==> Disciplined(h.(state := Done))
  {
    hide Faithful, InOrder;
    match h.state
    case StartAccept => MoveKeeps(h, ReadClientHello);
    case ReadClientHello =>
      if h.c.inbox != [] && h.c.inbox[0].kind == ClientHello {
        MoveKeeps(h, SelectCertificate);
      }
    case SelectCertificate => MoveKeeps(h, SelectParameters);
    case ReadingChangeCipherSpec => MoveKeeps(h, ProcessChangeCipherSpec);
    case ProcessChangeCipherSpec => MoveKeeps(h, ReadNextProto);
    case FinishServerHandshake => MoveKeeps(h, Done);
    case _ => {
    }
  }

  /** Whatever arrives, whatever blocks, and however often a state is entered again, one call of a state function keeps
      the transcript exactly the messages sent and consumed, in handshake order. */
  lemma StepDisciplined(h: Server, ch: Choice)
    requires Disciplined(h)
    ensures !Step(h, ch).1.Error? ==> Disciplined(Step(h, ch).0)
  {
    hide Disciplined, Expect, DoReadClientHello, DoSelectCertificate, DoSelectParameters, DoSendServerHello,
         DoSendServerCertificate, DoSendServerKeyExchange, DoSendServerHelloDone, DoReadClientCertificate,
         DoVerifyClientCertificate, DoReadClientCertificateVerify, DoReadNextProto, DoReadChannelId,
         DoReadClientFinished, DoSendServerFinished;
    PassingKeeps(h, ch);
    ExtrasKeep(h, ch);
    match h.state
    case SelectParameters => SelectParametersKeeps(h, ch);
    case SendServerHello => ServerHelloKeeps(h, ch);
    case SendServerCertificate => ServerCertificateKeeps(h, ch);
    case SendServerKeyExchange => ServerKeyExchangeKeeps(h, ch);
    case SendServerHelloDone => ServerHelloDoneKeeps(h, ch);
    case ReadClientCertificate => ClientCertificateKeeps(h, ch);
    case ReadClientCertificateVerify => CertificateVerifyKeeps(h, ch);
    case ReadClientFinished => ClientFinishedKeeps(h, ch);
    case SendServerFinished => ServerFinishedKeeps(h, ch);
    case _ => {
    }
  }

  /** A CertificateVerify, when one is due, is checked over exactly the transcript so far. */
  lemma VerifyChecksTranscript(h: Server, ch: Choice)
    requires Disciplined(h) && h.state.ReadClientCertificateVerify? && h.peerKey && h.c.inbox != []
    ensures Step(h, ch).1.Ok? <==>
              !ch.fails && h.c.inbox[0].kind == CertificateVerify && h.c.inbox[0].body == Signed(h.c.log)
  {
  }
}
