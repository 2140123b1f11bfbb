/** No side gets past the other's certificate without having verified it. */
module TlsVerified {
  import opened Wrappers
  import opened TlsTranscript
  import opened TlsDriver
  import opened TlsHandshake
  import opened TlsCalls
  import C = TlsClientDriver
  import S = TlsServerDriver
  import Client = TlsClient
  import Server = TlsServer

  // The server's certificate ------------------------------------------------------------------------------------------

  /** The handshake is a full one with a certificate, and the client is past the state that verifies it. */
  ghost predicate PastCertificate(h: Client.Client) {
    && h.p.certAuth && !h.p.resumed && !Client.BeforeHello(h.state)
    && !h.state.ReadServerCertificate? && !h.state.ReadCertificateStatus? && !h.state.VerifyServerCertificate?
  }

  /** In the state that verifies the server's certificate, the client's call neither fails nor has to wait. */
  ghost predicate Verifies(y: System, e: Event) {
    e.ClientCalls? && y.client.state.VerifyServerCertificate? && !e.ch.fails && !e.ch.blocks
  }

  ghost predicate VerifiedIn(y: System, es: seq<Event>)
    decreases |es|
  {
    es != [] && Possible(y, es[0]) && (Verifies(y, es[0]) || VerifiedIn(Next(y, es[0]), es[1..]))
  }

  lemma ExpectStates(h: Client.Client, kind: Kind, ch: Choice, next: Client.State)
    ensures var g := Client.Expect(h, kind, ch, next).0;
            g.p == h.p && (g.state == h.state || g.state == next)
  {
  }

  lemma EarlySteps(h: Client.Client, ch: Choice)
    requires Client.BeforeHello(h.state)
    ensures !PastCertificate(Client.Step(h, ch).0)
  {
    hide Client.Expect, Send, Update, Consume, Reset, InitHash, FreeBuffer, Client.DoSendFinished,
         Client.DoReadSessionTicket, Client.DoReadServerFinished, Client.DoSendClientCertificate,
         Client.DoSendCertificateVerify, Client.DoReadCertificateRequest, Client.DoReadServerKeyExchange,
         Client.DoFinishFlight, Client.DoSendClientKeyExchange;
  }

  lemma CertificateSteps(h: Client.Client, ch: Choice)
    requires h.state.ReadServerCertificate? || h.state.ReadCertificateStatus? || h.state.VerifyServerCertificate?
    ensures var (g, w) := Client.Step(h, ch);
            !w.Error? && PastCertificate(g) ==> h.state.VerifyServerCertificate? && !ch.fails && !ch.blocks
  {
    hide Client.Expect, Client.DoReadHelloVerifyRequest, Client.DoReadServerHello, Client.DoSendFinished,
         Client.DoReadSessionTicket, Client.DoReadServerFinished, Client.DoSendClientCertificate,
         Client.DoSendCertificateVerify, Client.DoReadCertificateRequest, Client.DoReadServerKeyExchange,
         Client.DoFinishFlight, Client.DoSendClientKeyExchange, Client.DoStartConnect;
    ExpectStates(h, Certificate, ch, Client.ReadCertificateStatus);
    ExpectStates(h, CertificateStatus, ch, Client.VerifyServerCertificate);
  }

  lemma ReadsKeepParams(h: Client.Client, ch: Choice)
    ensures Client.DoReadServerCertificate(h, ch).0.p == h.p && Client.DoReadCertificateStatus(h, ch).0.p == h.p
    ensures Client.DoVerifyServerCertificate(h, ch).0.p == h.p && Client.DoReadServerKeyExchange(h, ch).0.p == h.p
    ensures Client.Expect(h, ServerHelloDone, ch, Client.SendClientCertificate).0.p == h.p
  {
    hide Client.Expect;
    ExpectStates(h, Certificate, ch, Client.ReadCertificateStatus);
    ExpectStates(h, CertificateStatus, ch, Client.VerifyServerCertificate);
    ExpectStates(h, ServerKeyExchange, ch, Client.ReadCertificateRequest);
    ExpectStates(h, ServerHelloDone, ch, Client.SendClientCertificate);
  }

  lemma RequestKeepsParams(h: Client.Client, ch: Choice)
    ensures Client.DoReadCertificateRequest(h, ch).0.p == h.p && Client.DoReadSessionTicket(h, ch).0.p == h.p
  {
    hide Client.Expect, FreeBuffer;
    ExpectStates(h, CertificateRequest, ch, Client.ReadServerHelloDone);
    ExpectStates(h, NewSessionTicket, ch, Client.ProcessChangeCipherSpec);
  }

  lemma SendsKeepParams(h: Client.Client, ch: Choice)
    ensures Client.DoSendClientCertificate(h, ch).0.p == h.p && Client.DoSendClientKeyExchange(h, ch).0.p == h.p
    ensures Client.DoSendCertificateVerify(h, ch).0.p == h.p
  {
    hide Send, FreeBuffer;
  }

  lemma EndsKeepParams(h: Client.Client, ch: Choice)
    ensures Client.DoSendFinished(h, ch).0.p == h.p
    ensures Client.DoFinishFlight(h, ch).0.p == h.p && Client.DoReadServerFinished(h).0.p == h.p
  {
    hide SendIf, SendFinished, CheckFinished;
  }

  lemma LaterSteps(h: Client.Client, ch: Choice)
    requires !Client.BeforeHello(h.state)
    ensures Client.Step(h, ch).0.p == h.p
  {
    hide Client.Expect, Client.DoReadServerCertificate, Client.DoReadCertificateStatus,
         Client.DoVerifyServerCertificate, Client.DoReadServerKeyExchange, Client.DoReadCertificateRequest,
         Client.DoReadSessionTicket, Client.DoSendClientCertificate, Client.DoSendClientKeyExchange,
         Client.DoSendCertificateVerify, Client.DoSendFinished, Client.DoFinishFlight, Client.DoReadServerFinished,
         Client.DoReadHelloVerifyRequest, Client.DoReadServerHello, Client.DoStartConnect;
    ReadsKeepParams(h, ch);
    RequestKeepsParams(h, ch);
    SendsKeepParams(h, ch);
    EndsKeepParams(h, ch);
  }

  lemma {:induction false} PastOnlyThroughVerify(y: System, es: seq<Event>, z: System)
    requires Reaches(y, es, z) && !PastCertificate(y.client) && PastCertificate(z.client)
    ensures VerifiedIn(y, es)
    decreases |es|
  {
    hide PastCertificate, Client.Step, Server.Step;
    if es != [] && !Verifies(y, es[0]) {
      StepPasses(y, es[0]);
      PastOnlyThroughVerify(Next(y, es[0]), es[1..], z);
    }
  }

  lemma StepPasses(y: System, e: Event)
    requires Possible(y, e) && !PastCertificate(y.client) && !Verifies(y, e)
    ensures !PastCertificate(Next(y, e).client)
  {
    hide Client.Step, Server.Step;
    if e.ClientCalls? {
      var h := y.client;
      if Client.BeforeHello(h.state) {
        EarlySteps(h, e.ch);
      } else {
        LaterSteps(h, e.ch);
        if h.state.ReadServerCertificate? || h.state.ReadCertificateStatus? || h.state.VerifyServerCertificate? {
          CertificateSteps(h, e.ch);
        }
      }
    }
  }

  /** Whatever arrives, and however often its state functions are called and stopped, a client beyond the server's
      certificate has made the call that verifies it, and that call succeeded. */
  lemma ServerCertificateVerified(dtls: bool, es: seq<Event>, y: System)
    requires Reaches(Initial(dtls), es, y) && PastCertificate(y.client)
    ensures VerifiedIn(Initial(dtls), es)
  {
    PastOnlyThroughVerify(Initial(dtls), es, y);
  }

  /** So it is after a call of the client's loop, whatever becomes of what it waits for: `fs` are the calls of state
      functions and the arrivals in it. */
  lemma ClientCallVerified(dtls: bool, es: seq<Event>, y: System, w: Wait, first: nat -> Choice, s: seq<Resolution>)
    returns (fs: seq<Event>)
    requires Reaches(Initial(dtls), es, y)
    requires !y.clientFailed && !w.Error? && ToClientIn(y.client, w, first, s) <= y.server.c.outbox
    requires var o := C.ClientRun(y.client, w, first, s);
             !o.wait.Error? && PastCertificate(o.h)
    ensures VerifiedIn(Initial(dtls), es + fs)
  {
    hide Reaches, C.ClientRun, ToClientIn, PastCertificate, VerifiedIn;
    var z: System;
    fs, z := ClientCallReaches(y, w, first, s);
    ReachesOn(Initial(dtls), es, y, fs, z);
    ServerCertificateVerified(dtls, es + fs, z);
  }

  // The client's certificate ------------------------------------------------------------------------------------------

  /** The client has sent a certificate, and the server is past the state that verifies it. */
  ghost predicate PastPeer(h: Server.Server) {
    && h.peerKey && !Server.BeforeHello(h.state) && !Server.BeforeCertificate(h.state)
    && !h.state.VerifyClientCertificate?
  }

  ghost predicate PeerVerifies(y: System, e: Event) {
    && e.ServerCalls? && y.server.state.VerifyClientCertificate? && y.server.peerKey
    && !e.ch.fails && !e.ch.blocks
  }

  ghost predicate PeerVerifiedIn(y: System, es: seq<Event>)
    decreases |es|
  {
    es != [] && Possible(y, es[0]) && (PeerVerifies(y, es[0]) || PeerVerifiedIn(Next(y, es[0]), es[1..]))
  }

  lemma ServerExpectStates(h: Server.Server, kind: Kind, ch: Choice, pending: Wait, next: Server.State)
    ensures var (g, w) := Server.Expect(h, kind, ch, pending, next);
            g.peerKey == h.peerKey && g.state == if w.Ok? then next else h.state
  {
  }

  lemma PeerKeySet(h: Server.Server, ch: Choice)
    requires !h.state.ReadClientCertificate?
    ensures Server.Step(h, ch).0.peerKey == h.peerKey
  {
    hide Server.Expect, Send, SendIf, SendFinished, CheckFinished, FreeBuffer, Update, InitHash, Consume;
    forall kind: Kind, pending: Wait, next: Server.State
      ensures Server.Expect(h, kind, ch, pending, next).0.peerKey == h.peerKey
    {
      ServerExpectStates(h, kind, ch, pending, next);
    }
  }

  lemma PeerSteps(h: Server.Server, ch: Choice)
    requires !PastPeer(h) && (h.peerKey || h.state.ReadClientCertificate?)
    requires Server.BeforeCertificate(h.state) || Server.BeforeHello(h.state) ==> !h.peerKey
    ensures var (g, w) := Server.Step(h, ch);
            !w.Error? && PastPeer(g) ==> h.state.VerifyClientCertificate? && h.peerKey && !ch.fails && !ch.blocks
  {
    hide Server.Expect, Server.DoReadClientHello, Server.DoSelectCertificate, Server.DoSelectParameters,
         Server.DoSendServerHello, Server.DoSendServerCertificate, Server.DoSendServerKeyExchange,
         Server.DoSendServerHelloDone, Server.DoReadClientCertificateVerify, Server.DoReadNextProto,
         Server.DoReadChannelId, Server.DoReadClientFinished, Server.DoSendServerFinished;
    ServerExpectStates(h, Certificate, ch, Ok, Server.VerifyClientCertificate);
  }

  lemma {:induction false} PeerPastOnlyThroughVerify(y: System, es: seq<Event>, z: System)
    requires Inv(y) && Reaches(y, es, z) && !PastPeer(y.server) && PastPeer(z.server)
    ensures PeerVerifiedIn(y, es)
    decreases |es|
  {
    hide Inv, PastPeer, Client.Step, Server.Step;
    if es != [] && !PeerVerifies(y, es[0]) {
      PeerStepPasses(y, es[0]);
      NextKeepsInv(y, es[0]);
      PeerPastOnlyThroughVerify(Next(y, es[0]), es[1..], z);
    }
  }

  lemma NoKeyYet(h: Server.Server)
    requires Server.Disciplined(h)
    ensures Server.BeforeCertificate(h.state) || Server.BeforeHello(h.state) ==> !h.peerKey
  {
  }

  lemma PeerStepPasses(y: System, e: Event)
    requires Inv(y) && Possible(y, e) && !PastPeer(y.server) && !PeerVerifies(y, e)
    ensures !PastPeer(Next(y, e).server)
  {
    hide Client.Step, Server.Step, Server.Disciplined;
    if e.ServerCalls? {
      var h := y.server;
      NoKeyYet(h);
      if h.peerKey || h.state.ReadClientCertificate? {
        PeerSteps(h, e.ch);
      } else {
        PeerKeySet(h, e.ch);
      }
    }
  }

  /** A server beyond the client's certificate, where one was sent, has made the call that verifies it, and that call
      succeeded. */
  lemma ClientCertificateVerified(dtls: bool, es: seq<Event>, y: System)
    requires Reaches(Initial(dtls), es, y) && PastPeer(y.server)
    ensures PeerVerifiedIn(Initial(dtls), es)
  {
    hide Inv;
    InitialInv(dtls);
    PeerPastOnlyThroughVerify(Initial(dtls), es, y);
  }

  lemma ServerCallVerified(dtls: bool, es: seq<Event>, y: System, w: Wait, first: nat -> Choice, s: seq<Resolution>)
    returns (fs: seq<Event>)
    requires Reaches(Initial(dtls), es, y)
    requires !y.serverFailed && !w.Error? && ToServerIn(y.server, w, first, s) <= y.client.c.outbox
    requires var o := S.ServerRun(y.server, w, first, s);
             !o.wait.Error? && PastPeer(o.h)
    ensures PeerVerifiedIn(Initial(dtls), es + fs)
  {
    hide Reaches, S.ServerRun, ToServerIn, PastPeer, PeerVerifiedIn;
    var z: System;
    fs, z := ServerCallReaches(y, w, first, s);
    ReachesOn(Initial(dtls), es, y, fs, z);
    ClientCertificateVerified(dtls, es + fs, z);
  }
}
