/** Two endpoints around which nothing fails complete the handshake, whatever they settle on and in whatever order they
    are called and messages arrive (RFC 5246, section 7.3). */
module TlsCompletion {
  import opened Wrappers
  import opened TlsTranscript
  import opened TlsPair
  import opened TlsFlow
  import opened TlsClientTurns
  import opened TlsServerTurns
  import opened TlsHandshake
  import opened TlsCalls
  import opened TlsProgress
  import CF = TlsClientFlow
  import SF = TlsServerFlow
  import C = TlsClientDriver
  import S = TlsServerDriver
  import Client = TlsClient
  import Server = TlsServer

  // Both sides along one plan ---------------------------------------------------------------------------------------

  /** States of the server before it has settled whether it sends key exchange parameters, and states of the client
      before it has looked for them. */
  predicate ServerEarly(s: Server.State) {
    Server.BeforeHello(s) || s.SendServerHello? || s.SendServerCertificate?
  }

  predicate ClientEarly(s: Client.State) {
    Client.BeforeHello(s) || s.ReadServerCertificate? || s.ReadCertificateStatus? || s.VerifyServerCertificate?
    || s.ReadServerKeyExchange?
  }

  ghost predicate AllContents(x: Plan, log: seq<Msg>) {
    forall i :: 0 <= i < |log| ==> Contents(x, log[i])
  }

  /** Both sides are on the way the plan gives, and neither has failed. */
  ghost predicate OnPlan(y: System, x: Plan) {
    && Inv(y) && !y.clientFailed && !y.serverFailed
    && CF.ClientOn(y.client, x) && SF.ServerOn(y.server, x)
    && AllContents(x, y.client.c.log) && AllContents(x, y.server.c.log)
    && (ServerEarly(y.server.state) ==> ClientEarly(y.client.state))
  }

  ghost predicate Follows(y: System, e: Event, x: Plan) {
    match e
    case ClientCalls(ch) => CF.Follows(y.client, ch, x)
    case ServerCalls(ch) => SF.Follows(y.server, ch, x)
    case _ => true
  }

  lemma ClientNext(y: System, x: Plan)
    requires OnPlan(y, x) && y.client.c.inbox != []
    ensures CF.ClientReady(y.client, x)
    ensures Client.Bound(y.client.state, x.p.resumed) < Server.Bound(y.server.state, x.p.resumed)
    ensures y.client.c.inbox[0] in y.server.c.log
  {
    hide ClientRight, ServerRight, Contents, Comes, TruthfulAt, TurnAfter, ClientEarly, ServerEarly;
    var cc, sc := y.client.c, y.server.c;
    hide Client.Bound, Server.Bound, CF.Settled, SF.Settled;
    ClientReads(cc, sc, Consume(cc));
    LogIsFront(cc, sc);
    NextComes(x, Client.Bound(y.client.state, x.p.resumed), Server.Bound(y.server.state, x.p.resumed), cc.log, sc.log);
    FromServer(y.client);
  }

  lemma FromServer(h: Client.Client)
    requires ClientRight(h) && h.c.inbox != []
    ensures h.c.inbox[0].fromServer
  {
  }

  lemma FromClient(h: Server.Server)
    requires ServerRight(h) && h.c.inbox != []
    ensures !h.c.inbox[0].fromServer
  {
  }

  lemma ServerNext(y: System, x: Plan)
    requires OnPlan(y, x) && y.server.c.inbox != []
    ensures SF.ServerReady(y.server, x)
  {
    hide ClientRight, ServerRight, Contents, Comes, TruthfulAt, TurnAfter, ClientEarly, ServerEarly;
    var cc, sc := y.client.c, y.server.c;
    hide Client.Bound, Server.Bound, CF.Settled, SF.Settled;
    ServerReads(cc, sc, Consume(sc));
    LogIsFront(cc, sc);
    NextComes(x, Server.Bound(y.server.state, x.p.resumed), Client.Bound(y.client.state, x.p.resumed), sc.log, cc.log);
    FromClient(y.server);
  }

  lemma MoreContents(x: Plan, log: seq<Msg>, more: seq<Msg>)
    requires AllContents(x, log) && log <= more && forall i :: |log| <= i < |more| ==> Contents(x, more[i])
    ensures AllContents(x, more)
  {
    hide Contents;
  }

  /** A client goes on from the early states only with a message that is not early. */
  lemma LeavesEarly(h: Client.Client, ch: Choice)
    requires ClientEarly(h.state)
    ensures var (g, w) := Client.Step(h, ch);
            !w.Error? && !ClientEarly(g.state) ==>
              && h.c.inbox != []
              && (h.state.ReadServerKeyExchange?
                  || (h.state.ReadingServerHello? && h.c.inbox[0].kind == ServerHello && h.c.inbox[0].body.Hello?
                      && h.c.inbox[0].body.p.resumed))
  {
    hide Read, Send, Update, Reset, Consume, InitHash, Client.DoSendFinished, Client.DoReadSessionTicket,
         Client.DoReadServerFinished, Client.DoSendClientCertificate, Client.DoSendCertificateVerify,
         Client.DoReadCertificateRequest, Client.DoFinishFlight, Client.DoSendClientKeyExchange;
  }

  lemma EarlyMeets(cs: Client.State, ss: Server.State, resumed: bool)
    requires ServerEarly(ss) && (cs.ReadServerKeyExchange? || cs.ReadingServerHello?)
    requires Client.Bound(cs, resumed) < Server.Bound(ss, resumed)
    ensures cs.ReadingServerHello? && Server.FullOnly(ss)
  {
  }

  lemma FullNotResumed(h: Server.Server, x: Plan)
    requires ServerRight(h) && SF.ServerOn(h, x) && Server.FullOnly(h.state)
    ensures !x.p.resumed
  {
    hide InOrder, Faithful, TurnAfter, ResumedIn, Upto;
  }

  lemma ClientStaysEarly(y: System, ch: Choice, x: Plan)
    requires OnPlan(y, x) && ServerEarly(y.server.state) && !Client.Step(y.client, ch).1.Error?
    ensures ClientEarly(Client.Step(y.client, ch).0.state)
  {
    hide Inv, Client.Step, CF.ClientOn, SF.ServerOn, CF.ClientReady, AllContents, ClientEarly, ServerEarly,
         Client.Bound, Server.Bound;
    LeavesEarly(y.client, ch);
    if !ClientEarly(Client.Step(y.client, ch).0.state) {
      ClientNext(y, x);
      SameParams(y, x);
      EarlyMeets(y.client.state, y.server.state, x.p.resumed);
      ServerIsRight(y);
      FullNotResumed(y.server, x);
    }
  }

  lemma ServerIsRight(y: System)
    requires Inv(y)
    ensures ServerRight(y.server) && ClientRight(y.client) && Paired(y.client.c, y.server.c)
  {
  }

  lemma SameParams(y: System, x: Plan)
    requires OnPlan(y, x) && y.client.c.inbox != [] && CF.ClientReady(y.client, x)
    ensures y.client.c.inbox[0].kind == ServerHello ==> y.client.c.inbox[0].body == Hello(x.p)
  {
  }

  lemma ServerReadsOn(h: Server.Server, ch: Choice)
    ensures var s := Server.DoReadClientCertificate(h, ch).0.state; s == h.state || s.VerifyClientCertificate?
    ensures var s := Server.DoReadClientCertificateVerify(h, ch).0.state; s == h.state || s.ReadingChangeCipherSpec?
    ensures var s := Server.DoReadNextProto(h, ch).0.state; s == h.state || s.ReadChannelId?
    ensures var s := Server.DoReadChannelId(h, ch).0.state; s == h.state || s.ReadClientFinished?
    ensures var s := Server.DoReadClientFinished(h, ch).0.state;
            s == h.state || s.FinishServerHandshake? || s.SendServerFinished?
    ensures var s := Server.Expect(h, ClientKeyExchange, ch, PrivateKeyOperation,
                                   Server.ReadClientCertificateVerify).0.state;
            s == h.state || s.ReadClientCertificateVerify?
  {
    hide Read, CheckFinished, FreeBuffer;
  }

  lemma ServerSendsOn(h: Server.Server, ch: Choice)
    ensures var s := Server.DoSendServerKeyExchange(h, ch).0.state; s == h.state || s.SendServerHelloDone?
    ensures var s := Server.DoSendServerHelloDone(h, ch).0.state; s == h.state || s.ReadClientCertificate?
    ensures var s := Server.DoVerifyClientCertificate(h, ch).0.state; s == h.state || s.ReadClientKeyExchange?
    ensures var s := Server.DoSendServerFinished(h, ch).0.state;
            s == h.state || s.ReadingChangeCipherSpec? || s.FinishServerHandshake?
  {
    hide Send, SendIf, SendFinished;
  }

  lemma FullFlightSteps(h: Server.Server, ch: Choice)
    requires Server.FullOnly(h.state) && !ServerEarly(h.state)
    ensures !ServerEarly(Server.Step(h, ch).0.state)
  {
    hide Server.Expect, Server.DoReadClientHello, Server.DoSelectCertificate, Server.DoSelectParameters,
         Server.DoSendServerHello, Server.DoSendServerCertificate, Server.DoSendServerKeyExchange,
         Server.DoSendServerHelloDone, Server.DoReadClientCertificate, Server.DoVerifyClientCertificate,
         Server.DoReadClientCertificateVerify, Server.DoReadNextProto, Server.DoReadChannelId,
         Server.DoReadClientFinished, Server.DoSendServerFinished;
    ServerReadsOn(h, ch);
    ServerSendsOn(h, ch);
  }

  lemma ServerEarlySteps(h: Server.Server, ch: Choice)
    requires !ServerEarly(h.state)
    ensures !ServerEarly(Server.Step(h, ch).0.state)
  {
    hide Server.Step;
    if Server.FullOnly(h.state) {
      FullFlightSteps(h, ch);
    } else {
      LastSteps(h, ch);
    }
  }

  lemma LastSteps(h: Server.Server, ch: Choice)
    requires !Server.FullOnly(h.state) && !ServerEarly(h.state)
    ensures !ServerEarly(Server.Step(h, ch).0.state)
  {
    hide Server.Expect, Server.DoReadClientHello, Server.DoSelectCertificate, Server.DoSelectParameters,
         Server.DoSendServerHello, Server.DoSendServerCertificate, Server.DoSendServerKeyExchange,
         Server.DoSendServerHelloDone, Server.DoReadClientCertificate, Server.DoVerifyClientCertificate,
         Server.DoReadClientCertificateVerify, Server.DoReadNextProto, Server.DoReadChannelId,
         Server.DoReadClientFinished, Server.DoSendServerFinished;
    ServerReadsOn(h, ch);
    ServerSendsOn(h, ch);
  }

  lemma ClientCallOn(y: System, ch: Choice, x: Plan)
    requires OnPlan(y, x) && CF.Follows(y.client, ch, x)
    ensures OnPlan(Next(y, ClientCalls(ch)), x)
  {
    hide Paired, TurnAfter, Client.Step, CF.ClientOn, SF.ServerOn, CF.Follows, Contents, ClientEarly, ServerEarly;
    var h := y.client;
    NextKeepsInv(y, ClientCalls(ch));
    if h.c.inbox != [] {
      ClientNext(y, x);
    }
    hide Inv;
    ServerIsRight(y);
    ClientDisciplined(h);
    CF.ClientStepOn(h, ch, x);
    MoreContents(x, h.c.log, Client.Step(h, ch).0.c.log);
    if ServerEarly(y.server.state) {
      ClientStaysEarly(y, ch, x);
    }
  }

  lemma ClientDisciplined(h: Client.Client)
    requires ClientRight(h)
    ensures Client.Disciplined(h)
  {
  }

  lemma ServerDisciplined(h: Server.Server)
    requires ServerRight(h)
    ensures Server.Disciplined(h)
  {
  }

  lemma ServerCallOn(y: System, ch: Choice, x: Plan)
    requires OnPlan(y, x) && SF.Follows(y.server, ch, x)
    ensures OnPlan(Next(y, ServerCalls(ch)), x)
  {
    hide Paired, TurnAfter, Server.Step, CF.ClientOn, SF.ServerOn, SF.Follows, Contents, ClientEarly, ServerEarly;
    var h := y.server;
    NextKeepsInv(y, ServerCalls(ch));
    if h.c.inbox != [] {
      ServerNext(y, x);
    }
    hide Inv;
    ServerIsRight(y);
    ServerDisciplined(h);
    SF.ServerStepOn(h, ch, x);
    MoreContents(x, h.c.log, Server.Step(h, ch).0.c.log);
    if !ServerEarly(h.state) {
      ServerEarlySteps(h, ch);
    }
  }

  lemma SameClient(h: Client.Client, g: Client.Client, x: Plan)
    requires CF.ClientOn(h, x) && g == h.(c := g.c) && g.c.log == h.c.log
    ensures CF.ClientOn(g, x)
  {
  }

  lemma SameServer(h: Server.Server, g: Server.Server, x: Plan)
    requires SF.ServerOn(h, x) && g == h.(c := g.c) && g.c.log == h.c.log
    ensures SF.ServerOn(g, x)
  {
  }

  lemma ArrivalOn(y: System, e: Event, x: Plan)
    requires OnPlan(y, x) && Possible(y, e) && (e.ToServer? || e.ToClient?)
    ensures OnPlan(Next(y, e), x)
  {
    hide CF.ClientOn, SF.ServerOn, Contents, ClientEarly, ServerEarly;
    NextKeepsInv(y, e);
    hide Inv;
    var z := Next(y, e);
    SameClient(y.client, z.client, x);
    SameServer(y.server, z.server, x);
  }

  /** Along its plan a handshake keeps to it and does not fail. */
  lemma NextOnPlan(y: System, e: Event, x: Plan)
    requires OnPlan(y, x) && Possible(y, e) && Follows(y, e, x)
    ensures OnPlan(Next(y, e), x)
  {
    hide OnPlan, CF.Follows, SF.Follows, Next;
    match e
    case ClientCalls(ch) => ClientCallOn(y, ch, x);
    case ServerCalls(ch) => ServerCallOn(y, ch, x);
    case _ => ArrivalOn(y, e, x);
  }

  lemma InitialOnPlan(dtls: bool, x: Plan)
    ensures OnPlan(Initial(dtls), x)
  {
    InitialInv(dtls);
    hide Inv;
  }

  // Any run has its plan ----------------------------------------------------------------------------------------------

  predicate Unfailing(e: Event) {
    match e
    case ClientCalls(ch) => !ch.fails
    case ServerCalls(ch) => !ch.fails
    case _ => true
  }

  /** There is a plan the handshake is following, so far. */
  ghost predicate Going(y: System) {
    exists x: Plan :: OnPlan(y, x)
  }

  /** The plan with what the call settles. */
  function Resettled(y: System, e: Event, x: Plan): Plan {
    match e
    case ServerCalls(ch) =>
      if y.server.state.SelectParameters? then x.(p := ch.p, request := ch.flag)
      else if y.server.state.SendServerCertificate? then x.(keyExchange := ch.flag) else x
    case ClientCalls(ch) =>
      if y.client.state.SendClientCertificate? && y.client.certRequest then x.(hasCert := ch.flag) else x
    case _ => x
  }

  /** With nothing but a ClientHello sent, any plan will do. */
  lemma HelloOnly(log: seq<Msg>, x: Plan, z: Plan, n: nat)
    requires n <= 1 && TagsOf(log) == Upto(x, n)
    ensures TagsOf(log) == Upto(z, n) && AllContents(z, log)
  {
    assert Upto(x, n) == Upto(z, n) && |Upto(x, n)| == n;
    assert |TagsOf(log)| == |log|;
    if |log| == 1 {
      assert TagsOf(log)[0] == TagOf(log[0]);
    }
  }

  lemma ClientNotBeyond(y: System, x: Plan)
    requires OnPlan(y, x) && Server.BeforeHello(y.server.state)
    ensures Client.BeforeHello(y.client.state)
  {
    hide ClientRight, ServerRight, Contents, TurnAfter, Truthful, InTurn, CF.Settled, SF.Settled, At;
    var cc, sc := y.client.c, y.server.c;
    var n := Client.Bound(y.client.state, x.p.resumed);
    if !Client.BeforeHello(y.client.state) {
      assert n >= 2 by {
        hide OnPlan;
      }
      TwoHellos(x, n, cc.log);
      LogIsFront(cc, sc);
    }
  }

  lemma TwoHellos(x: Plan, n: nat, log: seq<Msg>)
    requires n >= 2 && TagsOf(log) == Upto(x, n)
    ensures |log| >= 2 && log[1].fromServer
  {
    UptoGrows(x, 2, n);
    assert Upto(x, 2) == Upto(x, 1) + At(x, 1) && Upto(x, 1) == At(x, 0);
    assert TagsOf(log)[1] == TagOf(log[1]);
  }

  lemma SettlesParams(y: System, ch: Choice, x: Plan)
    requires OnPlan(y, x) && !ch.fails && y.server.state.SelectParameters?
    ensures OnPlan(y, Resettled(y, ServerCalls(ch), x))
  {
    hide Inv, Upto, Contents, AllContents;
    var z := Resettled(y, ServerCalls(ch), x);
    ClientNotBeyond(y, x);
    HelloOnly(y.client.c.log, x, z, Client.Bound(y.client.state, x.p.resumed));
    HelloOnly(y.server.c.log, x, z, 0);
  }

  lemma SamePlanUpto(x: Plan, z: Plan, n: nat)
    requires (z == x.(keyExchange := z.keyExchange) && n <= 4) || (z == x.(hasCert := z.hasCert) && n <= 9)
    ensures Upto(x, n) == Upto(z, n)
  {
    hide Upto;
    SamePlaces(x, z, n);
  }

  lemma EarlyClientBound(s: Client.State, resumed: bool)
    requires ClientEarly(s)
    ensures Client.Bound(s, resumed) <= 4
  {
  }

  lemma SettlesKeyExchange(y: System, ch: Choice, x: Plan)
    requires OnPlan(y, x) && !ch.fails && y.server.state.SendServerCertificate?
    ensures OnPlan(y, Resettled(y, ServerCalls(ch), x))
  {
    hide Inv, Upto, ClientEarly;
    var z := Resettled(y, ServerCalls(ch), x);
    EarlyClientBound(y.client.state, x.p.resumed);
    SamePlanUpto(x, z, Client.Bound(y.client.state, x.p.resumed));
    SamePlanUpto(x, z, 2);
    hide Client.Bound;
  }

  lemma ServerNotBeyond(y: System, x: Plan)
    requires OnPlan(y, x) && y.client.state.SendClientCertificate? && Requests(x)
    ensures Server.Bound(y.server.state, x.p.resumed) <= 7
  {
    hide ClientRight, ServerRight, Contents, TurnAfter, Truthful, InTurn, CF.Settled, SF.Settled;
    var cc, sc := y.client.c, y.server.c;
    var n := Server.Bound(y.server.state, x.p.resumed);
    ClientHasTurn(y.client);
    NothingComing(cc, sc);
    assert |sc.log| <= |cc.log|;
    if n > 7 {
      hide Server.Bound, At;
      UptoGrows(x, 8, n);
      UptoNext(x, 7);
      CertificateDue(x);
    }
  }

  lemma CertificateDue(x: Plan)
    requires Requests(x)
    ensures At(x, 7) == [Tag(Certificate, false)]
  {
  }

  lemma ClientHasTurn(h: Client.Client)
    requires ClientRight(h) && h.state.SendClientCertificate?
    ensures TurnAfter(h.c.log) == ClientTurn
  {
  }

  lemma NoCertificateYet(x: Plan, z: Plan, log: seq<Msg>, resumed: bool)
    requires z == x.(hasCert := z.hasCert) && AllContents(x, log) && InOrder(log, resumed, 7)
    ensures AllContents(z, log)
  {
    forall i | 0 <= i < |log|
      ensures Contents(z, log[i])
    {
      assert Contents(x, log[i]) && Rank(resumed, log[i]) < 7;
    }
  }

  lemma OrderAt(y: System)
    requires Inv(y)
    ensures InOrder(y.client.c.log, y.client.p.resumed, Client.Bound(y.client.state, y.client.p.resumed))
    ensures InOrder(y.server.c.log, y.server.p.resumed, Server.Bound(y.server.state, y.server.p.resumed))
  {
  }

  lemma SameResumed(y: System, x: Plan)
    requires OnPlan(y, x)
    ensures !Client.BeforeHello(y.client.state) ==> y.client.p == x.p
    ensures !Server.BeforeHello(y.server.state) ==> y.server.p == x.p
    ensures Server.BeforeHello(y.server.state) ==> !y.server.p.resumed
  {
    ServerIsRight(y);
    hide Inv;
  }

  lemma ClientResettled(h: Client.Client, x: Plan, z: Plan)
    requires CF.ClientOn(h, x) && h.state.SendClientCertificate? && z == x.(hasCert := z.hasCert)
    ensures CF.ClientOn(h, z) && (h.certRequest ==> Requests(x) && !x.p.resumed)
  {
    hide Upto;
    SamePlanUpto(x, z, 7);
  }

  lemma ServerResettled(h: Server.Server, x: Plan, z: Plan)
    requires SF.ServerOn(h, x) && Server.Bound(h.state, x.p.resumed) <= 7 && !x.p.resumed
    requires z == x.(hasCert := z.hasCert)
    ensures SF.ServerOn(h, z)
  {
    hide Upto;
    SamePlanUpto(x, z, Server.Bound(h.state, false));
  }

  lemma SettlesCertificate(y: System, ch: Choice, x: Plan)
    requires OnPlan(y, x) && !ch.fails && y.client.state.SendClientCertificate? && y.client.certRequest
    ensures OnPlan(y, Resettled(y, ClientCalls(ch), x))
  {
    hide Inv, CF.ClientOn, SF.ServerOn, AllContents, ClientEarly, ServerEarly, InOrder;
    var z := Resettled(y, ClientCalls(ch), x);
    ClientResettled(y.client, x, z);
    ServerNotBeyond(y, x);
    ServerResettled(y.server, x, z);
    SameResumed(y, x);
    OrderAt(y);
    OrderSeven(y, x);
    NoCertificateYet(x, z, y.client.c.log, false);
    NoCertificateYet(x, z, y.server.c.log, false);
  }

  lemma OrderSeven(y: System, x: Plan)
    requires !x.p.resumed && !y.server.p.resumed && !y.client.p.resumed && y.client.state.SendClientCertificate?
    requires Server.Bound(y.server.state, false) <= 7
    requires InOrder(y.client.c.log, y.client.p.resumed, Client.Bound(y.client.state, y.client.p.resumed))
    requires InOrder(y.server.c.log, y.server.p.resumed, Server.Bound(y.server.state, y.server.p.resumed))
    ensures InOrder(y.client.c.log, false, 7) && InOrder(y.server.c.log, false, 7)
  {
    hide InOrder;
    OrderLater(y.server.c.log, false, Server.Bound(y.server.state, false), 7);
  }

  lemma ResettledFollows(y: System, e: Event, x: Plan)
    requires Unfailing(e)
    requires e.ServerCalls? && y.server.state.SendServerCertificate? ==> y.server.p == x.p
    ensures Follows(y, e, Resettled(y, e, x))
  {
  }

  /** Whatever the surroundings decide, short of failing, fits some plan. */
  lemma Resettles(y: System, e: Event, x: Plan)
    requires OnPlan(y, x) && Unfailing(e)
    ensures OnPlan(y, Resettled(y, e, x)) && Follows(y, e, Resettled(y, e, x))
  {
    SameResumed(y, x);
    ResettledFollows(y, e, x);
    hide OnPlan, Follows;
    match e
    case ServerCalls(ch) =>
      if y.server.state.SelectParameters? {
        SettlesParams(y, ch, x);
      } else if y.server.state.SendServerCertificate? {
        SettlesKeyExchange(y, ch, x);
      }
    case ClientCalls(ch) =>
      if y.client.state.SendClientCertificate? && y.client.certRequest {
        SettlesCertificate(y, ch, x);
      }
    case _ =>
  }

  lemma NextGoes(y: System, e: Event)
    requires Going(y) && Possible(y, e) && Unfailing(e)
    ensures Going(Next(y, e))
  {
    hide OnPlan, Next, Follows;
    var x: Plan :| OnPlan(y, x);
    Resettles(y, e, x);
    NextOnPlan(y, e, Resettled(y, e, x));
  }

  ghost predicate AllUnfailing(es: seq<Event>) {
    forall i :: 0 <= i < |es| ==> Unfailing(es[i])
  }

  lemma {:induction false} RunGoes(y: System, es: seq<Event>, z: System)
    requires Going(y) && Reaches(y, es, z) && AllUnfailing(es)
    ensures Going(z)
    decreases |es|
  {
    hide Going, Next, Unfailing;
    if es != [] {
      assert Unfailing(es[0]);
      NextGoes(y, es[0]);
      RunGoes(Next(y, es[0]), es[1..], z);
    }
  }

  /** A handshake fails only where something around it does: over any run in which no call is told to fail, in whatever
      order the sides are called and messages arrive, and whatever is settled, no state function returns an error. */
  lemma NeverFails(dtls: bool, es: seq<Event>, y: System)
    requires Reaches(Initial(dtls), es, y) && AllUnfailing(es)
    ensures !y.clientFailed && !y.serverFailed && Going(y)
  {
    hide Inv, Next, Unfailing, CF.ClientOn, SF.ServerOn;
    InitialOnPlan(dtls, Plan(NOTHING, false, false, false));
    RunGoes(Initial(dtls), es, y);
  }

  /** Where both are done, they have the same parameters, and what was sent is exactly one of the flows of the
      protocol. */
  lemma DoneFlow(y: System, x: Plan)
    requires OnPlan(y, x) && y.client.state.Done? && y.server.state.Done?
    ensures y.client.p == x.p == y.server.p
    ensures TagsOf(y.client.c.log) == Flow(x) == TagsOf(y.server.c.log)
  {
    hide Inv, Upto, Flow, AllContents;
    UptoEnd(x);
  }

  lemma DoneAlongFlow(dtls: bool, es: seq<Event>, y: System)
    requires Reaches(Initial(dtls), es, y) && AllUnfailing(es) && y.client.state.Done? && y.server.state.Done?
    ensures exists x: Plan ::
              y.client.p == x.p == y.server.p && TagsOf(y.client.c.log) == Flow(x) == TagsOf(y.server.c.log)
  {
    hide OnPlan, Reaches, Flow;
    NeverFails(dtls, es, y);
    var x: Plan :| OnPlan(y, x);
    DoneFlow(y, x);
  }

  // Every run ends ----------------------------------------------------------------------------------------------------

  /** What is left to do: states to go through, and messages to arrive. */
  function Left(y: System): nat {
    4 * C.StatesLeft(y.client.state, y.client.p.resumed) + 4 * S.StatesLeft(y.server.state, y.server.p.resumed)
    + |y.client.c.outbox| + |y.server.c.outbox|
  }

  lemma DoneStays(y: System, ch: Choice)
    ensures y.client.state.Done? ==> Client.Step(y.client, ch) == (y.client, Ok)
    ensures y.server.state.Done? ==> Server.Step(y.server, ch) == (y.server, Ok)
  {
  }

  lemma ClientLeavesLess(y: System, ch: Choice)
    requires Going(y) && !ch.fails && Possible(y, ClientCalls(ch))
    ensures Next(y, ClientCalls(ch)) == y || Left(Next(y, ClientCalls(ch))) < Left(y)
  {
    hide Client.Step, C.StatesLeft, S.StatesLeft, ClientTurnOf;
    NextGoes(y, ClientCalls(ch));
    StillGoing(y);
    StillGoing(Next(y, ClientCalls(ch)));
    hide Going;
    DoneStays(y, ch);
    if !y.client.state.Done? {
      ClientMoves(y.client, ch);
    }
  }

  lemma ServerLeavesLess(y: System, ch: Choice)
    requires Going(y) && !ch.fails && Possible(y, ServerCalls(ch))
    ensures Next(y, ServerCalls(ch)) == y || Left(Next(y, ServerCalls(ch))) < Left(y)
  {
    hide Server.Step, C.StatesLeft, S.StatesLeft, ServerTurnOf;
    NextGoes(y, ServerCalls(ch));
    StillGoing(y);
    StillGoing(Next(y, ServerCalls(ch)));
    hide Going;
    DoneStays(y, ch);
    if !y.server.state.Done? {
      ServerMoves(y.server, ch);
    }
  }

  lemma StillGoing(y: System)
    requires Going(y)
    ensures Inv(y) && !y.clientFailed && !y.serverFailed
  {
    hide Inv;
  }

  /** Any event that changes anything leaves less to do. */
  lemma NextLeavesLess(y: System, e: Event)
    requires Going(y) && Possible(y, e) && Unfailing(e) && Next(y, e) != y
    ensures Left(Next(y, e)) < Left(y)
  {
    hide Going, C.StatesLeft, S.StatesLeft, Client.Step, Server.Step;
    match e
    case ClientCalls(ch) => ClientLeavesLess(y, ch);
    case ServerCalls(ch) => ServerLeavesLess(y, ch);
    case _ =>
  }

  /** Every event of the run changes something. */
  ghost predicate Working(y: System, es: seq<Event>)
    decreases |es|
  {
    es == [] || (Possible(y, es[0]) && Next(y, es[0]) != y && Working(Next(y, es[0]), es[1..]))
  }

  /** No handshake goes on for ever: a run in which no call is told to fail and every event changes something has at
      most as many events as there was to do at its start. */
  lemma {:induction false} RunsEnd(y: System, es: seq<Event>, z: System)
    requires Going(y) && Reaches(y, es, z) && Working(y, es) && AllUnfailing(es)
    ensures |es| + Left(z) <= Left(y)
    decreases |es|
  {
    hide Going, Left, Next, Unfailing;
    if es != [] {
      assert Unfailing(es[0]);
      NextLeavesLess(y, es[0]);
      NextGoes(y, es[0]);
      RunsEnd(Next(y, es[0]), es[1..], z);
    }
  }

  /** The event is an arrival, or a call in which nothing fails and nothing has to be waited for but messages. */
  predicate Free(e: Event) {
    match e
    case ClientCalls(ch) => !ch.fails && !ch.blocks
    case ServerCalls(ch) => !ch.fails && !ch.blocks
    case _ => true
  }

  lemma ClientStuck(y: System, ch: Choice)
    requires Going(y) && !ch.fails && !ch.blocks && Possible(y, ClientCalls(ch)) && Next(y, ClientCalls(ch)) == y
    ensures y.client.state.Done?
            || (y.client.c.inbox == [] && ClientTurnOf(y.client.state, y.client.p.resumed) == ServerTurn)
  {
    hide Client.Step, C.StatesLeft, OnPlan, ClientTurnOf;
    StillGoing(y);
    NextGoes(y, ClientCalls(ch));
    if !y.client.state.Done? {
      ClientMoves(y.client, ch);
    }
  }

  lemma ServerStuck(y: System, ch: Choice)
    requires Going(y) && !ch.fails && !ch.blocks && Possible(y, ServerCalls(ch)) && Next(y, ServerCalls(ch)) == y
    ensures y.server.state.Done? || (y.server.c.inbox == [] && ServerTurnOf(y.server.state) == ClientTurn)
  {
    hide Server.Step, S.StatesLeft, OnPlan, ServerTurnOf;
    StillGoing(y);
    NextGoes(y, ServerCalls(ch));
    if !y.server.state.Done? {
      ServerMoves(y.server, ch);
    }
  }

  /** Two sides that wait for each other with nothing on its way would each hold the log to be the other's turn. */
  lemma NobodyWaits(y: System)
    requires Inv(y) && y.client.c.outbox == [] && y.server.c.outbox == []
    requires y.client.state.Done?
             || (y.client.c.inbox == [] && ClientTurnOf(y.client.state, y.client.p.resumed) == ServerTurn)
    requires y.server.state.Done? || (y.server.c.inbox == [] && ServerTurnOf(y.server.state) == ClientTurn)
    ensures y.client.state.Done? && y.server.state.Done?
  {
    hide Truthful, InTurn, TurnAfter, ResumedIn, Client.Disciplined, Server.Disciplined;
    var cc, sc := y.client.c, y.server.c;
    NothingComing(cc, sc);
    assert Pending(cc, sc) == [] && Pending(sc, cc) == [];
    assert cc.log + [] == cc.log && sc.log + [] == sc.log;
  }

  /** A handshake in which no event changes anything any more is over on both sides: it cannot get stuck. */
  lemma StuckIsDone(y: System)
    requires Going(y)
    requires forall e: Event :: Possible(y, e) && Free(e) ==> Next(y, e) == y
    ensures y.client.state.Done? && y.server.state.Done?
  {
    StillGoing(y);
    var ch := Choice(false, false, 0, false, NOTHING);
    hide Inv, OnPlan, Client.Step, Server.Step, Going;
    ArrivalChanges(y, ToServer);
    ArrivalChanges(y, ToClient);
    hide Next;
    assert !Possible(y, ToServer) && !Possible(y, ToClient) by {
      assert Free(ToServer) && Free(ToClient);
    }
    assert Free(ClientCalls(ch)) && Free(ServerCalls(ch));
    assert Next(y, ClientCalls(ch)) == y && Next(y, ServerCalls(ch)) == y;
    ClientStuck(y, ch);
    ServerStuck(y, ch);
    NobodyWaits(y);
  }

  // Every plan is carried out -----------------------------------------------------------------------------------------

  /** What the client's surroundings decide to carry out the plan, and what the server's do. */
  function ClientChoice(x: Plan): Choice {
    Choice(false, false, 0, x.hasCert, x.p)
  }

  function ServerChoice(h: Server.Server, x: Plan): Choice {
    Choice(false, false, 0, if h.state.SelectParameters? then x.request else x.keyExchange, x.p)
  }

  lemma ChoicesFollow(y: System, x: Plan)
    requires OnPlan(y, x)
    ensures Follows(y, ClientCalls(ClientChoice(x)), x) && Follows(y, ServerCalls(ServerChoice(y.server, x)), x)
  {
    SameResumed(y, x);
  }

  /** From anywhere on its way, a handshake goes on to its end: each call, or each arrival, that can change something is
      followed by the next. */
  lemma {:induction false} Completes(y: System, x: Plan) returns (es: seq<Event>, z: System)
    requires OnPlan(y, x)
    ensures Reaches(y, es, z) && OnPlan(z, x)
    ensures z.client.state.Done? && z.server.state.Done?
    ensures forall i :: 0 <= i < |es| ==> Free(es[i])
    decreases Left(y)
  {
    hide OnPlan, Next, Follows, Left;
    assert Going(y);
    StillGoing(y);
    var e: Event;
    ChoicesFollow(y, x);
    if y.client.c.outbox != [] {
      e := ToServer;
    } else if y.server.c.outbox != [] {
      e := ToClient;
    } else if Next(y, ClientCalls(ClientChoice(x))) != y {
      e := ClientCalls(ClientChoice(x));
    } else if Next(y, ServerCalls(ServerChoice(y.server, x))) != y {
      e := ServerCalls(ServerChoice(y.server, x));
    } else {
      ClientStuck(y, ClientChoice(x));
      ServerStuck(y, ServerChoice(y.server, x));
      NobodyWaits(y);
      return [], y;
    }
    assert Follows(y, e, x) by {
      ArrivalsFollow(y, e, x);
    }
    ArrivalChanges(y, e);
    NextLeavesLess(y, e);
    NextOnPlan(y, e, x);
    var rest: seq<Event>;
    rest, z := Completes(Next(y, e), x);
    ReachesOne(y, e, rest, z);
    es := [e] + rest;
  }

  lemma ArrivalsFollow(y: System, e: Event, x: Plan)
    ensures e.ToServer? || e.ToClient? ==> Follows(y, e, x)
  {
  }

  lemma ArrivalChanges(y: System, e: Event)
    ensures (e.ToServer? || e.ToClient?) && Possible(y, e) ==> Next(y, e) != y
  {
    if e.ToServer? && Possible(y, e) {
      assert Next(y, e).client.c != y.client.c;
    }
    if e.ToClient? && Possible(y, e) {
      assert Next(y, e).server.c != y.server.c;
    }
  }

  /** Whatever is settled, a full handshake or a resumed one with any of the optional messages, there is a run from the
      start to where both are done, with the same parameters, and what was sent is exactly the flow of that
      handshake. */
  lemma EveryPlanCompletes(dtls: bool, x: Plan) returns (es: seq<Event>, z: System)
    ensures Reaches(Initial(dtls), es, z) && forall i :: 0 <= i < |es| ==> Free(es[i])
    ensures z.client.state.Done? && z.server.state.Done? && z.client.p == x.p == z.server.p
    ensures TagsOf(z.client.c.log) == Flow(x) == TagsOf(z.server.c.log)
  {
    hide OnPlan, Reaches, Flow;
    InitialOnPlan(dtls, x);
    es, z := Completes(Initial(dtls), x);
    DoneFlow(z, x);
  }
}