/** A client and a server joined by two in-order channels: they agree on the transcript (RFC 5246, section 7.4.9). */
module TlsHandshake {
  import opened Wrappers
  import opened TlsTranscript
  import opened TlsPair
  import opened TlsClientTurns
  import opened TlsServerTurns
  import Client = TlsClient
  import Server = TlsServer

  datatype System = System(client: Client.Client, server: Server.Server, clientFailed: bool, serverFailed: bool)

  function Initial(dtls: bool): System {
    System(Client.Start(dtls), Server.START, false, false)
  }

  /** Either side calls its state function, whatever it was waiting for, or a message arrives. */
  datatype Event = ClientCalls(ch: Choice) | ServerCalls(ch: Choice) | ToServer | ToClient

  predicate Possible(y: System, e: Event) {
    match e
    case ClientCalls(_) => !y.clientFailed
    case ServerCalls(_) => !y.serverFailed
    case ToServer => y.client.c.outbox != []
    case ToClient => y.server.c.outbox != []
  }

  function Arrived(to: Conn, from: Conn): Conn
    requires from.outbox != []
  {
    to.(inbox := to.inbox + [from.outbox[0]])
  }

  function Departed(from: Conn): Conn
    requires from.outbox != []
  {
    from.(outbox := from.outbox[1..])
  }

  function Next(y: System, e: Event): System
    requires Possible(y, e)
  {
    match e
    case ClientCalls(ch) =>
      var (g, wait) := Client.Step(y.client, ch);
      if wait.Error? then y.(clientFailed := true) else y.(client := g)
    case ServerCalls(ch) =>
      var (g, wait) := Server.Step(y.server, ch);
      if wait.Error? then y.(serverFailed := true) else y.(server := g)
    case ToServer =>
      y.(server := y.server.(c := Arrived(y.server.c, y.client.c)), client := y.client.(c := Departed(y.client.c)))
    case ToClient =>
      y.(client := y.client.(c := Arrived(y.client.c, y.server.c)), server := y.server.(c := Departed(y.server.c)))
  }

  ghost predicate Inv(y: System) {
    ClientRight(y.client) && ServerRight(y.server) && Paired(y.client.c, y.server.c)
  }

  lemma InitialInv(dtls: bool)
    ensures Inv(Initial(dtls))
  {
  }

  /** This server sends no HelloVerifyRequest. */
  lemma NoHelloVerify(y: System)
    requires Inv(y) && y.client.c.inbox != []
    ensures y.client.c.inbox[0].kind != HelloVerifyRequest
  {
    hide TurnAfter, ResumedIn, Truthful, InTurn, Server.Flags;
    var cc, sc := y.client.c, y.server.c;
    ClientReads(cc, sc, Consume(cc));
    assert Rank(y.server.p.resumed, sc.log[|cc.log|]) < 15;
  }

  lemma ClientMailKeeps(h: Client.Client, m: Msg)
    requires ClientRight(h) && m.fromServer
    ensures ClientRight(h.(c := h.c.(inbox := h.c.inbox + [m])))
    ensures h.c.outbox != [] ==> ClientRight(h.(c := Departed(h.c)))
  {
    hide InOrder, TurnAfter, ResumedIn;
  }

  lemma ServerMailKeeps(h: Server.Server, m: Msg)
    requires ServerRight(h) && !m.fromServer
    ensures ServerRight(h.(c := h.c.(inbox := h.c.inbox + [m])))
    ensures h.c.outbox != [] ==> ServerRight(h.(c := Departed(h.c)))
  {
    hide InOrder, TurnAfter, ResumedIn;
  }

  lemma ArrivesAtServer(y: System)
    requires Inv(y) && y.client.c.outbox != []
    ensures Inv(Next(y, ToServer))
  {
    hide TurnAfter, Truthful, InTurn, ClientRight, ServerRight;
    var m := y.client.c.outbox[0];
    var p := Pending(y.server.c, y.client.c);
    Moves(y.server.c, y.client.c);
    assert p[|y.server.c.inbox|] == m;
    ClientMailKeeps(y.client, m.(fromServer := true));
    ServerMailKeeps(y.server, m);
  }

  lemma ArrivesAtClient(y: System)
    requires Inv(y) && y.server.c.outbox != []
    ensures Inv(Next(y, ToClient))
  {
    hide TurnAfter, Truthful, InTurn, ClientRight, ServerRight;
    var m := y.server.c.outbox[0];
    var p := Pending(y.client.c, y.server.c);
    Moves(y.client.c, y.server.c);
    assert p[|y.client.c.inbox|] == m;
    ServerMailKeeps(y.server, m.(fromServer := false));
    ClientMailKeeps(y.client, m);
  }

  lemma NextKeepsInv(y: System, e: Event)
    requires Inv(y) && Possible(y, e)
    ensures Inv(Next(y, e))
  {
    hide ClientRight, ServerRight, Paired, Client.Step, Server.Step;
    match e
    case ClientCalls(ch) => {
      if y.client.c.inbox != [] {
        NoHelloVerify(y);
      }
      ClientStepGood(y.client, ch, y.server.c);
    }
    case ServerCalls(ch) => ServerStepGood(y.server, ch, y.client.c);
    case ToServer => ArrivesAtServer(y);
    case ToClient => ArrivesAtClient(y);
  }

  ghost predicate Reaches(y: System, es: seq<Event>, z: System)
    decreases |es|
  {
    if es == [] then y == z else Possible(y, es[0]) && Reaches(Next(y, es[0]), es[1..], z)
  }

  lemma {:induction false} RunKeepsInv(y: System, es: seq<Event>, z: System)
    requires Inv(y) && Reaches(y, es, z)
    ensures Inv(z)
    decreases |es|
  {
    hide Inv, Next;
    if es != [] {
      NextKeepsInv(y, es[0]);
      RunKeepsInv(Next(y, es[0]), es[1..], z);
    }
  }

  lemma ReachedInv(dtls: bool, es: seq<Event>, y: System)
    requires Reaches(Initial(dtls), es, y)
    ensures Inv(y)
  {
    hide Inv, Next;
    InitialInv(dtls);
    RunKeepsInv(Initial(dtls), es, y);
  }

  lemma LogIsFront(cc: Conn, sc: Conn)
    requires Paired(cc, sc)
    ensures |cc.log| <= |sc.log| ==> sc.log[..|cc.log|] == cc.log
    ensures |sc.log| <= |cc.log| ==> cc.log[..|sc.log|] == sc.log
  {
    hide TurnAfter, Truthful, InTurn;
    if |cc.log| <= |sc.log| {
      assert sc.log == cc.log + Pending(cc, sc);
    }
    if |sc.log| <= |cc.log| {
      assert cc.log == sc.log + Pending(sc, cc);
    }
  }

  lemma SidesFaithful(y: System)
    requires Inv(y)
    ensures Faithful(y.client.c) && Faithful(y.server.c)
    ensures y.client.state.ReadServerFinished? || y.client.state.Done? ==> y.client.c.hash.Some?
    ensures y.server.state.ReadClientFinished? || y.server.state.Done? ==> y.server.c.hash.Some?
    ensures InOrder(y.client.c.log, y.client.p.resumed, 15) && InOrder(y.server.c.log, y.server.p.resumed, 15)
  {
    hide TurnAfter, ResumedIn, Truthful, InTurn, Paired;
    OrderLater(y.client.c.log, y.client.p.resumed, Client.Bound(y.client.state, y.client.p.resumed), 15);
    OrderLater(y.server.c.log, y.server.p.resumed, Server.Bound(y.server.state, y.server.p.resumed), 15);
  }

  // What follows for every run ---------------------------------------------------------------------------------------

  /** Each side's running hash is over exactly the messages it has sent and consumed, in handshake order, and one side's
      are the first of the other's. */
  lemma TranscriptsAgree(dtls: bool, es: seq<Event>, y: System)
    requires Reaches(Initial(dtls), es, y)
    ensures Faithful(y.client.c) && Faithful(y.server.c)
    ensures InOrder(y.client.c.log, y.client.p.resumed, 15) && InOrder(y.server.c.log, y.server.p.resumed, 15)
    ensures y.client.c.log <= y.server.c.log || y.server.c.log <= y.client.c.log
  {
    ReachedInv(dtls, es, y);
    hide Reaches, ClientRight, ServerRight, Paired, Faithful, InOrder;
    SidesFaithful(y);
    LogIsFront(y.client.c, y.server.c);
  }

  /** The transcript over which the client checks the server's Finished is the one over which the server computed it, so
      the check succeeds. */
  lemma ServerFinishedAgrees(dtls: bool, es: seq<Event>, y: System)
    requires Reaches(Initial(dtls), es, y)
    requires y.client.state.ReadServerFinished? && y.client.c.inbox != [] && y.client.c.inbox[0].kind == Finished
    ensures var n := |y.client.c.log|;
            && n < |y.server.c.log| && y.server.c.log[n] == y.client.c.inbox[0]
            && y.client.c.hash == Some(y.server.c.log[..n])
            && y.server.c.log[n].body == Mac(true, y.server.c.log[..n])
    ensures CheckFinished(y.client.c, true).Some?
  {
    ReachedInv(dtls, es, y);
    hide Reaches, ClientRight, ServerRight, TurnAfter, Truthful, InTurn, InOrder;
    var cc, sc := y.client.c, y.server.c;
    assert Pending(cc, sc)[0] == cc.inbox[0];
    ClientReads(cc, sc, Consume(cc));
    LogIsFront(cc, sc);
    SidesFaithful(y);
  }

  /** The same the other way round. */
  lemma ClientFinishedAgrees(dtls: bool, es: seq<Event>, y: System)
    requires Reaches(Initial(dtls), es, y)
    requires y.server.state.ReadClientFinished? && y.server.c.inbox != [] && y.server.c.inbox[0].kind == Finished
    ensures var n := |y.server.c.log|;
            && n < |y.client.c.log| && y.client.c.log[n] == y.server.c.inbox[0]
            && y.server.c.hash == Some(y.client.c.log[..n])
            && y.client.c.log[n].body == Mac(false, y.client.c.log[..n])
    ensures CheckFinished(y.server.c, false).Some?
  {
    ReachedInv(dtls, es, y);
    hide Reaches, ClientRight, ServerRight, TurnAfter, Truthful, InTurn, InOrder;
    var cc, sc := y.client.c, y.server.c;
    assert Pending(sc, cc)[0] == sc.inbox[0];
    ServerReads(cc, sc, Consume(sc));
    LogIsFront(cc, sc);
    SidesFaithful(y);
  }

  /** A CertificateVerify is checked over the transcript that was signed: unless something else fails, it is
      accepted. */
  lemma CertificateVerifyAgrees(dtls: bool, es: seq<Event>, y: System, ch: Choice)
    requires Reaches(Initial(dtls), es, y) && !ch.fails
    requires y.server.state.ReadClientCertificateVerify? && y.server.peerKey
    requires y.server.c.inbox != [] && y.server.c.inbox[0].kind == CertificateVerify
    ensures Server.Step(y.server, ch).1.Ok?
  {
    ReachedInv(dtls, es, y);
    hide TurnAfter, ResumedIn, InOrder, Reaches;
    var cc, sc := y.client.c, y.server.c;
    ServerReads(cc, sc, Consume(sc));
    Server.VerifyChecksTranscript(y.server, ch);
  }

  /** When both sides are done, both have hashed the same messages, and nothing is on its way. */
  lemma DoneAgrees(dtls: bool, es: seq<Event>, y: System)
    requires Reaches(Initial(dtls), es, y) && y.client.state.Done? && y.server.state.Done?
    ensures y.client.c.log == y.server.c.log && y.client.c.hash == y.server.c.hash == Some(y.client.c.log)
    ensures Pending(y.client.c, y.server.c) == [] && Pending(y.server.c, y.client.c) == []
  {
    ReachedInv(dtls, es, y);
    hide Reaches, TurnAfter, Truthful, InTurn, InOrder, ClientRight, ServerRight, Faithful;
    DoneTurns(y.client, y.server);
    NothingComing(y.client.c, y.server.c);
    SidesFaithful(y);
    DoneHashes(y.client.c);
    DoneHashes(y.server.c);
    assert y.client.c.log + [] == y.client.c.log && y.server.c.log + [] == y.server.c.log;
  }

  lemma DoneTurns(client: Client.Client, server: Server.Server)
    requires ClientRight(client) && client.state.Done? && ServerRight(server) && server.state.Done?
    ensures TurnAfter(client.c.log) == NobodysTurn == TurnAfter(server.c.log)
  {
  }

  lemma DoneHashes(c: Conn)
    requires Faithful(c) && c.hash.Some?
    ensures c.hash == Some(c.log)
  {
  }
}
