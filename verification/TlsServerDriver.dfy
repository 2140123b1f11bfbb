/** The server's state functions as a machine to drive: each one that returns `Ok` goes on to a later state. */
module TlsServerDriver {
  import opened Wrappers
  import opened TlsTranscript
  import opened TlsDriver
  import opened TlsServer

  /** How far the handshake is from its end; each `Ok` brings it nearer. */
  function StatesLeft(s: State, resumed: bool): nat {
    match s
    case StartAccept => 30
    case ReadClientHello => 29
    case SelectCertificate => 28
    case SelectParameters => 27
    case SendServerHello => 26
    case SendServerCertificate => 25
    case SendServerKeyExchange => 24
    case SendServerHelloDone => 23
    case ReadClientCertificate => 22
    case VerifyClientCertificate => 21
    case ReadClientKeyExchange => 20
    case ReadClientCertificateVerify => 19
    case ReadingChangeCipherSpec => 18
    case ProcessChangeCipherSpec => 17
    case ReadNextProto => 16
    case ReadChannelId => 15
    case ReadClientFinished => 14
    case SendServerFinished => if resumed then 25 else 13
    case FinishServerHandshake => 2
    case Done => 1
  }

  ghost predicate Nearer(h: Server, r: (Server, Wait)) {
    r.1.Ok? ==> StatesLeft(r.0.state, r.0.p.resumed) < StatesLeft(h.state, h.p.resumed)
  }

  lemma ExpectNearer(h: Server, kind: Kind, ch: Choice, pending: Wait, next: State)
    requires StatesLeft(next, h.p.resumed) < StatesLeft(h.state, h.p.resumed)
    ensures Nearer(h, Expect(h, kind, ch, pending, next))
  {
  }

  lemma HellosNearer(h: Server, ch: Choice)
    requires BeforeHello(h.state)
    ensures Nearer(h, Step(h, ch))
  {
    hide Update, Consume, InitHash, FreeBuffer;
  }

  lemma SendsNearer(h: Server, ch: Choice)
    requires h.state.SendServerHello? || h.state.SendServerCertificate? || h.state.SendServerKeyExchange?
    ensures Nearer(h, Step(h, ch))
  {
    hide Send, SendIf;
  }

  /** States that end a flight do not return `Ok`. */
  lemma FlightEnds(h: Server, ch: Choice)
    requires h.state.SendServerHelloDone? || h.state.SendServerFinished?
    ensures Nearer(h, Step(h, ch))
  {
    hide Send, SendIf, SendFinished;
  }

  lemma ReadsNearer(h: Server, ch: Choice)
    requires h.state.ReadClientCertificate? || h.state.ReadClientKeyExchange? || h.state.ReadNextProto?
             || h.state.ReadChannelId?
    ensures Nearer(h, Step(h, ch))
  {
    hide Expect;
    match h.state
    case ReadClientCertificate => ExpectNearer(h, Certificate, ch, Ok, VerifyClientCertificate);
    case ReadClientKeyExchange =>
      ExpectNearer(h, ClientKeyExchange, ch, PrivateKeyOperation, ReadClientCertificateVerify);
    case ReadNextProto => ExpectNearer(h, NextProto, ch, Ok, ReadChannelId);
    case ReadChannelId => ExpectNearer(h, ChannelId, ch, Ok, ReadClientFinished);
  }

  lemma EndsNearer(h: Server, ch: Choice)
    requires h.state.VerifyClientCertificate? || h.state.ReadClientCertificateVerify?
             || h.state.ReadingChangeCipherSpec?
             || h.state.ProcessChangeCipherSpec? || h.state.FinishServerHandshake?
    ensures Nearer(h, Step(h, ch))
  {
    hide Read;
  }

  lemma FinishedNearer(h: Server, ch: Choice)
    requires h.state.ReadClientFinished?
    ensures Nearer(h, DoReadClientFinished(h, ch))
  {
    hide CheckFinished;
  }

  /** A state function that returns `Ok` goes on to a later state. */
  lemma OkGoesOn(h: Server, ch: Choice)
    requires !h.state.Done?
    ensures Nearer(h, Step(h, ch))
  {
    hide Nearer, DoReadClientFinished;
    match h.state
    case ReadClientCertificate => ReadsNearer(h, ch);
    case ReadClientKeyExchange => ReadsNearer(h, ch);
    case ReadNextProto => ReadsNearer(h, ch);
    case ReadChannelId => ReadsNearer(h, ch);
    case VerifyClientCertificate => EndsNearer(h, ch);
    case ReadClientCertificateVerify => EndsNearer(h, ch);
    case ReadingChangeCipherSpec => EndsNearer(h, ch);
    case ProcessChangeCipherSpec => EndsNearer(h, ch);
    case FinishServerHandshake => EndsNearer(h, ch);
    case ReadClientFinished => FinishedNearer(h, ch);
    case SendServerHelloDone => FlightEnds(h, ch);
    case SendServerFinished => FlightEnds(h, ch);
    case SendServerHello => SendsNearer(h, ch);
    case SendServerCertificate => SendsNearer(h, ch);
    case SendServerKeyExchange => SendsNearer(h, ch);
    case _ => HellosNearer(h, ch);
  }

  /** What `ssl->do_handshake` is on the server side. */
  function ServerMachine(): Machine<Server> {
    Machine((h: Server, ch: Choice) => Step(h, ch),
            (h: Server) => h.state.Done?,
            (h: Server) => StatesLeft(h.state, h.p.resumed),
            (h: Server, ms: seq<Msg>) => h.(c := h.c.(inbox := h.c.inbox + ms)))
  }

  lemma ServerProgresses()
    ensures Progresses(ServerMachine())
  {
    hide Step, StatesLeft;
    forall h: Server, ch: Choice | !h.state.Done? && Step(h, ch).1.Ok?
      ensures ServerMachine().left(Step(h, ch).0) < ServerMachine().left(h)
    {
      OkGoesOn(h, ch);
    }
  }

  lemma ServerKeeps()
    ensures Keeps(ServerMachine(), (h: Server) => Disciplined(h), false)
  {
    hide Step, StatesLeft;
    forall h: Server, ch: Choice | Disciplined(h) && !Step(h, ch).1.Error?
      ensures Disciplined(Step(h, ch).0)
    {
      StepDisciplined(h, ch);
    }
  }

  /** `ssl_server_handshake`. */
  ghost function ServerDrive(h: Server, choices: nat -> Choice, n: nat): (Server, Wait) {
    ServerProgresses();
    Drive(ServerMachine(), h, choices, n)
  }

  /** `ssl_run_handshake` on this side. */
  ghost function ServerRun(h: Server, w: Wait, first: nat -> Choice, s: seq<Resolution>): Outcome<Server> {
    ServerProgresses();
    Run(ServerMachine(), h, w, first, s)
  }

  /** Whatever the schedule, a call keeps the transcript disciplined unless it fails; a failure is told again without
      touching the handshake. */
  lemma ServerRunDisciplined(h: Server, w: Wait, first: nat -> Choice, s: seq<Resolution>)
    requires (w.Error? || Disciplined(h)) && SentBy(s, false)
    ensures var o := ServerRun(h, w, first, s);
            && (o.wait.Error? || Disciplined(o.h))
            && (w.Error? ==> o == Outcome(h, w, -1))
            && (o.ret == 1 ==> o.wait.Ok?)
  {
    hide Run, Disciplined;
    ServerProgresses();
    ServerKeeps();
    RunKeeps(ServerMachine(), (h: Server) => Disciplined(h), false, h, w, first, s);
  }
}
