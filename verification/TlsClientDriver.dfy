/** The client's state functions as a machine to drive: each one that returns `Ok` goes on to a later state. */
module TlsClientDriver {
  import opened Wrappers
  import opened TlsTranscript
  import opened TlsDriver
  import opened TlsClient

  /** How far the handshake is from its end; each `Ok` brings it nearer. */
  function StatesLeft(s: State, resumed: bool): nat {
    match s
    case StartConnect => 30
    case EnterEarlyData => 29
    case ReadHelloVerifyRequest => 28
    case ReadingServerHello => 27
    case ReadServerCertificate => 26
    case ReadCertificateStatus => 25
    case VerifyServerCertificate => 24
    case ReadServerKeyExchange => 23
    case ReadCertificateRequest => 22
    case ReadServerHelloDone => 21
    case SendClientCertificate => 20
    case SendClientKeyExchange => 19
    case SendClientCertificateVerify => 18
    case SendClientFinished => if resumed then 5 else 17
    case FinishFlight => if resumed then 4 else 16
    case ReadSessionTicket => 15
    case ProcessChangeCipherSpec => 14
    case ReadServerFinished => 13
    case FinishClientHandshake => 2
    case Done => 1
  }

  ghost predicate Nearer(h: Client, r: (Client, Wait)) {
    r.1.Ok? ==> StatesLeft(r.0.state, r.0.p.resumed) < StatesLeft(h.state, h.p.resumed)
  }

  lemma ExpectNearer(h: Client, kind: Kind, ch: Choice, next: State)
    requires StatesLeft(next, h.p.resumed) < StatesLeft(h.state, h.p.resumed)
    ensures Nearer(h, Expect(h, kind, ch, next))
  {
  }

  lemma HellosNearer(h: Client, ch: Choice)
    requires BeforeHello(h.state)
    ensures Nearer(h, Step(h, ch))
  {
    hide Read, Send, Consume, Update, Reset, Expect, DoSendFinished, DoReadSessionTicket,
         DoReadServerFinished, DoSendClientCertificate, DoSendCertificateVerify;
  }

  lemma FlightNearer(h: Client, ch: Choice)
    requires FullFlight(h.state) || h.state.ReadServerHelloDone?
    ensures Nearer(h, Step(h, ch))
  {
    hide Expect, DoReadHelloVerifyRequest, DoReadServerHello, DoSendClientCertificate,
         DoSendCertificateVerify, DoSendFinished, DoReadSessionTicket, DoReadServerFinished;
    match h.state
    case ReadServerCertificate => ExpectNearer(h, Certificate, ch, ReadCertificateStatus);
    case ReadCertificateStatus => ExpectNearer(h, CertificateStatus, ch, VerifyServerCertificate);
    case VerifyServerCertificate => {
    }
    case ReadServerKeyExchange => ExpectNearer(h, ServerKeyExchange, ch, ReadCertificateRequest);
    case ReadCertificateRequest => ExpectNearer(h, CertificateRequest, ch, ReadServerHelloDone);
    case ReadServerHelloDone => ExpectNearer(h, ServerHelloDone, ch, SendClientCertificate);
  }

  lemma SendsNearer(h: Client, ch: Choice)
    requires AwaitsVerify(h.state) && !h.state.ReadServerHelloDone?
    ensures Nearer(h, Step(h, ch))
  {
    hide Send, Update, Expect, DoReadHelloVerifyRequest, DoReadServerHello, DoSendFinished,
         DoReadSessionTicket, DoReadServerFinished;
  }

  lemma EndsNearer(h: Client, ch: Choice)
    requires h.state.FinishFlight? || h.state.ProcessChangeCipherSpec? || h.state.FinishClientHandshake?
    ensures Nearer(h, Step(h, ch))
  {
    hide Expect, DoReadHelloVerifyRequest, DoReadServerHello, DoSendClientCertificate,
         DoSendCertificateVerify, DoSendFinished, DoReadSessionTicket, DoReadServerFinished;
  }

  lemma FinishedNearer(h: Client, ch: Choice)
    requires h.state.ReadServerFinished?
    ensures Nearer(h, DoReadServerFinished(h))
  {
    hide CheckFinished;
  }

  lemma SendNotOk(h: Client, ch: Choice)
    ensures !DoSendFinished(h, ch).1.Ok?
  {
    hide SendIf, SendFinished;
  }

  lemma TicketNearer(h: Client, ch: Choice)
    requires h.state.ReadSessionTicket?
    ensures !DoReadSessionTicket(h, ch).1.Ok?
  {
  }

  /** A state function that returns `Ok` goes on to a later state. */
  lemma OkGoesOn(h: Client, ch: Choice)
    requires !h.state.Done?
    ensures Nearer(h, Step(h, ch))
  {
    hide Nearer;
    if BeforeHello(h.state) {
      HellosNearer(h, ch);
    } else if FullFlight(h.state) || h.state.ReadServerHelloDone? {
      FlightNearer(h, ch);
    } else if AwaitsVerify(h.state) {
      SendsNearer(h, ch);
    } else if h.state.ReadSessionTicket? || h.state.ReadServerFinished? || h.state.SendClientFinished? {
      LastNearer(h, ch);
    } else {
      EndsNearer(h, ch);
    }
  }

  lemma LastNearer(h: Client, ch: Choice)
    requires h.state.ReadSessionTicket? || h.state.ReadServerFinished? || h.state.SendClientFinished?
    ensures Nearer(h, Step(h, ch))
  {
    hide DoReadSessionTicket, DoReadServerFinished, DoSendFinished;
    match h.state
    case ReadSessionTicket => TicketNearer(h, ch);
    case ReadServerFinished => FinishedNearer(h, ch);
    case SendClientFinished => SendNotOk(h, ch);
  }

  /** What `ssl->do_handshake` is on the client side. */
  function ClientMachine(): Machine<Client> {
    Machine((h: Client, ch: Choice) => Step(h, ch),
            (h: Client) => h.state.Done?,
            (h: Client) => StatesLeft(h.state, h.p.resumed),
            (h: Client, ms: seq<Msg>) => h.(c := h.c.(inbox := h.c.inbox + ms)))
  }

  lemma ClientProgresses()
    ensures Progresses(ClientMachine())
  {
    hide Step, StatesLeft;
    forall h: Client, ch: Choice | !h.state.Done? && Step(h, ch).1.Ok?
      ensures ClientMachine().left(Step(h, ch).0) < ClientMachine().left(h)
    {
      OkGoesOn(h, ch);
    }
  }

  lemma ClientKeeps()
    ensures Keeps(ClientMachine(), (h: Client) => Disciplined(h), true)
  {
    hide Step, StatesLeft;
    forall h: Client, ch: Choice | Disciplined(h) && !Step(h, ch).1.Error?
      ensures Disciplined(Step(h, ch).0)
    {
      StepDisciplined(h, ch);
    }
  }

  /** `ssl_client_handshake`. */
  ghost function ClientDrive(h: Client, choices: nat -> Choice, n: nat): (Client, Wait) {
    ClientProgresses();
    Drive(ClientMachine(), h, choices, n)
  }

  /** `ssl_run_handshake` on this side. */
  ghost function ClientRun(h: Client, w: Wait, first: nat -> Choice, s: seq<Resolution>): Outcome<Client> {
    ClientProgresses();
    Run(ClientMachine(), h, w, first, s)
  }

  /** Whatever the schedule, a call keeps the transcript disciplined unless it fails; a failure is told again without
      touching the handshake. */
  lemma ClientRunDisciplined(h: Client, w: Wait, first: nat -> Choice, s: seq<Resolution>)
    requires (w.Error? || Disciplined(h)) && SentBy(s, true)
    ensures var o := ClientRun(h, w, first, s);
            && (o.wait.Error? || Disciplined(o.h))
            && (w.Error? ==> o == Outcome(h, w, -1))
            && (o.ret == 1 ==> o.wait.Ok?)
  {
    hide Run, Disciplined;
    ClientProgresses();
    ClientKeeps();
    RunKeeps(ClientMachine(), (h: Client) => Disciplined(h), true, h, w, first, s);
  }
}
