/** The client handshake as it runs: state functions that update SSL_HANDSHAKE in place, and the loops around them
    (handshake_client.cc, handshake.cc). */
module TlsClientMachine {
  import opened Wrappers
  import opened TlsTranscript
  import opened TlsConnection
  import opened TlsClient
  import opened TlsClientDriver
  import opened TlsClientSteps
  import opened TlsDriver

  class ClientHandshake {
    const c: Connection
    const dtls: bool
    var state: State
    var p: Params
    var certRequest: bool
    var hasCert: bool
    var ticketExpected: bool
    var wait: Wait

    ghost function View(): Client
      reads this, c
    {
      Client(state, c.View(), dtls, p, certRequest, hasCert, ticketExpected)
    }

    ghost predicate Valid()
      reads this, c
    {
      wait.Error? || Disciplined(View())
    }

    constructor (dtls: bool)
      ensures Valid() && View() == Start(dtls) && wait == Ok && fresh(c)
    {
      c := new Connection();
      this.dtls := dtls;
      state, p, certRequest, hasCert, ticketExpected, wait := StartConnect, NOTHING, false, false, false, Ok;
      new;
      StartDisciplined(dtls);
    }

    /** Reads one message of the kind expected, hashes and releases it. */
    method ReadExpected(kind: Kind, ch: Choice, next: State) returns (ret: Wait)
      modifies this`state, c
      ensures (View(), ret) == Expect(old(View()), kind, ch, next)
      ensures if ret.Ok? then Consumed(old(c.View()), c.View(), kind) else View() == old(View())
      ensures ret.ReadMessage? <==> old(c.inbox) == []
    {
      var m := c.GetMessage();
      if m.None? {
        return ReadMessage;
      }
      if m.value.kind != kind || ch.fails {
        return Error;
      }
      c.TakeMessage();
      state := next;
      ret := Ok;
    }

    method StartConnecting(ch: Choice) returns (ret: Wait)
      requires Disciplined(View()) && state.StartConnect?
      modifies this`state, c
      ensures (View(), ret) == DoStartConnect(old(View()), ch)
      ensures Kept((View(), ret)) && Patient(old(View()), View(), ret)
      ensures Sends(old(c.View()), c.View(), ret, [ClientSays(ClientHello, Opaque(ch.body))])
    {
      ConnectDid(View(), ch);
      if ch.fails {
        return Error;
      }
      c.AddMessage(ClientSays(ClientHello, Opaque(ch.body)));
      state := EnterEarlyData;
      ret := Flush;
    }

    method ReadHelloVerify(ch: Choice) returns (ret: Wait)
      requires Disciplined(View()) && state.ReadHelloVerifyRequest?
      modifies this`state, c
      ensures (View(), ret) == DoReadHelloVerifyRequest(old(View()), ch)
      ensures Kept((View(), ret)) && Patient(old(View()), View(), ret)
      ensures HelloVerified(old(View()), View(), ret)
    {
      HelloVerifyDid(View(), ch);
      var m := c.GetMessage();
      if m.None? {
        return ReadMessage;
      }
      if m.value.kind != HelloVerifyRequest {
        state := ReadingServerHello;
        return Ok;
      }
      if ch.fails {
        return Error;
      }
      c.NextMessage();
      c.StartOver();
      c.AddMessage(ClientSays(ClientHello, Opaque(ch.body)));
      state := ReadingServerHello;
      ret := Flush;
    }

    method ReadServersHello(ch: Choice) returns (ret: Wait)
      requires Disciplined(View()) && state.ReadingServerHello?
      modifies this`state, this`p, this`ticketExpected, c
      ensures (View(), ret) == DoReadServerHello(old(View()), ch)
      ensures Kept((View(), ret)) && Patient(old(View()), View(), ret)
      ensures HelloRead(old(View()), View(), ret)
    {
      HelloDid(View(), ch);
      var m := c.GetMessage();
      if m.None? {
        return Wait.ReadServerHello;
      }
      if m.value.kind != ServerHello || !m.value.body.Hello? || ch.fails || c.buffer.None? {
        return Error;
      }
      p := m.value.body.p;
      ticketExpected := p.ticket;
      c.StartHash();
      c.HashMessage(m.value);
      if p.resumed || !p.certAuth {
        c.ReleaseBuffer();
      }
      c.NextMessage();
      state := if p.resumed then ReadSessionTicket else ReadServerCertificate;
      ret := Ok;
    }

    method ReadCertificate(ch: Choice) returns (ret: Wait)
      requires Disciplined(View()) && state.ReadServerCertificate?
      modifies this`state, c
      ensures (View(), ret) == DoReadServerCertificate(old(View()), ch)
      ensures Kept((View(), ret)) && Patient(old(View()), View(), ret)
      ensures ReadWhere(p.certAuth, old(c.View()), c.View(), ret, Certificate)
    {
      ServerCertificateDid(View(), ch);
      if !p.certAuth {
        state := ReadCertificateStatus;
        return Ok;
      }
      ret := ReadExpected(Certificate, ch, ReadCertificateStatus);
    }

    method ReadStatus(ch: Choice) returns (ret: Wait)
      requires Disciplined(View()) && state.ReadCertificateStatus?
      modifies this`state, c
      ensures (View(), ret) == DoReadCertificateStatus(old(View()), ch)
      ensures Kept((View(), ret)) && Patient(old(View()), View(), ret)
      ensures StatusRead(old(View()), View(), ret)
    {
      StatusDid(View(), ch);
      var m := c.GetMessage();
      if !p.status || (m.Some? && m.value.kind != CertificateStatus) {
        state := VerifyServerCertificate;
        return Ok;
      }
      ret := ReadExpected(CertificateStatus, ch, VerifyServerCertificate);
    }

    method VerifyCertificate(ch: Choice) returns (ret: Wait)
      requires Disciplined(View()) && state.VerifyServerCertificate?
      modifies this`state
      ensures (View(), ret) == DoVerifyServerCertificate(old(View()), ch)
      ensures Kept((View(), ret)) && Patient(old(View()), View(), ret)
      ensures CertificateVerified(old(View()), View(), ret, ch)
    {
      VerifyDid(View(), ch);
      if p.certAuth && ch.fails {
        return Error;
      }
      if p.certAuth && ch.blocks {
        return CertificateVerifyPending;
      }
      state := ReadServerKeyExchange;
      ret := Ok;
    }

    method ReadKeyExchange(ch: Choice) returns (ret: Wait)
      requires Disciplined(View()) && state.ReadServerKeyExchange?
      modifies this`state, c
      ensures (View(), ret) == DoReadServerKeyExchange(old(View()), ch)
      ensures Kept((View(), ret)) && Patient(old(View()), View(), ret)
      ensures ReadWhere(old(FirstIs(c.View(), ServerKeyExchange)), old(c.View()), c.View(), ret, ServerKeyExchange)
      ensures ret.Ok? && p.needsKeyExchange ==> old(FirstIs(c.View(), ServerKeyExchange))
    {
      KeyExchangeDid(View(), ch);
      var m := c.GetMessage();
      if m.Some? && m.value.kind != ServerKeyExchange {
        if p.needsKeyExchange {
          return Error;
        }
        state := ReadCertificateRequest;
        return Ok;
      }
      ret := ReadExpected(ServerKeyExchange, ch, ReadCertificateRequest);
    }

    method ReadRequest(ch: Choice) returns (ret: Wait)
      requires Disciplined(View()) && state.ReadCertificateRequest?
      modifies this`state, this`certRequest, c
      ensures (View(), ret) == DoReadCertificateRequest(old(View()), ch)
      ensures Kept((View(), ret)) && Patient(old(View()), View(), ret)
      ensures RequestRead(old(View()), View(), ret)
    {
      RequestDid(View(), ch);
      if !p.certAuth {
        state := ReadServerHelloDone;
        return Ok;
      }
      var m := c.GetMessage();
      if m.Some? && m.value.kind == ServerHelloDone {
        c.ReleaseBuffer();
        state := ReadServerHelloDone;
        return Ok;
      }
      ret := ReadExpected(CertificateRequest, ch, ReadServerHelloDone);
      if ret.Ok? {
        certRequest := true;
      }
    }

    method SendCertificate(ch: Choice) returns (ret: Wait)
      requires Disciplined(View()) && state.SendClientCertificate?
      modifies this`state, this`hasCert, c
      ensures (View(), ret) == DoSendClientCertificate(old(View()), ch)
      ensures Kept((View(), ret)) && Patient(old(View()), View(), ret)
      ensures CertificateSent(old(View()), View(), ret)
    {
      CertificateDid(View(), ch);
      if !certRequest {
        state := SendClientKeyExchange;
        return Ok;
      }
      if ch.blocks {
        return X509Lookup;
      }
      if ch.fails {
        return Error;
      }
      hasCert := ch.flag;
      if !hasCert {
        // There will be no CertificateVerify to sign.
        c.ReleaseBuffer();
      }
      c.AddMessage(ClientSays(Certificate, Opaque(if hasCert then ch.body + 1 else 0)));
      state := SendClientKeyExchange;
      ret := Ok;
    }

    method SendKeyExchange(ch: Choice) returns (ret: Wait)
      requires Disciplined(View()) && state.SendClientKeyExchange?
      modifies this`state, c
      ensures (View(), ret) == DoSendClientKeyExchange(old(View()), ch)
      ensures Kept((View(), ret)) && Patient(old(View()), View(), ret)
      ensures Sends(old(c.View()), c.View(), ret, [ClientSays(ClientKeyExchange, Opaque(ch.body))])
    {
      ClientKeyDid(View(), ch);
      if ch.fails {
        return Error;
      }
      c.AddMessage(ClientSays(ClientKeyExchange, Opaque(ch.body)));
      state := SendClientCertificateVerify;
      ret := Ok;
    }

    method SendVerify(ch: Choice) returns (ret: Wait)
      requires Disciplined(View()) && state.SendClientCertificateVerify?
      modifies this`state, c
      ensures (View(), ret) == DoSendCertificateVerify(old(View()), ch)
      ensures Kept((View(), ret)) && Patient(old(View()), View(), ret)
      ensures VerifySent(old(View()), View(), ret)
    {
      SignatureDid(View(), ch);
      if !certRequest || !hasCert {
        state := SendClientFinished;
        return Ok;
      }
      if ch.fails || c.buffer.None? {
        return Error;
      }
      if ch.blocks {
        return PrivateKeyOperation;
      }
      c.AddMessage(ClientSays(CertificateVerify, Signed(c.buffer.value)));
      c.ReleaseBuffer();
      state := SendClientFinished;
      ret := Ok;
    }

    method SendClientsFinished(ch: Choice) returns (ret: Wait)
      requires Disciplined(View()) && state.SendClientFinished?
      modifies this`state, c
      ensures (View(), ret) == DoSendFinished(old(View()), ch)
      ensures Kept((View(), ret)) && Patient(old(View()), View(), ret)
      ensures FinishedSent(old(View()), View(), ret, ch.body)
    {
      FinishDid(View(), ch);
      if p.channelId && ch.blocks {
        return ChannelIdLookup;
      }
      if ch.fails {
        return Error;
      }
      if p.nextProto {
        c.AddMessage(ClientSays(NextProto, Opaque(ch.body)));
      }
      if p.channelId {
        c.AddMessage(ClientSays(ChannelId, Opaque(ch.body)));
      }
      c.AddFinished(false);
      state := FinishFlight;
      ret := Flush;
    }

    method FinishClientFlight(ch: Choice) returns (ret: Wait)
      requires Disciplined(View()) && state.FinishFlight?
      modifies this`state
      ensures (View(), ret) == DoFinishFlight(old(View()), ch)
      ensures Kept((View(), ret)) && Patient(old(View()), View(), ret)
      ensures FlightFinished(old(View()), View(), ret)
    {
      FlightDid(View(), ch);
      if p.resumed {
        state := FinishClientHandshake;
        return Ok;
      }
      if ch.fails {
        return Error;
      }
      state := ReadSessionTicket;
      ret := if ch.flag then EarlyReturn else Ok;
    }

    method ReadTicket(ch: Choice) returns (ret: Wait)
      requires Disciplined(View()) && state.ReadSessionTicket?
      modifies this`state, this`ticketExpected, c
      ensures (View(), ret) == DoReadSessionTicket(old(View()), ch)
      ensures Kept((View(), ret)) && Patient(old(View()), View(), ret)
      ensures TicketRead(old(View()), View(), ret)
    {
      TicketDid(View(), ch);
      if !ticketExpected {
        state := ProcessChangeCipherSpec;
        return Wait.ReadChangeCipherSpec;
      }
      var m := c.GetMessage();
      ret := ReadExpected(NewSessionTicket, ch, ProcessChangeCipherSpec);
      if ret.Ok? {
        if m.value.body == Opaque(0) {
          // An empty ticket: the server changed its mind.
          ticketExpected := false;
        }
        ret := Wait.ReadChangeCipherSpec;
      }
    }

    method ReadServersFinished() returns (ret: Wait)
      requires Disciplined(View()) && state.ReadServerFinished?
      modifies this`state, c
      ensures (View(), ret) == DoReadServerFinished(old(View()))
      ensures Kept((View(), ret)) && Patient(old(View()), View(), ret)
      ensures FinishedRead(old(View()), View(), ret)
    {
      ServerFinishedDid(View(), Choice(false, false, 0, false, NOTHING));
      ret := c.GetFinished(true);
      if ret.Ok? {
        state := if p.resumed then SendClientFinished else FinishClientHandshake;
      }
    }

    /** A state with nothing to do that the transcript sees. */
    method Pass(fails: bool, next: State) returns (ret: Wait)
      modifies this`state
      ensures (View(), ret) == if fails then (old(View()), Error) else (old(View()).(state := next), Ok)
    {
      if fails {
        return Error;
      }
      state := next;
      ret := Ok;
    }

    /** One round of `ssl_client_handshake`: whatever the state, messages are neither lost nor repeated, the transcript
        stays exact and in order, nothing happens where there is something to wait for, and `Ok` is progress. */
    method RunState(ch: Choice) returns (ret: Wait)
      requires Disciplined(View())
      modifies this, c
      ensures (View(), ret) == Step(old(View()), ch) && wait == old(wait)
      ensures Did(old(View()), View(), ret, ch)
      ensures Kept((View(), ret)) && (!ret.Error? ==> Accounted(old(c.View()), c.View()))
      ensures ret.Ok? && !old(state).Done? ==> StatesLeft(state, p.resumed) < old(StatesLeft(state, p.resumed))
    {
      hide Step, Disciplined, Did, Accounted, Kept, StatesLeft, Connection.View;
      if !state.Done? {
        OkGoesOn(View(), ch);
      }
      StepKept(View(), ch);
      ret := Dispatch(ch);
    }

    /** The switch of `ssl_client_handshake`. */
    method Dispatch(ch: Choice) returns (ret: Wait)
      requires Disciplined(View())
      modifies this, c
      ensures (View(), ret) == Step(old(View()), ch) && wait == old(wait)
    {
      hide Expect, DoStartConnect, DoReadHelloVerifyRequest, DoReadServerHello, DoReadServerCertificate,
           DoReadCertificateStatus, DoVerifyServerCertificate, DoReadServerKeyExchange, DoReadCertificateRequest,
           DoSendClientCertificate, DoSendClientKeyExchange, DoSendCertificateVerify, DoSendFinished, DoFinishFlight,
           DoReadSessionTicket, DoReadServerFinished, Disciplined, Connection.View;
      match state
      case StartConnect => ret := StartConnecting(ch);
      case EnterEarlyData => ret := Pass(false, if dtls then ReadHelloVerifyRequest else ReadingServerHello);
      case ReadHelloVerifyRequest => ret := ReadHelloVerify(ch);
      case ReadingServerHello => ret := ReadServersHello(ch);
      case ReadServerCertificate => ret := ReadCertificate(ch);
      case ReadCertificateStatus => ret := ReadStatus(ch);
      case VerifyServerCertificate => ret := VerifyCertificate(ch);
      case ReadServerKeyExchange => ret := ReadKeyExchange(ch);
      case ReadCertificateRequest => ret := ReadRequest(ch);
      case ReadServerHelloDone => ret := ReadExpected(ServerHelloDone, ch, SendClientCertificate);
      case SendClientCertificate => ret := SendCertificate(ch);
      case SendClientKeyExchange => ret := SendKeyExchange(ch);
      case SendClientCertificateVerify => ret := SendVerify(ch);
      case SendClientFinished => ret := SendClientsFinished(ch);
      case FinishFlight => ret := FinishClientFlight(ch);
      case ReadSessionTicket => ret := ReadTicket(ch);
      case ProcessChangeCipherSpec => ret := Pass(ch.fails, ReadServerFinished);
      case ReadServerFinished => ret := ReadServersFinished();
      case FinishClientHandshake => ret := Pass(ch.fails, Done);
      case Done => ret := Ok;
    }

    /** `ssl_client_handshake`. */
    method DoHandshake(choices: nat -> Choice) returns (ret: Wait)
      requires Disciplined(View())
      modifies this, c
      ensures (View(), ret) == ClientDrive(old(View()), choices, 0) && wait == old(wait)
      ensures ret.Error? || Disciplined(View())
      ensures ret.Ok? ==> state.Done?
    {
      hide Step, Disciplined, StatesLeft;
      ClientProgresses();
      var n: nat := 0;
      while !state.Done?
        invariant Disciplined(View()) && wait == old(wait)
        invariant ClientDrive(View(), choices, n) == ClientDrive(old(View()), choices, 0)
        decreases StatesLeft(state, p.resumed)
      {
        ret := RunState(choices(n));
        if !ret.Ok? {
          return;
        }
        n := n + 1;
      }
      ret := Ok;
    }

    /** The operation waited for is done; a read has brought messages. */
    method Resolve(arrived: seq<Msg>)
      requires Disciplined(View()) && AllFrom(arrived, true)
      modifies c
      ensures View() == Resolved(ClientMachine(), old(View()), wait, arrived) && Disciplined(View())
    {
      if Reading(wait) {
        c.Receive(arrived);
      }
    }

    /** `ssl_run_handshake`, called again and again by the application; `schedule` says what has come of each operation
        waited for. */
    method RunHandshake(first: nat -> Choice, schedule: seq<Resolution>) returns (ret: int)
      requires Valid() && SentBy(schedule, true)
      modifies this, c
      ensures Valid() && Outcome(View(), wait, ret) == ClientRun(old(View()), old(wait), first, schedule)
      ensures old(wait).Error? ==> View() == old(View()) && wait == Error && ret == -1
      ensures ret == 1 ==> wait.Ok?
    {
      hide Disciplined, Drive, Resolved, ClientMachine, Connection.View;
      ClientProgresses();
      var choices, i: nat := first, 0;
      assert schedule[0..] == schedule;
      while true
        invariant i <= |schedule| && (wait.Ok? ==> i == 0 && choices == first) && Valid()
        invariant old(wait).Error? ==> i == 0 && View() == old(View()) && wait.Error?
        invariant ClientRun(View(), wait, first, schedule[i..]) ==
                  ClientRun(old(View()), old(wait), first, schedule)
        decreases |schedule| - i, if wait.Ok? then 1 else 0
      {
        if wait.Error? {
          return -1;
        } else if wait.EarlyReturn? {
          wait := Ok;
          return 1;
        } else if Asynchronous(wait) {
          wait := Ok;
          return -1;
        } else if !wait.Ok? {
          if i == |schedule| || schedule[i].NotYet? {
            return -1;
          }
          Resolve(schedule[i].arrived);
          choices := schedule[i].choices;
          i := i + 1;
        }
        var w := DoHandshake(choices);
        wait := w;
        if wait.Error? {
          return -1;
        }
        if wait.Ok? {
          return 1;
        }
      }
    }
  }
}
