/** The server handshake as it runs: state functions that update SSL_HANDSHAKE in place, and the loop around them
    (handshake_server.cc). */
module TlsServerMachine {
  import opened Wrappers
  import opened TlsTranscript
  import opened TlsConnection
  import opened TlsServer
  import opened TlsServerDriver
  import opened TlsServerSteps
  import opened TlsDriver

  class ServerHandshake {
    const c: Connection
    var state: State
    var p: Params
    var certRequest: bool
    var sendsKeyExchange: bool
    var peerKey: bool
    var wait: Wait

    ghost function View(): Server
      reads this, c
    {
      Server(state, c.View(), p, certRequest, sendsKeyExchange, peerKey)
    }

    ghost predicate Valid()
      reads this, c
    {
      wait.Error? || Disciplined(View())
    }

    constructor ()
      ensures Valid() && View() == START && wait == Ok && fresh(c)
    {
      c := new Connection();
      state, p, certRequest, sendsKeyExchange, peerKey, wait := StartAccept, NOTHING, false, false, false, Ok;
      new;
      StartDisciplined();
    }

    /** Reads one message of the kind expected, hashes and releases it. */
    method ReadExpected(kind: Kind, ch: Choice, pending: Wait, next: State) returns (ret: Wait)
      modifies this`state, c
      ensures View() == Expect(old(View()), kind, ch, pending, next).0
      ensures ret == Expect(old(View()), kind, ch, pending, next).1
    {
      hide Read, Consume, Update;
      ghost var was := c.View();
      var m := c.GetMessage();
      if m.None? {
        return ReadMessage;
      }
      if m.value.kind != kind || ch.fails {
        return Error;
      }
      if ch.blocks && pending != Ok {
        return pending;
      }
      c.TakeMessage();
      assert c.View() == Read(was);
      state := next;
      ret := Ok;
    }

    method ReadHello(ch: Choice) returns (ret: Wait)
      requires Disciplined(View()) && state.ReadClientHello?
      modifies this`state
      ensures (View(), ret) == DoReadClientHello(old(View()), ch)
      ensures Kept((View(), ret)) && Patient(old(View()), View(), ret)
      ensures HelloSeen(old(View()), View(), ret)
    {
      HelloSeenDid(View(), ch);
      var m := c.GetMessage();
      if m.None? {
        return ReadMessage;
      }
      if m.value.kind != ClientHello || ch.fails {
        return Error;
      }
      if ch.blocks {
        return CertificateSelectionPending;
      }
      state := SelectCertificate;
      ret := Ok;
    }

    method ChooseCertificate(ch: Choice) returns (ret: Wait)
      requires Disciplined(View()) && state.SelectCertificate?
      modifies this`state
      ensures (View(), ret) == DoSelectCertificate(old(View()), ch)
      ensures Kept((View(), ret)) && Patient(old(View()), View(), ret)
      ensures HelloSeen(old(View()), View(), ret)
    {
      CertificateChosenDid(View(), ch);
      var m := c.GetMessage();
      if m.None? {
        return ReadMessage;
      }
      if ch.fails {
        return Error;
      }
      if ch.blocks {
        return X509Lookup;
      }
      state := SelectParameters;
      ret := Ok;
    }

    /** The ClientHello is hashed here, once, and released. */
    method ChooseParameters(ch: Choice) returns (ret: Wait)
      requires Disciplined(View()) && state.SelectParameters?
      modifies this`state, this`p, this`certRequest, c
      ensures (View(), ret) == DoSelectParameters(old(View()), ch)
      ensures Kept((View(), ret)) && Patient(old(View()), View(), ret)
      ensures HelloTaken(old(View()), View(), ret)
    {
      HelloTakenDid(View(), ch);
      var m := c.GetMessage();
      if m.None? {
        return ReadMessage;
      }
      if ch.fails || c.buffer.None? {
        return Error;
      }
      if ch.blocks {
        return Wait.PendingSession;
      }
      p := ch.p;
      certRequest := !p.resumed && p.certAuth && ch.flag;
      c.StartHash();
      c.HashMessage(m.value);
      if !certRequest {
        c.ReleaseBuffer();
      }
      c.NextMessage();
      state := SendServerHello;
      ret := Ok;
    }

    method SendHello(ch: Choice) returns (ret: Wait)
      requires Disciplined(View()) && state.SendServerHello?
      modifies this`state, c
      ensures (View(), ret) == DoSendServerHello(old(View()), ch)
      ensures Kept((View(), ret)) && Patient(old(View()), View(), ret)
      ensures Sends(old(c.View()), c.View(), ret, [ServerSays(ServerHello, Hello(p))])
    {
      HelloSentDid(View(), ch);
      if ch.fails {
        return Error;
      }
      c.AddMessage(ServerSays(ServerHello, Hello(p)));
      state := if p.resumed then SendServerFinished else SendServerCertificate;
      ret := Ok;
    }

    method SendCertificates(ch: Choice) returns (ret: Wait)
      requires Disciplined(View()) && state.SendServerCertificate?
      modifies this`state, this`sendsKeyExchange, c
      ensures (View(), ret) == DoSendServerCertificate(old(View()), ch)
      ensures Kept((View(), ret)) && Patient(old(View()), View(), ret)
      ensures Sends(old(c.View()), c.View(), ret, Certificates(p, ch.body))
    {
      CertificatesDid(View(), ch);
      if ch.fails {
        return Error;
      }
      if p.certAuth {
        c.AddMessage(ServerSays(Certificate, Opaque(ch.body)));
        if p.status {
          c.AddMessage(ServerSays(CertificateStatus, Opaque(ch.body)));
        }
      }
      sendsKeyExchange := p.needsKeyExchange || ch.flag;
      state := SendServerKeyExchange;
      ret := Ok;
    }

    method SendKeyExchange(ch: Choice) returns (ret: Wait)
      requires Disciplined(View()) && state.SendServerKeyExchange?
      modifies this`state, this`sendsKeyExchange, c
      ensures (View(), ret) == DoSendServerKeyExchange(old(View()), ch)
      ensures Kept((View(), ret)) && Patient(old(View()), View(), ret)
      ensures KeyExchangeSent(old(View()), View(), ret, ch.body)
    {
      KeyExchangeDid(View(), ch);
      if !sendsKeyExchange {
        state := SendServerHelloDone;
        return Ok;
      }
      if ch.fails {
        return Error;
      }
      if p.certAuth && ch.blocks {
        return PrivateKeyOperation;
      }
      c.AddMessage(ServerSays(ServerKeyExchange, Opaque(ch.body)));
      sendsKeyExchange := false;
      state := SendServerHelloDone;
      ret := Ok;
    }

    method SendHelloDone(ch: Choice) returns (ret: Wait)
      requires Disciplined(View()) && state.SendServerHelloDone?
      modifies this`state, c
      ensures (View(), ret) == DoSendServerHelloDone(old(View()), ch)
      ensures Kept((View(), ret)) && Patient(old(View()), View(), ret)
      ensures Sends(old(c.View()), c.View(), ret, Closing(certRequest, ch.body))
    {
      HelloDoneDid(View(), ch);
      if ch.fails {
        return Error;
      }
      if certRequest {
        c.AddMessage(ServerSays(CertificateRequest, Opaque(ch.body)));
      }
      c.AddMessage(ServerSays(ServerHelloDone, Opaque(0)));
      state := ReadClientCertificate;
      ret := Flush;
    }

    method ReadCertificate(ch: Choice) returns (ret: Wait)
      requires Disciplined(View()) && state.ReadClientCertificate?
      modifies this`state, this`peerKey, c
      ensures (View(), ret) == DoReadClientCertificate(old(View()), ch)
      ensures Kept((View(), ret)) && Patient(old(View()), View(), ret)
      ensures CertificateRead(old(View()), View(), ret)
    {
      CertificateDid(View(), ch);
      if !certRequest {
        state := VerifyClientCertificate;
        return Ok;
      }
      var m := c.GetMessage();
      ret := ReadExpected(Certificate, ch, Ok, VerifyClientCertificate);
      if ret.Ok? {
        if m.value.body == Opaque(0) {
            // There will be no CertificateVerify to check.
          c.ReleaseBuffer();
        } else {
          peerKey := true;
        }
      }
    }

    method VerifyCertificate(ch: Choice) returns (ret: Wait)
      requires Disciplined(View()) && state.VerifyClientCertificate?
      modifies this`state
      ensures (View(), ret) == DoVerifyClientCertificate(old(View()), ch)
      ensures Kept((View(), ret)) && Patient(old(View()), View(), ret)
      ensures CertificateVerified(old(View()), View(), ret, ch)
    {
      VerifiedDid(View(), ch);
      if peerKey {
        if ch.fails {
          return Error;
        }
        if ch.blocks {
          return CertificateVerifyPending;
        }
      }
      state := ReadClientKeyExchange;
      ret := Ok;
    }

    method ReadVerify(ch: Choice) returns (ret: Wait)
      requires Disciplined(View()) && state.ReadClientCertificateVerify?
      modifies this`state, c
      ensures (View(), ret) == DoReadClientCertificateVerify(old(View()), ch)
      ensures Kept((View(), ret)) && Patient(old(View()), View(), ret)
      ensures SignatureRead(old(View()), View(), ret, ch.fails)
    {
      SignatureDid(View(), ch);
      if !peerKey {
        c.ReleaseBuffer();
        state := ReadingChangeCipherSpec;
        return Ok;
      }
      var m := c.GetMessage();
      if m.None? {
        return ReadMessage;
      }
      if m.value.kind != CertificateVerify || ch.fails || c.buffer.None? || m.value.body != Signed(c.buffer.value) {
        return Error;
      }
      c.ReleaseBuffer();
      c.TakeMessage();
      state := ReadingChangeCipherSpec;
      ret := Ok;
    }

    /** A message that is there only if it was negotiated. */
    method ReadNegotiated(negotiated: bool, kind: Kind, ch: Choice, next: State) returns (ret: Wait)
      modifies this`state, c
      ensures (View(), ret) ==
              if negotiated then Expect(old(View()), kind, ch, Ok, next) else (old(View()).(state := next), Ok)
      ensures Patient(old(View()), View(), ret) && ReadWhere(negotiated, old(c.View()), c.View(), ret, kind)
    {
      if !negotiated {
        state := next;
        return Ok;
      }
      ret := ReadExpected(kind, ch, Ok, next);
    }

    method ReadFinished(ch: Choice) returns (ret: Wait)
      requires Disciplined(View()) && state.ReadClientFinished?
      modifies this`state, c
      ensures (View(), ret) == DoReadClientFinished(old(View()), ch)
      ensures Kept((View(), ret)) && Patient(old(View()), View(), ret)
      ensures FinishedRead(old(View()), View(), ret, ch.fails)
    {
      FinishedDid(View(), ch);
      ret := c.GetFinished(false);
      if !ret.Ok? {
        return;
      }
      state := if p.resumed then FinishServerHandshake else SendServerFinished;
      if ch.fails {
        // The hashes for a Channel ID could not be recorded.
        ret := Error;
      }
    }

    method SendFinish(ch: Choice) returns (ret: Wait)
      requires Disciplined(View()) && state.SendServerFinished?
      modifies this`state, c
      ensures (View(), ret) == DoSendServerFinished(old(View()), ch)
      ensures Kept((View(), ret)) && Patient(old(View()), View(), ret)
      ensures FinishedSent(old(View()), View(), ret, ch.body)
    {
      FinishDid(View(), ch);
      if ch.fails {
        return Error;
      }
      if p.ticket {
        c.AddMessage(ServerSays(NewSessionTicket, Opaque(ch.body)));
      }
      c.AddFinished(true);
      state := if p.resumed then ReadingChangeCipherSpec else FinishServerHandshake;
      ret := Flush;
    }

    method Pass(fails: bool, ok: Wait, next: State) returns (ret: Wait)
      modifies this`state
      ensures (View(), ret) == if fails then (old(View()), Error) else (old(View()).(state := next), ok)
    {
      if fails {
        return Error;
      }
      state := next;
      ret := ok;
    }

    /** One round of `ssl_server_handshake`: whatever the state, messages are neither lost nor repeated, the transcript
        stays exact and in order, nothing happens where there is something to wait for, and `Ok` is progress. */
    method RunState(ch: Choice) returns (ret: Wait)
      requires Disciplined(View())
      modifies this, c
      ensures (View(), ret) == Step(old(View()), ch) && wait == old(wait)
      ensures Did(old(View()), View(), ret, ch)
      ensures Kept((View(), ret)) && (!ret.Error? ==> Accounted(old(c.View()), c.View()))
      ensures ret.Ok? && !old(state).Done? ==> StatesLeft(state, p.resumed) < old(StatesLeft(state, p.resumed))
    {
      hide Step, Disciplined, Did, Accounted, Kept, StatesLeft, Connection.View;
      if !state.Done? {
        OkGoesOn(View(), ch);
      }
      StepKept(View(), ch);
      ret := Dispatch(ch);
    }

    /** The switch of `ssl_server_handshake`. */
    method Dispatch(ch: Choice) returns (ret: Wait)
      requires Disciplined(View())
      modifies this, c
      ensures (View(), ret) == Step(old(View()), ch) && wait == old(wait)
    {
      hide Expect, DoReadClientHello, DoSelectCertificate, DoSelectParameters, DoSendServerHello,
           DoSendServerCertificate, DoSendServerKeyExchange, DoSendServerHelloDone, DoReadClientCertificate,
           DoVerifyClientCertificate, DoReadClientCertificateVerify, DoReadClientFinished, DoSendServerFinished,
           Disciplined, Connection.View;
      match state
      case StartAccept => ret := Pass(false, Ok, ReadClientHello);
      case ReadClientHello => ret := ReadHello(ch);
      case SelectCertificate => ret := ChooseCertificate(ch);
      case SelectParameters => ret := ChooseParameters(ch);
      case SendServerHello => ret := SendHello(ch);
      case SendServerCertificate => ret := SendCertificates(ch);
      case SendServerKeyExchange => ret := SendKeyExchange(ch);
      case SendServerHelloDone => ret := SendHelloDone(ch);
      case ReadClientCertificate => ret := ReadCertificate(ch);
      case VerifyClientCertificate => ret := VerifyCertificate(ch);
      case ReadClientKeyExchange =>
        ret := ReadExpected(ClientKeyExchange, ch, PrivateKeyOperation, ReadClientCertificateVerify);
      case ReadClientCertificateVerify => ret := ReadVerify(ch);
      case ReadingChangeCipherSpec => ret := Pass(false, Wait.ReadChangeCipherSpec, ProcessChangeCipherSpec);
      case ProcessChangeCipherSpec => ret := Pass(ch.fails, Ok, ReadNextProto);
      case ReadNextProto => ret := ReadNegotiated(p.nextProto, NextProto, ch, ReadChannelId);
      case ReadChannelId => ret := ReadNegotiated(p.channelId, ChannelId, ch, ReadClientFinished);
      case ReadClientFinished => ret := ReadFinished(ch);
      case SendServerFinished => ret := SendFinish(ch);
      case FinishServerHandshake => ret := Pass(false, Ok, Done);
      case Done => ret := Ok;
    }

    /** `ssl_server_handshake`. */
    method DoHandshake(choices: nat -> Choice) returns (ret: Wait)
      requires Disciplined(View())
      modifies this, c
      ensures (View(), ret) == ServerDrive(old(View()), choices, 0) && wait == old(wait)
      ensures ret.Error? || Disciplined(View())
      ensures ret.Ok? ==> state.Done?
    {
      hide Step, Disciplined, StatesLeft;
      ServerProgresses();
      var n: nat := 0;
      while !state.Done?
        invariant Disciplined(View()) && wait == old(wait)
        invariant ServerDrive(View(), choices, n) == ServerDrive(old(View()), choices, 0)
        decreases StatesLeft(state, p.resumed)
      {
        ret := RunState(choices(n));
        if !ret.Ok? {
          return;
        }
        n := n + 1;
      }
      ret := Ok;
    }

    /** The operation waited for is done; a read has brought messages. */
    method Resolve(arrived: seq<Msg>)
      requires Disciplined(View()) && AllFrom(arrived, false)
      modifies c
      ensures View() == Resolved(ServerMachine(), old(View()), wait, arrived) && Disciplined(View())
    {
      if Reading(wait) {
        c.Receive(arrived);
      }
    }

    /** `ssl_run_handshake`, called again and again by the application; `schedule` says what has come of each operation
        waited for. */
    method RunHandshake(first: nat -> Choice, schedule: seq<Resolution>) returns (ret: int)
      requires Valid() && SentBy(schedule, false)
      modifies this, c
      ensures Valid() && Outcome(View(), wait, ret) == ServerRun(old(View()), old(wait), first, schedule)
      ensures old(wait).Error? ==> View() == old(View()) && wait == Error && ret == -1
      ensures ret == 1 ==> wait.Ok?
    {
      hide Disciplined, Drive, Resolved, ServerMachine, Connection.View;
      ServerProgresses();
      var choices, i: nat := first, 0;
      assert schedule[0..] == schedule;
      while true
        invariant i <= |schedule| && (wait.Ok? ==> i == 0 && choices == first) && Valid()
        invariant old(wait).Error? ==> i == 0 && View() == old(View()) && wait.Error?
        invariant ServerRun(View(), wait, first, schedule[i..]) ==
                  ServerRun(old(View()), old(wait), first, schedule)
        decreases |schedule| - i, if wait.Ok? then 1 else 0
      {
        if wait.Error? {
          return -1;
        } else if wait.EarlyReturn? {
          wait := Ok;
          return 1;
        } else if Asynchronous(wait) {
          wait := Ok;
          return -1;
        } else if !wait.Ok? {
          if i == |schedule| || schedule[i].NotYet? {
            return -1;
          }
          Resolve(schedule[i].arrived);
          choices := schedule[i].choices;
          i := i + 1;
        }
        var w := DoHandshake(choices);
        wait := w;
        if wait.Error? {
          return -1;
        }
        if wait.Ok? {
          return 1;
        }
      }
    }
  }
}
