/** The loops of both sides as they are called, inside the system of two endpoints: each call is some of its events. */
module TlsCalls {
  import opened Wrappers
  import opened TlsTranscript
  import opened TlsDriver
  import opened TlsHandshake
  import C = TlsClientDriver
  import S = TlsServerDriver
  import Client = TlsClient
  import Server = TlsServer

  /** The messages that a call takes in, with what becomes of each operation waited for. */
  ghost function Brought<H(!new)>(m: Machine<H>, h: H, w: Wait, first: nat -> Choice, s: seq<Resolution>): seq<Msg>
    requires Progresses(m)
    decreases |s|, if w.Ok? then 1 else 0
  {
    if w.Error? || w.EarlyReturn? || Asynchronous(w) then []
    else if w.Ok? then
      var (g, v) := Drive(m, h, first, 0);
      if v.Error? || v.Ok? then [] else Brought(m, g, v, first, s)
    else if |s| == 0 || s[0].NotYet? then []
    else
      var (g, v) := Drive(m, Resolved(m, h, w, s[0].arrived), s[0].choices, 0);
      var rest := if v.Error? || v.Ok? then [] else Brought(m, g, v, first, s[1..]);
      if Reading(w) then s[0].arrived + rest else rest
  }

  ghost function ToClientIn(h: Client.Client, w: Wait, first: nat -> Choice, s: seq<Resolution>): seq<Msg> {
    C.ClientProgresses();
    Brought(C.ClientMachine(), h, w, first, s)
  }

  ghost function ToServerIn(h: Server.Server, w: Wait, first: nat -> Choice, s: seq<Resolution>): seq<Msg> {
    S.ServerProgresses();
    Brought(S.ServerMachine(), h, w, first, s)
  }

  /** The first messages on their way to the client have arrived. */
  function AtClient(y: System, ms: seq<Msg>): System
    requires ms <= y.server.c.outbox
  {
    y.(client := y.client.(c := y.client.c.(inbox := y.client.c.inbox + ms)),
       server := y.server.(c := y.server.c.(outbox := y.server.c.outbox[|ms|..])))
  }

  function AtServer(y: System, ms: seq<Msg>): System
    requires ms <= y.client.c.outbox
  {
    y.(server := y.server.(c := y.server.c.(inbox := y.server.c.inbox + ms)),
       client := y.client.(c := y.client.c.(outbox := y.client.c.outbox[|ms|..])))
  }

  lemma {:induction false} ReachesOn(y: System, es: seq<Event>, z: System, fs: seq<Event>, x: System)
    requires Reaches(y, es, z) && Reaches(z, fs, x)
    ensures Reaches(y, es + fs, x)
    decreases |es|
  {
    hide Next;
    if es == [] {
      assert es + fs == fs;
    } else {
      ReachesOn(Next(y, es[0]), es[1..], z, fs, x);
      assert (es + fs)[0] == es[0] && (es + fs)[1..] == es[1..] + fs;
    }
  }

  lemma Stays(y: System)
    ensures Reaches(y, [], y)
  {
  }

  lemma ReachesOne(y: System, e: Event, rest: seq<Event>, z: System)
    requires Possible(y, e) && Reaches(Next(y, e), rest, z)
    ensures Reaches(y, [e] + rest, z)
  {
    hide Next;
    assert ([e] + rest)[1..] == rest;
  }

  // The client --------------------------------------------------------------------------------------------------------

  lemma {:induction false} MailToClient(y: System, ms: seq<Msg>) returns (es: seq<Event>)
    requires ms <= y.server.c.outbox
    ensures Reaches(y, es, AtClient(y, ms))
    decreases |ms|
  {
    if ms == [] {
      assert y.client.c.inbox + [] == y.client.c.inbox;
      es := [];
    } else {
      var x := Next(y, ToClient);
      var rest := MailToClient(x, ms[1..]);
      assert (y.client.c.inbox + [ms[0]]) + ms[1..] == y.client.c.inbox + ms;
      ReachesOne(y, ToClient, rest, AtClient(x, ms[1..]));
      es := [ToClient] + rest;
    }
  }

  /** Where a state function failed: only this side is marked. */
  ghost predicate ClientOutcome(y: System, h: Client.Client, w: Wait, z: System) {
    if w.Error? then z == y.(client := z.client, clientFailed := true) else z == y.(client := h)
  }

  lemma {:induction false} ClientDriveReaches(y: System, choices: nat -> Choice, n: nat)
    returns (es: seq<Event>, z: System)
    requires !y.clientFailed
    ensures Reaches(y, es, z)
    ensures var (g, w) := C.ClientDrive(y.client, choices, n);
            ClientOutcome(y, g, w, z)
    decreases C.StatesLeft(y.client.state, y.client.p.resumed)
  {
    hide Client.Step, C.StatesLeft;
    C.ClientProgresses();
    es, z := [], y;
    if !y.client.state.Done? {
      var e := ClientCalls(choices(n));
      var x := Next(y, e);
      var rest: seq<Event> := [];
      z := x;
      if Client.Step(y.client, choices(n)).1.Ok? {
        C.OkGoesOn(y.client, choices(n));
        rest, z := ClientDriveReaches(x, choices, n + 1);
      }
      ReachesOne(y, e, rest, z);
      es := [e] + rest;
    }
  }

  /** A call of the client's loop, whatever becomes of what it waits for, is a run of the system: calls of state
      functions, and arrivals of what the server had sent. */
  lemma {:induction false} ClientCallReaches(y: System, w: Wait, first: nat -> Choice, s: seq<Resolution>)
    returns (es: seq<Event>, z: System)
    requires !y.clientFailed && !w.Error? && ToClientIn(y.client, w, first, s) <= y.server.c.outbox
    ensures Reaches(y, es, z)
    ensures var o := C.ClientRun(y.client, w, first, s);
            ClientOutcome(AtClient(y, ToClientIn(y.client, w, first, s)), o.h, o.wait, z)
    decreases |s|, if w.Ok? then 2 else 1
  {
    hide Next, Reaches, Drive;
    C.ClientProgresses();
    assert AtClient(y, []) == y by {
      assert y.client.c.inbox + [] == y.client.c.inbox;
    }
    Stays(y);
    es, z := [], y;
    if w.Ok? {
      var (g, v) := C.ClientDrive(y.client, first, 0);
      es, z := ClientDriveReaches(y, first, 0);
      if !v.Error? && !v.Ok? {
        var x := z;
        var more: seq<Event>;
        more, z := ClientCallReaches(x, v, first, s);
        ReachesOn(y, es, x, more, z);
        es := es + more;
      }
    } else if Blocked(w) && |s| > 0 && s[0].Ready? {
      es, z := ClientResumes(y, w, first, s);
    }
  }

  /** Messages that arrive in two portions arrive. */
  lemma ClientPortions(y: System, ms: seq<Msg>, rest: seq<Msg>, g: Client.Client, h: Client.Client, w: Wait, z: System)
    requires ms + rest <= y.server.c.outbox
    ensures rest <= AtClient(y, ms).server.c.outbox
            && (g == AtClient(y, ms).client ==> AtClient(y, ms).(client := g) == AtClient(y, ms))
    ensures ClientOutcome(AtClient(AtClient(y, ms).(client := g), rest), h, w, z) ==>
              ClientOutcome(AtClient(y, ms + rest), h, w, z)
  {
    var o := y.server.c.outbox;
    assert o[..|ms + rest|] == ms + rest && o[|ms|..][..|rest|] == rest;
    assert o[|ms|..][|rest|..] == o[|ms + rest|..];
  }

  lemma {:induction false} ClientResumes(y: System, w: Wait, first: nat -> Choice, s: seq<Resolution>)
    returns (es: seq<Event>, z: System)
    requires !y.clientFailed && Blocked(w) && |s| > 0 && s[0].Ready?
    requires ToClientIn(y.client, w, first, s) <= y.server.c.outbox
    ensures Reaches(y, es, z)
    ensures var o := C.ClientRun(y.client, w, first, s);
            ClientOutcome(AtClient(y, ToClientIn(y.client, w, first, s)), o.h, o.wait, z)
    decreases |s|, 0
  {
    hide Next, Reaches, Drive;
    C.ClientProgresses();
    var ms := if Reading(w) then s[0].arrived else [];
    var y1 := AtClient(y, ms);
    es := MailToClient(y, ms);
    assert y1.client == Resolved(C.ClientMachine(), y.client, w, s[0].arrived) by {
      assert y.client.c.inbox + [] == y.client.c.inbox;
    }
    var (g, v) := C.ClientDrive(y1.client, s[0].choices, 0);
    var more: seq<Event>;
    more, z := ClientDriveReaches(y1, s[0].choices, 0);
    ReachesOn(y, es, y1, more, z);
    es := es + more;
    if !v.Error? && !v.Ok? {
      var x, rest := z, ToClientIn(g, v, first, s[1..]);
      assert ToClientIn(y.client, w, first, s) == ms + rest;
      var o := C.ClientRun(g, v, first, s[1..]);
      ClientPortions(y, ms, rest, g, g, v, x);
      hide AtClient, ClientOutcome;
      more, z := ClientCallReaches(x, v, first, s[1..]);
      ReachesOn(y, es, x, more, z);
      es := es + more;
      ClientPortions(y, ms, rest, g, o.h, o.wait, z);
    }
  }

  // The server --------------------------------------------------------------------------------------------------------

  lemma {:induction false} MailToServer(y: System, ms: seq<Msg>) returns (es: seq<Event>)
    requires ms <= y.client.c.outbox
    ensures Reaches(y, es, AtServer(y, ms))
    decreases |ms|
  {
    if ms == [] {
      assert y.server.c.inbox + [] == y.server.c.inbox;
      es := [];
    } else {
      var x := Next(y, ToServer);
      var rest := MailToServer(x, ms[1..]);
      assert (y.server.c.inbox + [ms[0]]) + ms[1..] == y.server.c.inbox + ms;
      ReachesOne(y, ToServer, rest, AtServer(x, ms[1..]));
      es := [ToServer] + rest;
    }
  }

  /** Where a state function failed: only this side is marked. */
  ghost predicate ServerOutcome(y: System, h: Server.Server, w: Wait, z: System) {
    if w.Error? then z == y.(server := z.server, serverFailed := true) else z == y.(server := h)
  }

  lemma {:induction false} ServerDriveReaches(y: System, choices: nat -> Choice, n: nat)
    returns (es: seq<Event>, z: System)
    requires !y.serverFailed
    ensures Reaches(y, es, z)
    ensures var (g, w) := S.ServerDrive(y.server, choices, n);
            ServerOutcome(y, g, w, z)
    decreases S.StatesLeft(y.server.state, y.server.p.resumed)
  {
    hide Server.Step, S.StatesLeft;
    S.ServerProgresses();
    es, z := [], y;
    if !y.server.state.Done? {
      var e := ServerCalls(choices(n));
      var x := Next(y, e);
      var rest: seq<Event> := [];
      z := x;
      if Server.Step(y.server, choices(n)).1.Ok? {
        S.OkGoesOn(y.server, choices(n));
        rest, z := ServerDriveReaches(x, choices, n + 1);
      }
      ReachesOne(y, e, rest, z);
      es := [e] + rest;
    }
  }

  /** A call of the server's loop, whatever becomes of what it waits for, is a run of the system: calls of state
      functions, and arrivals of what the client had sent. */
  lemma {:induction false} ServerCallReaches(y: System, w: Wait, first: nat -> Choice, s: seq<Resolution>)
    returns (es: seq<Event>, z: System)
    requires !y.serverFailed && !w.Error? && ToServerIn(y.server, w, first, s) <= y.client.c.outbox
    ensures Reaches(y, es, z)
    ensures var o := S.ServerRun(y.server, w, first, s);
            ServerOutcome(AtServer(y, ToServerIn(y.server, w, first, s)), o.h, o.wait, z)
    decreases |s|, if w.Ok? then 2 else 1
  {
    hide Next, Reaches, Drive;
    S.ServerProgresses();
    assert AtServer(y, []) == y by {
      assert y.server.c.inbox + [] == y.server.c.inbox;
    }
    Stays(y);
    es, z := [], y;
    if w.Ok? {
      var (g, v) := S.ServerDrive(y.server, first, 0);
      es, z := ServerDriveReaches(y, first, 0);
      if !v.Error? && !v.Ok? {
        var x := z;
        var more: seq<Event>;
        more, z := ServerCallReaches(x, v, first, s);
        ReachesOn(y, es, x, more, z);
        es := es + more;
      }
    } else if Blocked(w) && |s| > 0 && s[0].Ready? {
      es, z := ServerResumes(y, w, first, s);
    }
  }

  /** Messages that arrive in two portions arrive. */
  lemma ServerPortions(y: System, ms: seq<Msg>, rest: seq<Msg>, g: Server.Server, h: Server.Server, w: Wait, z: System)
    requires ms + rest <= y.client.c.outbox
    ensures rest <= AtServer(y, ms).client.c.outbox
            && (g == AtServer(y, ms).server ==> AtServer(y, ms).(server := g) == AtServer(y, ms))
    ensures ServerOutcome(AtServer(AtServer(y, ms).(server := g), rest), h, w, z) ==>
              ServerOutcome(AtServer(y, ms + rest), h, w, z)
  {
    var o := y.client.c.outbox;
    assert o[..|ms + rest|] == ms + rest && o[|ms|..][..|rest|] == rest;
    assert o[|ms|..][|rest|..] == o[|ms + rest|..];
  }

  lemma {:induction false} ServerResumes(y: System, w: Wait, first: nat -> Choice, s: seq<Resolution>)
    returns (es: seq<Event>, z: System)
    requires !y.serverFailed && Blocked(w) && |s| > 0 && s[0].Ready?
    requires ToServerIn(y.server, w, first, s) <= y.client.c.outbox
    ensures Reaches(y, es, z)
    ensures var o := S.ServerRun(y.server, w, first, s);
            ServerOutcome(AtServer(y, ToServerIn(y.server, w, first, s)), o.h, o.wait, z)
    decreases |s|, 0
  {
    hide Next, Reaches, Drive;
    S.ServerProgresses();
    var ms := if Reading(w) then s[0].arrived else [];
    var y1 := AtServer(y, ms);
    es := MailToServer(y, ms);
    assert y1.server == Resolved(S.ServerMachine(), y.server, w, s[0].arrived) by {
      assert y.server.c.inbox + [] == y.server.c.inbox;
    }
    var (g, v) := S.ServerDrive(y1.server, s[0].choices, 0);
    var more: seq<Event>;
    more, z := ServerDriveReaches(y1, s[0].choices, 0);
    ReachesOn(y, es, y1, more, z);
    es := es + more;
    if !v.Error? && !v.Ok? {
      var x, rest := z, ToServerIn(g, v, first, s[1..]);
      assert ToServerIn(y.server, w, first, s) == ms + rest;
      var o := S.ServerRun(g, v, first, s[1..]);
      ServerPortions(y, ms, rest, g, g, v, x);
      hide AtServer, ServerOutcome;
      more, z := ServerCallReaches(x, v, first, s[1..]);
      ReachesOn(y, es, x, more, z);
      es := es + more;
      ServerPortions(y, ms, rest, g, o.h, o.wait, z);
    }
  }

  // Together --------------------------------------------------------------------------------------------------------

  /** So whatever is proved of the system holds where a call of either loop ends: after a call of the client's that has
      not failed, both transcripts are over exactly what each side has sent and consumed, and one is the front of the
      other. */
  lemma ClientCallAgrees(dtls: bool, es: seq<Event>, y: System, w: Wait, first: nat -> Choice, s: seq<Resolution>)
    requires Reaches(Initial(dtls), es, y)
    requires !y.clientFailed && !w.Error? && ToClientIn(y.client, w, first, s) <= y.server.c.outbox
    requires !C.ClientRun(y.client, w, first, s).wait.Error?
    ensures var h := C.ClientRun(y.client, w, first, s).h;
            && Faithful(h.c) && InOrder(h.c.log, h.p.resumed, 15)
            && (h.c.log <= y.server.c.log || y.server.c.log <= h.c.log)
  {
    hide Reaches, Faithful, InOrder, C.ClientRun, ToClientIn;
    var fs, z := ClientCallReaches(y, w, first, s);
    ReachesOn(Initial(dtls), es, y, fs, z);
    TranscriptsAgree(dtls, es + fs, z);
  }

  lemma ServerCallAgrees(dtls: bool, es: seq<Event>, y: System, w: Wait, first: nat -> Choice, s: seq<Resolution>)
    requires Reaches(Initial(dtls), es, y)
    requires !y.serverFailed && !w.Error? && ToServerIn(y.server, w, first, s) <= y.client.c.outbox
    requires !S.ServerRun(y.server, w, first, s).wait.Error?
    ensures var h := S.ServerRun(y.server, w, first, s).h;
            && Faithful(h.c) && InOrder(h.c.log, h.p.resumed, 15)
            && (h.c.log <= y.client.c.log || y.client.c.log <= h.c.log)
  {
    hide Reaches, Faithful, InOrder, S.ServerRun, ToServerIn;
    var fs, z := ServerCallReaches(y, w, first, s);
    ReachesOn(Initial(dtls), es, y, fs, z);
    TranscriptsAgree(dtls, es + fs, z);
  }
}
