/** The loops that drive a handshake, as what they compute for either side: `ssl_client_handshake`
    (handshake_client.cc), `ssl_server_handshake` (handshake_server.cc) and `ssl_run_handshake` (handshake.cc). */
module TlsDriver {
  import opened Wrappers
  import opened TlsTranscript

  /** One side's handshake: its state functions, when it is over, how far it is from there, and how mail reaches it. */
  datatype Machine<!H(!new)> = Machine(
    step: (H, Choice) -> (H, Wait),
    done: H -> bool,
    left: H -> nat,
    mail: (H, seq<Msg>) -> H)

  /** A state function that returns `Ok` brings the handshake nearer to its end. */
  ghost predicate Progresses<H(!new)>(m: Machine<H>) {
    forall h: H, ch: Choice :: !m.done(h) && m.step(h, ch).1.Ok? ==> m.left(m.step(h, ch).0) < m.left(h)
  }

  /** State functions that do not fail, and mail from the other side, keep what is good. */
  ghost predicate Keeps<H(!new)>(m: Machine<H>, good: H -> bool, fromServer: bool) {
    && (forall h: H, ch: Choice :: good(h) && !m.step(h, ch).1.Error? ==> good(m.step(h, ch).0))
    && (forall h: H, ms: seq<Msg> :: good(h) && AllFrom(ms, fromServer) ==> good(m.mail(h, ms)))
  }

  /** What has come of an operation the handshake waited for: nothing yet, or it is done; for a read these messages have
      arrived. How the state functions called next turn out is given, too. */
  datatype Resolution = NotYet | Ready(arrived: seq<Msg>, choices: nat -> Choice)

  ghost predicate SentBy(s: seq<Resolution>, server: bool) {
    forall i :: 0 <= i < |s| && s[i].Ready? ==> AllFrom(s[i].arrived, server)
  }

  /** Operations the application finishes before it calls again. */
  predicate Asynchronous(w: Wait) {
    w.X509Lookup? || w.ChannelIdLookup? || w.PrivateKeyOperation? || w.CertificateSelectionPending? || w.PendingSession?
    || w.CertificateVerifyPending?
  }

  /** The handshake cannot go on until something outside has happened. */
  predicate Blocked(w: Wait) {
    !w.Ok? && !w.Error? && !w.EarlyReturn? && !Asynchronous(w)
  }

  predicate Reading(w: Wait) {
    w.ReadMessage? || w.ReadServerHello?
  }

  // What a call of a state function does to the messages --------------------------------------------------------------

  /** Where the call has to wait it did nothing, so that it can be made again. */
  ghost predicate Patient<H>(h: H, g: H, w: Wait) {
    Reading(w) || Asynchronous(w) ==> g == h
  }

  predicate FirstIs(c: Conn, kind: Kind) {
    c.inbox != [] && c.inbox[0].kind == kind
  }

  /** A message is consumed exactly where it is due, and then it is of that kind. */
  ghost predicate ReadWhere(due: bool, was: Conn, now: Conn, w: Wait, kind: Kind) {
    && (w.Ok? || w.Error? || Reading(w) || Asynchronous(w))
    && (w.ReadMessage? ==> was.inbox == [])
    && (w.Ok? ==> if due then Consumed(was, now, kind) else Quiet(was, now))
  }

  /** Exactly these messages are sent, unless the call waits or fails. */
  ghost predicate Sends(was: Conn, now: Conn, w: Wait, ms: seq<Msg>) {
    && (w.Ok? || w.Flush? || w.Error? || Asynchronous(w))
    && (w.Ok? || w.Flush? ==> Emitted(was, now, ms))
  }

  // The loops -------------------------------------------------------------------------------------------------------

  /** State functions from `h` on, until one has something to wait for or the handshake is over. */
  ghost function Drive<H(!new)>(m: Machine<H>, h: H, choices: nat -> Choice, n: nat): (H, Wait)
    requires Progresses(m)
    decreases m.left(h)
  {
    if m.done(h) then (h, Ok)
    else
      var (g, w) := m.step(h, choices(n));
      if w.Ok? then Drive(m, g, choices, n + 1) else (g, w)
  }

  /** What was waited for has happened: messages read are there. */
  function Resolved<H(!new)>(m: Machine<H>, h: H, w: Wait, arrived: seq<Msg>): H {
    if Reading(w) then m.mail(h, arrived) else h
  }

  datatype Outcome<H> = Outcome(h: H, wait: Wait, ret: int)

  /** One call, with what becomes of each operation waited for. */
  ghost function Run<H(!new)>(m: Machine<H>, h: H, w: Wait, first: nat -> Choice, s: seq<Resolution>): Outcome<H>
    requires Progresses(m)
    decreases |s|, if w.Ok? then 1 else 0
  {
    if w.Error? then Outcome(h, w, -1)
    else if w.EarlyReturn? then Outcome(h, Ok, 1)
    else if Asynchronous(w) then Outcome(h, Ok, -1)
    else if w.Ok? then
      var (g, v) := Drive(m, h, first, 0);
      if v.Error? then Outcome(g, v, -1) else if v.Ok? then Outcome(g, v, 1) else Run(m, g, v, first, s)
    else if |s| == 0 || s[0].NotYet? then Outcome(h, w, -1)
    else
      var (g, v) := Drive(m, Resolved(m, h, w, s[0].arrived), s[0].choices, 0);
      if v.Error? then Outcome(g, v, -1) else if v.Ok? then Outcome(g, v, 1) else Run(m, g, v, first, s[1..])
  }

  /** Driving keeps what each state function keeps, unless one fails, and ends with `Ok` only when all is over. */
  lemma {:induction false} DriveKeeps<H(!new)>(m: Machine<H>, good: H -> bool, fromServer: bool, h: H,
                                              choices: nat -> Choice, n: nat)
    requires Progresses(m) && Keeps(m, good, fromServer) && good(h)
    ensures var (g, w) := Drive(m, h, choices, n);
            (w.Error? || good(g)) && (w.Ok? ==> m.done(g))
    decreases m.left(h)
  {
    if !m.done(h) {
      var (g, w) := m.step(h, choices(n));
      if w.Ok? {
        DriveKeeps(m, good, fromServer, g, choices, n + 1);
      }
    }
  }

  /** Whatever the schedule, a call keeps what each state function keeps, unless it fails; a failure is remembered and
      told again without touching the handshake, and success leaves nothing to wait for. */
  lemma {:induction false} RunKeeps<H(!new)>(m: Machine<H>, good: H -> bool, fromServer: bool, h: H, w: Wait,
                                            first: nat -> Choice, s: seq<Resolution>)
    requires Progresses(m) && Keeps(m, good, fromServer) && (w.Error? || good(h)) && SentBy(s, fromServer)
    ensures var o := Run(m, h, w, first, s);
            && (o.wait.Error? || good(o.h))
            && (w.Error? ==> o == Outcome(h, w, -1))
            && (o.ret == 1 ==> o.wait.Ok?)
    decreases |s|, if w.Ok? then 1 else 0
  {
    hide Drive;
    if w.Ok? {
      DriveKeeps(m, good, fromServer, h, first, 0);
      var (g, v) := Drive(m, h, first, 0);
      if !v.Error? && !v.Ok? {
        RunKeeps(m, good, fromServer, g, v, first, s);
      }
    } else if Blocked(w) && |s| > 0 && s[0].Ready? {
      DriveKeeps(m, good, fromServer, Resolved(m, h, w, s[0].arrived), s[0].choices, 0);
      var (g, v) := Drive(m, Resolved(m, h, w, s[0].arrived), s[0].choices, 0);
      if !v.Error? && !v.Ok? {
        RunKeeps(m, good, fromServer, g, v, first, s[1..]);
      }
    }
  }

  /** What a call leaves behind: a failure, which stays; one of the four operations that resolve by themselves, to go on
      with; or nothing, where the handshake or its early part is over and where the application has to act first, so
      that the state function of the same state is called again. */
  lemma {:induction false} CallLeaves<H(!new)>(m: Machine<H>, h: H, w: Wait, first: nat -> Choice, s: seq<Resolution>)
    requires Progresses(m)
    ensures var o := Run(m, h, w, first, s);
            && (o.ret == 1 || o.ret == -1)
            && o.wait in {Ok, Error, Flush, ReadMessage, Wait.ReadServerHello, Wait.ReadChangeCipherSpec}
            && (o.ret == 1 ==> o.wait.Ok?)
    ensures w in {X509Lookup, ChannelIdLookup, PrivateKeyOperation, CertificateSelectionPending, Wait.PendingSession,
                  CertificateVerifyPending} ==>
              Run(m, h, w, first, s) == Outcome(h, Ok, -1)
    ensures w == EarlyReturn ==> Run(m, h, w, first, s) == Outcome(h, Ok, 1)
    decreases |s|, if w.Ok? then 1 else 0
  {
    hide Drive;
    if w.Ok? {
      var (g, v) := Drive(m, h, first, 0);
      if !v.Error? && !v.Ok? {
        CallLeaves(m, g, v, first, s);
      }
    } else if Blocked(w) && |s| > 0 && s[0].Ready? {
      var (g, v) := Drive(m, Resolved(m, h, w, s[0].arrived), s[0].choices, 0);
      if !v.Error? && !v.Ok? {
        CallLeaves(m, g, v, first, s[1..]);
      }
    }
  }

  /** Being called again changes nothing: a call that had to stop for lack of a resolution, followed by another one,
      does what a single call would have done had nothing blocked it. */
  lemma {:induction false} ReentryContinues<H(!new)>(m: Machine<H>, h: H, w: Wait, first: nat -> Choice,
                                                    again: nat -> Choice, s: seq<Resolution>, t: seq<Resolution>)
    requires Progresses(m)
    requires forall i :: 0 <= i < |s| ==> s[i].Ready?
    requires Blocked(Run(m, h, w, first, s).wait)
    ensures var o := Run(m, h, w, first, s);
            Run(m, o.h, o.wait, again, t) == Run(m, h, w, first, s + t)
    decreases |s|, if w.Ok? then 1 else 0
  {
    hide Drive;
    if w.Ok? {
      var (g, v) := Drive(m, h, first, 0);
      ReentryContinues(m, g, v, first, again, s, t);
    } else if |s| > 0 {
      var (g, v) := Drive(m, Resolved(m, h, w, s[0].arrived), s[0].choices, 0);
      assert (s + t)[1..] == s[1..] + t;
      ReentryContinues(m, g, v, first, again, s[1..], t);
    } else {
      assert s + t == t;
      FirstIsUsedOnce(m, h, w, first, again, t);
    }
  }

  /** The choices for the start of a call matter only where the call starts the state machine. */
  lemma {:induction false} FirstIsUsedOnce<H(!new)>(m: Machine<H>, h: H, w: Wait, first: nat -> Choice,
                                                   again: nat -> Choice, t: seq<Resolution>)
    requires Progresses(m) && !w.Ok?
    ensures Run(m, h, w, first, t) == Run(m, h, w, again, t)
    decreases |t|
  {
    hide Drive;
    if Blocked(w) && |t| > 0 && t[0].Ready? {
      var (g, v) := Drive(m, Resolved(m, h, w, t[0].arrived), t[0].choices, 0);
      if !v.Error? && !v.Ok? {
        FirstIsUsedOnce(m, g, v, first, again, t[1..]);
      }
    }
  }
}
