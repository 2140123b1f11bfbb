/** The handshake transcript (ssl_transcript.cc) and what a TLS 1.2 endpoint does with messages. */
module TlsTranscript {
  import opened Wrappers

  datatype Kind =
    | HelloVerifyRequest | ClientHello | ServerHello | Certificate | CertificateStatus | ServerKeyExchange
    | CertificateRequest | ServerHelloDone | ClientKeyExchange | CertificateVerify | NextProto | ChannelId
    | NewSessionTicket | Finished

  /** What a ServerHello settles: resumption, whether the cipher authenticates by certificate and requires a
      ServerKeyExchange, and which of the optional messages were negotiated. */
  datatype Params = Params(resumed: bool, certAuth: bool, needsKeyExchange: bool, status: bool, ticket: bool,
                           nextProto: bool, channelId: bool)

  const NOTHING := Params(false, false, false, false, false, false, false)

  /** Contents: some bytes, negotiated parameters, a signature over a transcript, or a Finished value, which is keyed by
      the side and taken over a transcript. Equal hashes stand for equal transcripts. */
  datatype Body = Opaque(n: nat) | Hello(p: Params) | Signed(over: seq<Msg>) | Mac(server: bool, over: seq<Msg>)

  datatype Msg = Msg(kind: Kind, fromServer: bool, body: Body)

  /** The messages not yet consumed and those sent, the handshake buffer and the running hash, and, for what is proved
      about these, the messages sent or consumed since the transcript was last reset. */
  datatype Conn = Conn(inbox: seq<Msg>, outbox: seq<Msg>, buffer: Option<seq<Msg>>, hash: Option<seq<Msg>>,
                       log: seq<Msg>)

  const FRESH := Conn([], [], Some([]), None, [])

  function Extended(t: Option<seq<Msg>>, m: Msg): Option<seq<Msg>> {
    if t.None? then None else Some(t.value + [m])
  }

  /** `SSLTranscript::Update`: the buffer, the hash, or both. */
  function Update(c: Conn, m: Msg): Conn {
    c.(buffer := Extended(c.buffer, m), hash := Extended(c.hash, m))
  }

  /** `SSLTranscript::InitHash`: the hash starts with what is buffered. */
  function InitHash(c: Conn): Conn {
    c.(hash := c.buffer)
  }

  function FreeBuffer(c: Conn): Conn {
    c.(buffer := None)
  }

  /** `ssl_add_message_cbb`, which also hashes the message. */
  function Send(c: Conn, m: Msg): Conn {
    Update(c, m).(outbox := c.outbox + [m], log := c.log + [m])
  }

  function SendIf(c: Conn, yes: bool, m: Msg): Conn {
    if yes then Send(c, m) else c
  }

  function ClientSays(kind: Kind, body: Body): Msg {
    Msg(kind, false, body)
  }

  function ServerSays(kind: Kind, body: Body): Msg {
    Msg(kind, true, body)
  }

  ghost predicate AllFrom(ms: seq<Msg>, server: bool) {
    forall i :: 0 <= i < |ms| ==> ms[i].fromServer == server
  }

  /** `next_message`. */
  function Consume(c: Conn): Conn
    requires c.inbox != []
  {
    c.(inbox := c.inbox[1..], log := c.log + [c.inbox[0]])
  }

  /** A message read as the state functions do: hashed, then released. */
  function Read(c: Conn): Conn
    requires c.inbox != []
  {
    Consume(Update(c, c.inbox[0]))
  }

  /** `SSLTranscript::Init`. */
  function Reset(c: Conn): Conn {
    c.(buffer := Some([]), hash := None, log := [])
  }

  /** The transcript is over exactly these messages: in the buffer until the hash is started, in the hash from then on,
      and in the buffer for as long as that is kept. */
  ghost predicate Over(c: Conn, ms: seq<Msg>) {
    && (c.hash.None? ==> c.buffer == Some(ms))
    && (c.hash.Some? ==> c.hash.value == ms && (c.buffer.Some? ==> c.buffer.value == ms))
  }

  /** The transcript is over exactly the messages sent and consumed, each once and in that order. */
  ghost predicate Faithful(c: Conn) {
    Over(c, c.log)
  }

  /** No message was sent or consumed. */
  ghost predicate Quiet(was: Conn, now: Conn) {
    now.log == was.log && now.inbox == was.inbox && now.outbox == was.outbox
  }

  /** The first message, of that kind, was consumed, once. */
  ghost predicate Consumed(was: Conn, now: Conn, kind: Kind) {
    && was.inbox != [] && was.inbox[0].kind == kind
    && now.inbox == was.inbox[1..] && now.log == was.log + [was.inbox[0]] && now.outbox == was.outbox
  }

  /** Exactly these messages were sent, in that order. */
  ghost predicate Emitted(was: Conn, now: Conn, ms: seq<Msg>) {
    now.inbox == was.inbox && now.log == was.log + ms && now.outbox == was.outbox + ms
  }

  /** A HelloVerifyRequest was dropped, and the transcript is the new ClientHello alone. */
  ghost predicate Restarted(was: Conn, now: Conn) {
    && was.inbox != [] && was.inbox[0].kind == HelloVerifyRequest && now.inbox == was.inbox[1..]
    && |now.log| == 1 && now.log[0].kind == ClientHello && now.outbox == was.outbox + now.log
  }

  /** Messages are neither lost nor repeated: one was consumed, or some were sent, or there was a fresh start. */
  ghost predicate Accounted(was: Conn, now: Conn) {
    || (was.inbox != [] && Consumed(was, now, was.inbox[0].kind))
    || Emitted(was, now, now.log[if |was.log| <= |now.log| then |was.log| else 0..])
    || Restarted(was, now)
  }

  datatype Wait =
    | Ok | Error | Flush | ReadMessage | ReadServerHello | ReadChangeCipherSpec | X509Lookup | ChannelIdLookup
    | PrivateKeyOperation | CertificateSelectionPending | PendingSession | CertificateVerifyPending | EarlyReturn

  /** What the surroundings decide in one call of a state function: whether something fails, whether an operation is not
      ready yet, and the contents of what is sent. */
  datatype Choice = Choice(fails: bool, blocks: bool, body: nat, flag: bool, p: Params)

  /** `ssl_get_finished`: the value is taken over the transcript before the message joins it. None stands for an
      error. */
  function CheckFinished(c: Conn, fromServer: bool): Option<Conn>
    requires c.inbox != []
  {
    var m := c.inbox[0];
    if m.kind.Finished? && c.hash.Some? && m.body == Mac(fromServer, c.hash.value) then Some(Read(c)) else None
  }

  /** `ssl_send_finished`. */
  function SendFinished(c: Conn, server: bool): Conn {
    Send(c, Msg(Finished, server, if c.hash.Some? then Mac(server, c.hash.value) else Opaque(0)))
  }

  // Order ---------------------------------------------------------------------------------------------------------

  /** The place of a message in the handshake (RFC 5246, sections 7.3 and 7.4; RFC 5077, section 3.3). */
  function Rank(resumed: bool, m: Msg): nat {
    match m.kind
    case HelloVerifyRequest => 99
    case ClientHello => 0
    case ServerHello => 1
    case Certificate => if m.fromServer then 2 else 7
    case CertificateStatus => 3
    case ServerKeyExchange => 4
    case CertificateRequest => 5
    case ServerHelloDone => 6
    case ClientKeyExchange => 8
    case CertificateVerify => 9
    case NextProto => if resumed then 4 else 10
    case ChannelId => if resumed then 5 else 11
    case NewSessionTicket => if resumed then 2 else 13
    case Finished =>
      if resumed then (if m.fromServer then 3 else 6) else (if m.fromServer then 14 else 12)
  }

  /** The log is in handshake order, each kind at most once, and everything in it comes before place `bound`. */
  ghost predicate InOrder(log: seq<Msg>, resumed: bool, bound: nat) {
    && (forall i, j :: 0 <= i < j < |log| ==> Rank(resumed, log[i]) < Rank(resumed, log[j]))
    && (forall i :: 0 <= i < |log| ==> Rank(resumed, log[i]) < bound)
  }

  lemma OrderMore(log: seq<Msg>, resumed: bool, bound: nat, m: Msg, next: nat)
    requires InOrder(log, resumed, bound) && bound <= Rank(resumed, m) < next
    ensures InOrder(log + [m], resumed, next)
  {
  }

  lemma SendKeeps(c: Conn, m: Msg, resumed: bool, bound: nat, next: nat)
    requires Faithful(c) && InOrder(c.log, resumed, bound) && bound <= Rank(resumed, m) < next
    ensures Faithful(Send(c, m)) && InOrder(Send(c, m).log, resumed, next)
  {
    OrderMore(c.log, resumed, bound, m, next);
  }

  lemma SendIfKeeps(c: Conn, yes: bool, m: Msg, resumed: bool, bound: nat)
    requires Faithful(c) && c.hash.Some? && InOrder(c.log, resumed, bound) && Rank(resumed, m) == bound
    ensures var d := SendIf(c, yes, m);
            && Faithful(d) && d.hash.Some? && InOrder(d.log, resumed, bound + 1) && d.inbox == c.inbox
            && (d.buffer.Some? <==> c.buffer.Some?)
  {
    OrderLater(c.log, resumed, bound, bound + 1);
    SendKeeps(c, m, resumed, bound, bound + 1);
  }

  lemma ReadKeeps(c: Conn, resumed: bool, bound: nat, next: nat)
    requires Faithful(c) && InOrder(c.log, resumed, bound) && c.inbox != [] && bound <= Rank(resumed, c.inbox[0]) < next
    ensures Faithful(Read(c)) && InOrder(Read(c).log, resumed, next)
  {
    OrderMore(c.log, resumed, bound, c.inbox[0], next);
  }

  lemma OrderLater(log: seq<Msg>, resumed: bool, bound: nat, next: nat)
    requires InOrder(log, resumed, bound) && bound <= next
    ensures InOrder(log, resumed, next)
  {
  }

  /** Before a ServerHello nothing depends on whether a session is resumed. */
  lemma OrderBeforeHello(log: seq<Msg>, resumed: bool)
    requires InOrder(log, false, 1)
    ensures InOrder(log, resumed, 1)
  {
    forall i | 0 <= i < |log|
      ensures log[i].kind == ClientHello
    {
      assert Rank(false, log[i]) < 1;
    }
  }

  // Whose turn it is ------------------------------------------------------------------------------------------------

  datatype Turn = ClientTurn | ServerTurn | NobodysTurn

  function ResumedIn(log: seq<Msg>): bool {
    if log == [] then false
    else
      var m := log[|log| - 1];
      if m.kind.ServerHello? && m.body.Hello? then m.body.p.resumed else ResumedIn(log[..|log| - 1])
  }

  /** Who sends the next message after these. */
  function TurnAfter(log: seq<Msg>): Turn {
    if log == [] then ClientTurn
    else
      var front, m := log[..|log| - 1], log[|log| - 1];
      match m.kind
      case ClientHello => ServerTurn
      case ServerHelloDone => ClientTurn
      case Finished =>
        if m.fromServer then (if ResumedIn(front) then ClientTurn else NobodysTurn)
        else (if ResumedIn(front) then NobodysTurn else ServerTurn)
      case _ => TurnAfter(front)
  }

  lemma TurnMore(log: seq<Msg>, m: Msg)
    ensures TurnAfter(log + [m]) ==
            match m.kind
            case ClientHello => ServerTurn
            case ServerHelloDone => ClientTurn
            case Finished =>
              if m.fromServer then (if ResumedIn(log) then ClientTurn else NobodysTurn)
              else (if ResumedIn(log) then NobodysTurn else ServerTurn)
            case _ => TurnAfter(log)
    ensures ResumedIn(log + [m]) == if m.kind.ServerHello? && m.body.Hello? then m.body.p.resumed else ResumedIn(log)
  {
    assert (log + [m])[..|log|] == log;
  }

  /** Each Finished and CertificateVerify is over the messages before it. */
  ghost predicate Truthful(log: seq<Msg>) {
    forall i :: 0 <= i < |log| ==> TruthfulAt(log[i], log[..i])
  }

  predicate TruthfulAt(m: Msg, before: seq<Msg>) {
    && (m.kind.Finished? ==> m.body == Mac(m.fromServer, before))
    && (m.kind.CertificateVerify? ==> m.body == Signed(before))
  }

  /** Each message was sent by the side whose turn it was. */
  ghost predicate InTurn(log: seq<Msg>) {
    forall i :: 0 <= i < |log| ==> TurnAfter(log[..i]) == if log[i].fromServer then ServerTurn else ClientTurn
  }

  lemma LogMore(log: seq<Msg>, m: Msg)
    requires Truthful(log) && InTurn(log) && TruthfulAt(m, log)
    requires TurnAfter(log) == if m.fromServer then ServerTurn else ClientTurn
    ensures Truthful(log + [m]) && InTurn(log + [m])
  {
    hide TurnAfter, TruthfulAt;
    var more := log + [m];
    forall i | 0 <= i < |more|
      ensures TruthfulAt(more[i], more[..i])
      ensures TurnAfter(more[..i]) == if more[i].fromServer then ServerTurn else ClientTurn
    {
      if i < |log| {
        assert more[..i] == log[..i];
      } else {
        assert more[..i] == log;
      }
    }
  }
}
