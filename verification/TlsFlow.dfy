/** The message flows of TLS 1.2, full and abbreviated (RFC 5246, section 7.3; RFC 5077, section 3.1). */
module TlsFlow {
  import opened Wrappers
  import opened TlsTranscript

  /** What the two sides settle on in one handshake: the parameters, whether the server asks for a certificate and
      sends key exchange parameters of its own accord, and whether the client has a certificate. */
  datatype Plan = Plan(p: Params, request: bool, keyExchange: bool, hasCert: bool)

  datatype Tag = Tag(kind: Kind, fromServer: bool)

  predicate Requests(x: Plan) {
    x.request && x.p.certAuth && !x.p.resumed
  }

  predicate Exchanges(x: Plan) {
    x.keyExchange || x.p.needsKeyExchange
  }

  function When(yes: bool, kind: Kind, fromServer: bool): seq<Tag> {
    if yes then [Tag(kind, fromServer)] else []
  }

  /** The messages of a handshake, in order. */
  function Flow(x: Plan): seq<Tag> {
    if x.p.resumed then
      [Tag(ClientHello, false), Tag(ServerHello, true)]
      + When(x.p.ticket, NewSessionTicket, true)
      + [Tag(Finished, true)]
      + When(x.p.nextProto, NextProto, false)
      + When(x.p.channelId, ChannelId, false)
      + [Tag(Finished, false)]
    else
      [Tag(ClientHello, false), Tag(ServerHello, true)]
      + When(x.p.certAuth, Certificate, true)
      + When(x.p.certAuth && x.p.status, CertificateStatus, true)
      + When(Exchanges(x), ServerKeyExchange, true)
      + When(Requests(x), CertificateRequest, true)
      + [Tag(ServerHelloDone, true)]
      + When(Requests(x), Certificate, false)
      + [Tag(ClientKeyExchange, false)]
      + When(Requests(x) && x.hasCert, CertificateVerify, false)
      + When(x.p.nextProto, NextProto, false)
      + When(x.p.channelId, ChannelId, false)
      + [Tag(Finished, false)]
      + When(x.p.ticket, NewSessionTicket, true)
      + [Tag(Finished, true)]
  }

  // The flow by places -------------------------------------------------------------------------------------------

  /** What is at place `i`, if anything. */
  function At(x: Plan, i: nat): seq<Tag> {
    if x.p.resumed then
      match i
      case 0 => [Tag(ClientHello, false)]
      case 1 => [Tag(ServerHello, true)]
      case 2 => When(x.p.ticket, NewSessionTicket, true)
      case 3 => [Tag(Finished, true)]
      case 4 => When(x.p.nextProto, NextProto, false)
      case 5 => When(x.p.channelId, ChannelId, false)
      case 6 => [Tag(Finished, false)]
      case _ => []
    else
      match i
      case 0 => [Tag(ClientHello, false)]
      case 1 => [Tag(ServerHello, true)]
      case 2 => When(x.p.certAuth, Certificate, true)
      case 3 => When(x.p.certAuth && x.p.status, CertificateStatus, true)
      case 4 => When(Exchanges(x), ServerKeyExchange, true)
      case 5 => When(Requests(x), CertificateRequest, true)
      case 6 => [Tag(ServerHelloDone, true)]
      case 7 => When(Requests(x), Certificate, false)
      case 8 => [Tag(ClientKeyExchange, false)]
      case 9 => When(Requests(x) && x.hasCert, CertificateVerify, false)
      case 10 => When(x.p.nextProto, NextProto, false)
      case 11 => When(x.p.channelId, ChannelId, false)
      case 12 => [Tag(Finished, false)]
      case 13 => When(x.p.ticket, NewSessionTicket, true)
      case 14 => [Tag(Finished, true)]
      case _ => []
  }

  function Upto(x: Plan, n: nat): seq<Tag> {
    if n == 0 then [] else Upto(x, n - 1) + At(x, n - 1)
  }

  lemma UptoNext(x: Plan, n: nat)
    ensures Upto(x, n + 1) == Upto(x, n) + At(x, n)
    ensures At(x, n) == [] ==> Upto(x, n + 1) == Upto(x, n)
    ensures |At(x, n)| <= 1
  {
  }

  lemma UptoSeven(x: Plan)
    ensures Upto(x, 7) == At(x, 0) + At(x, 1) + At(x, 2) + At(x, 3) + At(x, 4) + At(x, 5) + At(x, 6)
  {
    hide At;
    assert Upto(x, 1) == At(x, 0);
    assert Upto(x, 3) == At(x, 0) + At(x, 1) + At(x, 2);
    assert Upto(x, 5) == Upto(x, 3) + At(x, 3) + At(x, 4);
  }

  lemma UptoFifteen(x: Plan)
    ensures Upto(x, 15) ==
            Upto(x, 7) + At(x, 7) + At(x, 8) + At(x, 9) + At(x, 10) + At(x, 11) + At(x, 12) + At(x, 13) + At(x, 14)
  {
    hide At;
    assert Upto(x, 9) == Upto(x, 7) + At(x, 7) + At(x, 8);
    assert Upto(x, 11) == Upto(x, 9) + At(x, 9) + At(x, 10);
    assert Upto(x, 13) == Upto(x, 11) + At(x, 11) + At(x, 12);
  }

  lemma ResumedEnd(x: Plan)
    requires x.p.resumed
    ensures Upto(x, 15) == Flow(x)
  {
    hide Upto, When;
    UptoSeven(x);
    UptoSame(x, 7, 15);
    assert At(x, 0) + At(x, 1) == [Tag(ClientHello, false), Tag(ServerHello, true)];
  }

  lemma FullEnd(x: Plan)
    requires !x.p.resumed
    ensures Upto(x, 15) == Flow(x)
  {
    hide Upto, When, Requests, Exchanges;
    UptoSeven(x);
    UptoFifteen(x);
    assert At(x, 0) + At(x, 1) == [Tag(ClientHello, false), Tag(ServerHello, true)];
  }

  /** All places together are the flow. */
  lemma UptoEnd(x: Plan)
    ensures Upto(x, 15) == Flow(x)
  {
    hide Upto, Flow;
    if x.p.resumed {
      ResumedEnd(x);
    } else {
      FullEnd(x);
    }
  }

  lemma {:induction false} UptoGrows(x: Plan, n: nat, k: nat)
    requires n <= k
    ensures Upto(x, n) <= Upto(x, k)
    decreases k
  {
    hide At;
    if n < k {
      UptoGrows(x, n, k - 1);
    }
  }

  /** Nothing is at the places from `n` to `k`. */
  lemma {:induction false} UptoSame(x: Plan, n: nat, k: nat)
    requires n <= k && forall i :: n <= i < k ==> At(x, i) == []
    ensures Upto(x, n) == Upto(x, k)
    decreases k
  {
    hide At;
    if n < k {
      UptoSame(x, n, k - 1);
    }
  }

  // Logs along the flow ------------------------------------------------------------------------------------------

  function TagOf(m: Msg): Tag {
    Tag(m.kind, m.fromServer)
  }

  function TagsOf(log: seq<Msg>): seq<Tag> {
    seq(|log|, i requires 0 <= i < |log| => TagOf(log[i]))
  }

  lemma TagsMore(log: seq<Msg>, m: Msg)
    ensures TagsOf(log + [m]) == TagsOf(log) + [TagOf(m)]
  {
  }

  /** The message is the first of the flow from place `n` on. */
  ghost predicate Comes(x: Plan, n: nat, m: Msg) {
    var r := Rank(x.p.resumed, m);
    n <= r < 15 && At(x, r) == [TagOf(m)] && forall i :: n <= i < r ==> At(x, i) == []
  }

  lemma PlaceIsRank(x: Plan, n: nat, m: Msg)
    requires At(x, n) == [TagOf(m)]
    ensures Rank(x.p.resumed, m) == n < 15
  {
    hide Requests, Exchanges;
    if x.p.resumed {
      assert n < 7;
    } else {
      assert n < 15;
    }
  }

  /** What comes next is what is at this place, if anything is. */
  lemma Due(x: Plan, n: nat, m: Msg)
    requires Comes(x, n, m)
    ensures At(x, n) != [] ==> At(x, n) == [TagOf(m)] && Rank(x.p.resumed, m) == n
    ensures At(x, n) == [] ==> Comes(x, n + 1, m)
  {
    hide At, Rank;
  }

  /** Of two logs along the flow, the longer one goes on with the message that comes next. */
  lemma {:induction false} NextComes(x: Plan, n: nat, k: nat, short: seq<Msg>, long: seq<Msg>)
    requires TagsOf(short) == Upto(x, n) && TagsOf(long) == Upto(x, k) && short <= long && |short| < |long|
    ensures n < k && Comes(x, n, long[|short|])
    decreases k - n
  {
    hide At, Upto, Rank;
    assert |Upto(x, n)| < |Upto(x, k)|;
    if k <= n {
      UptoGrows(x, k, n);
    }
    UptoNext(x, n);
    UptoGrows(x, n + 1, k);
    if At(x, n) == [] {
      NextComes(x, n + 1, k, short, long);
    } else {
      var m := long[|short|];
      assert Upto(x, k)[|short|] == TagOf(m) == Upto(x, n + 1)[|short|];
      assert At(x, n) == [TagOf(m)];
      PlaceIsRank(x, n, m);
    }
  }

  /** A message at its place. */
  lemma Along(x: Plan, n: nat, log: seq<Msg>, m: Msg)
    requires TagsOf(log) == Upto(x, n) && At(x, n) == [TagOf(m)]
    ensures TagsOf(log + [m]) == Upto(x, n + 1)
  {
    hide At, Upto;
    UptoNext(x, n);
    TagsMore(log, m);
  }

  /** A message that comes next, with whatever places it passes over. */
  lemma ComesAlong(x: Plan, n: nat, log: seq<Msg>, m: Msg)
    requires TagsOf(log) == Upto(x, n) && Comes(x, n, m)
    ensures TagsOf(log + [m]) == Upto(x, Rank(x.p.resumed, m) + 1)
  {
    hide At, Upto, Rank;
    UptoSame(x, n, Rank(x.p.resumed, m));
    Along(x, Rank(x.p.resumed, m), log, m);
  }

  /** Two plans with the same places have the same flow so far. */
  lemma {:induction false} SamePlaces(x: Plan, z: Plan, n: nat)
    requires forall i :: 0 <= i < n ==> At(x, i) == At(z, i)
    ensures Upto(x, n) == Upto(z, n)
  {
    hide At;
    if n > 0 {
      SamePlaces(x, z, n - 1);
    }
  }

  /** What is in a message, where the other side depends on it. */
  ghost predicate Contents(x: Plan, m: Msg) {
    && (m.kind.ServerHello? ==> m.body == Hello(x.p))
    && (m.kind.Certificate? && !m.fromServer ==> (m.body != Opaque(0) <==> x.hasCert))
  }
}
