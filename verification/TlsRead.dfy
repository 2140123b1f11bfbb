/** Reading TLS handshake messages: records are joined and cut into messages again (s3_both.cc, `parse_message` on). */
module TlsRead {
  import opened Bits
  import opened Wrappers

  const HEADER: nat := 4

  function BodyLength(s: seq<byte>): nat
    requires |s| >= HEADER
  {
    s[1] as int * 0x1_0000 + s[2] as int * 0x100 + s[3] as int
  }

  /** A type, a 24-bit length and that many bytes. */
  predicate Framed(m: seq<byte>) {
    |m| >= HEADER && |m| == HEADER + BodyLength(m)
  }

  /** `parse_message`: the first message, or how many bytes it takes to have it. */
  datatype Parsed = Complete(raw: seq<byte>) | Needs(bytes: nat)

  function ParseMessage(buf: seq<byte>): Parsed {
    if |buf| < HEADER then Needs(HEADER)
    else if |buf| - HEADER < BodyLength(buf) then Needs(HEADER + BodyLength(buf))
    else Complete(buf[..HEADER + BodyLength(buf)])
  }

  lemma ParsedIsFramed(buf: seq<byte>)
    ensures ParseMessage(buf).Complete? ==> Framed(ParseMessage(buf).raw) && ParseMessage(buf).raw <= buf
    ensures ParseMessage(buf).Needs? ==> |buf| < ParseMessage(buf).bytes
  {
  }

  // A writer apart --------------------------------------------------------------------------------------

  /** A handshake message of RFC 5246, section 7.4. */
  datatype Message = Message(typ: byte, body: seq<byte>)
  {
    ghost predicate Valid() {
      |body| < 0x100_0000
    }
  }

  /** A type, the length as three bytes, the body: as they are written. */
  function Written(m: Message): seq<byte>
    requires m.Valid()
  {
    [m.typ] + Be24(|m.body|) + m.body
  }

  lemma BodyLengthMeans(s: seq<byte>)
    requires |s| >= HEADER
    ensures BodyLength(s) == BigEndian(s[1..4]) < 0x100_0000
  {
    BigEndianShort(s[1..4]);
  }

  /** The framed byte strings are the written messages: the one of type and body `MessageOf` finds. */
  lemma FramedIsWritten(s: seq<byte>)
    ensures Framed(s) ==> MessageOf(s).Valid() && Written(MessageOf(s)) == s
  {
    hide Be24;
    if Framed(s) {
      assert FromBe24(s[1..4]) == BodyLength(s) == |s[HEADER..]|;
      NumbersAgree(s[1..4]);
      assert s[..1] + s[1..4] + s[HEADER..] == s;
    }
  }

  function MessageOf(s: seq<byte>): Message
    requires |s| >= HEADER
  {
    Message(s[0], s[HEADER..])
  }

  /** Whatever follows a written message, it is what is parsed; and of a part of one, the parser asks for the header
      and then for exactly the rest. */
  lemma WrittenParses(m: Message, rest: seq<byte>)
    requires m.Valid()
    ensures Framed(Written(m)) && MessageOf(Written(m)) == m
    ensures ParseMessage(Written(m) + rest) == Complete(Written(m))
    ensures forall part: seq<byte> :: part <= Written(m) && part != Written(m) ==>
              ParseMessage(part) == Needs(if |part| < 4 then 4 else 4 + |m.body|)
  {
    hide Be24;
    var s := Written(m);
    var digits := Be24(|m.body|);
    Be24Back(|m.body|);
    assert s[1..4] == digits;
    assert BodyLength(s) == FromBe24(s[1..4]);
    assert s[HEADER..] == m.body;
    FramedParses(s, rest);
    forall part: seq<byte> | part <= s && part != s
      ensures ParseMessage(part) == Needs(if |part| < 4 then 4 else 4 + |m.body|)
    {
      assert |part| < |s|;
    }
  }

  lemma FramedParses(m: seq<byte>, rest: seq<byte>)
    requires Framed(m)
    ensures ParseMessage(m + rest) == Complete(m)
  {
    assert (m + rest)[..|m|] == m;
  }

  /** The buffer holds a whole message exactly when it begins with a written one, and that is the one parsed. */
  lemma WholeExactly(buf: seq<byte>)
    ensures forall m: Message :: m.Valid() && Written(m) <= buf ==> ParseMessage(buf) == Complete(Written(m))
    ensures match ParseMessage(buf)
            case Needs(n) => n > |buf|
            case Complete(s) =>
              |s| >= 4 && MessageOf(s).Valid() && s == Written(MessageOf(s)) && s <= buf
  {
    hide Written, BodyLength;
    forall m: Message | m.Valid() && Written(m) <= buf
      ensures ParseMessage(buf) == Complete(Written(m))
    {
      var s := Written(m);
      WrittenParses(m, buf[|s|..]);
      assert s + buf[|s|..] == buf;
    }
    ParsedIsFramed(buf);
    if ParseMessage(buf).Complete? {
      FramedIsWritten(ParseMessage(buf).raw);
    }
  }

  function Flat(ms: seq<seq<byte>>): seq<byte> {
    if ms == [] then [] else ms[0] + Flat(ms[1..])
  }

  lemma {:induction false} FlatMore(ms: seq<seq<byte>>, m: seq<byte>)
    ensures Flat(ms + [m]) == Flat(ms) + m
  {
    if ms == [] {
      assert ms + [m] == [m];
      assert Flat([m]) == m + Flat([]);
      assert m + [] == m && [] + m == m;
    } else {
      FlatMore(ms[1..], m);
      assert (ms + [m])[1..] == ms[1..] + [m];
      assert ms[0] + (Flat(ms[1..]) + m) == (ms[0] + Flat(ms[1..])) + m;
    }
  }

  ghost predicate AllFramed(ms: seq<seq<byte>>) {
    forall i :: 0 <= i < |ms| ==> Framed(ms[i])
  }

  /** Framing is unique: messages read off the front of a stream of messages are its first messages. */
  lemma {:induction false} FramingUnique(sent: seq<seq<byte>>, taken: seq<seq<byte>>, left: seq<byte>)
    requires AllFramed(sent) && AllFramed(taken) && Flat(taken) + left <= Flat(sent)
    ensures taken <= sent
  {
    if taken != [] {
      var t := taken[0];
      assert Framed(t);
      var after := Flat(taken[1..]) + left;
      assert Flat(taken) + left == t + after;
      assert |t| > 0 && |t + after| <= |Flat(sent)|;
      assert sent != [];
      var s := sent[0];
      var tail := Flat(sent)[|t + after|..];
      assert Flat(sent) == t + (after + tail);
      FramedParses(t, after + tail);
      FramedParses(s, Flat(sent[1..]));
      assert after + tail == Flat(sent[1..]);
      FramingUnique(sent[1..], taken[1..], left);
    }
  }

  /** A connection's handshake buffer, for the messages after a first one that is no V2ClientHello. */
  class HandshakeReader {
    var hsBuf: seq<byte>
    var hasMessage: bool

    /** The bodies of the records opened, joined; and the messages taken. */
    ghost var received: seq<byte>
    ghost var taken: seq<seq<byte>>

    ghost predicate Valid()
      reads this
    {
      && AllFramed(taken)
      && Flat(taken) + hsBuf == received
      && (hasMessage ==> ParseMessage(hsBuf).Complete?)
    }

    constructor ()
      ensures Valid() && received == [] && taken == []
    {
      hsBuf, hasMessage, received, taken := [], false, [], [];
    }

    /** `tls_can_accept_handshake_data`: no whole message is there, and the one to come is not announced as too long. */
    method CanAccept(maxLen: nat) returns (ok: bool)
      requires Valid()
      ensures ok <==>
                && (forall m: Message :: m.Valid() ==> !(Written(m) <= hsBuf))
                && (|hsBuf| >= 4 ==> BigEndian(hsBuf[1..4]) <= maxLen)
    {
      hide BigEndian, Written, BodyLength;
      WholeExactly(hsBuf);
      if |hsBuf| >= HEADER {
        BodyLengthMeans(hsBuf);
      }
      var p := ParseMessage(hsBuf);
      ok := p.Needs? && p.bytes <= HEADER + maxLen;
    }

    /** `ssl3_open_handshake`, once the record layer has opened a handshake record. */
    method OpenRecord(body: seq<byte>)
      requires Valid()
      modifies this`hsBuf, this`received
      ensures Valid() && received == old(received) + body && hsBuf == old(hsBuf) + body
    {
      if hasMessage {
        FramedParses(ParseMessage(hsBuf).raw, hsBuf[|ParseMessage(hsBuf).raw|..] + body);
        assert hsBuf + body == ParseMessage(hsBuf).raw + (hsBuf[|ParseMessage(hsBuf).raw|..] + body);
      }
      assert Flat(taken) + (hsBuf + body) == (Flat(taken) + hsBuf) + body;
      hsBuf := hsBuf + body;
      received := received + body;
    }

    /** `ssl3_get_message`. */
    method GetMessage() returns (raw: Option<seq<byte>>)
      requires Valid()
      modifies this`hasMessage
      ensures Valid() && hasMessage == (old(hasMessage) || raw.Some?)
      ensures match raw
              case None => ParseMessage(hsBuf).Needs? && forall m: Message :: m.Valid() ==> !(Written(m) <= hsBuf)
              case Some(s) =>
                ParseMessage(hsBuf) == Complete(s) && |s| >= 4
                && MessageOf(s).Valid() && s == Written(MessageOf(s)) <= hsBuf
    {
      hide Written, BodyLength;
      WholeExactly(hsBuf);
      match ParseMessage(hsBuf)
      case Needs(_) => raw := None;
      case Complete(m) =>
        hasMessage := true;
        raw := Some(m);
    }

    /** `ssl3_next_message`. */
    method NextMessage()
      requires Valid() && ParseMessage(hsBuf).Complete?
      modifies this
      ensures Valid() && received == old(received) && taken == old(taken) + [old(ParseMessage(hsBuf).raw)]
      ensures old(ParseMessage(hsBuf).raw) + hsBuf == old(hsBuf) && !hasMessage
    {
      var m := ParseMessage(hsBuf).raw;
      assert hsBuf == m + hsBuf[|m|..];
      FlatMore(taken, m);
      assert Flat(taken) + (m + hsBuf[|m|..]) == (Flat(taken) + m) + hsBuf[|m|..];
      taken := taken + [m];
      hsBuf := hsBuf[|m|..];
      hasMessage := false;
    }

    /** `tls_has_unprocessed_handshake_data`: nothing is left exactly when all that has been received has been taken or
        is handed out. */
    method HasUnprocessed() returns (some: bool)
      requires Valid()
      ensures !some <==> received == Flat(if hasMessage then taken + [ParseMessage(hsBuf).raw] else taken)
    {
      ParsedIsFramed(hsBuf);
      ghost var out := if hasMessage then ParseMessage(hsBuf).raw else [];
      if hasMessage {
        FlatMore(taken, out);
      }
      assert Flat(taken) + [] == Flat(taken);
      assert |received| == |Flat(taken)| + |hsBuf| && out <= hsBuf;
      var len := 0;
      if hasMessage {
        len := |ParseMessage(hsBuf).raw|;
      }
      some := |hsBuf| > len;
    }
  }

  ghost predicate AllValid(ms: seq<Message>) {
    forall i :: 0 <= i < |ms| ==> ms[i].Valid()
  }

  function WrittenAll(ms: seq<Message>): seq<seq<byte>>
    requires AllValid(ms)
  {
    seq(|ms|, i requires 0 <= i < |ms| => Written(ms[i]))
  }

  /** However the messages the peer wrote were split over records, the messages taken are those messages in order, and
      when the buffer holds none that is complete, all that have arrived have been taken. */
  lemma TakenAreSent(r: HandshakeReader, sent: seq<Message>, later: seq<byte>)
    requires r.Valid() && AllValid(sent) && r.received + later == Flat(WrittenAll(sent))
    ensures r.taken <= WrittenAll(sent)
    ensures later == [] && ParseMessage(r.hsBuf).Needs? ==> r.taken == WrittenAll(sent) && r.hsBuf == []
  {
    hide Written, ParseMessage, BodyLength;
    var raws := WrittenAll(sent);
    forall i | 0 <= i < |raws|
      ensures Framed(raws[i])
    {
      WrittenParses(sent[i], []);
    }
    TakenAreFirst(r, raws, later);
  }

  lemma TakenAreFirst(r: HandshakeReader, sent: seq<seq<byte>>, later: seq<byte>)
    requires r.Valid() && AllFramed(sent) && r.received + later == Flat(sent)
    ensures r.taken <= sent
    ensures later == [] && ParseMessage(r.hsBuf).Needs? ==> r.taken == sent && r.hsBuf == []
  {
    assert Flat(r.taken) + r.hsBuf <= Flat(sent);
    FramingUnique(sent, r.taken, r.hsBuf);
    if later == [] && ParseMessage(r.hsBuf).Needs? {
      var n := |r.taken|;
      FlatSplit(sent, n);
      assert r.received + [] == r.received;
      assert r.taken == sent[..n];
      var front := Flat(r.taken);
      assert (front + r.hsBuf)[|front|..] == r.hsBuf && (front + Flat(sent[n..]))[|front|..] == Flat(sent[n..]);
      if n < |sent| {
        FramedParses(sent[n], Flat(sent[n..][1..]));
      }
    }
  }

  lemma {:induction false} FlatSplit(ms: seq<seq<byte>>, n: nat)
    requires n <= |ms|
    ensures Flat(ms) == Flat(ms[..n]) + Flat(ms[n..])
  {
    if n == 0 {
      assert ms[0..] == ms && Flat(ms[..0]) == [];
    } else {
      FlatSplit(ms[1..], n - 1);
      assert ms[..n][1..] == ms[1..][..n - 1] && ms[n..] == ms[1..][n - 1..];
      assert ms[..n][0] == ms[0];
      assert ms[0] + (Flat(ms[1..][..n - 1]) + Flat(ms[n..])) == (ms[0] + Flat(ms[1..][..n - 1])) + Flat(ms[n..]);
    }
  }
}
