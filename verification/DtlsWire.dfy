/** The handshake fragment format of DTLS (RFC 6347, section 4.2.2; `dtls1_parse_fragment`). */
module DtlsWire {
  import opened Bits
  import opened Wrappers

  const HEADER_LENGTH: nat := 12

  datatype Header = Header(typ: byte, msgLen: nat, seqNo: nat, fragOff: nat, fragLen: nat)

  datatype Fragment = Fragment(header: Header, body: seq<byte>)

  predicate Fits(h: Header) {
    h.msgLen < 0x100_0000 && h.seqNo < U16 && h.fragOff < 0x100_0000 && h.fragLen < 0x100_0000
  }

  predicate WellFormed(f: Fragment) {
    Fits(f.header) && |f.body| == f.header.fragLen
  }

  function HeaderBytes(h: Header): (s: seq<byte>)
    requires Fits(h)
    ensures |s| == HEADER_LENGTH
  {
    [h.typ] + Be24(h.msgLen) + Be16(h.seqNo) + Be24(h.fragOff) + Be24(h.fragLen)
  }

  function FragmentBytes(f: Fragment): seq<byte>
    requires WellFormed(f)
  {
    HeaderBytes(f.header) + f.body
  }

  /** `dtls1_parse_fragment`: the first fragment of `s` and what follows it. */
  function ParseFragment(s: seq<byte>): (r: Option<(Fragment, seq<byte>)>)
    ensures r.Some? ==> WellFormed(r.value.0) && |r.value.1| < |s|
  {
    if |s| < HEADER_LENGTH then None
    else
      var h := Header(s[0], FromBe24(s[1..4]), FromBe16(s[4..6]), FromBe24(s[6..9]), FromBe24(s[9..12]));
      if |s| - HEADER_LENGTH < h.fragLen then None
      else Some((Fragment(h, s[HEADER_LENGTH..HEADER_LENGTH + h.fragLen]), s[HEADER_LENGTH + h.fragLen..]))
  }

  lemma ParseAfterWrite(f: Fragment, rest: seq<byte>)
    requires WellFormed(f)
    ensures ParseFragment(FragmentBytes(f) + rest) == Some((f, rest))
  {
    hide Be24, Be16, FromBe24, FromBe16;
    var s := FragmentBytes(f) + rest;
    var h := f.header;
    Be24Back(h.msgLen);
    Be16Back(h.seqNo);
    Be24Back(h.fragOff);
    Be24Back(h.fragLen);
    assert s[1..4] == Be24(h.msgLen);
    assert s[4..6] == Be16(h.seqNo);
    assert s[6..9] == Be24(h.fragOff);
    assert s[9..12] == Be24(h.fragLen);
    assert s[HEADER_LENGTH..HEADER_LENGTH + h.fragLen] == f.body;
    assert s[HEADER_LENGTH + h.fragLen..] == rest;
  }

  /** Parsing accepts nothing but written fragments: it is the inverse of writing on its whole domain. */
  lemma WriteAfterParse(s: seq<byte>)
    requires ParseFragment(s).Some?
    ensures var (f, rest) := ParseFragment(s).value; FragmentBytes(f) + rest == s
  {
    var (f, rest) := ParseFragment(s).value;
    NumbersAgree(s[1..4]);
    NumbersAgree(s[4..6]);
    NumbersAgree(s[6..9]);
    NumbersAgree(s[9..12]);
    assert HeaderBytes(f.header) == s[..1] + s[1..4] + s[4..6] + s[6..9] + s[9..12] == s[..HEADER_LENGTH];
  }

  /** The layout of RFC 6347, section 4.2.2: type, length, message number, fragment offset and fragment length are
      big-endian numbers at fixed places, and the body follows them. */
  lemma Layout(f: Fragment)
    requires WellFormed(f)
    ensures var s := FragmentBytes(f);
            && |s| == 12 + |f.body|
            && s[0] == f.header.typ
            && BigEndian(s[1..4]) == f.header.msgLen
            && BigEndian(s[4..6]) == f.header.seqNo
            && BigEndian(s[6..9]) == f.header.fragOff
            && BigEndian(s[9..12]) == f.header.fragLen
            && s[12..] == f.body
  {
    hide Be24, Be16;
    var s, h := FragmentBytes(f), f.header;
    Be24Means(h.msgLen);
    Be16Means(h.seqNo);
    Be24Means(h.fragOff);
    Be24Means(h.fragLen);
    assert s[1..4] == Be24(h.msgLen);
    assert s[4..6] == Be16(h.seqNo);
    assert s[6..9] == Be24(h.fragOff);
    assert s[9..12] == Be24(h.fragLen);
  }
}
