/** Sending DTLS handshake messages (d1_both.cc, from dtls1_init_message on): what the cursor does. */
module DtlsSend {
  import opened Bits
  import opened Wrappers
  import opened DtlsWire
  import opened DtlsRing
  import DtlsSeal

  const RECORD_HEADER: nat := 13

  /** An outgoing handshake message or ChangeCipherSpec, DTLS_OUTGOING_MESSAGE. */
  datatype Outgoing = Outgoing(data: seq<byte>, epoch: nat, isCcs: bool)

  /** What is known of a cipher: its explicit nonce, the longest tag, and the tag for a plaintext length. */
  datatype Cipher = Cipher(nonceLen: nat, maxTag: nat, tag: nat -> nat)

  ghost predicate Bounded(c: Cipher) {
    forall n: nat :: c.tag(n) <= c.maxTag
  }

  datatype Record = Record(epoch: nat, number: nat, typ: RecordType, plaintext: seq<byte>, length: nat)

  datatype Sender = Sender(
    flight: seq<Outgoing>,
    complete: bool,
    written: nat,
    offset: nat,
    writeSeq: nat,
    writer: DtlsSeal.Writer)

  const FRESH := Sender([], false, 0, 0, 0, DtlsSeal.START)

  // Messages ---------------------------------------------------------------------------------------

  /** The bytes `dtls1_init_message` and the caller produce: the total length is still zero. */
  function Draft(typ: byte, seqNo: nat, body: seq<byte>): (draft: seq<byte>)
    requires seqNo < U16 && |body| < 0x100_0000
    ensures |draft| == HEADER_LENGTH + |body|
  {
    HeaderBytes(Header(typ, 0, seqNo, 0, |body|)) + body
  }

  /** `dtls1_finish_message` copies the fragment length over the total length. */
  function Finished(draft: seq<byte>): seq<byte>
    requires |draft| >= HEADER_LENGTH
  {
    draft[..1] + draft[HEADER_LENGTH - 3..HEADER_LENGTH] + draft[4..]
  }

  function Unfragmented(typ: byte, seqNo: nat, body: seq<byte>): Fragment {
    Fragment(Header(typ, |body|, seqNo, 0, |body|), body)
  }

  lemma FinishedIsUnfragmented(typ: byte, seqNo: nat, body: seq<byte>)
    requires seqNo < U16 && |body| < 0x100_0000
    ensures Finished(Draft(typ, seqNo, body)) == FragmentBytes(Unfragmented(typ, seqNo, body))
  {
  }

  /** `add_outgoing`; the handshake number counts messages only. */
  function Add(s: Sender, data: seq<byte>, isCcs: bool): (r: (Sender, bool))
  {
    var t := if s.complete then s.(flight := [], complete := false, written := 0, offset := 0) else s;
    if |t.flight| >= FLIGHT then (t, false)
    else
      (t.(flight := t.flight + [Outgoing(data, t.writer.epoch, isCcs)],
          writeSeq := if isCcs then t.writeSeq else (t.writeSeq + 1) % U16), true)
  }

  // One record ---------------------------------------------------------------------------------------

  /** `dtls_seal_record`: the record number is taken even where the length check after it fails. */
  function SealRecord(w: DtlsSeal.Writer, use: DtlsSeal.Use, c: Cipher, typ: RecordType, plaintext: seq<byte>,
                      maxOut: nat)
    : (r: (DtlsSeal.Writer, Option<Record>))
    requires use.PreviousEpoch? ==> w.epoch >= 1
    ensures r.1.Some? ==>
              r.1.value.length <= maxOut && r.1.value.plaintext == plaintext && r.0 == DtlsSeal.Bump(w, use).0
    ensures r.0.epoch == w.epoch
  {
    var body := c.nonceLen + |plaintext| + c.tag(|plaintext|);
    if maxOut < RECORD_HEADER || body > maxOut - RECORD_HEADER then (w, None)
    else
      var (epoch, number) := DtlsSeal.Stamp(w, use);
      var (w', ok) := DtlsSeal.Bump(w, use);
      if !ok || body >= U16 then (w', None)
      else (w', Some(Record(epoch, number, typ, plaintext, RECORD_HEADER + body)))
  }

  datatype Sealed = Failed | NoProgress | Partial(record: Record) | Whole(record: Record)

  function UseFor(s: Sender, m: Outgoing): Option<DtlsSeal.Use> {
    if s.writer.epoch >= 1 && m.epoch == s.writer.epoch - 1 then Some(DtlsSeal.PreviousEpoch)
    else if m.epoch != s.writer.epoch then None
    else Some(DtlsSeal.CurrentEpoch)
  }

  /** The whole message as one fragment, if the stored bytes are that and nothing else. */
  function MessageOf(m: Outgoing): (r: Option<Fragment>)
    ensures r.Some? ==> WellFormed(r.value)
  {
    match ParseFragment(m.data)
    case None => None
    case Some((f, rest)) =>
      if f.header.fragOff == 0 && f.header.fragLen == f.header.msgLen && rest == [] then Some(f) else None
  }

  /** What `dtls1_finish_message` leaves behind is one whole message. */
  lemma FinishedIsMessage(typ: byte, seqNo: nat, body: seq<byte>, epoch: nat)
    requires seqNo < U16 && |body| < 0x100_0000
    ensures MessageOf(Outgoing(Finished(Draft(typ, seqNo, body)), epoch, false)) == Some(Unfragmented(typ, seqNo, body))
  {
    hide HeaderBytes;
    var f := Unfragmented(typ, seqNo, body);
    FinishedIsUnfragmented(typ, seqNo, body);
    ParseAfterWrite(f, []);
    assert FragmentBytes(f) + [] == FragmentBytes(f);
  }

  /** The piece of a message from `off` on, `len` bytes long. */
  function Cut(f: Fragment, off: nat, len: nat): (r: Fragment)
    requires WellFormed(f) && off + len <= |f.body|
    ensures WellFormed(r)
  {
    Fragment(f.header.(fragOff := off, fragLen := len), f.body[off..off + len])
  }

  /** `seal_next_message`, for the message under the cursor. */
  function SealNextMessage(s: Sender, ciphers: DtlsSeal.Use -> Cipher, maxOut: nat): (r: (Sender, Sealed))
    requires s.written < |s.flight|
    ensures r.0 == s.(offset := r.0.offset, writer := r.0.writer)
    ensures r.1.Partial? || r.1.Whole? ==> r.1.record.length <= maxOut
  {
    var m := s.flight[s.written];
    match UseFor(s, m)
    case None => (s, Failed)
    case Some(use) =>
      var c := ciphers(use);
      var overhead := RECORD_HEADER + c.nonceLen + c.maxTag;
      var prefix := RECORD_HEADER + c.nonceLen;
      if m.isCcs then
        if maxOut < 1 + overhead then (s, NoProgress)
        else
          var (w, r) := SealRecord(s.writer, use, c, ChangeCipherSpec, [1], maxOut);
          (s.(writer := w), if r.None? then Failed else Whole(r.value))
      else
        match MessageOf(m)
        case None => (s, Failed)
        case Some(f) =>
          if s.offset > |f.body| then (s, Failed)
          else if maxOut < HEADER_LENGTH + 1 + overhead || maxOut < prefix then (s, NoProgress)
          else
            var rest := |f.body| - s.offset;
            var room := maxOut - HEADER_LENGTH - overhead;
            var todo := if rest > room then room else rest;
            var (w, r) := SealRecord(s.writer, use, c, Handshake, FragmentBytes(Cut(f, s.offset, todo)), maxOut);
            if r.None? then (s.(writer := w), Failed)
            else if todo == rest then (s.(writer := w, offset := 0), Whole(r.value))
            else (s.(writer := w, offset := s.offset + todo), Partial(r.value))
  }

  // Well-formed senders --------------------------------------------------------------------------------

  /** The place of the cursor: which message, and how far into it. */
  datatype Cursor = Cursor(message: nat, offset: nat)

  const REWOUND := Cursor(0, 0)

  function At(s: Sender): Cursor {
    Cursor(s.written, s.offset)
  }

  ghost predicate GoodFlight(flight: seq<Outgoing>) {
    forall i :: 0 <= i < |flight| ==> flight[i].isCcs || MessageOf(flight[i]).Some?
  }

  /** The cursor points before a message or strictly inside one. */
  ghost predicate GoodCursor(flight: seq<Outgoing>, c: Cursor)
    requires GoodFlight(flight)
  {
    && c.message <= |flight|
    && (c.offset > 0 ==>
          && c.message < |flight| && !flight[c.message].isCcs
          && c.offset < |MessageOf(flight[c.message]).value.body|)
  }

  ghost predicate Good(s: Sender) {
    && |s.flight| <= FLIGHT
    && GoodFlight(s.flight)
    && GoodCursor(s.flight, At(s))
  }

  // Tiling ---------------------------------------------------------------------------------------------

  /** Record `r` carries what lies under cursor `c`, and leaves the cursor at `d`. */
  ghost predicate Carries(flight: seq<Outgoing>, c: Cursor, r: Record, d: Cursor)
    requires GoodFlight(flight)
  {
    c.message < |flight| &&
    var m := flight[c.message];
    r.epoch == m.epoch &&
    if m.isCcs then
      r.typ == ChangeCipherSpec && r.plaintext == [1] && c.offset == 0 && d == Cursor(c.message + 1, 0)
    else
      var f := MessageOf(m).value;
      var len := |r.plaintext| - HEADER_LENGTH;
      && r.typ == Handshake
      && 0 <= len && c.offset + len <= |f.body|
      && r.plaintext == FragmentBytes(Cut(f, c.offset, len))
      && (if c.offset + len == |f.body| then d == Cursor(c.message + 1, 0)
          else len > 0 && d == Cursor(c.message, c.offset + len))
  }

  /** The records tile the flight from one cursor to another: in order, with no gap and no overlap. */
  ghost predicate Tiles(flight: seq<Outgoing>, c: Cursor, rs: seq<Record>, d: Cursor)
    requires GoodFlight(flight)
    decreases |rs|
  {
    if rs == [] then c == d
    else exists e: Cursor :: Carries(flight, c, rs[0], e) && Tiles(flight, e, rs[1..], d)
  }

  lemma {:induction false} TilesConcat(flight: seq<Outgoing>, c: Cursor, rs: seq<Record>, d: Cursor, ts: seq<Record>,
                                       e: Cursor)
    requires GoodFlight(flight) && Tiles(flight, c, rs, d) && Tiles(flight, d, ts, e)
    ensures Tiles(flight, c, rs + ts, e)
    decreases |rs|
  {
    hide GoodFlight, Carries;
    if rs == [] {
      assert rs + ts == ts;
    } else {
      var next: Cursor :| Carries(flight, c, rs[0], next) && Tiles(flight, next, rs[1..], d);
      TilesConcat(flight, next, rs[1..], d, ts, e);
      assert (rs + ts)[1..] == rs[1..] + ts;
    }
  }

  lemma TilesOne(flight: seq<Outgoing>, c: Cursor, r: Record, d: Cursor)
    requires GoodFlight(flight) && Carries(flight, c, r, d)
    ensures Tiles(flight, c, [r], d)
  {
    assert Tiles(flight, d, [r][1..], d);
  }

  function Body(m: Outgoing): seq<byte>
    requires MessageOf(m).Some?
  {
    MessageOf(m).value.body
  }

  /** What record `r`, sent at cursor `c`, carries of the body of message `k`. */
  function Piece(c: Cursor, r: Record, k: nat): seq<byte> {
    if c.message == k && |r.plaintext| >= HEADER_LENGTH then r.plaintext[HEADER_LENGTH..] else []
  }

  /** The body bytes the records carry of message `k`, put one after the other, starting from cursor `c`. */
  ghost function BytesOf(flight: seq<Outgoing>, c: Cursor, rs: seq<Record>, k: nat): seq<byte>
    requires GoodFlight(flight)
    decreases |rs|
  {
    if rs == [] || !exists e: Cursor :: Carries(flight, c, rs[0], e) then []
    else
      var e: Cursor :| Carries(flight, c, rs[0], e);
      Piece(c, rs[0], k) + BytesOf(flight, e, rs[1..], k)
  }

  lemma CarriesOnward(flight: seq<Outgoing>, c: Cursor, r: Record, d: Cursor)
    requires GoodFlight(flight) && GoodCursor(flight, c) && Carries(flight, c, r, d)
    ensures GoodCursor(flight, d)
    ensures d == Cursor(c.message + 1, 0) || (d.message == c.message && d.offset > c.offset)
    ensures !flight[c.message].isCcs ==>
              r.plaintext[HEADER_LENGTH..] ==
              Body(flight[c.message])[c.offset..if d.message > c.message then |Body(flight[c.message])| else d.offset]
  {
  }

  lemma CarriesUnique(flight: seq<Outgoing>, c: Cursor, r: Record, d: Cursor, e: Cursor)
    requires GoodFlight(flight) && Carries(flight, c, r, d) && Carries(flight, c, r, e)
    ensures d == e
  {
  }

  /** How far a tiling from `c` to `d` has got in message `k`. */
  function Reached(len: nat, c: Cursor, k: nat): nat {
    if k < c.message then len else if k == c.message then c.offset else 0
  }

  lemma PieceMeans(flight: seq<Outgoing>, c: Cursor, r: Record, d: Cursor, k: nat)
    requires GoodFlight(flight) && GoodCursor(flight, c) && Carries(flight, c, r, d)
    requires k < |flight| && !flight[k].isCcs
    ensures var n := |Body(flight[k])|;
            Reached(n, c, k) <= Reached(n, d, k) <= n
            && Piece(c, r, k) == Body(flight[k])[Reached(n, c, k)..Reached(n, d, k)]
  {
    CarriesOnward(flight, c, r, d);
  }

  lemma BytesStep(flight: seq<Outgoing>, c: Cursor, rs: seq<Record>, d: Cursor, k: nat)
    requires GoodFlight(flight) && rs != [] && Carries(flight, c, rs[0], d)
    ensures BytesOf(flight, c, rs, k) == Piece(c, rs[0], k) + BytesOf(flight, d, rs[1..], k)
  {
    forall e | Carries(flight, c, rs[0], e)
      ensures e == d
    {
      CarriesUnique(flight, c, rs[0], d, e);
    }
  }

  lemma Join(b: seq<byte>, x: nat, y: nat, z: nat)
    requires x <= y <= z <= |b|
    ensures b[x..y] + b[y..z] == b[x..z]
  {
  }

  /** What tiling means: the pieces of message `k`, put together in the order they were sent, are exactly the bytes
      of its body between the two cursors. */
  lemma {:induction false} TilingMeans(flight: seq<Outgoing>, c: Cursor, rs: seq<Record>, d: Cursor, k: nat)
    requires GoodFlight(flight) && GoodCursor(flight, c) && Tiles(flight, c, rs, d)
    requires k < |flight| && !flight[k].isCcs
    ensures GoodCursor(flight, d)
    ensures var n := |Body(flight[k])|;
            Reached(n, c, k) <= Reached(n, d, k) <= n
            && BytesOf(flight, c, rs, k) == Body(flight[k])[Reached(n, c, k)..Reached(n, d, k)]
    decreases |rs|
  {
    if rs != [] {
      var e: Cursor :| Carries(flight, c, rs[0], e) && Tiles(flight, e, rs[1..], d);
      CarriesOnward(flight, c, rs[0], e);
      TilingMeans(flight, e, rs[1..], d, k);
      BytesStep(flight, c, rs, e, k);
      PieceAndRest(flight, c, rs[0], e, d, k);
    } else {
      PieceReach(flight, c, k);
    }
  }

  lemma PieceReach(flight: seq<Outgoing>, c: Cursor, k: nat)
    requires GoodFlight(flight) && GoodCursor(flight, c)
    requires k < |flight| && !flight[k].isCcs
    ensures Reached(|Body(flight[k])|, c, k) <= |Body(flight[k])|
  {
  }

  lemma PieceAndRest(flight: seq<Outgoing>, c: Cursor, r: Record, e: Cursor, d: Cursor, k: nat)
    requires GoodFlight(flight) && GoodCursor(flight, c) && Carries(flight, c, r, e)
    requires k < |flight| && !flight[k].isCcs
    requires var n := |Body(flight[k])|; Reached(n, e, k) <= Reached(n, d, k) <= n
    ensures var n := |Body(flight[k])|;
            Reached(n, c, k) <= Reached(n, e, k)
            && Piece(c, r, k) + Body(flight[k])[Reached(n, e, k)..Reached(n, d, k)]
               == Body(flight[k])[Reached(n, c, k)..Reached(n, d, k)]
  {
    PieceMeans(flight, c, r, e, k);
    var b := Body(flight[k]);
    Join(b, Reached(|b|, c, k), Reached(|b|, e, k), Reached(|b|, d, k));
  }

  /** A tiling of the whole flight carries each message's body exactly once, in order. */
  lemma WholeFlight(flight: seq<Outgoing>, rs: seq<Record>, k: nat)
    requires GoodFlight(flight) && Tiles(flight, REWOUND, rs, Cursor(|flight|, 0))
    requires k < |flight| && !flight[k].isCcs
    ensures BytesOf(flight, REWOUND, rs, k) == Body(flight[k])
  {
    TilingMeans(flight, REWOUND, rs, Cursor(|flight|, 0), k);
  }
}
