/** Sending a flight: datagrams, failed writes, rewinding (d1_both.cc, `seal_next_packet` to the end). */
module DtlsFlight {
  import opened Bits
  import opened Wrappers
  import opened DtlsWire
  import opened DtlsRing
  import opened DtlsSend
  import DtlsSeal

  type Ciphers = DtlsSeal.Use -> Cipher

  /** Where the cursor is once the record just sealed counts as sent. */
  function After(s: Sender, r: Sealed): Cursor
    requires r.Whole? || r.Partial?
  {
    if r.Whole? then Cursor(s.written + 1, 0) else At(s)
  }

  /** One call of `seal_next_message`: on success the record carries exactly what was under the cursor, and otherwise
      the cursor stays. */
  lemma SealedCarries(s: Sender, ciphers: Ciphers, maxOut: nat)
    requires Good(s) && s.written < |s.flight|
    ensures var (t, r) := SealNextMessage(s, ciphers, maxOut);
            if r.Whole? || r.Partial? then
              Carries(s.flight, At(s), r.record, After(t, r)) && r.record.length <= maxOut
            else At(t) == At(s)
    ensures SealNextMessage(s, ciphers, maxOut).1.Whole? ==> SealNextMessage(s, ciphers, maxOut).0.offset == 0
  {
    hide ParseFragment, HeaderBytes;
  }

  /** A fragment that is not the last of its message takes all the room there is, and the rest of a message goes in one
      piece wherever it fits. */
  lemma SealedFills(s: Sender, ciphers: Ciphers, maxOut: nat)
    requires Good(s) && s.written < |s.flight|
    ensures var m := s.flight[s.written];
            var (t, r) := SealNextMessage(s, ciphers, maxOut);
            !m.isCcs && (r.Whole? || r.Partial?) ==>
              && UseFor(s, m).Some?
              && var c := ciphers(UseFor(s, m).value);
                 var rest := |MessageOf(m).value.body| - s.offset;
                 && (r.Whole? <==> RECORD_HEADER + c.nonceLen + HEADER_LENGTH + rest + c.maxTag <= maxOut)
                 && (r.Partial? ==> RECORD_HEADER + c.nonceLen + |r.record.plaintext| + c.maxTag == maxOut)
                 && (r.Whole? ==> |r.record.plaintext| == HEADER_LENGTH + rest)
  {
    hide ParseFragment, HeaderBytes, SealRecord;
    if UseFor(s, s.flight[s.written]).Some? {
      SealKeepsText(s, ciphers, maxOut);
    }
  }

  lemma SealKeepsText(s: Sender, ciphers: Ciphers, maxOut: nat)
    requires s.written < |s.flight| && UseFor(s, s.flight[s.written]).Some?
    ensures forall typ: RecordType, text: seq<byte> ::
              var use := UseFor(s, s.flight[s.written]).value;
              var r := SealRecord(s.writer, use, ciphers(use), typ, text, maxOut).1;
              r.Some? ==> r.value.plaintext == text
  {
  }

  function TotalLength(rs: seq<Record>): nat {
    if rs == [] then 0 else rs[0].length + TotalLength(rs[1..])
  }

  function Before(records: seq<Record>, rest: Option<seq<Record>>): Option<seq<Record>> {
    if rest.None? then None else Some(records + rest.value)
  }

  /** The loop of `seal_next_packet` with `maxOut` bytes left; None stands for a seal error. */
  function Fill(s: Sender, ciphers: Ciphers, maxOut: nat): (r: (Sender, Option<seq<Record>>))
    ensures r.0.flight == s.flight
    decreases |s.flight| - s.written
  {
    if s.written >= |s.flight| then (s, Some([]))
    else
      var (t, sealed) := SealNextMessage(s, ciphers, maxOut);
      match sealed
      case Failed => (t, None)
      case NoProgress => (t, Some([]))
      case Partial(r) => (t, Some([r]))
      case Whole(r) =>
        var (u, rs) := Fill(t.(written := t.written + 1), ciphers, maxOut - r.length);
        (u, Before([r], rs))
  }

  ghost predicate Filled(s: Sender, maxOut: nat, u: Sender, rs: seq<Record>) {
    Good(s) && Good(u) && u.flight == s.flight && Tiles(s.flight, At(s), rs, At(u)) && TotalLength(rs) <= maxOut
  }

  lemma FilledMore(s: Sender, maxOut: nat, r: Record, t: Sender, u: Sender, rs: seq<Record>)
    requires Good(s) && t.flight == s.flight && Carries(s.flight, At(s), r, At(t)) && r.length <= maxOut
    requires Filled(t, maxOut - r.length, u, rs)
    ensures Filled(s, maxOut, u, [r] + rs)
  {
    TilesOne(s.flight, At(s), r, At(t));
    TilesConcat(s.flight, At(s), [r], At(t), rs, At(u));
    assert ([r] + rs)[1..] == rs;
  }

  lemma StillGood(s: Sender, r: Record, t: Sender)
    requires Good(s) && t.flight == s.flight && Carries(s.flight, At(s), r, At(t))
    ensures Good(t)
  {
    CarriesOnward(s.flight, At(s), r, At(t));
  }

  /** What one datagram holds tiles the flight from the cursor before to the cursor after, and fits. */
  lemma {:induction false} FillTiles(s: Sender, ciphers: Ciphers, maxOut: nat)
    requires Good(s)
    ensures var (u, rs) := Fill(s, ciphers, maxOut);
            Good(u) && (rs.Some? ==> Filled(s, maxOut, u, rs.value))
    decreases |s.flight| - s.written
  {
    hide SealNextMessage, Carries, GoodFlight, GoodCursor;
    if s.written < |s.flight| {
      SealedCarries(s, ciphers, maxOut);
      var (t, sealed) := SealNextMessage(s, ciphers, maxOut);
      if sealed.Whole? {
        var next := t.(written := t.written + 1);
        StillGood(s, sealed.record, next);
        FillTiles(next, ciphers, maxOut - sealed.record.length);
        var (u, rs) := Fill(next, ciphers, maxOut - sealed.record.length);
        if rs.Some? {
          FilledMore(s, maxOut, sealed.record, next, u, rs.value);
        }
      } else if sealed.Partial? {
        StillGood(s, sealed.record, t);
        FilledMore(s, maxOut, sealed.record, t, t, []);
        assert [sealed.record] + [] == [sealed.record];
      }
    }
  }

  datatype Packet = SealError | MtuTooSmall | Ready(records: seq<Record>)

  /** `seal_next_packet`. */
  function NextPacket(s: Sender, ciphers: Ciphers, mtu: nat): (r: (Sender, Packet))
    ensures r.0.flight == s.flight
  {
    var (t, rs) := Fill(s, ciphers, mtu);
    (t, if rs.None? then SealError else if rs.value == [] then MtuTooSmall else Ready(rs.value))
  }

  /** Further along the flight. */
  ghost predicate Ahead(c: Cursor, d: Cursor) {
    d.message > c.message || (d.message == c.message && d.offset > c.offset)
  }

  lemma {:induction false} TilesAhead(flight: seq<Outgoing>, c: Cursor, rs: seq<Record>, d: Cursor)
    requires GoodFlight(flight) && GoodCursor(flight, c) && Tiles(flight, c, rs, d) && rs != []
    ensures Ahead(c, d)
    decreases |rs|
  {
    hide GoodFlight;
    var e: Cursor :| Carries(flight, c, rs[0], e) && Tiles(flight, e, rs[1..], d);
    CarriesOnward(flight, c, rs[0], e);
    if rs[1..] != [] {
      TilesAhead(flight, e, rs[1..], d);
    }
  }

  /** One datagram: at most the MTU, a tile of the flight, and always progress; without a datagram the cursor stays,
      unless sealing failed. */
  lemma PacketTiles(s: Sender, ciphers: Ciphers, mtu: nat)
    requires Good(s)
    ensures var (t, p) := NextPacket(s, ciphers, mtu);
            Good(t) &&
            match p
            case SealError => true
            case MtuTooSmall => At(t) == At(s)
            case Ready(rs) => Tiles(s.flight, At(s), rs, At(t)) && TotalLength(rs) <= mtu && Ahead(At(s), At(t))
  {
    hide GoodFlight, GoodCursor, Carries;
    FillTiles(s, ciphers, mtu);
    var (t, p) := NextPacket(s, ciphers, mtu);
    if p.Ready? {
      TilesAhead(s.flight, At(s), p.records, At(t));
    }
  }

  /** The least room in which `seal_next_message` makes progress on a message. */
  function Least(m: Outgoing, c: Cipher): nat {
    (if m.isCcs then 1 else HEADER_LENGTH + 1) + RECORD_HEADER + c.nonceLen + c.maxTag
  }

  /** The MTU is reported as too small exactly when it leaves no room for one byte of the message under the cursor. */
  lemma TooSmallExactly(s: Sender, ciphers: Ciphers, mtu: nat)
    requires Good(s) && s.written < |s.flight| && UseFor(s, s.flight[s.written]).Some?
    ensures var m := s.flight[s.written];
            NextPacket(s, ciphers, mtu).1 == MtuTooSmall <==> mtu < Least(m, ciphers(UseFor(s, m).value))
  {
    hide FragmentBytes, Cut;
    var (t, sealed) := SealNextMessage(s, ciphers, mtu);
    if sealed.Whole? {
      var rest := Fill(t.(written := t.written + 1), ciphers, mtu - sealed.record.length).1;
      assert rest.Some? ==> ([sealed.record] + rest.value)[0] == sealed.record;
    }
  }

  /** A message of the current or the previous epoch fails to seal exactly when the record number wraps: the room set
      aside for header, nonce and tag is always enough. */
  lemma FailsExactly(s: Sender, ciphers: Ciphers, maxOut: nat)
    requires Good(s) && s.written < |s.flight| && UseFor(s, s.flight[s.written]).Some?
    requires Bounded(ciphers(UseFor(s, s.flight[s.written]).value)) && maxOut < U16 + RECORD_HEADER
    ensures var m := s.flight[s.written];
            var use := UseFor(s, m).value;
            SealNextMessage(s, ciphers, maxOut).1.Failed? <==>
              maxOut >= Least(m, ciphers(use)) && !DtlsSeal.Bump(s.writer, use).1
  {
    hide ParseFragment, MessageOf;
  }

  /** Why the message under the cursor could not be sealed: it is of a foreign epoch, its cipher exceeds the tag it
      announces, the room exceeds what a record can hold, or the number just taken was the last of its epoch, after
      which its counter stands at zero. */
  ghost predicate SealCause(s: Sender, ciphers: Ciphers, maxOut: nat) {
    s.written < |s.flight| &&
    match UseFor(s, s.flight[s.written])
    case None => true
    case Some(use) =>
      !Bounded(ciphers(use)) || maxOut >= U16 + RECORD_HEADER || DtlsSeal.Stamp(s.writer, use).1 == 0
  }

  lemma FailedForCause(s: Sender, ciphers: Ciphers, maxOut: nat)
    requires Good(s) && s.written < |s.flight| && SealNextMessage(s, ciphers, maxOut).1.Failed?
    ensures SealCause(SealNextMessage(s, ciphers, maxOut).0, ciphers, maxOut)
  {
    hide ParseFragment, MessageOf;
  }

  /** A seal error leaves the cursor at a message that has a cause to fail. */
  lemma {:induction false} FillForCause(s: Sender, ciphers: Ciphers, maxOut: nat)
    requires Good(s) && Fill(s, ciphers, maxOut).1.None?
    ensures SealCause(Fill(s, ciphers, maxOut).0, ciphers, maxOut)
    decreases |s.flight| - s.written
  {
    hide SealNextMessage, Carries, GoodFlight, GoodCursor;
    if s.written < |s.flight| {
      SealedCarries(s, ciphers, maxOut);
      var (t, sealed) := SealNextMessage(s, ciphers, maxOut);
      if sealed.Failed? {
        FailedForCause(s, ciphers, maxOut);
      } else if sealed.Whole? {
        var next := t.(written := t.written + 1);
        StillGood(s, sealed.record, next);
        FillForCause(next, ciphers, maxOut - sealed.record.length);
      }
    }
  }

  /** Enough for any message under either cipher. */
  ghost predicate Roomy(ciphers: Ciphers, mtu: nat) {
    forall use: DtlsSeal.Use :: mtu >= HEADER_LENGTH + 1 + RECORD_HEADER + ciphers(use).nonceLen + ciphers(use).maxTag
  }

  lemma RoomyIsEnough(s: Sender, ciphers: Ciphers, mtu: nat)
    requires Good(s) && s.written < |s.flight| && Roomy(ciphers, mtu)
    ensures NextPacket(s, ciphers, mtu).1 != MtuTooSmall
  {
    hide SealNextMessage, NextPacket, Good;
    if UseFor(s, s.flight[s.written]).Some? {
      TooSmallExactly(s, ciphers, mtu);
    } else {
      WrongEpoch(s, ciphers, mtu);
    }
  }

  lemma WrongEpoch(s: Sender, ciphers: Ciphers, mtu: nat)
    requires s.written < |s.flight| && UseFor(s, s.flight[s.written]).None?
    ensures NextPacket(s, ciphers, mtu).1 == SealError
  {
  }

  /** The body bytes not yet behind the cursor: with the messages left, what falls with every packet. */
  ghost function BytesLeft(s: Sender): nat
    requires Good(s)
  {
    if s.written < |s.flight| && !s.flight[s.written].isCcs then |Body(s.flight[s.written])| - s.offset else 0
  }

  lemma AheadLeavesLess(s: Sender, t: Sender)
    requires Good(s) && Good(t) && s.flight == t.flight && Ahead(At(s), At(t))
    ensures |t.flight| - t.written < |s.flight| - s.written
            || (t.written == s.written && BytesLeft(t) < BytesLeft(s))
  {
  }

  lemma AtEnd(s: Sender)
    requires Good(s) && s.written >= |s.flight|
    ensures s.written == |s.flight|
  {
  }

  lemma NoneBefore(rest: Option<seq<Record>>)
    ensures Before([], rest) == rest
  {
    if rest.Some? {
      assert [] + rest.value == rest.value;
    }
  }

  lemma OneMoreBefore(records: seq<Record>, r: Record, rest: Option<seq<Record>>)
    ensures Before(records, Before([r], rest)) == Before(records + [r], rest)
  {
    if rest.Some? {
      assert records + ([r] + rest.value) == (records + [r]) + rest.value;
    }
  }

  datatype Result = Sent | Blocked | Shutdown | Fatal(p: Packet)

  /** What `send_flight` is given: the ciphers and the MTU, whether writing is shut down, whether the transport takes
      the n-th datagram of this call, and whether it flushes. */
  datatype Setting = Setting(ciphers: Ciphers, mtu: nat, shutdown: bool, takes: nat -> bool, flushes: bool)

  /** Sending ends short of success, in state `s` after `sent` datagrams, only for a reason: a shutdown, the refusal
      of the very next datagram or of the flush after the last one, an MTU with no room, or a cause for sealing to
      fail. */
  ghost predicate Excused(result: Result, s: Sender, sent: int, c: Setting) {
    match result
    case Sent => s.written == |s.flight| && c.flushes
    case Shutdown => c.shutdown && sent == 0
    case Blocked => (sent >= 0 && !c.takes(sent)) || (s.written == |s.flight| && !c.flushes)
    case Fatal(SealError) => SealCause(s, c.ciphers, c.mtu)
    case Fatal(MtuTooSmall) => !Roomy(c.ciphers, c.mtu)
    case Fatal(Ready(_)) => false
  }

  function Records(datagrams: seq<seq<Record>>): seq<Record> {
    if datagrams == [] then [] else Records(datagrams[..|datagrams| - 1]) + datagrams[|datagrams| - 1]
  }

  lemma OneMoreDatagram(datagrams: seq<seq<Record>>, rs: seq<Record>, from: nat)
    requires from <= |datagrams|
    ensures Records((datagrams + [rs])[from..]) == Records(datagrams[from..]) + rs
  {
    assert (datagrams + [rs])[from..] == datagrams[from..] + [rs];
  }

  lemma SameCursorGood(s: Sender, t: Sender)
    requires Good(s) && t.flight == s.flight && At(t) == At(s)
    ensures Good(t)
  {
  }

  /** The sending half of DTLS1_STATE with the loops that drive it. The transport's answers are given: whether it
      takes the n-th datagram, and whether the flush succeeds. */
  class FlightSender {
    var outgoing: seq<Outgoing>
    var complete: bool
    var written: nat
    var offset: nat
    var writeSeq: nat
    var writer: DtlsSeal.Writer

    /** The records of the accepted datagrams since the cursor was last rewound, and every datagram ever accepted. */
    ghost var accepted: seq<Record>
    ghost var datagrams: seq<seq<Record>>

    ghost function View(): Sender
      reads this
    {
      Sender(outgoing, complete, written, offset, writeSeq, writer)
    }

    ghost predicate Valid()
      reads this
    {
      Good(View())
    }

    /** What has been accepted since the last rewind is exactly what lies before the cursor. */
    ghost predicate Tiled()
      requires Valid()
      reads this
    {
      Tiles(outgoing, REWOUND, accepted, At(View()))
    }

    /** The datagrams accepted since `before` hold what has been accepted since `rs`, and each is within the MTU. */
    ghost predicate SentSince(before: seq<seq<Record>>, rs: seq<Record>, mtu: nat)
      reads this
    {
      && before <= datagrams
      && accepted == rs + Records(datagrams[|before|..])
      && forall i :: |before| <= i < |datagrams| ==> 0 < |datagrams[i]| && TotalLength(datagrams[i]) <= mtu
    }

    constructor ()
      ensures Valid() && Tiled() && View() == DtlsSend.FRESH && accepted == [] && datagrams == []
    {
      outgoing, complete, written, offset, writeSeq, writer := [], false, 0, 0, 0, DtlsSeal.START;
      accepted, datagrams := [], [];
    }

    /** `add_outgoing`, for a finished message or a ChangeCipherSpec. */
    method AddOutgoing(data: seq<byte>, isCcs: bool) returns (ok: bool)
      requires Valid() && Tiled()
      requires isCcs || MessageOf(Outgoing(data, writer.epoch, isCcs)).Some?
      modifies this
      ensures Valid() && Tiled() && datagrams == old(datagrams)
      ensures (View(), ok) == Add(old(View()), data, isCcs)
      ensures !complete && ok == (old(complete) || |old(outgoing)| < FLIGHT)
      ensures old(complete) ==> outgoing == [Outgoing(data, writer.epoch, isCcs)] && written == offset == 0
      ensures !old(complete) ==>
                && written == old(written) && offset == old(offset)
                && outgoing == if ok then old(outgoing) + [Outgoing(data, writer.epoch, isCcs)] else old(outgoing)
    {
      hide MessageOf, Carries;
      if complete {
        outgoing, written, offset, complete := [], 0, 0, false;
        accepted := [];
      }
      if |outgoing| >= FLIGHT {
        return false;
      }
      if !isCcs {
        writeSeq := (writeSeq + 1) % U16;
      }
      ghost var before := outgoing;
      outgoing := outgoing + [Outgoing(data, writer.epoch, isCcs)];
      GrownFlight(before, outgoing, REWOUND, accepted, At(View()));
      ok := true;
    }

    /** `seal_next_packet`: the loop over messages, with the room left in the datagram. */
    method SealNextPacket(ciphers: Ciphers, mtu: nat) returns (p: Packet)
      requires Valid()
      modifies this`written, this`offset, this`writer
      ensures Valid() && (View(), p) == NextPacket(old(View()), ciphers, mtu)
    {
      hide SealNextMessage, GoodFlight, GoodCursor, Carries;
      var records: seq<Record> := [];
      var maxOut: nat := mtu;
      NoneBefore(Fill(View(), ciphers, mtu).1);
      while written < |outgoing|
        invariant Valid() && outgoing == old(outgoing)
        invariant var (u, rest) := Fill(View(), ciphers, maxOut);
                  Fill(old(View()), ciphers, mtu) == (u, Before(records, rest))
        decreases |outgoing| - written
      {
        ghost var s := View();
        SealedCarries(s, ciphers, maxOut);
        var (t, sealed) := SealNextMessage(Sender(outgoing, complete, written, offset, writeSeq, writer), ciphers,
            maxOut);
        offset, writer := t.offset, t.writer;
        match sealed
        case Failed =>
          return SealError;
        case NoProgress =>
          assert records + [] == records;
          return if records == [] then MtuTooSmall else Ready(records);
        case Partial(r) =>
          StillGood(s, r, View());
          return Ready(records + [r]);
        case Whole(r) =>
          written := written + 1;
          StillGood(s, r, View());
          maxOut := maxOut - r.length;
          OneMoreBefore(records, r, Fill(View(), ciphers, maxOut).1);
          records := records + [r];
      }
      assert records + [] == records;
      p := if records == [] then MtuTooSmall else Ready(records);
    }

    /** One round of `send_flight`. A datagram the transport does not take is taken back: the cursor returns to where
        it was. */
    method SendPacket(ciphers: Ciphers, mtu: nat, taken: bool) returns (p: Packet)
      requires Valid() && Tiled()
      modifies this
      ensures Valid() && outgoing == old(outgoing) && complete == old(complete) && writeSeq == old(writeSeq)
      ensures p != SealError ==> Tiled()
      ensures p == SealError ==> SealCause(View(), ciphers, mtu)
      ensures p == NextPacket(old(View()), ciphers, mtu).1
      ensures p.Ready? ==> 0 < |p.records| && TotalLength(p.records) <= mtu
      ensures if p.Ready? && taken then
                && accepted == old(accepted) + p.records && datagrams == old(datagrams) + [p.records]
                && Ahead(old(At(View())), At(View()))
              else
                accepted == old(accepted) && datagrams == old(datagrams)
      ensures p.Ready? && !taken ==> At(View()) == old(At(View()))
    {
      hide GoodFlight, GoodCursor, Carries, Fill;
      var oldWritten, oldOffset := written, offset;
      ghost var s := View();
      PacketTiles(s, ciphers, mtu);
      p := SealNextPacket(ciphers, mtu);
      if p == SealError {
        FillForCause(s, ciphers, mtu);
      } else if p.Ready? {
        if taken {
          TilesConcat(outgoing, REWOUND, accepted, At(s), p.records, At(View()));
          accepted, datagrams := accepted + p.records, datagrams + [p.records];
        } else {
          written, offset := oldWritten, oldOffset;
          SameCursorGood(s, View());
        }
      }
    }

    /** The same within `send_flight`: what was sent since `base` stays accounted for, and less is left. */
    method SendNext(ciphers: Ciphers, mtu: nat, taken: bool, ghost base: seq<seq<Record>>, ghost rs: seq<Record>)
      returns (p: Packet)
      requires Valid() && Tiled() && written < |outgoing| && SentSince(base, rs, mtu)
      modifies this
      ensures Valid() && outgoing == old(outgoing) && complete == old(complete) && writeSeq == old(writeSeq)
      ensures SentSince(base, rs, mtu)
      ensures p != SealError ==> Tiled()
      ensures p == SealError ==> SealCause(View(), ciphers, mtu)
      ensures |datagrams| == |old(datagrams)| + if p.Ready? && taken then 1 else 0
      ensures p == MtuTooSmall ==> !Roomy(ciphers, mtu)
      ensures p.Ready? && taken ==>
                |outgoing| - written < old(|outgoing| - written)
                || (written == old(written) && BytesLeft(View()) < old(BytesLeft(View())))
    {
      hide GoodFlight, Carries, NextPacket, Roomy, Tiles;
      ghost var s, before := View(), datagrams;
      if Roomy(ciphers, mtu) {
        RoomyIsEnough(s, ciphers, mtu);
      }
      p := SendPacket(ciphers, mtu, taken);
      if p.Ready? && taken {
        OneMoreDatagram(before, p.records, |base|);
        AheadLeavesLess(s, View());
      }
    }

    /** `send_flight`. Unless sealing itself fails, what was accepted since the rewind still tiles the flight up to
        the cursor, whichever datagrams the transport refused. */
    method SendFlight(c: Setting)
      returns (result: Result)
      requires Valid() && Tiled()
      modifies this
      ensures Valid() && outgoing == old(outgoing) && complete == old(complete) && writeSeq == old(writeSeq)
      ensures SentSince(old(datagrams), old(accepted), c.mtu)
      ensures result != Fatal(SealError) ==> Tiled()
      ensures result == Sent ==> written == |outgoing|
      ensures Excused(result, View(), |datagrams| - |old(datagrams)|, c)
    {
      hide GoodFlight, Carries, NextPacket, Roomy, Tiles, Good, BytesLeft, SealCause;
      assert datagrams[|datagrams|..] == [];
      if c.shutdown {
        return Shutdown;
      }
      var n: nat := 0;
      while written < |outgoing|
        invariant Valid() && Tiled()
        invariant outgoing == old(outgoing) && complete == old(complete) && writeSeq == old(writeSeq)
        invariant SentSince(old(datagrams), old(accepted), c.mtu) && n == |datagrams| - |old(datagrams)|
        decreases |outgoing| - written, BytesLeft(View())
      {
        var p := SendNext(c.ciphers, c.mtu, c.takes(n), old(datagrams), old(accepted));
        if !p.Ready? {
          return Fatal(p);
        }
        if !c.takes(n) {
          return Blocked;
        }
        n := n + 1;
      }
      AtEnd(View());
      result := if c.flushes then Sent else Blocked;
    }

    /** `dtls1_flush_flight`. */
    method FlushFlight(c: Setting)
      returns (result: Result)
      requires Valid() && Tiled()
      modifies this
      ensures Valid() && outgoing == old(outgoing) && complete
      ensures SentSince(old(datagrams), old(accepted), c.mtu)
      ensures result != Fatal(SealError) ==> Tiled()
      ensures result == Sent ==> written == |outgoing|
      ensures Excused(result, View(), |datagrams| - |old(datagrams)|, c)
    {
      complete := true;
      result := SendFlight(c);
    }

    /** `dtls1_retransmit_outgoing_messages`: from the start again, whatever happened before and at any MTU. */
    method Retransmit(c: Setting)
      returns (result: Result)
      requires Valid()
      modifies this
      ensures Valid() && outgoing == old(outgoing)
      ensures SentSince(old(datagrams), [], c.mtu)
      ensures result != Fatal(SealError) ==> Tiled()
      ensures result == Sent ==>
                && written == |outgoing|
                && accepted == Records(datagrams[|old(datagrams)|..])
                && Tiles(outgoing, REWOUND, Records(datagrams[|old(datagrams)|..]), Cursor(|outgoing|, 0))
      ensures Excused(result, View(), |datagrams| - |old(datagrams)|, c)
    {
      written, offset, accepted := 0, 0, [];
      result := SendFlight(c);
    }
  }

  lemma {:induction false} GrownFlight(flight: seq<Outgoing>, more: seq<Outgoing>, c: Cursor, rs: seq<Record>,
                                       d: Cursor)
    requires GoodFlight(flight) && GoodFlight(more) && flight <= more && Tiles(flight, c, rs, d)
    ensures Tiles(more, c, rs, d)
    decreases |rs|
  {
    hide MessageOf;
    if rs != [] {
      var e: Cursor :| Carries(flight, c, rs[0], e) && Tiles(flight, e, rs[1..], d);
      GrownFlight(flight, more, e, rs[1..], d);
      assert Carries(more, c, rs[0], e);
    }
  }
}
