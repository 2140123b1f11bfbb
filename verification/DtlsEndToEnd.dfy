/** A DTLS sender and receiver with a network between them that loses, repeats, delays and reorders (RFC 6347,
    sections 4.2.2 to 4.2.6). */
module DtlsEndToEnd {
  import opened Bits
  import opened Wrappers
  import opened DtlsWire
  import opened DtlsFragment
  import opened DtlsRing
  import opened DtlsSend
  import opened DtlsFlight
  import DtlsSeal
  import DtlsWindow

  /** `log` holds every message the sender was ever given, by handshake number; `net` every record it ever put on the
      network; `released` the raw messages the receiver has handed out and let go. */
  datatype System = System(
    sender: Sender,
    log: seq<Fragment>,
    net: set<Record>,
    reader: DtlsWindow.Reader,
    receiver: Receiver,
    released: seq<seq<byte>>)

  const INITIAL := System(DtlsSend.FRESH, [], {}, DtlsWindow.START, DtlsRing.FRESH, [])

  /** What can happen. A packet may be refused by the transport; any record ever sent may arrive at any time, any
      number of times; retransmission rewinds, and each packet may have another MTU. */
  datatype Step =
    | AddMessage(typ: byte, body: seq<byte>)
    | AddCcs
    | FlightComplete
    | SendPacket(ciphers: Ciphers, mtu: nat, taken: bool)
    | Rewind
    | ChangeWriteState
    | Deliver(record: Record, maxLen: nat)
    | ConsumeCcs
    | GetMessage
    | ReleaseMessage
    | ChangeReadState

  ghost predicate Possible(y: System, e: Step) {
    match e
    case AddMessage(_, body) => |body| < 0x100_0000 && |y.log| + 1 < U16
    case Deliver(record, _) => record in y.net
    case ReleaseMessage => Consistent(y.receiver) && y.receiver.hasMessage
    case GetMessage => Consistent(y.receiver)
    case ChangeReadState => Consistent(y.receiver)
    case _ => true
  }

  /** `add_outgoing` on what `dtls1_init_message` and `dtls1_finish_message` built. */
  ghost function DoAdd(y: System, typ: byte, body: seq<byte>): System
    requires |body| < 0x100_0000
  {
    if y.sender.writeSeq >= U16 then y
    else
      var (s, ok) := Add(y.sender, Finished(Draft(typ, y.sender.writeSeq, body)), false);
      if ok then y.(sender := s, log := y.log + [Unfragmented(typ, y.sender.writeSeq, body)]) else y.(sender := s)
  }

  /** One round of `send_flight`, with the roll-back where the transport refuses. */
  ghost function DoSend(y: System, ciphers: Ciphers, mtu: nat, taken: bool): System {
    var s := y.sender;
    var (t, p) := NextPacket(s, ciphers, mtu);
    if !p.Ready? then y.(sender := t)
    else if !taken then y.(sender := t.(written := s.written, offset := s.offset))
    else y.(sender := t, net := y.net + set r | r in p.records)
  }

  /** `dtls_open_record`, then `dtls1_open_handshake`; the AEAD gives back what was sealed. */
  ghost function DoDeliver(y: System, r: Record, maxLen: nat): System
    requires Consistent(y.receiver)
  {
    var a := DtlsWindow.Arrival(r.epoch, r.number, true);
    if !DtlsWindow.Accepts(y.reader, a) then y
    else
      y.(reader := DtlsWindow.Next(y.reader, DtlsWindow.Receive(a)),
         receiver := OpenHandshake(y.receiver, r.typ, r.plaintext, maxLen).0)
  }

  ghost function DoChangeRead(y: System): System
    requires |y.receiver.ring| == FLIGHT
  {
    var (r, ok) := SetReadState(y.receiver);
    if ok then y.(receiver := r, reader := DtlsWindow.Next(y.reader, DtlsWindow.NewReadState)) else y
  }

  ghost function Next(y: System, e: Step): System
    requires Consistent(y.receiver) && Possible(y, e)
  {
    match e
    case AddMessage(typ, body) => DoAdd(y, typ, body)
    case AddCcs => y.(sender := Add(y.sender, [], true).0)
    case FlightComplete => y.(sender := y.sender.(complete := true))
    case SendPacket(ciphers, mtu, taken) => DoSend(y, ciphers, mtu, taken)
    case Rewind => y.(sender := y.sender.(written := 0, offset := 0))
    case ChangeWriteState => y.(sender := y.sender.(writer := DtlsSeal.NewWriteState(y.sender.writer)))
    case Deliver(record, maxLen) => DoDeliver(y, record, maxLen)
    case ConsumeCcs => y.(receiver := y.receiver.(hasCcs := false))
    case GetMessage => y.(receiver := y.receiver.(hasMessage := y.receiver.hasMessage || CurrentComplete(y.receiver)))
    case ReleaseMessage => y.(receiver := NextMessage(y.receiver), released := y.released + [CurrentRaw(y.receiver)])
    case ChangeReadState => DoChangeRead(y)
  }

  // The invariant -------------------------------------------------------------------------------------

  ghost predicate GoodLog(log: seq<Fragment>) {
    && |log| < U16
    && forall k :: 0 <= k < |log| ==>
        log[k] == Unfragmented(log[k].header.typ, k, log[k].body) && |log[k].body| < 0x100_0000
  }

  /** A piece of one of the messages. */
  ghost predicate IsPiece(log: seq<Fragment>, f: Fragment) {
    var k := f.header.seqNo;
    && k < |log| && WellFormed(log[k])
    && f.header.fragOff + f.header.fragLen <= |log[k].body|
    && f == Cut(log[k], f.header.fragOff, f.header.fragLen)
  }

  ghost predicate FromLog(log: seq<Fragment>, r: Record) {
    r.typ == Handshake ==> exists f: Fragment :: IsPiece(log, f) && WellFormed(f) && r.plaintext == FragmentBytes(f)
  }

  /** A message under reassembly holds only bytes of the message of its number. */
  ghost predicate SlotFrom(log: seq<Fragment>, s: Slot) {
    && s.seqNo < |log|
    && s.typ == log[s.seqNo].header.typ && s.msgLen == |log[s.seqNo].body|
    && forall p :: p in s.got ==> p < s.msgLen && s.got[p] == log[s.seqNo].body[p]
  }

  ghost predicate RingFrom(log: seq<Fragment>, ring: seq<Option<Slot>>) {
    forall i :: 0 <= i < |ring| && ring[i].Some? ==> SlotFrom(log, ring[i].value)
  }

  ghost predicate QueuedFrom(log: seq<Fragment>, m: Outgoing) {
    m.isCcs || (MessageOf(m).Some? && MessageOf(m).value in log)
  }

  ghost predicate FlightFrom(log: seq<Fragment>, flight: seq<Outgoing>) {
    forall i :: 0 <= i < |flight| ==> QueuedFrom(log, flight[i])
  }

  ghost predicate SenderInv(y: System) {
    Good(y.sender) && y.sender.writeSeq == |y.log| && GoodLog(y.log) && FlightFrom(y.log, y.sender.flight)
  }

  ghost predicate NetInv(y: System) {
    forall r :: r in y.net ==> FromLog(y.log, r)
  }

  /** What has been handed out is the sender's messages, whole and in order from the first. */
  ghost predicate Faithful(y: System) {
    && |y.released| <= |y.log|
    && forall k :: 0 <= k < |y.released| ==> WellFormed(y.log[k]) && y.released[k] == FragmentBytes(y.log[k])
  }

  ghost predicate ReceiverInv(y: System) {
    && Consistent(y.receiver)
    && y.receiver.readSeq == |y.released|
    && RingFrom(y.log, y.receiver.ring)
    && Faithful(y)
  }

  ghost predicate Inv(y: System) {
    SenderInv(y) && NetInv(y) && ReceiverInv(y)
  }

  // Sending ---------------------------------------------------------------------------------------------

  lemma LogGrows(log: seq<Fragment>, more: seq<Fragment>, y: System)
    requires log <= more && y.log == log && NetInv(y) && FlightFrom(log, y.sender.flight)
    requires RingFrom(log, y.receiver.ring) && Faithful(y)
    ensures NetInv(y.(log := more)) && FlightFrom(more, y.sender.flight)
    ensures RingFrom(more, y.receiver.ring) && Faithful(y.(log := more))
  {
    hide MessageOf, Cut, FragmentBytes, WellFormed;
    forall r | r in y.net
      ensures FromLog(more, r)
    {
      assert FromLog(log, r);
      if r.typ == Handshake {
        var f: Fragment :| IsPiece(log, f) && WellFormed(f) && r.plaintext == FragmentBytes(f);
        assert IsPiece(more, f);
      }
    }
    forall i | 0 <= i < |y.sender.flight|
      ensures QueuedFrom(more, y.sender.flight[i])
    {
      assert QueuedFrom(log, y.sender.flight[i]);
    }
  }

  lemma AddKeepsInv(y: System, typ: byte, body: seq<byte>)
    requires Inv(y) && |body| < 0x100_0000 && |y.log| + 1 < U16
    ensures Inv(DoAdd(y, typ, body))
  {
    hide MessageOf, Draft, Finished;
    var n := y.sender.writeSeq;
    var data := Finished(Draft(typ, n, body));
    var (s, ok) := Add(y.sender, data, false);
    var more := y.log + [Unfragmented(typ, n, body)];
    FinishedIsMessage(typ, n, body, y.sender.writer.epoch);
    if ok {
      LogGrows(y.log, more, y);
      assert MessageOf(s.flight[|s.flight| - 1]) == Some(more[|y.log|]);
      forall i | 0 <= i < |s.flight|
        ensures QueuedFrom(more, s.flight[i])
      {
        if i < |s.flight| - 1 {
          assert QueuedFrom(more, y.sender.flight[i]);
        }
      }
      assert GoodFlight(s.flight);
    }
  }

  lemma AddCcsKeepsInv(y: System)
    requires Inv(y)
    ensures Inv(y.(sender := Add(y.sender, [], true).0))
  {
    hide MessageOf;
    var s := Add(y.sender, [], true).0;
    forall i | 0 <= i < |s.flight|
      ensures QueuedFrom(y.log, s.flight[i]) && (s.flight[i].isCcs || MessageOf(s.flight[i]).Some?)
    {
      if i < |y.sender.flight| && !y.sender.complete {
        assert QueuedFrom(y.log, y.sender.flight[i]);
      }
    }
  }

  lemma InLog(log: seq<Fragment>, f: Fragment)
    requires GoodLog(log) && f in log
    ensures f.header.seqNo < |log| && log[f.header.seqNo] == f && WellFormed(f)
  {
  }

  lemma CarriedFromLog(log: seq<Fragment>, flight: seq<Outgoing>, c: Cursor, r: Record, d: Cursor)
    requires GoodLog(log) && GoodFlight(flight) && FlightFrom(log, flight) && Carries(flight, c, r, d)
    ensures FromLog(log, r)
  {
    hide MessageOf, FragmentBytes;
    var m := flight[c.message];
    assert QueuedFrom(log, m);
    if !m.isCcs {
      var f := MessageOf(m).value;
      InLog(log, f);
      var len := |r.plaintext| - HEADER_LENGTH;
      assert IsPiece(log, Cut(f, c.offset, len));
    }
  }

  lemma {:induction false} TiledFromLog(log: seq<Fragment>, flight: seq<Outgoing>, c: Cursor, rs: seq<Record>,
                                        d: Cursor)
    requires GoodLog(log) && GoodFlight(flight) && FlightFrom(log, flight) && Tiles(flight, c, rs, d)
    ensures forall r :: r in rs ==> FromLog(log, r)
    decreases |rs|
  {
    hide GoodFlight, FlightFrom, GoodLog, Carries, FromLog;
    if rs != [] {
      var e: Cursor :| Carries(flight, c, rs[0], e) && Tiles(flight, e, rs[1..], d);
      CarriedFromLog(log, flight, c, rs[0], e);
      TiledFromLog(log, flight, e, rs[1..], d);
    }
  }

  lemma SendKeepsInv(y: System, ciphers: Ciphers, mtu: nat, taken: bool)
    requires Inv(y)
    ensures Inv(DoSend(y, ciphers, mtu, taken))
  {
    hide NextPacket, Carries, GoodFlight, FlightFrom, FromLog;
    PacketTiles(y.sender, ciphers, mtu);
    var (t, p) := NextPacket(y.sender, ciphers, mtu);
    KeptBySending(y.sender, ciphers, mtu);
    if p.Ready? {
      TiledFromLog(y.log, y.sender.flight, At(y.sender), p.records, At(t));
      SameCursorGood(y.sender, t.(written := y.sender.written, offset := y.sender.offset));
    }
  }

  lemma KeptBySending(s: Sender, ciphers: Ciphers, mtu: nat)
    ensures NextPacket(s, ciphers, mtu).0.writeSeq == s.writeSeq
  {
    KeptByFilling(s, ciphers, mtu);
  }

  lemma {:induction false} KeptByFilling(s: Sender, ciphers: Ciphers, maxOut: nat)
    ensures Fill(s, ciphers, maxOut).0.writeSeq == s.writeSeq
    decreases |s.flight| - s.written
  {
    hide SealNextMessage;
    if s.written < |s.flight| {
      var (t, sealed) := SealNextMessage(s, ciphers, maxOut);
      if sealed.Whole? {
        KeptByFilling(t.(written := t.written + 1), ciphers, maxOut - sealed.record.length);
      }
    }
  }

  // Receiving -------------------------------------------------------------------------------------------

  lemma NewSlotFrom(log: seq<Fragment>, f: Fragment)
    requires GoodLog(log) && IsPiece(log, f)
    ensures SlotFrom(log, NewSlot(f.header))
  {
  }

  lemma WithBodyFrom(log: seq<Fragment>, s: Slot, f: Fragment)
    requires SlotFrom(log, s) && IsPiece(log, f) && s.seqNo == f.header.seqNo
    ensures SlotFrom(log, WithBody(s, f.header.fragOff, f.body))
  {
    var t := WithBody(s, f.header.fragOff, f.body);
    var body := log[s.seqNo].body;
    var off := f.header.fragOff;
    forall p | p in t.got
      ensures p < t.msgLen && t.got[p] == body[p]
    {
      if off <= p < off + |f.body| {
        assert f.body[p - off] == body[p];
      }
    }
  }

  lemma TakePiece(log: seq<Fragment>, r: Receiver, f: Fragment, maxLen: nat)
    requires GoodLog(log) && Consistent(r) && RingFrom(log, r.ring) && WellFormed(f) && IsPiece(log, f)
    ensures var r' := TakeFragment(r, f, maxLen).0;
            Consistent(r') && RingFrom(log, r'.ring) && r'.readSeq == r.readSeq
  {
    hide WithBody, Cut;
    TakeFragmentConsistent(r, f, maxLen);
    var h := f.header;
    NewSlotFrom(log, f);
    if r.readSeq <= h.seqNo < r.readSeq + FLIGHT {
      var slot := r.ring[h.seqNo % FLIGHT];
      if slot.Some? {
        SameNumber(r, h.seqNo);
        WithBodyFrom(log, slot.value, f);
      } else {
        WithBodyFrom(log, NewSlot(h), f);
      }
    }
  }

  /** A handshake record carries one fragment, so the loop runs once. */
  lemma TakeWhole(r: Receiver, f: Fragment, maxLen: nat)
    requires Consistent(r) && WellFormed(f)
    ensures TakeRecord(r, FragmentBytes(f), maxLen) == TakeFragment(r, f, maxLen)
  {
    hide FragmentBytes, ParseFragment, TakeFragment;
    ParseAfterWrite(f, []);
    assert FragmentBytes(f) + [] == FragmentBytes(f);
    TakeFragmentConsistent(r, f, maxLen);
    NotEmpty(f);
  }

  lemma NotEmpty(f: Fragment)
    requires WellFormed(f)
    ensures FragmentBytes(f) != []
  {
  }

  lemma DeliverKeepsInv(y: System, r: Record, maxLen: nat)
    requires Inv(y) && r in y.net
    ensures Inv(DoDeliver(y, r, maxLen))
  {
    hide Good, FlightFrom, GoodLog, FragmentBytes, IsPiece, TakeRecord, TakeFragment, Placed, RingFrom,
         DtlsWindow.Accepts, DtlsWindow.Next;
    assert FromLog(y.log, r);
    if r.typ == Handshake {
      var f: Fragment :| IsPiece(y.log, f) && WellFormed(f) && r.plaintext == FragmentBytes(f);
      TakePiece(y.log, y.receiver, f, maxLen);
      TakeWhole(y.receiver, f, maxLen);
    } else {
      FlagsKeepConsistent(y.receiver, y.receiver.(hasCcs := true));
    }
  }

  /** A complete message under reassembly is, header included, the sender's message of that number. */
  lemma CompleteIsWhole(log: seq<Fragment>, s: Slot)
    requires GoodLog(log) && s.Valid() && SlotFrom(log, s) && s.Complete()
    ensures WellFormed(log[s.seqNo]) && s.Raw() == FragmentBytes(log[s.seqNo])
  {
    var f := log[s.seqNo];
    assert f.header == s.HeaderOf();
    assert f.body == seq(s.msgLen, i requires 0 <= i < s.msgLen => s.got[i]);
  }

  lemma CurrentIsNext(y: System)
    requires Inv(y) && CurrentComplete(y.receiver)
    ensures |y.released| < |y.log| && WellFormed(y.log[|y.released|])
    ensures CurrentRaw(y.receiver) == FragmentBytes(y.log[|y.released|])
  {
    hide Slot.Raw, FragmentBytes, GoodLog, WellFormed;
    var r := y.receiver;
    assert Placed(r, r.readSeq % FLIGHT);
    SameNumber(r, r.readSeq);
    CompleteIsWhole(y.log, r.Current().value);
  }

  lemma ReleaseKeepsInv(y: System)
    requires Inv(y) && y.receiver.hasMessage
    ensures Inv(Next(y, ReleaseMessage))
  {
    hide Slot.Raw, FragmentBytes, WellFormed, Slot.Complete, Placed, CurrentRaw, FlightFrom, Good, FromLog, SlotFrom;
    assert CurrentComplete(y.receiver);
    CurrentIsNext(y);
    NextMessageConsistent(y.receiver);
  }

  // Whole runs ------------------------------------------------------------------------------------------

  lemma ReceiverStepKeepsInv(y: System, e: Step)
    requires Inv(y) && Possible(y, e)
    requires e.ConsumeCcs? || e.GetMessage? || e.ChangeReadState?
    ensures Inv(Next(y, e))
  {
    hide Good, FlightFrom, GoodLog, Placed, FromLog, SlotFrom, FragmentBytes, HasUnprocessed;
    FlagsKeepConsistent(y.receiver, Next(y, e).receiver);
  }

  lemma WriterStepKeepsInv(y: System, e: Step)
    requires Inv(y) && (e.FlightComplete? || e.Rewind? || e.ChangeWriteState?)
    ensures Inv(Next(y, e))
  {
    hide GoodFlight, FlightFrom, GoodLog, Placed, FromLog, SlotFrom, FragmentBytes;
  }

  lemma StepKeepsInv(y: System, e: Step)
    requires Inv(y) && Possible(y, e)
    ensures Inv(Next(y, e))
  {
    hide Good, Consistent, DoAdd, DoSend, DoDeliver, DoChangeRead, NetInv, RingFrom, Faithful, FlightFrom, GoodLog, Add;
    match e
    case AddMessage(typ, body) => AddKeepsInv(y, typ, body);
    case AddCcs => AddCcsKeepsInv(y);
    case SendPacket(ciphers, mtu, taken) => SendKeepsInv(y, ciphers, mtu, taken);
    case Deliver(record, maxLen) => DeliverKeepsInv(y, record, maxLen);
    case ReleaseMessage => ReleaseKeepsInv(y);
    case FlightComplete => WriterStepKeepsInv(y, e);
    case Rewind => WriterStepKeepsInv(y, e);
    case ChangeWriteState => WriterStepKeepsInv(y, e);
    case ConsumeCcs => ReceiverStepKeepsInv(y, e);
    case GetMessage => ReceiverStepKeepsInv(y, e);
    case ChangeReadState => ReceiverStepKeepsInv(y, e);
  }

  /** `es` can happen from `y`, and ends in `z`. */
  ghost predicate Reaches(y: System, es: seq<Step>, z: System)
    requires Inv(y)
    decreases |es|
  {
    if es == [] then y == z
    else
      Possible(y, es[0]) &&
      (StepKeepsInv(y, es[0]);
       Reaches(Next(y, es[0]), es[1..], z))
  }

  lemma InitialInv()
    ensures Inv(INITIAL)
  {
  }

  lemma {:induction false} RunKeepsInv(y: System, es: seq<Step>, z: System)
    requires Inv(y) && Reaches(y, es, z)
    ensures Inv(z)
    decreases |es|
  {
    hide Next, SenderInv, NetInv;
    if es != [] {
      StepKeepsInv(y, es[0]);
      RunKeepsInv(Next(y, es[0]), es[1..], z);
    }
  }

  /** End to end: whatever the network does with the sender's records, and however the sender fragments, loses,
      rewinds and retransmits, the messages released are the sender's messages 0, 1, 2, ... in order, each once and
      whole, header included; and so is the one the receiver is about to hand out. */
  lemma DeliveredInOrder(es: seq<Step>, y: System)
    requires (InitialInv(); Reaches(INITIAL, es, y))
    ensures |y.released| <= |y.log| && y.receiver.readSeq == |y.released|
    ensures forall k :: 0 <= k < |y.released| ==> WellFormed(y.log[k]) && y.released[k] == FragmentBytes(y.log[k])
    ensures Consistent(y.receiver)
    ensures CurrentComplete(y.receiver) ==>
              |y.released| < |y.log| && WellFormed(y.log[|y.released|])
              && CurrentRaw(y.receiver) == FragmentBytes(y.log[|y.released|])
  {
    InitialInv();
    RunKeepsInv(INITIAL, es, y);
    hide Next, Reaches, FragmentBytes, SenderInv, NetInv, RingFrom;
    if CurrentComplete(y.receiver) {
      CurrentIsNext(y);
    }
  }

  // The epochs ------------------------------------------------------------------------------------------

  /** The step changes the read state: it asks for it, no ChangeCipherSpec waits, and the ring holds nothing but the
      message that has been handed out. */
  ghost predicate ChangesKeys(y: System, e: Step) {
    && e.ChangeReadState? && !y.receiver.hasCcs && |y.receiver.ring| == FLIGHT
    && forall i: nat :: i < FLIGHT && y.receiver.ring[i].Some? ==>
        y.receiver.hasMessage && i == y.receiver.readSeq % FLIGHT
  }

  /** How often the read state changes along `es`. */
  ghost function ChangesIn(y: System, es: seq<Step>): nat
    requires Inv(y)
    decreases |es|
  {
    if es == [] || !Possible(y, es[0]) then 0
    else
      StepKeepsInv(y, es[0]);
      (if ChangesKeys(y, es[0]) then 1 else 0) + ChangesIn(Next(y, es[0]), es[1..])
  }

  lemma StepEpochs(y: System, e: Step)
    requires Inv(y) && Possible(y, e)
    requires y.receiver.rEpoch == y.reader.rEpoch
    ensures var z := Next(y, e);
            z.receiver.rEpoch == z.reader.rEpoch ==
            (if ChangesKeys(y, e) then (y.reader.rEpoch + 1) % U16 else y.reader.rEpoch)
  {
    hide Placed, TakeRecord, DtlsWindow.Accepts, SenderInv, NetInv, RingFrom, Faithful, NextPacket, Add;
    if e.Deliver? {
      TakeRecordConsistent(y.receiver, e.record.plaintext, e.maxLen);
    }
  }

  lemma {:induction false} EpochsAfter(y: System, es: seq<Step>, z: System)
    requires Inv(y) && Reaches(y, es, z)
    requires y.receiver.rEpoch == y.reader.rEpoch < U16
    ensures z.receiver.rEpoch == z.reader.rEpoch == (y.reader.rEpoch + ChangesIn(y, es)) % U16
    decreases |es|
  {
    hide Next, SenderInv, NetInv, Possible, ChangesKeys;
    if es != [] {
      StepKeepsInv(y, es[0]);
      StepEpochs(y, es[0]);
      EpochsAfter(Next(y, es[0]), es[1..], z);
    }
  }

  /** Over any run the epoch that decides which records are opened and the one that decides what each type of record
      does are the same: the number of changes of read state so far, in 16 bits. */
  lemma EpochsAgree(es: seq<Step>, y: System)
    requires (InitialInv(); Reaches(INITIAL, es, y))
    ensures y.receiver.rEpoch == y.reader.rEpoch == (InitialInv(); ChangesIn(INITIAL, es)) % U16
  {
    InitialInv();
    EpochsAfter(INITIAL, es, y);
  }
}
