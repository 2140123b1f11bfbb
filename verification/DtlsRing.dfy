/** Receiving DTLS handshake messages: the ring of incoming messages (d1_both.cc), first as what it computes. */
module DtlsRing {
  import opened Bits
  import opened Wrappers
  import opened DtlsWire
  import opened DtlsFragment

  /** SSL_MAX_HANDSHAKE_FLIGHT. */
  const FLIGHT: nat := 7

  datatype Receiver = Receiver(
    readSeq: nat,
    ring: seq<Option<Slot>>,
    hasMessage: bool,
    hasCcs: bool,
    rEpoch: nat)
  {
    function Current(): Option<Slot>
      requires |ring| == FLIGHT
    {
      ring[readSeq % FLIGHT]
    }
  }

  const FRESH := Receiver(0, [None, None, None, None, None, None, None], false, false, 0)

  /** An occupied place holds a number of the 7-wide window, congruent to the place. */
  ghost predicate Placed(r: Receiver, i: nat)
    requires i < |r.ring|
  {
    r.ring[i].Some? ==>
      var s := r.ring[i].value;
      s.Valid() && s.seqNo % FLIGHT == i && r.readSeq <= s.seqNo < r.readSeq + FLIGHT
  }

  ghost predicate Consistent(r: Receiver) {
    && r.readSeq < U16 && r.rEpoch < U16
    && |r.ring| == FLIGHT
    && (forall i: nat :: i < FLIGHT ==> Placed(r, i))
    && (r.hasMessage ==> r.Current().Some? && r.Current().value.Complete())
  }

  // The operations -------------------------------------------------------------------------------

  /** One fragment of a handshake record; false stands for a fatal error. */
  ghost function TakeFragment(r: Receiver, f: Fragment, maxLen: nat): (Receiver, bool)
    requires Consistent(r)
  {
    var h := f.header;
    if h.fragOff > h.msgLen || h.fragOff + h.fragLen > h.msgLen || h.msgLen > maxLen then (r, false)
    else if r.rEpoch == 1 && h.seqNo != r.readSeq then (r, false)
    else if h.seqNo < r.readSeq || h.seqNo > r.readSeq + FLIGHT then (r, true)
    else if h.seqNo - r.readSeq >= FLIGHT then (r, false)
    else
      var idx := h.seqNo % FLIGHT;
      var slot := if r.ring[idx].None? then NewSlot(h) else r.ring[idx].value;
      if slot.typ != h.typ || slot.msgLen != h.msgLen then (r, false)
      else if slot.Complete() then (r.(ring := r.ring[idx := Some(slot)]), true)
      else (r.(ring := r.ring[idx := Some(WithBody(slot, h.fragOff, f.body))]), true)
  }

  lemma TakeFragmentConsistent(r: Receiver, f: Fragment, maxLen: nat)
    requires Consistent(r) && WellFormed(f)
    ensures Consistent(TakeFragment(r, f, maxLen).0)
    ensures TakeFragment(r, f, maxLen).0.readSeq == r.readSeq
    ensures TakeFragment(r, f, maxLen).0.rEpoch == r.rEpoch
    ensures TakeFragment(r, f, maxLen).0.hasMessage == r.hasMessage
  {
    var h := f.header;
    var r' := TakeFragment(r, f, maxLen).0;
    var idx := h.seqNo % FLIGHT;
    forall i: nat | i < FLIGHT
      ensures Placed(r', i)
    {
      assert Placed(r, i);
      if i == idx && r'.ring != r.ring {
        if r.ring[i].Some? {
          SameNumber(r, h.seqNo);
        }
      }
    }
    if r.hasMessage {
      assert Placed(r, r.readSeq % FLIGHT);
    }
  }

  /** The assertion of `dtls1_get_incoming_message`: an occupied place of an in-window number holds that number. */
  lemma SameNumber(r: Receiver, n: nat)
    requires Consistent(r) && r.readSeq <= n < r.readSeq + FLIGHT
    requires r.ring[n % FLIGHT].Some?
    ensures r.ring[n % FLIGHT].value.seqNo == n
  {
    assert Placed(r, n % FLIGHT);
  }

  /** A slot may be put in the empty place of its own number. */
  lemma PutConsistent(r: Receiver, s: Slot)
    requires Consistent(r) && s.Valid() && InWindow(r, s.seqNo) && r.ring[s.seqNo % FLIGHT].None?
    ensures Consistent(r.(ring := r.ring[s.seqNo % FLIGHT := Some(s)]))
  {
    var r' := r.(ring := r.ring[s.seqNo % FLIGHT := Some(s)]);
    forall i: nat | i < FLIGHT
      ensures Placed(r', i)
    {
      assert Placed(r, i);
    }
  }

  lemma AbsorbConsistent(r: Receiver, i: nat, off: nat, body: seq<byte>)
    requires Consistent(r) && i < FLIGHT && r.ring[i].Some?
    requires off + |body| <= r.ring[i].value.msgLen
    ensures Consistent(r.(ring := r.ring[i := Some(WithBody(r.ring[i].value, off, body))]))
  {
    var r' := r.(ring := r.ring[i := Some(WithBody(r.ring[i].value, off, body))]);
    forall k: nat | k < FLIGHT
      ensures Placed(r', k)
    {
      assert Placed(r, k);
    }
  }

  /** The loop of `dtls1_open_handshake` over the fragments of one record. */
  ghost function TakeRecord(r: Receiver, record: seq<byte>, maxLen: nat): (Receiver, bool)
    requires Consistent(r)
    decreases |record|
  {
    if record == [] then (r, true)
    else
      match ParseFragment(record)
      case None => (r, false)
      case Some((f, rest)) =>
        var (r', ok) := TakeFragment(r, f, maxLen);
        TakeFragmentConsistent(r, f, maxLen);
        if ok then TakeRecord(r', rest, maxLen) else (r', false)
  }

  lemma {:induction false} TakeRecordConsistent(r: Receiver, record: seq<byte>, maxLen: nat)
    requires Consistent(r)
    ensures Consistent(TakeRecord(r, record, maxLen).0)
    ensures TakeRecord(r, record, maxLen).0.readSeq == r.readSeq
    ensures TakeRecord(r, record, maxLen).0.rEpoch == r.rEpoch
    ensures TakeRecord(r, record, maxLen).0.hasMessage == r.hasMessage
    decreases |record|
  {
    if record != [] && ParseFragment(record).Some? {
      var (f, rest) := ParseFragment(record).value;
      TakeFragmentConsistent(r, f, maxLen);
      var (r', ok) := TakeFragment(r, f, maxLen);
      if ok {
        TakeRecordConsistent(r', rest, maxLen);
      }
    }
  }

  datatype RecordType = ApplicationData | ChangeCipherSpec | Handshake | Other

  datatype Opened = Success | Discard | Error

  /** `dtls1_open_handshake` once the record layer has opened a record. In DTLS 1.2 the read cipher is null
      exactly in epoch 0. */
  ghost function OpenHandshake(r: Receiver, typ: RecordType, record: seq<byte>, maxLen: nat): (Receiver, Opened)
    requires Consistent(r)
  {
    match typ
    case ApplicationData => (r, if r.rEpoch == 0 then Error else Discard)
    case ChangeCipherSpec =>
      if r.rEpoch != 0 || record != [1] then (r, Error) else (r.(hasCcs := true), Success)
    case Handshake =>
      var (r', ok) := TakeRecord(r, record, maxLen);
      (r', if ok then Success else Error)
    case Other => (r, Error)
  }

  lemma FlagsKeepConsistent(r: Receiver, r': Receiver)
    requires Consistent(r) && r'.ring == r.ring && r'.readSeq == r.readSeq && r'.rEpoch < U16
    requires r'.hasMessage ==> CurrentComplete(r)
    ensures Consistent(r')
  {
    forall i: nat | i < FLIGHT
      ensures Placed(r', i)
    {
      assert Placed(r, i);
    }
  }

  ghost predicate CurrentComplete(r: Receiver)
    requires Consistent(r)
  {
    r.Current().Some? && r.Current().value.Complete()
  }

  ghost function CurrentRaw(r: Receiver): seq<byte>
    requires Consistent(r) && CurrentComplete(r)
  {
    assert Placed(r, r.readSeq % FLIGHT);
    r.Current().value.Raw()
  }

  /** `dtls1_next_message`; the 16-bit sequence number wraps. */
  ghost function NextMessage(r: Receiver): Receiver
    requires Consistent(r) && r.hasMessage
  {
    r.(ring := r.ring[r.readSeq % FLIGHT := None], readSeq := (r.readSeq + 1) % U16, hasMessage := false)
  }

  /** Releasing a message keeps the window invariant, also where the 16-bit number wraps to 0: a stored number is
      itself below 2^16, so nothing is left in the ring at that point. */
  lemma NextMessageConsistent(r: Receiver)
    requires Consistent(r) && r.hasMessage
    ensures Consistent(NextMessage(r))
  {
    var r' := NextMessage(r);
    forall i: nat | i < FLIGHT
      ensures Placed(r', i)
    {
      assert Placed(r, i);
      if r.ring[i].Some? && r.ring[i].value.seqNo == r.readSeq {
        assert i == r.readSeq % FLIGHT;
      }
    }
  }

  /** `dtls_has_unprocessed_handshake_data`. */
  ghost predicate HasUnprocessed(r: Receiver)
    requires |r.ring| == FLIGHT
  {
    r.hasCcs || exists i: nat :: i < FLIGHT && r.ring[i].Some? && !(r.hasMessage && i == r.readSeq % FLIGHT)
  }

  /** `dtls1_set_read_state`, the handshake part: refused while the old epoch has leftovers. */
  ghost function SetReadState(r: Receiver): (Receiver, bool)
    requires |r.ring| == FLIGHT
  {
    if HasUnprocessed(r) then (r, false) else (r.(rEpoch := (r.rEpoch + 1) % U16), true)
  }

  // The map view -----------------------------------------------------------------------------------

  /** The messages under way, by sequence number: the ring without its places. */
  ghost function Pending(r: Receiver): map<nat, Slot>
    requires Consistent(r)
  {
    map n: nat | r.readSeq <= n < r.readSeq + FLIGHT && r.ring[n % FLIGHT].Some? :: r.ring[n % FLIGHT].value
  }

  /** What one fragment does to the messages under way, said without a ring. */
  ghost function TakeInto(m: map<nat, Slot>, f: Fragment): map<nat, Slot>
  {
    var h := f.header;
    var slot := if h.seqNo in m then m[h.seqNo] else NewSlot(h);
    if slot.Complete() then m[h.seqNo := slot] else m[h.seqNo := WithBody(slot, h.fragOff, f.body)]
  }

  ghost predicate InWindow(r: Receiver, n: nat) {
    r.readSeq <= n < r.readSeq + FLIGHT
  }

  ghost predicate InBounds(h: Header, maxLen: nat) {
    h.fragOff + h.fragLen <= h.msgLen <= maxLen
  }

  /** The ring refines the map: an in-window fragment that agrees with what is stored changes exactly its own
      message, a disagreeing or ill-bounded one is an error, and one outside the window changes nothing; it is
      skipped, except exactly 7 past `readSeq`, which is an error. */
  lemma RingRefinesMap(r: Receiver, f: Fragment, maxLen: nat)
    requires Consistent(r) && WellFormed(f)
    ensures var h := f.header;
            var (r', ok) := TakeFragment(r, f, maxLen);
            var m := Pending(r);
            Consistent(r') &&
            (if !InBounds(h, maxLen) || (r.rEpoch == 1 && h.seqNo != r.readSeq) then !ok && r' == r
             else if !InWindow(r, h.seqNo) then r' == r && (ok <==> h.seqNo != r.readSeq + FLIGHT)
             else if h.seqNo in m && (m[h.seqNo].typ != h.typ || m[h.seqNo].msgLen != h.msgLen) then !ok && r' == r
             else ok && Pending(r') == TakeInto(m, f))
  {
    TakeFragmentConsistent(r, f, maxLen);
    var h := f.header;
    var (r', ok) := TakeFragment(r, f, maxLen);
    var m := Pending(r);
    if InBounds(h, maxLen) && InWindow(r, h.seqNo) && !(r.rEpoch == 1 && h.seqNo != r.readSeq) && ok {
      forall n: nat
        ensures n in Pending(r') <==> n in TakeInto(m, f)
        ensures n in Pending(r') ==> Pending(r')[n] == TakeInto(m, f)[n]
      {
        if InWindow(r, n) && n != h.seqNo {
          assert n % FLIGHT != h.seqNo % FLIGHT;
        }
      }
      assert Pending(r') == TakeInto(m, f);
    }
  }

  lemma AfterReleaseWasPending(r: Receiver, n: nat)
    requires Consistent(r) && r.hasMessage && Consistent(NextMessage(r))
    requires n in Pending(NextMessage(r))
    ensures n in Pending(r) && n != r.readSeq && Pending(NextMessage(r))[n] == Pending(r)[n]
  {
    SameNumber(NextMessage(r), n);
    assert n % FLIGHT != r.readSeq % FLIGHT;
    assert Placed(r, n % FLIGHT);
  }

  lemma PendingSurvivesRelease(r: Receiver, n: nat)
    requires Consistent(r) && r.hasMessage && Consistent(NextMessage(r))
    requires n in Pending(r) && n != r.readSeq
    ensures n in Pending(NextMessage(r))
  {
    SameNumber(r, n);
    assert Placed(r, n % FLIGHT);
    assert n < U16 && NextMessage(r).readSeq == r.readSeq + 1;
    assert n % FLIGHT != r.readSeq % FLIGHT;
  }

  /** Releasing the current message removes exactly it from the messages under way, also at the wrap. */
  lemma NextRemovesCurrent(r: Receiver)
    requires Consistent(r) && r.hasMessage
    ensures Consistent(NextMessage(r))
    ensures Pending(NextMessage(r)) == map n: nat | n in Pending(r) && n != r.readSeq :: Pending(r)[n]
  {
    NextMessageConsistent(r);
    forall n: nat | n in Pending(NextMessage(r))
      ensures n in Pending(r) && n != r.readSeq && Pending(NextMessage(r))[n] == Pending(r)[n]
    {
      AfterReleaseWasPending(r, n);
    }
    forall n: nat | n in Pending(r) && n != r.readSeq
      ensures n in Pending(NextMessage(r))
    {
      PendingSurvivesRelease(r, n);
    }
  }
}
