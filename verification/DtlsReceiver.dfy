/** The receiving half of d1_both.cc as it runs: a fixed array of seven owned messages, updated in place. */
module DtlsReceiver {
  import opened Bits
  import opened Wrappers
  import opened DtlsWire
  import opened DtlsFragment
  import opened DtlsRing

  class MessageReceiver {
    var readSeq: nat
    const incoming: array<HmFragment?>
    var hasMessage: bool
    var hasCcs: bool
    var rEpoch: nat

    /** What the fields stand for, and the objects they are made of: a region for each place of the ring. */
    ghost var view: Receiver
    ghost var Repr: set<object>
    ghost var regions: seq<set<object>>

    /** Place `i` owns its region, and the slot it stands for is in the view. */
    ghost predicate OwnsPlace(i: nat)
      requires i < incoming.Length && i < |regions| && i < |view.ring|
      reads this, incoming, regions[i]
    {
      var frag := incoming[i];
      && (frag == null <==> view.ring[i].None?)
      && (frag != null ==>
            && frag in regions[i] && frag.data in regions[i]
            && (frag.reassembly != null ==> frag.reassembly in regions[i])
            && frag.Valid()
            && view.ring[i] == Some(frag.View())
            && (frag.reassembly == null <==> frag.View().Complete()))
    }

    ghost predicate Apart()
      reads this
    {
      && (forall i: nat, j: nat :: i < j < |regions| ==> regions[i] !! regions[j])
      && (forall i: nat :: i < |regions| ==> regions[i] <= Repr && this !in regions[i] && incoming !in regions[i])
    }

    ghost predicate Valid()
      reads this, incoming, Repr
    {
      && incoming.Length == FLIGHT == |regions|
      && this in Repr && incoming in Repr
      && Apart()
      && Consistent(view)
      && view.readSeq == readSeq && view.hasMessage == hasMessage && view.hasCcs == hasCcs && view.rEpoch == rEpoch
      && (forall i: nat :: i < FLIGHT ==> OwnsPlace(i))
    }

    constructor ()
      ensures Valid() && view == FRESH && fresh(Repr)
    {
      readSeq, hasMessage, hasCcs, rEpoch := 0, false, false, 0;
      incoming := new HmFragment?[FLIGHT](_ => null);
      view := FRESH;
      Repr := {this, incoming};
      regions := [{}, {}, {}, {}, {}, {}, {}];
    }

    /** A new entry, with the objects it owns, in an empty place. */
    method Insert(idx: nat, frag: HmFragment, ghost region: set<object>)
      requires Valid() && idx < FLIGHT && view.ring[idx].None?
      requires frag.Valid() && region !! Repr && frag in region && frag.data in region
      requires frag.reassembly != null ==> frag.reassembly in region
      requires frag.reassembly == null <==> frag.View().Complete()
      requires Consistent(view.(ring := view.ring[idx := Some(frag.View())]))
      modifies this`Repr, this`regions, this`view, incoming
      ensures Valid() && incoming[idx] == frag && Repr == old(Repr) + region
      ensures view == old(view).(ring := old(view).ring[idx := Some(frag.View())])
    {
      hide Placed, HmFragment.View, Slot.Complete, HeaderBytes, Marked;
      incoming[idx] := frag;
      regions := regions[idx := region];
      Repr := Repr + region;
      view := view.(ring := view.ring[idx := Some(frag.View())]);
      forall i: nat | i < FLIGHT
        ensures OwnsPlace(i)
      {
        assert i != idx ==> old(OwnsPlace(i));
      }
    }

    /** `dtls1_get_incoming_message` for a number inside the window; null stands for a mismatch. */
    method GetIncoming(h: Header) returns (frag: HmFragment?)
      requires Valid() && Fits(h) && InWindow(view, h.seqNo)
      modifies this`Repr, this`regions, this`view, incoming
      ensures Valid() && fresh(Repr - old(Repr))
      ensures frag == null ==> view == old(view)
      ensures var idx := h.seqNo % FLIGHT;
              var slot := if old(view).ring[idx].None? then NewSlot(h) else old(view).ring[idx].value;
              if slot.typ != h.typ || slot.msgLen != h.msgLen then frag == null
              else
                && frag != null && incoming[idx] == frag
                && view == old(view).(ring := old(view).ring[idx := Some(slot)])
    {
      hide HeaderBytes, Placed;
      var idx := h.seqNo % FLIGHT;
      frag := incoming[idx];
      assert OwnsPlace(idx);
      if frag != null {
        SameNumber(view, h.seqNo);
        // assert(frag->seq == msg_hdr->seq)
        assert frag.seqNo == h.seqNo;
        if frag.typ != h.typ || frag.msgLen != h.msgLen {
          return null;
        }
        assert view.ring == view.ring[idx := view.ring[idx]];
        return;
      }
      frag := new HmFragment(h);
      assert h.msgLen > 0 ==> 0 !in frag.View().got;
      PutConsistent(view, NewSlot(h));
      ghost var region: set<object> := {frag, frag.data};
      if frag.reassembly != null {
        region := region + {frag.reassembly};
      }
      Insert(idx, frag, region);
    }

    method AbsorbAt(idx: nat, off: nat, body: seq<byte>)
      requires Valid() && idx < FLIGHT && incoming[idx] != null && incoming[idx].reassembly != null
      requires view.ring[idx].Some?
      requires off + |body| <= incoming[idx].msgLen
      modifies Repr
      ensures Valid() && Repr == old(Repr)
      ensures view == old(view).(ring := old(view).ring[idx := Some(WithBody(old(view).ring[idx].value, off, body))])
    {
      hide HeaderBytes, WithBody, Slot.Complete, Placed, Marked;
      var frag := incoming[idx];
      assert OwnsPlace(idx);
      assert Placed(view, idx);
      AbsorbConsistent(view, idx, off, body);
      frag.Absorb(off, body);
      view := view.(ring := view.ring[idx := Some(frag.View())]);
      forall i: nat | i < FLIGHT
        ensures OwnsPlace(i)
      {
        assert old(OwnsPlace(i));
        assert i != idx ==> regions[i] !! regions[idx];
      }
    }

    /** The body of the loop of `dtls1_open_handshake`. */
    method TakeOne(f: Fragment, maxLen: nat) returns (ok: bool)
      requires Valid() && WellFormed(f)
      modifies Repr
      ensures Valid() && fresh(Repr - old(Repr))
      ensures (view, ok) == TakeFragment(old(view), f, maxLen)
    {
      hide HeaderBytes;
      var h := f.header;
      if h.fragOff > h.msgLen || h.fragOff + h.fragLen > h.msgLen || h.msgLen > maxLen {
        return false;
      }
      if rEpoch == 1 && h.seqNo != readSeq {
        return false;
      }
      if h.seqNo < readSeq || h.seqNo > readSeq + FLIGHT {
        return true;
      }
      if h.seqNo < readSeq || h.seqNo - readSeq >= FLIGHT {
        return false;
      }
      var frag := GetIncoming(h);
      if frag == null {
        return false;
      }
      ghost var idx := h.seqNo % FLIGHT;
      ghost var slot := view.ring[idx].value;
      assert OwnsPlace(idx);
      if frag.reassembly != null {
        AbsorbAt(h.seqNo % FLIGHT, h.fragOff, f.body);
        assert old(view).ring[idx := Some(slot)][idx := Some(WithBody(slot, h.fragOff, f.body))] ==
               old(view).ring[idx := Some(WithBody(slot, h.fragOff, f.body))];
      }
      ok := true;
    }

    /** The loop of `dtls1_open_handshake` over the fragments of a record. */
    method TakeAll(record: seq<byte>, maxLen: nat) returns (ok: bool)
      requires Valid()
      modifies Repr
      ensures Valid() && fresh(Repr - old(Repr))
      ensures (view, ok) == TakeRecord(old(view), record, maxLen)
    {
      var rest := record;
      while rest != []
        invariant Valid() && fresh(Repr - old(Repr))
        invariant TakeRecord(view, rest, maxLen) == TakeRecord(old(view), record, maxLen)
        decreases |rest|
      {
        var parsed := ParseFragment(rest);
        if parsed.None? {
          return false;
        }
        var more := TakeOne(parsed.value.0, maxLen);
        if !more {
          return false;
        }
        rest := parsed.value.1;
      }
      ok := true;
    }

    /** `dtls1_open_handshake` on a record the record layer has opened. */
    method Open(typ: RecordType, record: seq<byte>, maxLen: nat) returns (result: Opened)
      requires Valid()
      modifies Repr
      ensures Valid() && fresh(Repr - old(Repr))
      ensures (view, result) == OpenHandshake(old(view), typ, record, maxLen)
    {
      match typ
      case ApplicationData =>
        result := if rEpoch == 0 then Error else Discard;
      case ChangeCipherSpec =>
        if rEpoch != 0 || record != [1] {
          return Error;
        }
        SetCcs();
        result := Success;
      case Handshake =>
        var ok := TakeAll(record, maxLen);
        result := if ok then Success else Error;
      case Other =>
        result := Error;
    }

    method SetCcs()
      requires Valid()
      modifies this`hasCcs, this`view
      ensures Valid() && view == old(view).(hasCcs := true)
    {
      hasCcs := true;
      view := view.(hasCcs := true);
      FlagsKeepConsistent(old(view), view);
      forall i: nat | i < FLIGHT
        ensures OwnsPlace(i)
      {
        assert old(OwnsPlace(i));
      }
    }

    /** `dtls1_get_message`: the raw bytes of the current message, once it is complete. */
    method GetMessage() returns (raw: Option<seq<byte>>)
      requires Valid()
      modifies this`hasMessage, this`view
      ensures Valid() && view == old(view).(hasMessage := old(hasMessage) || raw.Some?)
      ensures raw == if CurrentComplete(old(view)) then Some(CurrentRaw(old(view))) else None
    {
      var idx := readSeq % FLIGHT;
      var frag := incoming[idx];
      assert OwnsPlace(idx) && Placed(view, idx);
      if frag == null || frag.reassembly != null {
        return None;
      }
      assert view.Current() == Some(frag.View());
      assert frag.data[..] == frag.data[..HEADER_LENGTH] + frag.data[HEADER_LENGTH..];
      assert frag.data[..] == CurrentRaw(view);
      raw := Some(frag.data[..]);
      hasMessage := true;
      view := view.(hasMessage := true);
      FlagsKeepConsistent(old(view), view);
      forall i: nat | i < FLIGHT
        ensures OwnsPlace(i)
      {
        assert old(OwnsPlace(i));
      }
    }

    /** `dtls1_next_message`. */
    method Next()
      requires Valid() && hasMessage
      modifies this, incoming
      ensures Valid() && Repr == old(Repr) && view == NextMessage(old(view))
    {
      hide HeaderBytes, Placed;
      NextMessageConsistent(view);
      var idx := readSeq % FLIGHT;
      incoming[idx] := null;
      readSeq := (readSeq + 1) % U16;
      hasMessage := false;
      view := NextMessage(view);
      forall i: nat | i < FLIGHT
        ensures OwnsPlace(i)
      {
        assert old(OwnsPlace(i));
      }
    }

    /** `dtls_has_unprocessed_handshake_data`. */
    method Unprocessed() returns (some: bool)
      requires Valid()
      ensures some == HasUnprocessed(view)
    {
      if hasCcs {
        return true;
      }
      var current := readSeq % FLIGHT;
      for i := 0 to FLIGHT
        invariant forall k: nat :: k < i ==> view.ring[k].None? || (hasMessage && k == current)
      {
        assert OwnsPlace(i);
        if !(hasMessage && i == current) && incoming[i] != null {
          return true;
        }
      }
      some := false;
    }

    /** `dtls1_set_read_state`. */
    method ChangeCipher() returns (ok: bool)
      requires Valid()
      modifies this`rEpoch, this`view
      ensures Valid() && (view, ok) == SetReadState(old(view))
      ensures rEpoch == if ok then (old(rEpoch) + 1) % U16 else old(rEpoch)
      ensures ok <==> !hasCcs && forall i: nat :: i < FLIGHT && incoming[i] != null ==>
                                   hasMessage && i == readSeq % FLIGHT
    {
      var left := Unprocessed();
      forall i: nat | i < FLIGHT
        ensures incoming[i] == null <==> view.ring[i].None?
      {
        assert OwnsPlace(i);
      }
      if left {
        return false;
      }
      rEpoch := (rEpoch + 1) % U16;
      view := view.(rEpoch := rEpoch);
      ok := true;
      FlagsKeepConsistent(old(view), view);
      forall i: nat | i < FLIGHT
        ensures OwnsPlace(i)
      {
        assert old(OwnsPlace(i));
      }
    }
  }
}
