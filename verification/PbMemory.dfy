/** What is decoded is within its memory, and can be encoded again. */
module PbMemory {
  import opened Bits
  import opened Wrappers
  import opened PbValue
  import opened PbField
  import opened PbVarint
  import opened PbMessage
  import opened PbEncode
  import opened PbRequired
  import opened PbDecode
  import opened PbMerge
  import opened PbRoundTrip

  /** The value has room in an item's memory, with the size that goes before bytes and the zero that ends a string. */
  ghost predicate Held(f: Field, v: Value)
    requires Typed(f, v)
    decreases f, 0
  {
    match f.l
    case Bytes => 4 + |v.bytes| <= f.dataSize
    case String => |v.bytes| + 1 <= f.dataSize
    case Submessage(fields) => AllHeld(fields, v.slots)
    case _ => true
  }

  ghost predicate SlotHeld(f: Field, s: Slot)
    requires SlotTyped(f, s)
    decreases f, 1
  {
    match f.h
    case Required => Held(f, s.v)
    case Optional => Held(f, s.v)
    case Repeated => |s.vs| <= f.arraySize && forall i :: 0 <= i < |s.vs| ==> Held(f, s.vs[i])
    case Oneof => s.member.Some? ==> Held(f, s.member.value)
  }

  ghost predicate AllHeld(fs: seq<Field>, ms: seq<Slot>)
    requires AllTyped(fs, ms)
    decreases fs, 2
  {
    forall i :: 0 <= i < |fs| ==> SlotHeld(fs[i], ms[i])
  }

  /** Every item's memory has room for what initialization puts there. */
  ghost predicate Roomy(fs: seq<Field>)
    requires Codable(fs)
    decreases fs, 1
  {
    forall i :: 0 <= i < |fs| ==> FieldCodable(fs[i]) && ItemRoomy(fs[i])
  }

  ghost predicate ItemRoomy(f: Field)
    requires FieldCodable(f)
    decreases f, 0
  {
    if f.l.Submessage? then Roomy(f.l.fields) else (InitValueTyped(f); Held(f, InitValue(f)))
  }

  lemma InitHeld(f: Field)
    requires FieldCodable(f) && ItemRoomy(f)
    ensures Typed(f, InitValue(f)) && Held(f, InitValue(f))
    decreases f, 0
  {
    InitValueTyped(f);
    if f.l.Submessage? {
      DefaultsHeld(f.l.fields);
    }
  }

  lemma {:induction false} DefaultsHeld(fs: seq<Field>)
    requires Codable(fs) && Roomy(fs)
    ensures AllTyped(fs, Defaults(fs)) && AllHeld(fs, Defaults(fs))
    decreases fs, 2
  {
    hide Held, ItemRoomy, FieldCodable, InitValue, Exclusive;
    DefaultsTyped(fs);
    forall i | 0 <= i < |fs|
      ensures SlotHeld(fs[i], InitSlot(fs[i]))
    {
      InitHeld(fs[i]);
    }
  }

  // Decoding stays within -------------------------------------------------------------------------------------

  lemma BlobHeld(f: Field, s: seq<byte>)
    requires f.l.Bytes? || f.l.String? || f.l.FixedLengthBytes?
    requires f.dataSize < U32
    ensures DecBlob(f, s).Some? ==> Held(f, DecBlob(f, s).value.0)
  {
    hide Dec32;
  }

  lemma {:induction false} ItemHeld(f: Field, was: Value, s: seq<byte>)
    requires FieldCodable(f) && ItemRoomy(f) && Typed(f, was) && Held(f, was)
    ensures DecItem(f, was, s).Some? ==> Held(f, DecItem(f, was, s).value.0)
    decreases f, 0, 0
  {
    hide DecNumber, DecFixed, DecBlob, DecPrefixed, DecMessage, Codable, AllTyped, AllHeld;
    match f.l
    case Submessage(fields) =>
      if DecPrefixed(s).Some? {
        MessageHeld(fields, was.slots, DecPrefixed(s).value.0);
      }
    case Bytes => BlobHeld(f, s);
    case String => BlobHeld(f, s);
    case FixedLengthBytes => BlobHeld(f, s);
    case _ =>
  }

  lemma {:induction false} PackedHeld(f: Field, vs: seq<Value>, s: seq<byte>)
    requires FieldCodable(f) && ItemRoomy(f) && Packable(f.l) && |vs| <= f.arraySize
    requires forall i :: 0 <= i < |vs| ==> Typed(f, vs[i]) && Held(f, vs[i])
    ensures var r := DecPacked(f, vs, s);
            r.Some? ==> |r.value| <= f.arraySize && forall i :: 0 <= i < |r.value| ==> Held(f, r.value[i])
    decreases f, 1, |s|
  {
    hide DecItem, Typed, Held, FieldCodable, ItemRoomy, InitValue;
    if s != [] && |vs| < f.arraySize {
      InitHeld(f);
      var item := DecItem(f, InitValue(f), s);
      if item.Some? {
        ItemHeld(f, InitValue(f), s);
        PackedHeld(f, vs + [item.value.0], item.value.1);
      }
    }
  }

  lemma ArrayHeld(f: Field, vs: seq<Value>, wt: WireType, s: seq<byte>)
    requires FieldCodable(f) && ItemRoomy(f) && |vs| <= f.arraySize
    requires forall i :: 0 <= i < |vs| ==> Typed(f, vs[i]) && Held(f, vs[i])
    ensures var r := DecArray(f, vs, wt, s);
            r.Some? ==> |r.value.0| <= f.arraySize && forall i :: 0 <= i < |r.value.0| ==> Held(f, r.value.0[i])
    decreases f, 2, 0
  {
    hide DecItem, DecPacked, DecPrefixed, Typed, Held, FieldCodable, ItemRoomy, InitValue;
    if wt.WtString? && Packable(f.l) {
      if DecPrefixed(s).Some? {
        PackedHeld(f, vs, DecPrefixed(s).value.0);
      }
    } else {
      InitHeld(f);
      ItemHeld(f, InitValue(f), s);
    }
  }

  lemma MemberHeld(fs: seq<Field>, ms: seq<Slot>, k: nat, v: Value)
    requires AllTyped(fs, ms) && AllHeld(fs, ms) && k < |fs| && fs[k].h.Oneof? && Typed(fs[k], v) && Held(fs[k], v)
    requires AllTyped(fs, SetMember(fs, ms, k, v))
    ensures AllHeld(fs, SetMember(fs, ms, k, v))
  {
    hide Typed, Held, Exclusive, Share;
  }

  lemma {:induction false} FieldHeld(fs: seq<Field>, ms: seq<Slot>, k: nat, wt: WireType, s: seq<byte>)
    requires Codable(fs) && Roomy(fs) && AllTyped(fs, ms) && AllHeld(fs, ms) && k < |fs|
    ensures DecField(fs, ms, k, wt, s).Some? ==> AllHeld(fs, DecField(fs, ms, k, wt, s).value.0)
    decreases fs[k], 3, 0
  {
    hide DecItem, DecArray, Typed, Held, ItemRoomy, InitValue, Exclusive, Share;
    var f := fs[k];
    assert FieldCodable(f) && ItemRoomy(f) && SlotTyped(f, ms[k]) && SlotHeld(f, ms[k]);
    hide FieldCodable, Codable, Roomy;
    InitHeld(f);
    match f.h
    case Repeated => ArrayHeld(f, ms[k].vs, wt, s);
    case Oneof =>
      ItemHeld(f, if f.l.Submessage? || ms[k].member.None? then InitValue(f) else ms[k].member.value, s);
      if DecField(fs, ms, k, wt, s).Some? {
        var was := if f.l.Submessage? || ms[k].member.None? then InitValue(f) else ms[k].member.value;
        var v := DecItem(f, was, s).value.0;
        MemberTyped(fs, ms, k, v);
        MemberHeld(fs, ms, k, v);
      }
    case Required => ItemHeld(f, ms[k].v, s);
    case Optional => ItemHeld(f, ms[k].v, s);
  }

  lemma {:induction false} LoopHeld(fs: seq<Field>, ms: seq<Slot>, seen: set<nat>, s: seq<byte>)
    requires Codable(fs) && Roomy(fs) && AllTyped(fs, ms) && AllHeld(fs, ms)
    ensures DecLoop(fs, ms, seen, s).Some? ==> AllHeld(fs, DecLoop(fs, ms, seen, s).value.ms)
    decreases fs, 4, |s|
  {
    hide DecKey, DecField, Skip, Lookup, See, Codable, AllTyped, AllHeld, Roomy;
    if s != [] && DecKey(s).Some? && DecKey(s).value.Begin? {
      var start := DecKey(s).value;
      match Lookup(fs, start.tag)
      case None =>
        if Skip(start.wt, start.rest).Some? {
          LoopHeld(fs, ms, seen, Skip(start.wt, start.rest).value);
        }
      case Some(k) =>
        FieldHeld(fs, ms, k, start.wt, start.rest);
        if DecField(fs, ms, k, start.wt, start.rest).Some? {
          var (next, rest) := DecField(fs, ms, k, start.wt, start.rest).value;
          LoopHeld(fs, next, See(fs, k, seen), rest);
        }
    }
  }

  /** Whatever the bytes are, what is decoded is within the memory of its fields: no array has more items than slots,
      bytes and strings end inside their buffers, at every depth. */
  lemma MessageHeld(fs: seq<Field>, ms: seq<Slot>, s: seq<byte>)
    requires Codable(fs) && Roomy(fs) && AllTyped(fs, ms) && AllHeld(fs, ms)
    ensures DecMessage(fs, ms, s).Some? ==> AllHeld(fs, DecMessage(fs, ms, s).value)
    decreases fs, 5, 0
  {
    hide DecLoop, AllSeen, Codable, AllTyped, AllHeld, Roomy;
    LoopHeld(fs, ms, {}, s);
  }

  // Encoding again --------------------------------------------------------------------------------------------

  lemma {:induction false} ItemEncodes(f: Field, v: Value)
    requires FieldCodable(f) && Typed(f, v) && Held(f, v)
    ensures EncItem(f, v).Some? && EncTagged(f, v).Some? && Terminated(f, v)
    decreases f, 0, 0
  {
    hide Base128, LittleEndian, Prefixed, EncMessage, Codable, AllTyped, AllHeld, AllTerminated;
    match f.l
    case Submessage(fields) => MessageEncodes(fields, v.slots);
    case _ =>
  }

  lemma {:induction false} ItemsEncode(f: Field, vs: seq<Value>)
    requires FieldCodable(f) && forall i :: 0 <= i < |vs| ==> Typed(f, vs[i]) && Held(f, vs[i])
    ensures EncItems(f, vs).Some? && EncEach(f, vs).Some?
    ensures forall i :: 0 <= i < |vs| ==> Terminated(f, vs[i])
    decreases f, 1, |vs|
  {
    hide EncItem, EncTagged, Typed, Held, Terminated, FieldCodable;
    if vs != [] {
      ItemEncodes(f, vs[0]);
      ItemsEncode(f, vs[1..]);
      forall i | 0 <= i < |vs|
        ensures Terminated(f, vs[i])
      {
        assert i > 0 ==> vs[i] == vs[1..][i - 1];
      }
    }
  }

  lemma FieldEncodes(f: Field, s: Slot)
    requires FieldCodable(f) && SlotTyped(f, s) && SlotHeld(f, s)
    ensures EncField(f, s).Some? && SlotTerminated(f, s)
    decreases f, 2, 0
  {
    hide Typed, Held, FieldCodable, Terminated, EncTagged, EncItems, EncEach, IsDefaultValue;
    match f.h
    case Required => ItemEncodes(f, s.v);
    case Optional => ItemEncodes(f, s.v);
    case Repeated => ItemsEncode(f, s.vs);
    case Oneof =>
      if s.member.Some? {
        ItemEncodes(f, s.member.value);
      }
  }

  lemma {:induction false} FromEncodes(fs: seq<Field>, ms: seq<Slot>, k: nat)
    requires Codable(fs) && AllTyped(fs, ms) && AllHeld(fs, ms) && k <= |fs|
    ensures EncFrom(fs, ms, k).Some? && forall i :: k <= i < |fs| ==> SlotTerminated(fs[i], ms[i])
    decreases fs, 3, |fs| - k
  {
    hide FieldCodable, SlotTyped, SlotHeld, SlotTerminated, EncField, Exclusive;
    if k < |fs| {
      FieldEncodes(fs[k], ms[k]);
      FromEncodes(fs, ms, k + 1);
    }
  }

  /** A message within its memory can be encoded. */
  lemma MessageEncodes(fs: seq<Field>, ms: seq<Slot>)
    requires Codable(fs) && AllTyped(fs, ms) && AllHeld(fs, ms)
    ensures EncMessage(fs, ms).Some? && AllTerminated(fs, ms)
    decreases fs, 4, 0
  {
    hide Codable, AllTyped, AllHeld, EncFrom, SlotTerminated;
    FromEncodes(fs, ms, 0);
  }

  /** Whatever bytes decode, the message they give is within its memory and can be encoded, and decoding that gives the
      message again. */
  lemma DecodedEncodes(fs: seq<Field>, s: seq<byte>)
    requires Codable(fs) && Roomy(fs) && Decode(fs, s).Some?
    ensures var m := Decode(fs, s).value;
            && AllTyped(fs, m) && AllHeld(fs, m) && EncMessage(fs, m).Some?
            && (|EncMessage(fs, m).value| < U32 ==> Decode(fs, EncMessage(fs, m).value) == Some(NormalMessage(fs, m)))
  {
    hide DecMessage, DecLoop, Codable, AllTyped, AllHeld, Roomy, AllTerminated, EncMessage, NormalMessage, Defaults;
    DefaultsHeld(fs);
    MessageHeld(fs, Defaults(fs), s);
    var m := Decode(fs, s).value;
    MessageEncodes(fs, m);
    if |EncMessage(fs, m).value| < U32 {
      RoundTrip(fs, m);
    }
  }

  // Nothing to decode -----------------------------------------------------------------------------------------

  /** The first required field has number 0. */
  lemma {:induction false} FirstRequired(fs: seq<Field>, k: nat) returns (j: nat)
    requires k < |fs| && fs[k].h.Required?
    ensures j < |fs| && fs[j].h.Required? && RequiredBefore(fs, j) == 0
  {
    if RequiredBefore(fs, k) == 0 {
      j := k;
    } else {
      j := RequiredNumbered(fs, k, 0);
    }
  }

  /** No bytes are a message exactly where no field is required, and leave every field as initialization does. */
  lemma NothingDecoded(fs: seq<Field>)
    requires Codable(fs)
    ensures Decode(fs, []) == if forall k :: 0 <= k < |fs| ==> !fs[k].h.Required? then Some(Defaults(fs)) else None
  {
    hide Codable, AllTyped, AllSeen, Defaults;
    DefaultsTyped(fs);
    LoopDone(fs, Defaults(fs), {});
    AllSeenMeans(fs, {});
    if k: nat :| k < |fs| && fs[k].h.Required? {
      var j := FirstRequired(fs, k);
    }
  }

  /** What initialization leaves: arrays and unions are empty and has-flags false; an item is what the descriptor names,
      or else zero, no bytes, or a message initialized likewise. */
  lemma Initialized(fs: seq<Field>, k: nat)
    requires k < |fs|
    ensures var f, s := fs[k], Defaults(fs)[k];
            && (f.h.Repeated? ==> s == Many([])) && (f.h.Oneof? ==> s == Choice(None))
            && (f.h.Optional? && f.sizeOffset != 0 ==> s == Maybe(false, InitValue(f)))
            && (f.h.Required? || (f.h.Optional? && f.sizeOffset == 0) ==> s == One(InitValue(f)))
            && (f.l.Submessage? ==> InitValue(f) == Message(Defaults(f.l.fields)))
            && (!f.l.Submessage? && f.init.Some? ==> InitValue(f) == f.init.value)
            && (!f.l.Submessage? && f.init.None? ==>
                  InitValue(f) == if f.l.Bytes? || f.l.String? then Blob([])
                                  else if f.l.FixedLengthBytes? then Blob(seq(f.dataSize, _ => 0)) else Number(0))
  {
  }
}
