/** Messages as values: which fit their descriptors, what initialization gives, what counts as default. */
module PbMessage {
  import opened Bits
  import opened Wrappers
  import opened PbValue
  import opened PbField
  import opened PbVarint

  /** How many values an integer of that many bytes has; 0 for the sizes the sources reject. */
  function Modulus(size: nat): nat {
    if size == 1 then 0x100 else if size == 2 then U16 else if size == 4 then U32 else if size == 8 then U64 else 0
  }

  predicate InSigned(n: int, size: nat) {
    if Modulus(size) == 0 then IsInt64(n) else -(Modulus(size) / 2) <= n < Modulus(size) / 2
  }

  predicate InUnsigned(n: int, size: nat) {
    0 <= n < (if Modulus(size) == 0 then U64 else Modulus(size))
  }

  /** The value is one that the memory of an item of field `f` can hold. A string has no terminator within it. */
  predicate Typed(f: Field, v: Value)
    decreases f, 0
  {
    match f.l
    case Varint => v.Number? && InSigned(v.n, f.dataSize)
    case SVarint => v.Number? && InSigned(v.n, f.dataSize)
    case UVarint => v.Number? && InUnsigned(v.n, f.dataSize)
    case Fixed32 => v.Number? && 0 <= v.n < U32
    case Fixed64 => v.Number? && 0 <= v.n < U64
    case Bytes => v.Blob? && |v.bytes| < U32
    case String => v.Blob? && |v.bytes| <= f.dataSize && forall i :: 0 <= i < |v.bytes| ==> v.bytes[i] != 0
    case FixedLengthBytes => v.Blob? && |v.bytes| == f.dataSize
    case Submessage(fields) => v.Message? && AllTyped(fields, v.slots)
    case Extension => false
  }

  predicate SlotTyped(f: Field, s: Slot)
    decreases f, 1
  {
    match f.h
    case Required => s.One? && Typed(f, s.v)
    case Optional => if f.sizeOffset != 0 then s.Maybe? && Typed(f, s.v) else s.One? && Typed(f, s.v)
    case Repeated => s.Many? && forall i :: 0 <= i < |s.vs| ==> Typed(f, s.vs[i])
    case Oneof => s.Choice? && (s.member.Some? ==> Typed(f, s.member.value))
  }

  /** Two fields are members of one union. */
  predicate Share(fs: seq<Field>, j: nat, k: nat)
    requires j < |fs| && k < |fs|
  {
    fs[j].h.Oneof? && fs[k].h.Oneof? && Leader(fs, j) == Leader(fs, k)
  }

  /** A union holds at most one member: its tag field holds one tag. */
  predicate Exclusive(fs: seq<Field>, ms: seq<Slot>)
    requires |fs| == |ms|
  {
    forall j: nat, k: nat :: j < k < |fs| && Share(fs, j, k) && ms[j].Choice? && ms[k].Choice? ==>
      ms[j].member.None? || ms[k].member.None?
  }

  predicate AllTyped(fs: seq<Field>, ms: seq<Slot>)
    decreases fs, 2
  {
    |ms| == |fs| && Exclusive(fs, ms) && forall i :: 0 <= i < |fs| ==> SlotTyped(fs[i], ms[i])
  }

  // Initialization: pb_message_set_to_defaults -----------------------------------------------------------

  function Zero(f: Field): Value {
    match f.l
    case Bytes => Blob([])
    case String => Blob([])
    case FixedLengthBytes => Blob(seq(f.dataSize, _ => 0))
    case _ => Number(0)
  }

  function InitValue(f: Field): Value
    decreases f, 0
  {
    if f.l.Submessage? then Message(Defaults(f.l.fields)) else if f.init.Some? then f.init.value else Zero(f)
  }

  function InitSlot(f: Field): Slot
    decreases f, 1
  {
    match f.h
    case Required => One(InitValue(f))
    case Optional => if f.sizeOffset != 0 then Maybe(false, InitValue(f)) else One(InitValue(f))
    case Repeated => Many([])
    case Oneof => Choice(None)
  }

  function Defaults(fs: seq<Field>): (ms: seq<Slot>)
    ensures |ms| == |fs|
    decreases fs, 2
  {
    seq(|fs|, i requires 0 <= i < |fs| => InitSlot(fs[i]))
  }

  // pb_check_proto3_default_value -------------------------------------------------------------------------

  predicate IsDefaultValue(f: Field, v: Value)
    requires Typed(f, v)
    decreases f, 0
  {
    match f.l
    case Bytes => v.bytes == []
    case String => v.bytes == []
    case FixedLengthBytes => f.dataSize == 0
    case Submessage(fields) => AllDefault(fields, v.slots)
    case Extension => true
    case _ => v.n == 0
  }

  predicate IsDefault(f: Field, s: Slot)
    requires SlotTyped(f, s)
    decreases f, 1
  {
    match f.h
    case Required => false
    case Optional => if f.sizeOffset != 0 then !s.has else IsDefaultValue(f, s.v)
    case Repeated => s.vs == []
    case Oneof => s.member.None?
  }

  predicate AllDefault(fs: seq<Field>, ms: seq<Slot>)
    requires AllTyped(fs, ms)
    decreases fs, 2
  {
    forall i :: 0 <= i < |fs| ==> IsDefault(fs[i], ms[i])
  }

  // Well-formed descriptors and messages ---------------------------------------------------------------------

  ghost predicate Distinct(fs: seq<Field>) {
    forall j, k :: 0 <= j < k < |fs| ==> fs[j].tag != fs[k].tag
  }

  /** What the generator produces for static fields without extensions and fixed-count arrays. */
  ghost predicate Codable(fs: seq<Field>)
    decreases fs, 1
  {
    Distinct(fs) && forall i :: 0 <= i < |fs| ==> FieldCodable(fs[i])
  }

  ghost predicate FieldCodable(f: Field)
    decreases f, 0
  {
    && 0 < f.tag < 0x2000_0000
    && f.a.Static? && !f.l.Extension?
    && f.dataSize < U32
    && (f.l.Varint? || f.l.UVarint? || f.l.SVarint? ==> Modulus(f.dataSize) != 0)
    && (f.h.Repeated? || f.h.Oneof? ==> f.sizeOffset != 0)
    && (f.init.Some? ==> !f.l.Submessage? && Typed(f, f.init.value))
    && (f.h.Optional? && f.sizeOffset == 0 ==> f.init.None?)
    && (f.l.Submessage? ==> Codable(f.l.fields))
  }

  /** Every string leaves room for its terminator. */
  ghost predicate Terminated(f: Field, v: Value)
    requires Typed(f, v)
    decreases f, 0
  {
    match f.l
    case String => |v.bytes| < f.dataSize
    case Submessage(fields) => AllTerminated(fields, v.slots)
    case _ => true
  }

  ghost predicate SlotTerminated(f: Field, s: Slot)
    requires SlotTyped(f, s)
    decreases f, 1
  {
    match f.h
    case Required => Terminated(f, s.v)
    case Optional => Terminated(f, s.v)
    case Repeated => forall i :: 0 <= i < |s.vs| ==> Terminated(f, s.vs[i])
    case Oneof => s.member.Some? ==> Terminated(f, s.member.value)
  }

  ghost predicate AllTerminated(fs: seq<Field>, ms: seq<Slot>)
    requires AllTyped(fs, ms)
    decreases fs, 2
  {
    forall i :: 0 <= i < |fs| ==> SlotTerminated(fs[i], ms[i])
  }

  // The message up to what encoding does not carry ------------------------------------------------------------

  /** Absent optionals lose their contents; unused array slots and inactive members are not in the value at all. */
  function Normal(f: Field, v: Value): Value
    requires Typed(f, v)
    decreases f, 0
  {
    if f.l.Submessage? then Message(NormalMessage(f.l.fields, v.slots)) else v
  }

  function NormalSlot(f: Field, s: Slot): Slot
    requires SlotTyped(f, s)
    decreases f, 1
  {
    match f.h
    case Required => One(Normal(f, s.v))
    case Optional =>
      if f.sizeOffset == 0 then One(Normal(f, s.v))
      else if s.has then Maybe(true, Normal(f, s.v)) else Maybe(false, InitValue(f))
    case Repeated => Many(seq(|s.vs|, i requires 0 <= i < |s.vs| => Normal(f, s.vs[i])))
    case Oneof => if s.member.None? then Choice(None) else Choice(Some(Normal(f, s.member.value)))
  }

  function NormalMessage(fs: seq<Field>, ms: seq<Slot>): (r: seq<Slot>)
    requires AllTyped(fs, ms)
    ensures |r| == |fs|
    decreases fs, 2
  {
    seq(|fs|, i requires 0 <= i < |fs| => NormalSlot(fs[i], ms[i]))
  }

  lemma DefaultValueIsInit(f: Field, v: Value)
    requires FieldCodable(f) && f.h.Optional? && f.sizeOffset == 0
    requires Typed(f, v) && IsDefaultValue(f, v)
    ensures Normal(f, v) == InitValue(f)
    decreases f, 0
  {
    if f.l.Submessage? {
      AllDefaultIsInit(f.l.fields, v.slots);
    } else if f.l.FixedLengthBytes? {
      assert v.bytes == seq(f.dataSize, _ => 0);
    }
  }

  /** What the encoder leaves out as default is, to the reader, what initialization gives. */
  lemma {:induction false} AllDefaultIsInit(fs: seq<Field>, ms: seq<Slot>)
    requires Codable(fs) && AllTyped(fs, ms) && AllDefault(fs, ms)
    ensures NormalMessage(fs, ms) == Defaults(fs)
    decreases fs, 2
  {
    forall i | 0 <= i < |fs|
      ensures NormalSlot(fs[i], ms[i]) == InitSlot(fs[i])
    {
      assert FieldCodable(fs[i]) && IsDefault(fs[i], ms[i]);
      if fs[i].h.Optional? && fs[i].sizeOffset == 0 {
        DefaultValueIsInit(fs[i], ms[i].v);
      }
    }
  }

  lemma InitValueTyped(f: Field)
    requires FieldCodable(f)
    ensures Typed(f, InitValue(f))
    decreases f, 0
  {
    if f.l.Submessage? {
      DefaultsTyped(f.l.fields);
    }
  }

  lemma {:induction false} DefaultsTyped(fs: seq<Field>)
    requires Codable(fs)
    ensures AllTyped(fs, Defaults(fs))
    decreases fs, 2
  {
    forall i | 0 <= i < |fs|
      ensures SlotTyped(fs[i], InitSlot(fs[i]))
    {
      assert FieldCodable(fs[i]);
      InitValueTyped(fs[i]);
    }
  }
}
