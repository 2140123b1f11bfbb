/** Encoding of messages: the bytes pb_encode.c produces (Protocol Buffers encoding, "Length-Delimited Records" and
    "Packed Repeated Fields"). */
module PbEncode {
  import opened Bits
  import opened Wrappers
  import opened PbValue
  import opened PbField
  import opened PbVarint
  import opened PbMessage

  /** offsetof(pb_bytes_array_t, bytes). */
  const BYTES_OFFSET: nat := 4

  type Output = Option<seq<byte>>

  /** One output after another; an error in either is an error. */
  function Then(a: Output, b: Output): Output {
    if a.None? || b.None? then None else Some(a.value + b.value)
  }

  datatype WireType = WtVarint | Wt64Bit | WtString | Wt32Bit | WtInvalid(n: nat)

  function WireNumber(wt: WireType): nat {
    match wt
    case WtVarint => 0
    case Wt64Bit => 1
    case WtString => 2
    case Wt32Bit => 5
    case WtInvalid(n) => n
  }

  /** The wire type `pb_encode_tag_for_field` chooses. */
  function WireOf(l: LType): WireType {
    match l
    case Varint => WtVarint
    case UVarint => WtVarint
    case SVarint => WtVarint
    case Fixed32 => Wt32Bit
    case Fixed64 => Wt64Bit
    case _ => WtString
  }

  function Key(wt: WireType, tag: nat): seq<byte> {
    Base128(8 * tag + WireNumber(wt))
  }

  /** `pb_encode_string`; the size is cast to 64 bits. */
  function Prefixed(s: seq<byte>): seq<byte> {
    Base128(|s| % U64) + s
  }

  predicate Packable(l: LType) {
    l.Varint? || l.UVarint? || l.SVarint? || l.Fixed32? || l.Fixed64?
  }

  /** The field encoders `pb_enc_*`. */
  function EncItem(f: Field, v: Value): Output
    requires Typed(f, v)
    decreases f, 0, 0
  {
    match f.l
    case Varint => if Modulus(f.dataSize) == 0 then None else Some(Base128(Word(v.n)))
    case UVarint => if Modulus(f.dataSize) == 0 then None else Some(Base128(v.n))
    case SVarint => if Modulus(f.dataSize) == 0 then None else Some(Base128(ZigZag(v.n)))
    case Fixed32 => Some(LittleEndian(v.n, 4))
    case Fixed64 => Some(LittleEndian(v.n, 8))
    case Bytes => if |v.bytes| + BYTES_OFFSET > f.dataSize then None else Some(Prefixed(v.bytes))
    case String => Some(Prefixed(v.bytes))
    case FixedLengthBytes => Some(Prefixed(v.bytes))
    case Submessage(fields) =>
      var e := EncMessage(fields, v.slots);
      if e.None? then None else Some(Prefixed(e.value))
    case Extension => None
  }

  /** The items of a packed array, one after the other. */
  function EncItems(f: Field, vs: seq<Value>): Output
    requires forall i :: 0 <= i < |vs| ==> Typed(f, vs[i])
    decreases f, 1, |vs|
  {
    if vs == [] then Some([]) else Then(EncItem(f, vs[0]), EncItems(f, vs[1..]))
  }

  function EncTagged(f: Field, v: Value): Output
    requires Typed(f, v)
    decreases f, 1, 0
  {
    Then(Some(Key(WireOf(f.l), f.tag)), EncItem(f, v))
  }

  /** The items of an array that is not packed, each with its own key. */
  function EncEach(f: Field, vs: seq<Value>): Output
    requires forall i :: 0 <= i < |vs| ==> Typed(f, vs[i])
    decreases f, 2, |vs|
  {
    if vs == [] then Some([]) else Then(EncTagged(f, vs[0]), EncEach(f, vs[1..]))
  }

  /** `encode_array`: packed wherever the type allows it. */
  function EncArray(f: Field, vs: seq<Value>): Output
    requires forall i :: 0 <= i < |vs| ==> Typed(f, vs[i])
    decreases f, 3, 0
  {
    if vs == [] then Some([])
    else if |vs| > f.arraySize then None
    else if Packable(f.l) then
      var items := EncItems(f, vs);
      if items.None? then None else Some(Key(WtString, f.tag) + Prefixed(items.value))
    else EncEach(f, vs)
  }

  /** `encode_basic_field`; a singular proto3 field is left out where it has its default value. */
  function EncField(f: Field, s: Slot): Output
    requires SlotTyped(f, s)
    decreases f, 4, 0
  {
    match f.h
    case Required => EncTagged(f, s.v)
    case Optional =>
      if (if f.sizeOffset != 0 then s.has else !IsDefaultValue(f, s.v)) then EncTagged(f, s.v) else Some([])
    case Repeated => EncArray(f, s.vs)
    case Oneof => if s.member.Some? then EncTagged(f, s.member.value) else Some([])
  }

  /** `pb_encode` from field `k` on. */
  function EncFrom(fs: seq<Field>, ms: seq<Slot>, k: nat): Output
    requires AllTyped(fs, ms) && k <= |fs|
    decreases fs, 5, |fs| - k
  {
    if k == |fs| then Some([]) else Then(EncField(fs[k], ms[k]), EncFrom(fs, ms, k + 1))
  }

  function EncMessage(fs: seq<Field>, ms: seq<Slot>): Output
    requires AllTyped(fs, ms)
    decreases fs, 6, 0
  {
    EncFrom(fs, ms, 0)
  }

  lemma ThenAssociates(a: Output, b: Output, c: Output)
    ensures Then(Then(a, b), c) == Then(a, Then(b, c))
  {
    if a.Some? && b.Some? && c.Some? {
      assert (a.value + b.value) + c.value == a.value + (b.value + c.value);
    }
  }

  lemma ThenNothing(a: Output)
    ensures Then(a, Some([])) == a && Then(Some([]), a) == a
  {
    if a.Some? {
      assert a.value + [] == a.value && [] + a.value == a.value;
    }
  }

  /** The sizes `encode_array` computes without a sizing pass are those of the items. */
  lemma {:induction false} FixedSizes(f: Field, vs: seq<Value>)
    requires forall i :: 0 <= i < |vs| ==> Typed(f, vs[i])
    requires f.l.Fixed32? || f.l.Fixed64?
    ensures EncItems(f, vs).Some? && |EncItems(f, vs).value| == (if f.l.Fixed32? then 4 else 8) * |vs|
    decreases |vs|
  {
    if vs != [] {
      FixedSizes(f, vs[1..]);
    }
  }
}
