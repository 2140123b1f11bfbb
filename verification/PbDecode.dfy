/** Decoding of messages: what pb_decode.c makes of a byte string. */
module PbDecode {
  import opened Bits
  import opened Wrappers
  import opened PbValue
  import opened PbField
  import opened PbVarint
  import opened PbMessage
  import opened PbEncode
  import opened PbRequired

  datatype Start = Stop(rest: seq<byte>) | Begin(tag: nat, wt: WireType, rest: seq<byte>)

  function WireFrom(n: nat): WireType {
    if n == 0 then WtVarint else if n == 1 then Wt64Bit else if n == 2 then WtString else if n == 5 then Wt32Bit
    else WtInvalid(n)
  }

  /** `pb_decode_tag`; a key of zero ends the message. */
  function DecKey(s: seq<byte>): (r: Option<Start>)
    ensures r.Some? ==> |r.value.rest| < |s|
  {
    match Dec32(s)
    case None => None
    case Some((key, rest)) => Some(if key == 0 then Stop(rest) else Begin(key / 8, WireFrom(key % 8), rest))
  }

  function SkipVarint(s: seq<byte>): (r: Output)
    ensures r.Some? ==> |r.value| < |s|
  {
    if s == [] then None else if s[0] >= 128 then SkipVarint(s[1..]) else Some(s[1..])
  }

  function Drop(s: seq<byte>, n: nat): (r: Output)
    ensures r.Some? ==> |r.value| == |s| - n
  {
    if |s| < n then None else Some(s[n..])
  }

  /** `pb_skip_field`. */
  function Skip(wt: WireType, s: seq<byte>): (r: Output)
    ensures r.Some? ==> |r.value| < |s|
  {
    match wt
    case WtVarint => SkipVarint(s)
    case Wt64Bit => Drop(s, 8)
    case Wt32Bit => Drop(s, 4)
    case WtString => (match Dec32(s) case None => None case Some((n, t)) => Drop(t, n))
    case WtInvalid(_) => None
  }

  /** A length and that many bytes: `pb_make_string_substream`, and what is left to the parent. */
  function DecPrefixed(s: seq<byte>): (r: Option<(seq<byte>, seq<byte>)>)
    ensures r.Some? ==> |r.value.0| + |r.value.1| < |s|
  {
    match Dec32(s)
    case None => None
    case Some((n, t)) => if |t| < n then None else Some((t[..n], t[n..]))
  }

  /** The text in a string's memory: up to the first zero byte. */
  function UpToZero(s: seq<byte>): (r: seq<byte>)
    ensures |r| <= |s| && forall i :: 0 <= i < |r| ==> r[i] != 0
  {
    if s == [] || s[0] == 0 then [] else [s[0]] + UpToZero(s[1..])
  }

  type Item = Option<(Value, seq<byte>)>

  function DecNumber(f: Field, s: seq<byte>): (r: Item)
    requires f.l.Varint? || f.l.UVarint? || f.l.SVarint?
    ensures r.Some? ==> Typed(f, r.value.0) && |r.value.1| < |s|
  {
    match Dec64(s)
    case None => None
    case Some((w, rest)) =>
      Dec64IsWord(s);
      if Modulus(f.dataSize) == 0 then None
      else
        // A field of up to 32 bits takes the low 32 bits as an int32 first.
        var n := match f.l
          case Varint => Signed(w, if f.dataSize == 8 then U64 else U32)
          case SVarint => UnZigZag(w)
          case _ => w;
        if (if f.l.UVarint? then InUnsigned(n, f.dataSize) else InSigned(n, f.dataSize)) then Some((Number(n), rest))
        else None
  }

  function DecFixed(s: seq<byte>, width: nat): (r: Item)
    ensures r.Some? ==> |r.value.1| == |s| - width
  {
    if |s| < width then None else Some((Number(FromLittleEndian(s[..width])), s[width..]))
  }

  function DecBlob(f: Field, s: seq<byte>): (r: Item)
    requires f.l.Bytes? || f.l.String? || f.l.FixedLengthBytes?
    requires f.dataSize < U32
    ensures r.Some? ==> Typed(f, r.value.0) && |r.value.1| < |s|
  {
    match Dec32(s)
    case None => None
    case Some((n, t)) =>
      if f.l.FixedLengthBytes? && n == 0 then Some((Blob(seq(f.dataSize, _ => 0)), t))
      else if (match f.l
               case Bytes => n + BYTES_OFFSET > f.dataSize
               case String => n + 1 > f.dataSize
               case _ => n != f.dataSize) then None
      else if |t| < n then None
      else Some((Blob(if f.l.String? then UpToZero(t[..n]) else t[..n]), t[n..]))
  }

  /** The field decoders `pb_dec_*`; a submessage is decoded into what is there already. */
  function DecItem(f: Field, was: Value, s: seq<byte>): (r: Item)
    requires FieldCodable(f) && Typed(f, was)
    ensures r.Some? ==> Typed(f, r.value.0) && |r.value.1| < |s|
    decreases f, 0, 0
  {
    match f.l
    case Varint => DecNumber(f, s)
    case UVarint => DecNumber(f, s)
    case SVarint => DecNumber(f, s)
    case Fixed32 => FixedTyped(s, 4); DecFixed(s, 4)
    case Fixed64 => FixedTyped(s, 8); DecFixed(s, 8)
    case Submessage(fields) =>
      (match DecPrefixed(s)
       case None => None
       case Some((body, rest)) =>
         var m := DecMessage(fields, was.slots, body);
         if m.None? then None else Some((Message(m.value), rest)))
    case Bytes => DecBlob(f, s)
    case String => DecBlob(f, s)
    case FixedLengthBytes => DecBlob(f, s)
    case Extension => None
  }

  lemma FixedTyped(s: seq<byte>, width: nat)
    requires width == 4 || width == 8
    ensures |s| >= width ==> FromLittleEndian(s[..width]) < (if width == 4 then U32 else U64)
  {
    Widths();
    if |s| >= width {
      FromLittleEndianBelow(s[..width]);
    }
  }

  /** The loop over a packed array: as long as there are bytes and room; bytes left over are an error. */
  function DecPacked(f: Field, vs: seq<Value>, s: seq<byte>): (r: Option<seq<Value>>)
    requires FieldCodable(f) && Packable(f.l) && forall i :: 0 <= i < |vs| ==> Typed(f, vs[i])
    ensures r.Some? ==> forall i :: 0 <= i < |r.value| ==> Typed(f, r.value[i])
    decreases f, 1, |s|
  {
    if s == [] then Some(vs)
    else if |vs| >= f.arraySize then None
    else
      InitValueTyped(f);
      match DecItem(f, InitValue(f), s)
      case None => None
      case Some((v, rest)) => DecPacked(f, vs + [v], rest)
  }

  /** A member set: the tag field of its union now says so, and no other member is there. */
  function SetMember(fs: seq<Field>, ms: seq<Slot>, k: nat, v: Value): (r: seq<Slot>)
    requires |fs| == |ms| && k < |fs|
    ensures |r| == |ms|
  {
    seq(|ms|, i requires 0 <= i < |ms| =>
      if i == k then Choice(Some(v)) else if Share(fs, i, k) then Choice(None) else ms[i])
  }

  /** An array field: packed, where the wire type says so and the items allow it, or one more item. */
  function DecArray(f: Field, vs: seq<Value>, wt: WireType, s: seq<byte>): (r: Option<(seq<Value>, seq<byte>)>)
    requires FieldCodable(f) && forall i :: 0 <= i < |vs| ==> Typed(f, vs[i])
    ensures r.Some? ==> |r.value.1| < |s| && forall i :: 0 <= i < |r.value.0| ==> Typed(f, r.value.0[i])
    decreases f, 2, 0
  {
    if wt.WtString? && Packable(f.l) then
      (match DecPrefixed(s)
       case None => None
       case Some((body, rest)) =>
         var items := DecPacked(f, vs, body);
         if items.None? then None else Some((items.value, rest)))
    else if |vs| >= f.arraySize then None
    else
      InitValueTyped(f);
      match DecItem(f, InitValue(f), s)
      case None => None
      case Some((v, rest)) => Some((vs + [v], rest))
  }

  type Fields = Option<(seq<Slot>, seq<byte>)>

  /** `decode_static_field` on field `k`. Only arrays look at the wire type. */
  function DecField(fs: seq<Field>, ms: seq<Slot>, k: nat, wt: WireType, s: seq<byte>): (r: Fields)
    requires Codable(fs) && AllTyped(fs, ms) && k < |fs|
    ensures r.Some? ==> AllTyped(fs, r.value.0) && |r.value.1| < |s|
    decreases fs[k], 3, 0
  {
    var f := fs[k];
    assert FieldCodable(f) && SlotTyped(f, ms[k]);
    InitValueTyped(f);
    hide Codable, FieldCodable, Exclusive, InitValue;
    match f.h
    case Repeated =>
      (match DecArray(f, ms[k].vs, wt, s)
       case None => None
       case Some((vs, rest)) => PutTyped(fs, ms, k, Many(vs)); Some((ms[k := Many(vs)], rest)))
    case Oneof =>
      (match DecItem(f, if f.l.Submessage? || ms[k].member.None? then InitValue(f) else ms[k].member.value, s)
       case None => None
       case Some((v, rest)) => MemberTyped(fs, ms, k, v); Some((SetMember(fs, ms, k, v), rest)))
    case _ =>
      (match DecItem(f, ms[k].v, s)
       case None => None
       case Some((v, rest)) =>
         var slot := if f.h.Optional? && f.sizeOffset != 0 then Maybe(true, v) else One(v);
         PutTyped(fs, ms, k, slot);
         Some((ms[k := slot], rest)))
  }

  lemma PutTyped(fs: seq<Field>, ms: seq<Slot>, k: nat, s: Slot)
    requires AllTyped(fs, ms) && k < |fs| && !fs[k].h.Oneof? && SlotTyped(fs[k], s)
    ensures AllTyped(fs, ms[k := s])
  {
  }

  lemma MemberTyped(fs: seq<Field>, ms: seq<Slot>, k: nat, v: Value)
    requires AllTyped(fs, ms) && k < |fs| && fs[k].h.Oneof? && Typed(fs[k], v)
    ensures AllTyped(fs, SetMember(fs, ms, k, v))
  {
  }

  /** The position `pb_field_iter_find` stops at. */
  function Lookup(fs: seq<Field>, tag: nat, k: nat := 0): (r: Option<nat>)
    requires k <= |fs|
    ensures r.Some? ==> k <= r.value < |fs| && Matches(fs[r.value], tag)
    ensures r.None? ==> forall j :: k <= j < |fs| ==> !Matches(fs[j], tag)
    decreases |fs| - k
  {
    if k == |fs| then None else if Matches(fs[k], tag) then Some(k) else Lookup(fs, tag, k + 1)
  }

  /** Where the loop over fields is: the message so far, the required fields seen, and whether a zero key ended it. */
  datatype Progress = Progress(ms: seq<Slot>, seen: set<nat>, stopped: bool)

  function See(fs: seq<Field>, k: nat, seen: set<nat>): set<nat>
    requires k < |fs|
  {
    if fs[k].h.Required? && RequiredBefore(fs, k) < MAX_REQUIRED then seen + {RequiredBefore(fs, k)} else seen
  }

  /** The loop of `pb_decode_noinit`. A field number that no field has is skipped; the terminator of an empty message
      type answers to number zero, and cannot be decoded. */
  function DecLoop(fs: seq<Field>, ms: seq<Slot>, seen: set<nat>, s: seq<byte>): (r: Option<Progress>)
    requires Codable(fs) && AllTyped(fs, ms)
    ensures r.Some? ==> AllTyped(fs, r.value.ms)
    decreases fs, 4, |s|
  {
    if s == [] then Some(Progress(ms, seen, false))
    else
      match DecKey(s)
      case None => None
      case Some(Stop(_)) => Some(Progress(ms, seen, true))
      case Some(Begin(tag, wt, rest)) =>
        if fs == [] && tag == 0 then None
        else
          match Lookup(fs, tag)
          case None => (match Skip(wt, rest) case None => None case Some(t) => DecLoop(fs, ms, seen, t))
          case Some(k) =>
            (match DecField(fs, ms, k, wt, rest)
             case None => None
             case Some((next, t)) => DecLoop(fs, next, See(fs, k, seen), t))
  }

  /** `pb_decode_noinit`. */
  function DecMessage(fs: seq<Field>, ms: seq<Slot>, s: seq<byte>): (r: Option<seq<Slot>>)
    requires Codable(fs) && AllTyped(fs, ms)
    ensures r.Some? ==> AllTyped(fs, r.value)
    decreases fs, 5, 0
  {
    match DecLoop(fs, ms, {}, s)
    case None => None
    case Some(p) => if AllSeen(fs, p.seen) then Some(p.ms) else None
  }

  /** `pb_decode`. */
  function Decode(fs: seq<Field>, s: seq<byte>): Option<seq<Slot>>
    requires Codable(fs)
  {
    DefaultsTyped(fs);
    DecMessage(fs, Defaults(fs), s)
  }
}
