/** The wire format as the protocol describes it (Protocol Buffers encoding, "Message Structure"), apart from the
    encoder and the decoder: a message is a row of records, each with a field number, one of four kinds and a payload
    whose length its kind tells. What pb_encode.c writes are these records, and pb_decode.c steps over each of them. */
module PbWire {
  import opened Bits
  import opened Wrappers
  import opened PbValue
  import opened PbField
  import opened PbVarint
  import opened PbMessage
  import opened PbEncode
  import opened PbDecode
  import opened PbMerge
  import opened PbRoundTrip

  datatype Record =
    | Varied(tag: nat, n: nat)
    | Eight(tag: nat, n: nat)
    | Piece(tag: nat, bytes: seq<byte>)
    | Four(tag: nat, n: nat)

  /** The kinds have the numbers 0, 1, 2 and 5. */
  function Kind(r: Record): nat {
    match r
    case Varied(_, _) => 0
    case Eight(_, _) => 1
    case Piece(_, _) => 2
    case Four(_, _) => 5
  }

  /** A varint, eight bytes, a length and that many bytes, or four bytes. The encoder takes the length in 64 bits. */
  function Payload(r: Record): seq<byte> {
    match r
    case Varied(_, n) => Base128(n)
    case Eight(_, n) => LittleEndian(n, 8)
    case Piece(_, bytes) => Base128(|bytes| % U64) + bytes
    case Four(_, n) => LittleEndian(n, 4)
  }

  function Bytes(r: Record): seq<byte> {
    Base128(8 * r.tag + Kind(r)) + Payload(r)
  }

  function AllBytes(rs: seq<Record>): seq<byte> {
    if rs == [] then [] else Bytes(rs[0]) + AllBytes(rs[1..])
  }

  /** Field numbers have 29 bits and lengths 32. */
  ghost predicate Sound(r: Record) {
    && 0 < r.tag < 0x2000_0000
    && match r
       case Varied(_, n) => n < U64
       case Eight(_, n) => n < U64
       case Piece(_, bytes) => |bytes| < U32
       case Four(_, n) => n < U32
  }

  lemma {:induction false} AllBytesConcat(a: seq<Record>, b: seq<Record>)
    ensures AllBytes(a + b) == AllBytes(a) + AllBytes(b)
    decreases |a|
  {
    hide Bytes;
    if a == [] {
      assert a + b == b;
    } else {
      AllBytesConcat(a[1..], b);
      assert (a + b)[1..] == a[1..] + b;
      assert Bytes(a[0]) + (AllBytes(a[1..]) + AllBytes(b)) == (Bytes(a[0]) + AllBytes(a[1..])) + AllBytes(b);
    }
  }

  // Stepping over records -----------------------------------------------------------------------------------

  lemma {:induction false} SkipsVarint(s: seq<byte>, rest: seq<byte>)
    requires IsVarint(s)
    ensures SkipVarint(s + rest) == Some(rest)
    decreases |s|
  {
    assert (s + rest)[1..] == s[1..] + rest;
    if s[0] >= 128 {
      SkipsVarint(s[1..], rest);
    } else {
      assert s[1..] + rest == rest;
    }
  }

  lemma Drops(s: seq<byte>, rest: seq<byte>)
    ensures Drop(s + rest, |s|) == Some(rest)
  {
    assert (s + rest)[|s|..] == rest;
  }

  /** `pb_skip_field` takes from the front exactly the payload that the kind announces, whatever follows; with less
      than all of it there, it fails. */
  lemma SkipsPayload(r: Record, rest: seq<byte>)
    requires Sound(r)
    ensures Skip(WireFrom(Kind(r)), Payload(r) + rest) == Some(rest)
    ensures forall part: seq<byte> :: part <= Payload(r) && part != Payload(r) ==>
              Skip(WireFrom(Kind(r)), part) == None
  {
    hide Base128, LittleEndian, Dec32;
    SkipsWhole(r, rest);
    forall part: seq<byte> | part <= Payload(r) && part != Payload(r)
      ensures Skip(WireFrom(Kind(r)), part) == None
    {
      SkipsWhole(r, []);
      var left := Payload(r)[|part|..];
      assert part + left == Payload(r) == Payload(r) + [];
      if Skip(WireFrom(Kind(r)), part).Some? {
        SkipLocal(WireFrom(Kind(r)), part, left);
      }
    }
  }

  lemma SkipsWhole(r: Record, rest: seq<byte>)
    requires Sound(r)
    ensures Skip(WireFrom(Kind(r)), Payload(r) + rest) == Some(rest)
  {
    hide Base128, LittleEndian, Dec32, Drop;
    match r
    case Varied(_, n) =>
      Base128Means(n);
      SkipsVarint(Base128(n), rest);
    case Eight(_, n) => Drops(LittleEndian(n, 8), rest);
    case Four(_, n) => Drops(LittleEndian(n, 4), rest);
    case Piece(_, bytes) =>
      SmallModulo(|bytes|, U64);
      PrefixBack(bytes, rest);
      Drops(bytes, rest);
  }

  /** The other kinds of key cannot be stepped over. */
  lemma NoOtherKind(n: nat, s: seq<byte>)
    ensures n !in {0, 1, 2, 5} ==> Skip(WireFrom(n), s) == None
  {
  }

  lemma KeyRead(r: Record, rest: seq<byte>)
    requires Sound(r)
    ensures DecKey(Bytes(r) + rest) == Some(Begin(r.tag, WireFrom(Kind(r)), Payload(r) + rest))
    ensures Bytes(r) + rest != []
  {
    hide Base128, Dec32;
    var key := 8 * r.tag + Kind(r);
    Varint32RoundTrip(key, Payload(r) + rest);
    assert Bytes(r) + rest == Base128(key) + (Payload(r) + rest);
  }

  /** A record with a number that no field has, put between any two fields, leaves the result as it is. */
  lemma UnknownRecordIgnored(fs: seq<Field>, ms: seq<Slot>, a: seq<byte>, r: Record, b: seq<byte>)
    requires Codable(fs) && AllTyped(fs, ms) && Sound(r)
    requires forall k :: 0 <= k < |fs| ==> fs[k].tag != r.tag
    requires DecLoop(fs, ms, {}, a).Some? && !DecLoop(fs, ms, {}, a).value.stopped
    ensures Unknown(fs, Bytes(r))
    ensures DecMessage(fs, ms, a + (Bytes(r) + b)) == DecMessage(fs, ms, a + b)
  {
    hide Codable, AllTyped, DecLoop, DecMessage, DecKey, Skip, Payload, Sound;
    KeyRead(r, []);
    SkipsPayload(r, []);
    assert Bytes(r) + [] == Bytes(r) && Payload(r) + [] == Payload(r);
    assert r.tag != 0 by {
      Numbered(r);
    }
    assert Lookup(fs, r.tag).None?;
    UnknownIgnored(fs, ms, a, Bytes(r), b);
  }

  lemma Numbered(r: Record)
    requires Sound(r)
    ensures r.tag != 0
  {
  }

  /** A key of zero ends the message. */
  lemma ZeroKeyEnds(fs: seq<Field>, ms: seq<Slot>, a: seq<byte>, b: seq<byte>)
    requires Codable(fs) && AllTyped(fs, ms)
    requires DecLoop(fs, ms, {}, a).Some? && !DecLoop(fs, ms, {}, a).value.stopped
    ensures var p := DecLoop(fs, ms, {}, a).value;
            DecLoop(fs, ms, {}, a + ([0] + b)) == Some(Progress(p.ms, p.seen, true))
  {
    hide Codable, AllTyped, Dec32From;
    LoopSplits(fs, ms, {}, a, [0] + b);
    assert Dec32([0] + b) == Some((0, b)) by {
      assert ([0] + b)[1..] == b;
    }
  }

  // What an item takes ----------------------------------------------------------------------------------------

  /** The number that the word `n` stands for: in two's complement of 32 or 64 bits, as it is, or in zigzag. */
  function Meaning(f: Field, n: nat): int {
    match f.l
    case Varint =>
      if f.dataSize == 8 then (if n < 0x8000_0000_0000_0000 then n else n - 0x1_0000_0000_0000_0000)
      else if n % 0x1_0000_0000 < 0x8000_0000 then n % 0x1_0000_0000 else n % 0x1_0000_0000 - 0x1_0000_0000
    case SVarint => if n % 2 == 0 then n / 2 else -((n + 1) / 2)
    case _ => n
  }

  /** The smallest and the largest number of so many bytes, with a sign or without. */
  predicate InRange(n: int, size: nat, signed: bool) {
    match size
    case 1 => if signed then -0x80 <= n < 0x80 else 0 <= n < 0x100
    case 2 => if signed then -0x8000 <= n < 0x8000 else 0 <= n < 0x1_0000
    case 4 => if signed then -0x8000_0000 <= n < 0x8000_0000 else 0 <= n < 0x1_0000_0000
    case _ =>
      if signed then -0x8000_0000_0000_0000 <= n < 0x8000_0000_0000_0000 else 0 <= n < 0x1_0000_0000_0000_0000
  }

  lemma MeaningIs(f: Field, w: nat)
    requires w < U64
    ensures f.l.Varint? && f.dataSize == 8 ==> Signed(w, U64) == Meaning(f, w)
    ensures f.l.Varint? && f.dataSize != 8 ==> Signed(w, U32) == Meaning(f, w)
    ensures f.l.SVarint? ==> UnZigZag(w) == Meaning(f, w)
    ensures f.l.UVarint? ==> w == Meaning(f, w)
  {
  }

  lemma RangeIs(n: int, size: nat)
    requires Modulus(size) != 0
    ensures InSigned(n, size) == InRange(n, size, true) && InUnsigned(n, size) == InRange(n, size, false)
  {
  }

  /** A varint of up to ten bytes, canonical or not, is taken exactly when the number it stands for is in the range of
      the field's memory. */
  lemma NumberTaken(f: Field, s: seq<byte>, rest: seq<byte>)
    requires FieldCodable(f) && (f.l.Varint? || f.l.UVarint? || f.l.SVarint?) && IsVarint(s)
    ensures DecNumber(f, s + rest) ==
            if |s| <= 10 && InRange(Meaning(f, FromGroups(s) % U64), f.dataSize, !f.l.UVarint?)
            then Some((Number(Meaning(f, FromGroups(s) % U64)), rest)) else None
  {
    hide Dec64, FromGroups, IsVarint, Meaning, InRange, Signed, UnZigZag, InSigned, InUnsigned, Modulus;
    Varint64Exactly(s, rest);
    var w := FromGroups(s) % U64;
    MeaningIs(f, w);
    RangeIs(Meaning(f, w), f.dataSize);
  }

  /** Bytes are taken exactly when they have room behind their size, strings when they have room before a terminator;
      they end at their first zero. A field of fixed length takes that length or none. */
  lemma BlobTaken(f: Field, s: seq<byte>, rest: seq<byte>)
    requires FieldCodable(f) && |s| < U32
    ensures f.l.Bytes? ==>
              DecBlob(f, Prefixed(s) + rest) == if 4 + |s| <= f.dataSize then Some((Blob(s), rest)) else None
    ensures f.l.FixedLengthBytes? && s != [] ==>
              DecBlob(f, Prefixed(s) + rest) == if |s| == f.dataSize then Some((Blob(s), rest)) else None
    ensures f.l.FixedLengthBytes? && s == [] ==>
              DecBlob(f, Prefixed(s) + rest) == Some((Blob(seq(f.dataSize, _ => 0)), rest))
    ensures f.l.String? ==>
              DecBlob(f, Prefixed(s) + rest) == if |s| + 1 <= f.dataSize then Some((Blob(UpToZero(s)), rest)) else None
    ensures var t := UpToZero(s); t <= s && (|t| < |s| ==> s[|t|] == 0) && 0 !in t
  {
    hide Dec32, Prefixed, UpToZero;
    PrefixBack(s, rest);
    assert (s + rest)[..|s|] == s && (s + rest)[|s|..] == rest;
    ZeroEnds(s);
  }

  lemma {:induction false} ZeroEnds(s: seq<byte>)
    ensures var t := UpToZero(s); t <= s && (|t| < |s| ==> s[|t|] == 0) && 0 !in t
  {
    if s != [] && s[0] != 0 {
      ZeroEnds(s[1..]);
      assert UpToZero(s)[1..] == UpToZero(s[1..]);
      assert s == [s[0]] + s[1..];
    }
  }

  // Records are told apart -----------------------------------------------------------------------------------

  lemma SamePayload(r: Record, s: seq<byte>, q: Record, t: seq<byte>)
    requires Sound(r) && Sound(q) && Kind(r) == Kind(q) && r.tag == q.tag && Payload(r) + s == Payload(q) + t
    ensures r == q && s == t
  {
    hide Base128, Dec64, Dec32, LittleEndian, DecFixed, DecPrefixed;
    SmallLength(r);
    SmallLength(q);
    match r
    case Varied(_, n) =>
      Varint64RoundTrip(n, s);
      Varint64RoundTrip(q.n, t);
    case Eight(_, n) =>
      FixedBack(n, 8, s);
      FixedBack(q.n, 8, t);
    case Four(_, n) =>
      FixedBack(n, 4, s);
      FixedBack(q.n, 4, t);
    case Piece(_, bytes) =>
      PrefixBack(bytes, s);
      PrefixBack(q.bytes, t);
  }

  lemma SmallLength(r: Record)
    requires Sound(r)
    ensures r.Piece? ==> Payload(r) == Prefixed(r.bytes)
  {
  }

  /** A row of records is one row only: no bytes can be read in two ways. */
  lemma {:induction false} RecordsUnique(a: seq<Record>, b: seq<Record>)
    requires (forall i :: 0 <= i < |a| ==> Sound(a[i])) && (forall i :: 0 <= i < |b| ==> Sound(b[i]))
    requires AllBytes(a) == AllBytes(b)
    ensures a == b
    decreases |a|
  {
    hide Sound, Bytes, Payload, DecKey, Kind;
    if a != [] {
      KeyRead(a[0], AllBytes(a[1..]));
    }
    if b != [] {
      KeyRead(b[0], AllBytes(b[1..]));
    }
    if a != [] && b != [] {
      SameKind(a[0], b[0]);
      SamePayload(a[0], AllBytes(a[1..]), b[0], AllBytes(b[1..]));
      RecordsUnique(a[1..], b[1..]);
    }
  }

  lemma SameKind(r: Record, q: Record)
    requires WireFrom(Kind(r)) == WireFrom(Kind(q))
    ensures Kind(r) == Kind(q)
  {
  }

  // What is encoded -------------------------------------------------------------------------------------------

  type Row = Option<seq<Record>>

  /** The record of one item, and no other: a number in the form of its type, or a piece of bytes. */
  ghost function ItemRecord(f: Field, v: Value): Option<Record>
    requires Typed(f, v)
    decreases f, 0
  {
    match f.l
    case Varint => if f.dataSize in {1, 2, 4, 8} then Some(Varied(f.tag, v.n % U64)) else None
    case UVarint => if f.dataSize in {1, 2, 4, 8} then Some(Varied(f.tag, v.n)) else None
    case SVarint =>
      if f.dataSize in {1, 2, 4, 8} then Some(Varied(f.tag, if v.n < 0 then -2 * v.n - 1 else 2 * v.n)) else None
    case Fixed32 => Some(Four(f.tag, v.n))
    case Fixed64 => Some(Eight(f.tag, v.n))
    case Bytes => if |v.bytes| + 4 <= f.dataSize then Some(Piece(f.tag, v.bytes)) else None
    case String => Some(Piece(f.tag, v.bytes))
    case FixedLengthBytes => Some(Piece(f.tag, v.bytes))
    case Submessage(fields) =>
      (match Records(fields, v.slots) case None => None case Some(rs) => Some(Piece(f.tag, AllBytes(rs))))
    case Extension => None
  }

  ghost function ItemRecords(f: Field, vs: seq<Value>): Row
    requires forall i :: 0 <= i < |vs| ==> Typed(f, vs[i])
    decreases f, 1, |vs|
  {
    if vs == [] then Some([])
    else
      match (ItemRecord(f, vs[0]), ItemRecords(f, vs[1..]))
      case (Some(r), Some(rs)) => Some([r] + rs)
      case _ => None
  }

  /** Payloads one after the other, as a packed array has them. */
  function Payloads(rs: seq<Record>): seq<byte> {
    if rs == [] then [] else Payload(rs[0]) + Payloads(rs[1..])
  }

  /** Arrays of numbers are one piece; other arrays are one record for each item. */
  ghost function ArrayRecords(f: Field, vs: seq<Value>): Row
    requires forall i :: 0 <= i < |vs| ==> Typed(f, vs[i])
    decreases f, 2, 0
  {
    if vs == [] then Some([])
    else if |vs| > f.arraySize then None
    else
      match ItemRecords(f, vs)
      case None => None
      case Some(rs) =>
        if f.l.Submessage? || f.l.Bytes? || f.l.String? || f.l.FixedLengthBytes? then Some(rs)
        else Some([Piece(f.tag, Payloads(rs))])
  }

  /** Zero, no bytes, or a message of which nothing is written. */
  ghost predicate Empty(f: Field, v: Value)
    requires Typed(f, v)
    decreases f, 3, 0
  {
    match v
    case Number(n) => n == 0
    case Blob(bytes) => bytes == []
    case Message(slots) => f.l.Submessage? && Records(f.l.fields, slots) == Some([])
  }

  /** The records of one field: none where it is absent, or empty and without a flag to tell. */
  ghost function FieldRecords(f: Field, s: Slot): Row
    requires SlotTyped(f, s)
    decreases f, 4, 0
  {
    match s
    case One(v) => if f.h.Optional? && Empty(f, v) then Some([]) else ItemRecords(f, [v])
    case Maybe(has, v) => if has then ItemRecords(f, [v]) else Some([])
    case Many(vs) => ArrayRecords(f, vs)
    case Choice(None) => Some([])
    case Choice(Some(v)) => ItemRecords(f, [v])
  }

  ghost function RecordsFrom(fs: seq<Field>, ms: seq<Slot>, k: nat): Row
    requires AllTyped(fs, ms) && k <= |fs|
    decreases fs, 5, |fs| - k
  {
    if k == |fs| then Some([])
    else
      match (FieldRecords(fs[k], ms[k]), RecordsFrom(fs, ms, k + 1))
      case (Some(rs), Some(more)) => Some(rs + more)
      case _ => None
  }

  /** The records of a message, field after field. */
  ghost function Records(fs: seq<Field>, ms: seq<Slot>): Row
    requires AllTyped(fs, ms)
    decreases fs, 6, 0
  {
    RecordsFrom(fs, ms, 0)
  }

  function Written(row: Row): Output {
    if row.None? then None else Some(AllBytes(row.value))
  }

  lemma OneRecord(f: Field, v: Value)
    requires Typed(f, v)
    ensures ItemRecords(f, [v]) == (match ItemRecord(f, v) case None => None case Some(r) => Some([r]))
  {
    assert [v][1..] == [];
    assert ItemRecords(f, [v][1..]) == Some([]);
    if ItemRecord(f, v).Some? {
      assert [ItemRecord(f, v).value] + [] == [ItemRecord(f, v).value];
    }
  }

  lemma OneWritten(r: Record)
    ensures AllBytes([r]) == Bytes(r)
  {
    assert AllBytes([r]) == Bytes(r) + AllBytes([]);
  }

  /** Each item is encoded as the payload of its record. */
  lemma {:induction false} ItemWritten(f: Field, v: Value)
    requires Typed(f, v)
    ensures match ItemRecord(f, v)
            case None => EncItem(f, v) == None
            case Some(r) => EncItem(f, v) == Some(Payload(r)) && EncTagged(f, v) == Some(Bytes(r)) && r.tag == f.tag
    decreases f, 0, 0
  {
    hide Base128, LittleEndian, AllTyped;
    match f.l
    case Submessage(fields) => MessageWritten(fields, v.slots);
    case _ =>
  }

  lemma {:induction false} ItemsWritten(f: Field, vs: seq<Value>)
    requires forall i :: 0 <= i < |vs| ==> Typed(f, vs[i])
    ensures match ItemRecords(f, vs)
            case None => EncItems(f, vs) == None && EncEach(f, vs) == None
            case Some(rs) =>
              |rs| == |vs| && EncItems(f, vs) == Some(Payloads(rs)) && EncEach(f, vs) == Some(AllBytes(rs))
    decreases f, 1, |vs|
  {
    hide ItemRecord, EncItem, EncTagged, Typed, Bytes, Payload;
    if vs != [] {
      ItemWritten(f, vs[0]);
      ItemsWritten(f, vs[1..]);
      NoItem(f, vs[0]);
      if ItemRecord(f, vs[0]).Some? && ItemRecords(f, vs[1..]).Some? {
        var r, rs := ItemRecord(f, vs[0]).value, ItemRecords(f, vs[1..]).value;
        assert ([r] + rs)[1..] == rs;
      }
    }
  }

  lemma NoItem(f: Field, v: Value)
    requires Typed(f, v)
    ensures EncItem(f, v).None? <==> EncTagged(f, v).None?
  {
    hide EncItem, Typed;
  }

  lemma ArrayWritten(f: Field, vs: seq<Value>)
    requires forall i :: 0 <= i < |vs| ==> Typed(f, vs[i])
    ensures EncArray(f, vs) == Written(ArrayRecords(f, vs))
    ensures ArrayRecords(f, vs) == Some([]) <==> vs == []
    decreases f, 2, 0
  {
    hide Typed, Base128, EncItems, EncEach, ItemRecords, Payloads;
    ItemsWritten(f, vs);
    if vs != [] && |vs| <= f.arraySize && ItemRecords(f, vs).Some? {
      NoExtension(f, vs[0]);
      OneWritten(Piece(f.tag, Payloads(ItemRecords(f, vs).value)));
    }
  }

  lemma NoExtension(f: Field, v: Value)
    requires Typed(f, v)
    ensures !f.l.Extension?
  {
  }

  /** A singular field without a flag is left out exactly where it is zero, has no bytes, or is a message of which
      nothing is written. */
  lemma EmptyIsDefault(f: Field, v: Value)
    requires Typed(f, v)
    ensures IsDefaultValue(f, v) <==> Empty(f, v)
    decreases f, 1, 0
  {
    hide AllTyped, AllDefault, Records;
    if f.l.Submessage? {
      MessageWritten(f.l.fields, v.slots);
    }
  }

  lemma FieldWritten(f: Field, s: Slot)
    requires SlotTyped(f, s)
    ensures EncField(f, s) == Written(FieldRecords(f, s))
    ensures IsDefault(f, s) <==> FieldRecords(f, s) == Some([])
    decreases f, 3, 0
  {
    hide Typed, EncTagged, EncArray, IsDefaultValue, Empty, ItemRecords, ItemRecord, ArrayRecords, Bytes, AllBytes;
    match s
    case One(v) => NothingWritten(); EmptyIsDefault(f, v); SingleWritten(f, v);
    case Maybe(has, v) => NothingWritten(); SingleWritten(f, v);
    case Many(vs) => ArrayWritten(f, vs);
    case Choice(None) => NothingWritten();
    case Choice(Some(v)) => SingleWritten(f, v);
  }

  lemma NothingWritten()
    ensures Written(Some([])) == Some([])
  {
  }

  lemma SingleWritten(f: Field, v: Value)
    requires Typed(f, v)
    ensures Written(ItemRecords(f, [v])) == EncTagged(f, v) && ItemRecords(f, [v]) != Some([])
    decreases f, 2, 0
  {
    hide Typed, EncItem, ItemRecord, Payload, Bytes, ItemRecords;
    OneRecord(f, v);
    ItemWritten(f, v);
    NoItem(f, v);
    if ItemRecord(f, v).Some? {
      OneWritten(ItemRecord(f, v).value);
    }
  }

  lemma {:induction false} FromWritten(fs: seq<Field>, ms: seq<Slot>, k: nat)
    requires AllTyped(fs, ms) && k <= |fs|
    ensures EncFrom(fs, ms, k) == Written(RecordsFrom(fs, ms, k))
    ensures (forall i :: k <= i < |fs| ==> IsDefault(fs[i], ms[i])) <==> RecordsFrom(fs, ms, k) == Some([])
    decreases fs, 4, |fs| - k
  {
    hide SlotTyped, EncField, IsDefault, FieldRecords, Exclusive;
    if k < |fs| {
      FieldWritten(fs[k], ms[k]);
      FromWritten(fs, ms, k + 1);
      if FieldRecords(fs[k], ms[k]).Some? && RecordsFrom(fs, ms, k + 1).Some? {
        AllBytesConcat(FieldRecords(fs[k], ms[k]).value, RecordsFrom(fs, ms, k + 1).value);
      }
    }
  }

  /** What `pb_encode` writes is the message's records in order, and it fails exactly where a record cannot be made:
      each field's number and kind, the form of each number, which arrays are one piece, and what is left out, are as
      the protocol says. */
  lemma {:induction false} MessageWritten(fs: seq<Field>, ms: seq<Slot>)
    requires AllTyped(fs, ms)
    ensures EncMessage(fs, ms) == Written(Records(fs, ms))
    ensures AllDefault(fs, ms) <==> Records(fs, ms) == Some([])
    decreases fs, 5, 0
  {
    hide AllTyped, EncFrom, RecordsFrom, IsDefault;
    FromWritten(fs, ms, 0);
  }

  lemma ItemSound(f: Field, v: Value)
    requires FieldCodable(f) && Typed(f, v) && EncItem(f, v).Some? && |EncItem(f, v).value| < U32
    ensures ItemRecord(f, v).Some? && Sound(ItemRecord(f, v).value)
    ensures WireFrom(Kind(ItemRecord(f, v).value)) == WireOf(f.l)
  {
    hide AllTyped, Codable, Base128, LittleEndian, EncMessage, Records, AllBytes;
    ItemWritten(f, v);
  }

  /** What is encoded can be stepped over by a reader that does not know the field, by the wire type alone. */
  lemma EncodedIsSkipped(f: Field, v: Value, fs: seq<Field>, rest: seq<byte>)
    requires FieldCodable(f) && Typed(f, v) && EncItem(f, v).Some? && |EncItem(f, v).value| < U32
    ensures Skip(WireOf(f.l), EncItem(f, v).value + rest) == Some(rest)
    ensures (forall k :: 0 <= k < |fs| ==> fs[k].tag != f.tag) ==> Unknown(fs, EncTagged(f, v).value)
  {
    hide Typed, EncItem, EncTagged, FieldCodable, Skip, WireOf, Payload, Sound, Lookup, DecKey;
    ItemSound(f, v);
    ItemWritten(f, v);
    var r := ItemRecord(f, v).value;
    SkipsPayload(r, rest);
    SkipsPayload(r, []);
    KeyRead(r, []);
    Numbered(r);
    assert Bytes(r) + [] == Bytes(r) && Payload(r) + [] == Payload(r);
  }
}
