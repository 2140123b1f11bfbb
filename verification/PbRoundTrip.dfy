/** Decoding what was encoded gives the message back, and into memory that holds a message already, merges the two. */
module PbRoundTrip {
  import opened Bits
  import opened Wrappers
  import opened PbValue
  import opened PbField
  import opened PbVarint
  import opened PbMessage
  import opened PbEncode
  import opened PbRequired
  import opened PbDecode
  import opened PbMerge
  import opened PbMergeLaw

  // Items -----------------------------------------------------------------------------------------------------

  lemma NumberBack(f: Field, v: Value, rest: seq<byte>)
    requires FieldCodable(f) && Typed(f, v) && (f.l.Varint? || f.l.UVarint? || f.l.SVarint?)
    ensures EncItem(f, v).Some? && DecNumber(f, EncItem(f, v).value + rest) == Some((v, rest))
  {
    hide Dec64, Base128, ZigZag, UnZigZag, Signed, Word;
    match f.l
    case Varint => {
      Varint64RoundTrip(Word(v.n), rest);
      WordRoundTrip(v.n);
    }
    case SVarint => {
      Varint64RoundTrip(ZigZag(v.n), rest);
      ZigZagRoundTrip(v.n, 0);
    }
    case UVarint => Varint64RoundTrip(v.n, rest);
  }

  lemma FixedBack(n: nat, width: nat, rest: seq<byte>)
    requires (width == 4 && n < U32) || (width == 8 && n < U64)
    ensures DecFixed(LittleEndian(n, width) + rest, width) == Some((Number(n), rest))
  {
    hide LittleEndian, FromLittleEndian, Pow2;
    Widths();
    LittleEndianRoundTrip(n, width);
    var s := LittleEndian(n, width) + rest;
    assert s[..width] == LittleEndian(n, width) && s[width..] == rest;
  }

  lemma PrefixBack(s: seq<byte>, rest: seq<byte>)
    requires |s| < U32
    ensures Dec32(Prefixed(s) + rest) == Some((|s|, s + rest))
    ensures DecPrefixed(Prefixed(s) + rest) == Some((s, rest))
  {
    hide Dec32, Base128;
    Varint32RoundTrip(|s|, s + rest);
    assert Prefixed(s) + rest == Base128(|s|) + (s + rest);
    assert (s + rest)[..|s|] == s && (s + rest)[|s|..] == rest;
  }

  lemma {:induction false} NoZeros(s: seq<byte>)
    requires forall i :: 0 <= i < |s| ==> s[i] != 0
    ensures UpToZero(s) == s
  {
    if s != [] {
      NoZeros(s[1..]);
    }
  }

  lemma BlobBack(f: Field, v: Value, rest: seq<byte>)
    requires FieldCodable(f) && Typed(f, v) && Terminated(f, v) && EncItem(f, v).Some?
    requires f.l.Bytes? || f.l.String? || f.l.FixedLengthBytes?
    ensures DecBlob(f, EncItem(f, v).value + rest) == Some((v, rest))
  {
    hide Dec32, Prefixed;
    PrefixBack(v.bytes, rest);
    var t := v.bytes + rest;
    assert t[..|v.bytes|] == v.bytes && t[|v.bytes|..] == rest;
    if f.l.String? {
      NoZeros(v.bytes);
    }
  }

  /** One item, decoded into what is there. */
  lemma {:induction false} ItemBack(f: Field, was: Value, v: Value, rest: seq<byte>)
    requires FieldCodable(f) && Typed(f, was) && Typed(f, v) && Terminated(f, v) && Room(f, was, v)
    requires EncItem(f, v).Some? && |EncItem(f, v).value| < U32
    ensures DecItem(f, was, EncItem(f, v).value + rest) == Some((Merged(f, was, v), rest))
    decreases f, 0, 0
  {
    hide DecNumber, DecFixed, DecBlob, DecPrefixed, Prefixed, Base128, LittleEndian, DecMessage, MergeAll, EncMessage;
    match f.l
    case Varint => NumberBack(f, v, rest);
    case UVarint => NumberBack(f, v, rest);
    case SVarint => NumberBack(f, v, rest);
    case Fixed32 => FixedBack(v.n, 4, rest);
    case Fixed64 => FixedBack(v.n, 8, rest);
    case Bytes => BlobBack(f, v, rest);
    case String => BlobBack(f, v, rest);
    case FixedLengthBytes => BlobBack(f, v, rest);
    case Submessage(fields) => {
      var e := EncMessage(fields, v.slots).value;
      ShorterThanPrefixed(e);
      PrefixBack(e, rest);
      MessageBack(fields, was.slots, v.slots);
    }
  }

  /** One item decoded into initialized memory, as for array items and union members. */
  lemma FreshBack(f: Field, v: Value, rest: seq<byte>)
    requires FieldCodable(f) && Typed(f, v) && Terminated(f, v)
    requires EncItem(f, v).Some? && |EncItem(f, v).value| < U32
    ensures Typed(f, InitValue(f))
    ensures DecItem(f, InitValue(f), EncItem(f, v).value + rest) == Some((Normal(f, v), rest))
    decreases f, 0, 1
  {
    hide EncItem, DecItem, Terminated, FieldCodable, Typed;
    FreshRoomItem(f, v);
    MergeIntoInit(f, v);
    ItemBack(f, InitValue(f), v, rest);
  }

  lemma ShorterThanPrefixed(s: seq<byte>)
    ensures |s| < |Prefixed(s)|
  {
  }

  // Fields ----------------------------------------------------------------------------------------------------

  lemma KeyBack(wt: WireType, tag: nat, rest: seq<byte>)
    requires 0 < tag < 0x2000_0000 && !wt.WtInvalid?
    ensures DecKey(Key(wt, tag) + rest) == Some(Begin(tag, wt, rest))
    ensures Key(wt, tag) + rest != []
  {
    hide Dec32, Base128;
    Varint32RoundTrip(8 * tag + WireNumber(wt), rest);
  }

  lemma LookupBack(fs: seq<Field>, k: nat)
    requires Codable(fs) && k < |fs|
    ensures Lookup(fs, fs[k].tag) == Some(k)
  {
    assert FieldCodable(fs[k]);
    assert Matches(fs[k], fs[k].tag);
    assert Lookup(fs, fs[k].tag).Some?;
  }

  /** One key and one field body take the loop one step on. */
  lemma LoopStep(fs: seq<Field>, ms: seq<Slot>, seen: set<nat>, k: nat, wt: WireType, body: seq<byte>, next: seq<Slot>)
    requires Codable(fs) && AllTyped(fs, ms) && k < |fs| && !wt.WtInvalid?
    requires DecField(fs, ms, k, wt, body) == Some((next, []))
    ensures AllTyped(fs, next)
    ensures DecLoop(fs, ms, seen, Key(wt, fs[k].tag) + body) == Some(Progress(next, See(fs, k, seen), false))
  {
    hide DecKey, DecField, Lookup, Key, AllTyped;
    assert FieldCodable(fs[k]);
    KeyBack(wt, fs[k].tag, body);
    LookupBack(fs, k);
    hide Codable;
    assert DecLoop(fs, next, See(fs, k, seen), []) == Some(Progress(next, See(fs, k, seen), false));
  }

  /** The items of a packed array are read back one after the other. */
  lemma {:induction false} PackedBack(f: Field, done: seq<Value>, vs: seq<Value>)
    requires FieldCodable(f) && Packable(f.l)
    requires (forall i :: 0 <= i < |vs| ==> Typed(f, vs[i])) && (forall i :: 0 <= i < |done| ==> Typed(f, done[i]))
    requires |done| + |vs| <= f.arraySize
    requires EncItems(f, vs).Some? && |EncItems(f, vs).value| < U32
    ensures DecPacked(f, done, EncItems(f, vs).value) == Some(done + vs)
    decreases f, 1, |vs|
  {
    hide EncItem, DecItem, Typed, FieldCodable, InitValue;
    if vs == [] {
      assert done + vs == done;
    } else {
      var rest := EncItems(f, vs[1..]).value;
      PackableTerminated(f, vs[0]);
      FreshBack(f, vs[0], rest);
      assert done + vs == (done + [vs[0]]) + vs[1..];
      PackedBack(f, done + [vs[0]], vs[1..]);
    }
  }

  lemma ItemNotEmpty(f: Field, v: Value)
    requires Typed(f, v)
    ensures EncItem(f, v).Some? ==> EncItem(f, v).value != []
  {
    hide Base128;
    if EncItem(f, v).Some? && f.l.Submessage? {
      ShorterThanPrefixed(EncMessage(f.l.fields, v.slots).value);
    }
  }

  /** A packed array with more items than there is room for is an error. */
  lemma {:induction false} PackedOverflows(f: Field, done: seq<Value>, vs: seq<Value>)
    requires FieldCodable(f) && Packable(f.l)
    requires (forall i :: 0 <= i < |vs| ==> Typed(f, vs[i])) && (forall i :: 0 <= i < |done| ==> Typed(f, done[i]))
    requires |done| <= f.arraySize < |done| + |vs|
    requires EncItems(f, vs).Some? && |EncItems(f, vs).value| < U32
    ensures DecPacked(f, done, EncItems(f, vs).value) == None
    decreases |vs|
  {
    hide EncItem, DecItem, Typed, FieldCodable, InitValue;
    ItemNotEmpty(f, vs[0]);
    if |done| < f.arraySize {
      var rest := EncItems(f, vs[1..]).value;
      PackableTerminated(f, vs[0]);
      FreshBack(f, vs[0], rest);
      PackedOverflows(f, done + [vs[0]], vs[1..]);
    }
  }

  lemma PackableTerminated(f: Field, v: Value)
    requires Packable(f.l) && Typed(f, v)
    ensures Terminated(f, v) && Normal(f, v) == v
  {
  }

  /** Field `i` when the first `k` fields have been merged in and the others are as they were. */
  function SlotAt(fs: seq<Field>, was: seq<Slot>, ms: seq<Slot>, k: nat, i: nat): Slot
    requires AllTyped(fs, was) && AllTyped(fs, ms) && k <= |fs| && i < |fs|
  {
    if Superseded(fs, ms, k, i) then Choice(None)
    else if i < k then MergedSlot(fs[i], was[i], ms[i])
    else was[i]
  }

  function Mixed(fs: seq<Field>, was: seq<Slot>, ms: seq<Slot>, k: nat): (r: seq<Slot>)
    requires AllTyped(fs, was) && AllTyped(fs, ms) && k <= |fs|
    ensures |r| == |fs|
  {
    seq(|fs|, i requires 0 <= i < |fs| => SlotAt(fs, was, ms, k, i))
  }

  lemma MixedEnds(fs: seq<Field>, was: seq<Slot>, ms: seq<Slot>)
    requires AllTyped(fs, was) && AllTyped(fs, ms)
    ensures Mixed(fs, was, ms, 0) == was && Mixed(fs, was, ms, |fs|) == MergeAll(fs, was, ms)
  {
    hide MergedSlot, SlotTyped, Exclusive;
  }

  /** What was there is there until field `k` is merged in, unless a member of its union has been. */
  lemma MixedHere(fs: seq<Field>, was: seq<Slot>, ms: seq<Slot>, k: nat)
    requires AllTyped(fs, was) && AllTyped(fs, ms) && k < |fs|
    ensures SlotTyped(fs[k], was[k]) && SlotTyped(fs[k], ms[k])
    ensures !fs[k].h.Oneof? ==> Mixed(fs, was, ms, k)[k] == was[k]
  {
    hide MergedSlot, Exclusive;
  }

  /** Another member of the union of `k` or `i` changes nothing where `k` is not one. */
  lemma SupersededNext(fs: seq<Field>, ms: seq<Slot>, k: nat, i: nat)
    requires AllTyped(fs, ms) && k < |fs| && i < |fs|
    ensures !(i != k && Share(fs, i, k) && ms[k].Choice? && ms[k].member.Some?) ==>
              (Superseded(fs, ms, k + 1, i) <==> Superseded(fs, ms, k, i))
    ensures i != k && Share(fs, i, k) && ms[k].Choice? && ms[k].member.Some? ==> Superseded(fs, ms, k + 1, i)
  {
    hide Share, AllTyped;
  }

  /** Merging in field `k`, where it is no member of a union, goes on to the next mixture. */
  lemma MixedNext(fs: seq<Field>, was: seq<Slot>, ms: seq<Slot>, k: nat)
    requires AllTyped(fs, was) && AllTyped(fs, ms) && k < |fs|
    requires SlotTyped(fs[k], was[k]) && SlotTyped(fs[k], ms[k])
    ensures !fs[k].h.Oneof? ==>
              Mixed(fs, was, ms, k)[k := MergedSlot(fs[k], was[k], ms[k])] == Mixed(fs, was, ms, k + 1)
    ensures MergedSlot(fs[k], was[k], ms[k]) == was[k] && (fs[k].h.Oneof? ==> ms[k].member.None?) ==>
              Mixed(fs, was, ms, k) == Mixed(fs, was, ms, k + 1)
  {
    hide MergedSlot, Exclusive, Superseded;
    var m, n := Mixed(fs, was, ms, k), Mixed(fs, was, ms, k + 1);
    if fs[k].h.Oneof? ==> ms[k].member.None? {
      forall i: nat | i < |fs|
        ensures i != k ==> m[i] == n[i]
        ensures Superseded(fs, ms, k + 1, i) <==> Superseded(fs, ms, k, i)
      {
        SupersededNext(fs, ms, k, i);
      }
      if !fs[k].h.Oneof? {
        NotSuperseded(fs, ms, k, k);
        assert m[k := MergedSlot(fs[k], was[k], ms[k])] == n;
      }
      if MergedSlot(fs[k], was[k], ms[k]) == was[k] {
        assert m == n;
      }
    }
  }

  lemma NotSuperseded(fs: seq<Field>, ms: seq<Slot>, k: nat, i: nat)
    requires |ms| == |fs| && k <= |fs| && i < |fs| && !fs[i].h.Oneof?
    ensures !Superseded(fs, ms, k, i)
  {
  }

  /** Setting a union member clears the others. */
  lemma MemberNext(fs: seq<Field>, was: seq<Slot>, ms: seq<Slot>, k: nat, v: Value)
    requires AllTyped(fs, was) && AllTyped(fs, ms) && k < |fs| && fs[k].h.Oneof? && Typed(fs[k], v)
    requires ms[k] == Choice(Some(v)) && SlotTyped(fs[k], was[k]) && SlotTyped(fs[k], ms[k])
    ensures SetMember(fs, Mixed(fs, was, ms, k), k, Normal(fs[k], v)) == Mixed(fs, was, ms, k + 1)
  {
    hide Normal, Typed, Exclusive, SlotTyped, Superseded, Share;
    var r := SetMember(fs, Mixed(fs, was, ms, k), k, Normal(fs[k], v));
    forall i: nat | i < |fs|
      ensures r[i] == Mixed(fs, was, ms, k + 1)[i]
    {
      SupersededNext(fs, ms, k, i);
      if i == k && Superseded(fs, ms, k, k) {
        OnlyMember(fs, ms, k);
      }
    }
  }

  lemma OnlyMember(fs: seq<Field>, ms: seq<Slot>, k: nat)
    requires AllTyped(fs, ms) && k < |fs| && fs[k].h.Oneof? && ms[k].Choice? && ms[k].member.Some?
    ensures !Superseded(fs, ms, k, k)
  {
    forall j: nat | j < k && Share(fs, k, j) && ms[j].Choice?
      ensures ms[j].member.None?
    {
      assert Share(fs, j, k);
    }
  }

  lemma MixedTyped(fs: seq<Field>, was: seq<Slot>, ms: seq<Slot>, k: nat)
    requires Codable(fs) && AllTyped(fs, was) && AllTyped(fs, ms) && k <= |fs|
    ensures AllTyped(fs, Mixed(fs, was, ms, k))
  {
    forall i | 0 <= i < |fs|
      ensures SlotTyped(fs[i], Mixed(fs, was, ms, k)[i])
    {
      SlotAtTyped(fs, was, ms, k, i);
    }
    MixedExclusive(fs, was, ms, k);
    hide SlotTyped, Exclusive, SlotAt;
  }

  lemma SlotAtTyped(fs: seq<Field>, was: seq<Slot>, ms: seq<Slot>, k: nat, i: nat)
    requires Codable(fs) && AllTyped(fs, was) && AllTyped(fs, ms) && k <= |fs| && i < |fs|
    ensures SlotTyped(fs[i], SlotAt(fs, was, ms, k, i))
    ensures fs[i].h.Oneof? ==>
              SlotAt(fs, was, ms, k, i).Choice?
              && (SlotAt(fs, was, ms, k, i).member.Some? ==>
                    !Superseded(fs, ms, k, i)
                        && ((i < k && ms[i].Choice? && ms[i].member.Some?) || SlotAt(fs, was, ms, k, i) == was[i]))
  {
    hide Exclusive, MergedSlot;
    assert FieldCodable(fs[i]) && SlotTyped(fs[i], was[i]) && SlotTyped(fs[i], ms[i]);
    MergedSlotTyped(fs[i], was[i], ms[i]);
    MergedMember(fs[i], was[i], ms[i]);
    if Superseded(fs, ms, k, i) {
      NotSupersededOneof(fs, ms, k, i);
    }
  }

  lemma NotSupersededOneof(fs: seq<Field>, ms: seq<Slot>, k: nat, i: nat)
    requires |ms| == |fs| && k <= |fs| && i < |fs| && Superseded(fs, ms, k, i)
    ensures fs[i].h.Oneof?
  {
  }

  lemma MergedMember(f: Field, was: Slot, s: Slot)
    requires SlotTyped(f, was) && SlotTyped(f, s)
    ensures f.h.Oneof? && s.member.None? ==> MergedSlot(f, was, s) == was
  {
  }

  lemma MixedExclusive(fs: seq<Field>, was: seq<Slot>, ms: seq<Slot>, k: nat)
    requires Codable(fs) && AllTyped(fs, was) && AllTyped(fs, ms) && k <= |fs|
    ensures Exclusive(fs, Mixed(fs, was, ms, k))
  {
    hide MergedSlot, Superseded, SlotTyped, SlotAt, Codable;
    var r := Mixed(fs, was, ms, k);
    forall i: nat, j: nat | i < j < |fs| && Share(fs, i, j) && r[i].Choice? && r[j].Choice?
      ensures r[i].member.None? || r[j].member.None?
    {
      SlotAtTyped(fs, was, ms, k, i);
      SlotAtTyped(fs, was, ms, k, j);
      assert Share(fs, j, i);
      if i < k && ms[i].Choice? && ms[i].member.Some? {
        SupersededBy(fs, ms, k, j, i);
      }
      if j < k && ms[j].Choice? && ms[j].member.Some? {
        SupersededBy(fs, ms, k, i, j);
      }
    }
  }

  /** An array that is not packed: one key for each item. Arrays of numbers are read in this form, too. */
  lemma {:induction false} EachBack(fs: seq<Field>, cur: seq<Slot>, seen: set<nat>, k: nat, vs: seq<Value>)
    requires Codable(fs) && AllTyped(fs, cur) && k < |fs| && fs[k].h.Repeated?
    requires forall i :: 0 <= i < |vs| ==> Typed(fs[k], vs[i]) && Terminated(fs[k], vs[i])
    requires cur[k].Many? && |cur[k].vs| + |vs| <= fs[k].arraySize
    requires EncEach(fs[k], vs).Some? && |EncEach(fs[k], vs).value| < U32
    ensures DecLoop(fs, cur, seen, EncEach(fs[k], vs).value) ==
            Some(Progress(cur[k := Many(cur[k].vs + Normals(fs[k], vs))], seen, false))
    decreases fs[k], 1, |vs|
  {
    hide EncItem, DecItem, Typed, InitValue, DecLoop, Key, Terminated, Exclusive, Normal;
    var f := fs[k];
    assert FieldCodable(f) && SlotTyped(f, cur[k]);
    if vs == [] {
      assert cur[k].vs + Normals(f, vs) == cur[k].vs;
      assert cur[k := Many(cur[k].vs)] == cur;
      LoopDone(fs, cur, seen);
    } else {
      var item, rest := EncItem(f, vs[0]).value, EncEach(f, vs[1..]).value;
      FreshBack(f, vs[0], []);
      assert item + [] == item;
      var next := cur[k := Many(cur[k].vs + [Normal(f, vs[0])])];
      assert DecField(fs, cur, k, WireOf(f.l), item) == Some((next, []));
      LoopStep(fs, cur, seen, k, WireOf(f.l), item, next);
      LoopSplits(fs, cur, seen, Key(WireOf(f.l), f.tag) + item, rest);
      EachBack(fs, next, seen, k, vs[1..]);
      assert Normals(f, vs) == [Normal(f, vs[0])] + Normals(f, vs[1..]);
      var all := Many(cur[k].vs + Normals(f, vs));
      assert next[k].vs + Normals(f, vs[1..]) == all.vs;
      assert next[k := all] == cur[k := all];
    }
  }

  lemma LoopDone(fs: seq<Field>, ms: seq<Slot>, seen: set<nat>)
    requires Codable(fs) && AllTyped(fs, ms)
    ensures DecLoop(fs, ms, seen, []) == Some(Progress(ms, seen, false))
  {
  }

  // Messages --------------------------------------------------------------------------------------------------

  /** A field that takes one key and one item. */
  lemma TaggedBack(fs: seq<Field>, was: seq<Slot>, ms: seq<Slot>, seen: set<nat>, k: nat, v: Value)
    requires Codable(fs) && AllTyped(fs, was) && AllTyped(fs, ms) && k < |fs| && Typed(fs[k], v) && Terminated(fs[k], v)
    requires SlotTyped(fs[k], was[k]) && SlotTyped(fs[k], ms[k])
    requires match fs[k].h
             case Required => ms[k] == One(v) && Room(fs[k], was[k].v, v)
             case Optional =>
               && ms[k] == (if fs[k].sizeOffset != 0 then Maybe(true, v) else One(v))
               && (fs[k].sizeOffset == 0 ==> !IsDefaultValue(fs[k], v))
               && Room(fs[k], was[k].v, v)
             case Repeated => false
             case Oneof => ms[k] == Choice(Some(v))
    requires EncTagged(fs[k], v).Some? && |EncTagged(fs[k], v).value| < U32
    requires AllTyped(fs, Mixed(fs, was, ms, k))
    ensures DecLoop(fs, Mixed(fs, was, ms, k), seen, EncTagged(fs[k], v).value) ==
            Some(Progress(Mixed(fs, was, ms, k + 1), See(fs, k, seen), false))
    decreases fs[k], 1, 0
  {
    hide EncItem, DecItem, Typed, InitValue, DecLoop, Key, Terminated, Exclusive, Normal, Merged, Mixed, SetMember,
         Room, IsDefaultValue;
    var f, held := fs[k], was[k];
    assert FieldCodable(f);
    hide Codable, AllTyped;
    InitValueTyped(f);
    var item := EncItem(f, v).value;
    var cur := Mixed(fs, was, ms, k);
    assert item + [] == item;
    MixedHere(fs, was, ms, k);
    if f.h.Oneof? {
      assert SlotTyped(f, cur[k]) by {
        TypedAt(fs, cur, k);
      }
      MemberNext(fs, was, ms, k, v);
      MemberBack(f, if f.l.Submessage? || cur[k].member.None? then InitValue(f) else cur[k].member.value, v);
    } else {
      MixedNext(fs, was, ms, k);
      ItemBack(f, held.v, v, []);
    }
    LoopStep(fs, cur, seen, k, WireOf(f.l), item, Mixed(fs, was, ms, k + 1));
  }

  lemma TypedAt(fs: seq<Field>, ms: seq<Slot>, k: nat)
    requires AllTyped(fs, ms) && k < |fs|
    ensures SlotTyped(fs[k], ms[k])
  {
  }

  /** A union member: a submessage starts afresh, and other items do not depend on what was there. */
  lemma MemberBack(f: Field, was: Value, v: Value)
    requires FieldCodable(f) && Typed(f, was) && Typed(f, v) && Terminated(f, v)
             && (f.l.Submessage? ==> was == InitValue(f))
    requires EncItem(f, v).Some? && |EncItem(f, v).value| < U32
    ensures DecItem(f, was, EncItem(f, v).value) == Some((Normal(f, v), []))
    decreases f, 0, 2
  {
    assert EncItem(f, v).value + [] == EncItem(f, v).value;
    if f.l.Submessage? {
      hide EncItem, DecItem, Terminated, FieldCodable, Typed;
      FreshBack(f, v, []);
    } else {
      hide EncItem, DecItem, Terminated, FieldCodable;
      ItemBack(f, was, v, []);
    }
  }

  lemma ArrayBack(fs: seq<Field>, was: seq<Slot>, ms: seq<Slot>, seen: set<nat>, k: nat)
    requires Codable(fs) && AllTyped(fs, was) && AllTyped(fs, ms) && k < |fs| && fs[k].h.Repeated?
    requires SlotTyped(fs[k], was[k]) && SlotTyped(fs[k], ms[k]) && SlotTerminated(fs[k], ms[k])
    requires |was[k].vs| + |ms[k].vs| <= fs[k].arraySize
    requires EncArray(fs[k], ms[k].vs).Some? && |EncArray(fs[k], ms[k].vs).value| < U32
    requires AllTyped(fs, Mixed(fs, was, ms, k))
    ensures DecLoop(fs, Mixed(fs, was, ms, k), seen, EncArray(fs[k], ms[k].vs).value) ==
            Some(Progress(Mixed(fs, was, ms, k + 1), seen, false))
    decreases fs[k], 2, 0
  {
    hide EncItems, EncEach, DecPacked, Typed, DecLoop, Key, Terminated, Exclusive, Normal, Mixed, Prefixed;
    var f, held, vs := fs[k], was[k].vs, ms[k].vs;
    assert FieldCodable(f);
    hide Codable, AllTyped;
    var cur := Mixed(fs, was, ms, k);
    MixedHere(fs, was, ms, k);
    MixedNext(fs, was, ms, k);
    if vs == [] {
      assert held + Normals(f, vs) == held;
      LoopDone(fs, cur, seen);
    } else if Packable(f.l) {
      var items := EncItems(f, vs).value;
      ShorterThanPrefixed(items);
      PackedBack(f, held, vs);
      PrefixBack(items, []);
      assert Prefixed(items) + [] == Prefixed(items);
      PackedNormals(f, vs);
      LoopStep(fs, cur, seen, k, WtString, Prefixed(items), Mixed(fs, was, ms, k + 1));
    } else {
      EachBack(fs, cur, seen, k, vs);
    }
  }

  lemma PackedNormals(f: Field, vs: seq<Value>)
    requires Packable(f.l) && forall i :: 0 <= i < |vs| ==> Typed(f, vs[i])
    ensures Normals(f, vs) == vs
  {
    forall i | 0 <= i < |vs|
      ensures Normal(f, vs[i]) == vs[i]
    {
      PackableTerminated(f, vs[i]);
    }
  }

  lemma FieldBack(fs: seq<Field>, was: seq<Slot>, ms: seq<Slot>, seen: set<nat>, k: nat)
    requires Codable(fs) && AllTyped(fs, was) && AllTyped(fs, ms) && AllTerminated(fs, ms) && RoomAll(fs, was, ms)
             && k < |fs|
    requires EncField(fs[k], ms[k]).Some? && |EncField(fs[k], ms[k]).value| < U32
    requires AllTyped(fs, Mixed(fs, was, ms, k))
    ensures DecLoop(fs, Mixed(fs, was, ms, k), seen, EncField(fs[k], ms[k]).value) ==
            Some(Progress(Mixed(fs, was, ms, k + 1), See(fs, k, seen), false))
    decreases fs[k], 3, 0
  {
    hide EncTagged, EncArray, Typed, DecLoop, Terminated, Exclusive, Normal, Merged, Mixed, IsDefaultValue,
         InitValue, Room;
    var f := fs[k];
    assert FieldCodable(f) && SlotTyped(f, was[k]) && SlotTyped(f, ms[k]) && SlotTerminated(f, ms[k])
           && SlotRoom(f, was[k], ms[k]);
    hide Codable, FieldCodable, AllTyped, AllTerminated, RoomAll;
    LoopDone(fs, Mixed(fs, was, ms, k), seen);
    match f.h
    case Required => TaggedBack(fs, was, ms, seen, k, ms[k].v);
    case Repeated => ArrayBack(fs, was, ms, seen, k);
    case Oneof =>
      if ms[k].member.Some? {
        TaggedBack(fs, was, ms, seen, k, ms[k].member.value);
      } else {
        MixedNext(fs, was, ms, k);
      }
    case Optional =>
      if (if f.sizeOffset != 0 then ms[k].has else !IsDefaultValue(f, ms[k].v)) {
        TaggedBack(fs, was, ms, seen, k, ms[k].v);
      } else {
        MixedNext(fs, was, ms, k);
      }
  }

  /** The required numbers of the fields from `k` on. */
  function SeeFrom(fs: seq<Field>, k: nat, seen: set<nat>): set<nat>
    requires k <= |fs|
    decreases |fs| - k
  {
    if k == |fs| then seen else SeeFrom(fs, k + 1, See(fs, k, seen))
  }

  lemma {:induction false} SeenStays(fs: seq<Field>, k: nat, seen: set<nat>, n: nat)
    requires k <= |fs|
    requires n in seen || exists j: nat ::
               k <= j < |fs| && fs[j].h.Required? && RequiredBefore(fs, j) == n < MAX_REQUIRED
    ensures n in SeeFrom(fs, k, seen)
    decreases |fs| - k
  {
    if k < |fs| {
      SeenStays(fs, k + 1, See(fs, k, seen), n);
    }
  }

  lemma AllSeenAtEnd(fs: seq<Field>)
    ensures AllSeen(fs, SeeFrom(fs, 0, {}))
  {
    hide SeeFrom;
    AllSeenMeans(fs, SeeFrom(fs, 0, {}));
    forall k: nat | k < |fs| && fs[k].h.Required? && RequiredBefore(fs, k) < MAX_REQUIRED
      ensures RequiredBefore(fs, k) in SeeFrom(fs, 0, {})
    {
      SeenStays(fs, 0, {}, RequiredBefore(fs, k));
    }
  }

  lemma {:induction false} FromBack(fs: seq<Field>, was: seq<Slot>, ms: seq<Slot>, seen: set<nat>, k: nat)
    requires Codable(fs) && AllTyped(fs, was) && AllTyped(fs, ms) && AllTerminated(fs, ms) && RoomAll(fs, was, ms)
             && k <= |fs|
    requires EncFrom(fs, ms, k).Some? && |EncFrom(fs, ms, k).value| < U32
    requires AllTyped(fs, Mixed(fs, was, ms, k))
    ensures DecLoop(fs, Mixed(fs, was, ms, k), seen, EncFrom(fs, ms, k).value) ==
            Some(Progress(Mixed(fs, was, ms, |fs|), SeeFrom(fs, k, seen), false))
    decreases fs, 4, |fs| - k
  {
    hide EncField, DecLoop, Mixed, Exclusive, SlotTyped, AllTerminated, RoomAll, Codable, See;
    LoopDone(fs, Mixed(fs, was, ms, k), seen);
    if k < |fs| {
      var a, b := EncField(fs[k], ms[k]).value, EncFrom(fs, ms, k + 1).value;
      FieldBack(fs, was, ms, seen, k);
      MixedTyped(fs, was, ms, k + 1);
      LoopSplits(fs, Mixed(fs, was, ms, k), seen, a, b);
      FromBack(fs, was, ms, See(fs, k, seen), k + 1);
    }
  }

  /** What `pb_encode` writes, `pb_decode_noinit` merges into the message that is there, as the protocol says. */
  lemma MessageBack(fs: seq<Field>, was: seq<Slot>, ms: seq<Slot>)
    requires Codable(fs) && AllTyped(fs, was) && AllTyped(fs, ms) && AllTerminated(fs, ms) && RoomAll(fs, was, ms)
    requires EncMessage(fs, ms).Some? && |EncMessage(fs, ms).value| < U32
    ensures DecLoop(fs, was, {}, EncMessage(fs, ms).value) ==
            Some(Progress(MergeAll(fs, was, ms), SeeFrom(fs, 0, {}), false))
    ensures DecMessage(fs, was, EncMessage(fs, ms).value) == Some(MergeAll(fs, was, ms))
    decreases fs, 5, 0
  {
    hide DecLoop, MergeAll, AllTyped, AllTerminated, RoomAll, Codable, SeeFrom, EncFrom, AllSeen, Mixed;
    MixedEnds(fs, was, ms);
    FromBack(fs, was, ms, {}, 0);
    AllSeenAtEnd(fs);
  }

  /** The round trip: what `pb_encode` writes, `pb_decode` reads, consuming all of it, back into the same message up
      to the contents of absent optionals. */
  lemma RoundTrip(fs: seq<Field>, ms: seq<Slot>)
    requires Codable(fs) && AllTyped(fs, ms) && AllTerminated(fs, ms)
    requires EncMessage(fs, ms).Some? && |EncMessage(fs, ms).value| < U32
    ensures AllTyped(fs, Defaults(fs))
    ensures DecLoop(fs, Defaults(fs), {}, EncMessage(fs, ms).value) ==
            Some(Progress(NormalMessage(fs, ms), SeeFrom(fs, 0, {}), false))
    ensures Decode(fs, EncMessage(fs, ms).value) == Some(NormalMessage(fs, ms))
  {
    FreshRoom(fs, ms, 0);
    hide DecLoop, DecMessage, NormalMessage, MergeAll, AllTyped, AllTerminated, Codable, EncFrom, SeeFrom;
    MergeIntoDefaults(fs, ms);
    MessageBack(fs, Defaults(fs), ms);
  }

  /** Two encoded messages one after the other decode as the second merged into the first: scalars are replaced, arrays
      joined, submessages merged, union members switched. */
  lemma ConcatenatedEncodings(fs: seq<Field>, a: seq<Slot>, b: seq<Slot>)
    requires Codable(fs) && AllTyped(fs, a) && AllTerminated(fs, a) && AllTyped(fs, b) && AllTerminated(fs, b)
    requires EncMessage(fs, a).Some? && |EncMessage(fs, a).value| < U32
    requires EncMessage(fs, b).Some? && |EncMessage(fs, b).value| < U32
    requires AllTyped(fs, NormalMessage(fs, a)) && RoomAll(fs, NormalMessage(fs, a), b)
    ensures Decode(fs, EncMessage(fs, a).value + EncMessage(fs, b).value) == Some(MergeAll(fs, NormalMessage(fs, a), b))
  {
    hide DecLoop, NormalMessage, MergeAll, AllTyped, AllTerminated, Codable, EncMessage, SeeFrom, RoomAll, AllSeen;
    RoundTrip(fs, a);
    MessageBack(fs, NormalMessage(fs, a), b);
    ConcatenationMerges(fs, Defaults(fs), EncMessage(fs, a).value, EncMessage(fs, b).value);
    AllSeenAtEnd(fs);
    assert SeeFrom(fs, 0, {}) + SeeFrom(fs, 0, {}) == SeeFrom(fs, 0, {});
  }
}
