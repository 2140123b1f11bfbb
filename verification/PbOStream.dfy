/** Output streams and the encoders that run on them (pb_encode.c): each one writes, into a buffer or only counting,
    exactly the bytes `PbEncode` says. */
module PbOStream {
  import opened Bits
  import opened Wrappers
  import opened PbValue
  import opened PbField
  import opened PbVarint
  import opened PbMessage
  import opened PbEncode

  /** What a stream is at: how much it has written of what it may, and the memory with the place to go on. */
  datatype Tape = Tape(sizing: bool, written: nat, max: nat, at: nat, memory: seq<byte>)

  predicate Fits(t: Tape, s: seq<byte>) {
    t.sizing || t.written + |s| <= t.max
  }

  function Put(t: Tape, s: seq<byte>): Tape
    requires t.sizing || t.at + |s| <= |t.memory|
  {
    if t.sizing then t.(written := t.written + |s|)
    else
      t.(written := t.written + |s|, at := t.at + |s|,
         memory := t.memory[..t.at] + s + t.memory[t.at + |s|..])
  }

  ghost predicate Sane(t: Tape) {
    !t.sizing ==> t.written <= t.max && t.at + (t.max - t.written) <= |t.memory|
  }

  lemma PutTwice(t: Tape, a: seq<byte>, b: seq<byte>)
    requires Sane(t)
    ensures Fits(t, a + b) <==> Fits(t, a) && Fits(Put(t, a), b)
    ensures Fits(t, a + b) ==> Sane(Put(t, a)) && Put(Put(t, a), b) == Put(t, a + b)
  {
    if !t.sizing && Fits(t, a + b) {
      var m := Put(t, a).memory;
      assert m[..t.at + |a|] == t.memory[..t.at] + a;
      assert m[t.at + |a| + |b|..] == t.memory[t.at + |a| + |b|..];
      assert t.memory[..t.at] + (a + b) == (t.memory[..t.at] + a) + b;
    }
  }

  lemma PutNothing(t: Tape)
    requires Sane(t)
    ensures Fits(t, []) && Put(t, []) == t
  {
    if !t.sizing {
      assert t.memory[..t.at] + [] + t.memory[t.at..] == t.memory;
    }
  }

  /** The stream accepted exactly what there was to write, and wrote it. */
  ghost predicate Done(was: Tape, now: Tape, out: Output, ok: bool)
    requires Sane(was)
  {
    && (ok <==> out.Some? && Fits(was, out.value))
    && (ok ==> now == Put(was, out.value))
  }

  lemma DoneThen(t0: Tape, t1: Tape, t2: Tape, a: Output, b: Output, ok: bool)
    requires Sane(t0) && Sane(t1) && Done(t0, t1, a, true) && Done(t1, t2, b, ok)
    ensures Done(t0, t2, Then(a, b), ok)
  {
    if b.Some? {
      PutTwice(t0, a.value, b.value);
    }
  }

  lemma DoneFails(t0: Tape, t1: Tape, t2: Tape, a: Output, b: Output)
    requires Sane(t0) && Done(t0, t1, a, false)
    ensures Done(t0, t2, Then(a, b), false)
  {
    if a.Some? && b.Some? {
      PutTwice(t0, a.value, b.value);
    }
  }

  lemma DoneNothing(t: Tape)
    requires Sane(t)
    ensures Done(t, t, Some([]), true)
  {
    PutNothing(t);
  }

  method BufWrite(dest: array<byte>, at: nat, s: seq<byte>)
    requires at + |s| <= dest.Length
    modifies dest
    ensures dest[..] == old(dest[..at]) + s + old(dest[at + |s|..])
  {
    for i := 0 to |s|
      invariant dest[..at] == old(dest[..at])
      invariant dest[at..at + i] == s[..i]
      invariant dest[at + i..] == old(dest[at + i..])
    {
      dest[at + i] := s[i];
    }
    assert dest[..] == dest[..at] + dest[at..at + |s|] + dest[at + |s|..];
  }

  /** The loop of `pb_encode_varint`: groups of seven bits, the top bit set on all but the last. */
  method Groups(value: nat) returns (bytes: array<byte>, n: nat)
    requires 0x7f < value < U64
    ensures fresh(bytes) && n <= bytes.Length && bytes[..n] == Base128(value)
  {
    hide Pow2, Base128;
    bytes := new byte[10];
    n := 0;
    var left: nat := value;
    SeventyBits();
    assert bytes[..0] + Base128(value) == Base128(value);
    while left > 0
      invariant n <= 10 && left < Pow2(70 - 7 * n)
      invariant n == 0 ==> left == value
      invariant left > 0 ==> Base128(value) == bytes[..n] + Base128(left)
      invariant left == 0 ==> n > 0 && bytes[n - 1] >= 128 && Base128(value) == bytes[..n - 1] + [bytes[n - 1] - 128]
      invariant bytes.Length == 10
    {
      hide Pow2, Base128;
      GroupLeft(left, 70 - 7 * n);
      BaseOn(bytes[..n], left);
      bytes[n] := left % 128 + 128;
      assert bytes[..n + 1] == bytes[..n] + [bytes[n]];
      left := left / 128;
      n := n + 1;
    }
    bytes[n - 1] := bytes[n - 1] - 128;
    assert bytes[..n] == bytes[..n - 1] + [bytes[n - 1]];
  }

  lemma BaseOn(front: seq<byte>, n: nat)
    requires n > 0
    ensures n >= 128 ==> front + Base128(n) == (front + [n % 128 + 128]) + Base128(n / 128)
    ensures n < 128 ==> front + Base128(n) == front + [n]
  {
  }

  lemma SeventyBits()
    ensures U64 <= Pow2(70)
  {
    Widths();
    Pow2Monotone(64, 70);
  }

  /** One more item in a loop, after those already done. */
  lemma DoneInLoop(t0: Tape, t1: Tape, t2: Tape, done: Output, item: Output, rest: Output, ok: bool)
    requires Sane(t0) && Sane(t1) && Done(t0, t1, done, true) && Done(t1, t2, item, ok)
    ensures Then(Then(done, item), rest) == Then(done, Then(item, rest))
    ensures Done(t0, t2, if ok then Then(done, item) else Then(done, Then(item, rest)), ok)
  {
    hide Put, Fits;
    ThenAssociates(done, item, rest);
    DoneThen(t0, t1, t2, done, item, ok);
    if !ok {
      DoneFails(t0, t2, t2, Then(done, item), rest);
    }
  }

  /** pb_ostream_t; no buffer stands for the null callback of a sizing stream. */
  class OStream {
    const buffer: array?<byte>
    const maxSize: nat
    var state: nat
    var bytesWritten: nat

    ghost function View(): Tape
      reads this, buffer
    {
      Tape(buffer == null, bytesWritten, maxSize, state, if buffer == null then [] else buffer[..])
    }

    ghost predicate Valid()
      reads this, buffer
    {
      Sane(View())
    }

    /** PB_OSTREAM_SIZING. */
    constructor Sizing()
      ensures Valid() && buffer == null && View() == Tape(true, 0, 0, 0, [])
    {
      buffer, maxSize, state, bytesWritten := null, 0, 0, 0;
    }

    /** `pb_ostream_from_buffer`, and the substreams of `pb_encode_submessage`. */
    constructor At(buffer: array<byte>, state: nat, maxSize: nat)
      requires state + maxSize <= buffer.Length
      ensures Valid() && this.buffer == buffer && View() == Tape(false, 0, maxSize, state, buffer[..])
    {
      this.buffer, this.maxSize, this.state, bytesWritten := buffer, maxSize, state, 0;
    }

    /** `pb_write` with `buf_write` behind it. */
    method Write(s: seq<byte>) returns (ok: bool)
      requires Valid()
      modifies this, buffer
      ensures Valid() && Done(old(View()), View(), Some(s), ok)
    {
      if buffer != null {
        if bytesWritten + |s| > maxSize {
          return false;
        }
        BufWrite(buffer, state, s);
        state := state + |s|;
      }
      bytesWritten := bytesWritten + |s|;
      ok := true;
    }

    /** `pb_write` of a null pointer, on a sizing stream. */
    method Count(n: nat, ghost s: seq<byte>)
      requires Valid() && buffer == null && |s| == n
      modifies this
      ensures Valid() && Done(old(View()), View(), Some(s), true)
    {
      bytesWritten := bytesWritten + n;
    }

    /** `pb_encode_varint`. */
    method EncodeVarint(value: nat) returns (ok: bool)
      requires Valid() && value < U64
      modifies this, buffer
      ensures Valid() && Done(old(View()), View(), Some(Base128(value)), ok)
    {
      if value <= 0x7f {
        ok := Write([value]);
      } else {
        var bytes, n := Groups(value);
        ok := Write(bytes[..n]);
      }
    }

    method EncodeTag(wt: WireType, tag: nat) returns (ok: bool)
      requires Valid() && tag < U32 && !wt.WtInvalid?
      modifies this, buffer
      ensures Valid() && Done(old(View()), View(), Some(Key(wt, tag)), ok)
    {
      ok := EncodeVarint(8 * tag + WireNumber(wt));
    }

    /** `pb_encode_string`. */
    method EncodeString(s: seq<byte>) returns (ok: bool)
      requires Valid()
      modifies this, buffer
      ensures Valid() && Done(old(View()), View(), Some(Prefixed(s)), ok)
    {
      hide Base128, Done, Sane;
      ok := EncodeVarint(|s| % U64);
      ghost var t := View();
      if !ok {
        DoneFails(old(View()), t, t, Some(Base128(|s| % U64)), Some(s));
        return false;
      }
      ok := Write(s);
      DoneThen(old(View()), t, View(), Some(Base128(|s| % U64)), Some(s), ok);
    }

    /** `pb_encode_submessage`: a sizing pass, the length, then the writing pass on a substream that may write that
        many bytes and no more. */
    method EncodeSubmessage(fields: seq<Field>, slots: seq<Slot>) returns (ok: bool)
      requires Valid() && Codable(fields) && AllTyped(fields, slots)
      modifies this, buffer
      ensures Valid()
      ensures var e := EncMessage(fields, slots);
              Done(old(View()), View(), if e.None? then None else Some(Prefixed(e.value)), ok)
      decreases fields, 7
    {
      hide Base128, EncMessage, AllTyped, Codable, Done, Put, Prefixed;
      ghost var e := EncMessage(fields, slots);
      var sub := new OStream.Sizing();
      var status := sub.Encode(fields, slots);
      SizedBy(sub.View(), e, status);
      if !status {
        Refused(old(View()), View());
        return false;
      }
      var size := sub.bytesWritten;
      ok := EncodeVarint(size % U64);
      ghost var t := View();
      if !ok {
        PrefixFailed(old(View()), t, e.value);
        return false;
      }
      if buffer == null {
        Count(size, e.value);
        PrefixedDone(old(View()), t, View(), e.value, true);
        return true;
      }
      if bytesWritten + size > maxSize {
        TooLong(t, e.value);
        PrefixedDone(old(View()), t, t, e.value, false);
        return false;
      }
      sub := new OStream.At(buffer, state, size);
      status := sub.Encode(fields, slots);
      bytesWritten := bytesWritten + sub.bytesWritten;
      state := sub.state;
      SubstreamDone(t, sub.View(), View(), e.value, status);
      // The two passes agree: "submsg size changed" cannot happen.
      assert sub.bytesWritten == size && status;
      PrefixedDone(old(View()), t, View(), e.value, true);
      ok := status;
    }

    /** The field encoders `pb_enc_*`, by type. */
    method EncodeItem(f: Field, v: Value) returns (ok: bool)
      requires Valid() && FieldCodable(f) && Typed(f, v)
      modifies this, buffer
      ensures Valid() && Done(old(View()), View(), EncItem(f, v), ok)
      decreases f, 0, 0
    {
      hide Base128, LittleEndian, EncMessage, Done, Sane, Prefixed, ZigZag, Word;
      match f.l
      case Varint => ok := EncodeVarint(Word(v.n));
      case UVarint => ok := EncodeVarint(v.n);
      case SVarint => ok := EncodeVarint(ZigZag(v.n));
      case Fixed32 => ok := Write(LittleEndian(v.n, 4));
      case Fixed64 => ok := Write(LittleEndian(v.n, 8));
      case Bytes =>
        if |v.bytes| + BYTES_OFFSET > f.dataSize {
          ok := false;
          Refused(old(View()), View());
        } else {
          ok := EncodeString(v.bytes);
        }
      case String => ok := EncodeString(v.bytes);
      case FixedLengthBytes => ok := EncodeString(v.bytes);
      case Submessage(fields) => ok := EncodeSubmessage(fields, v.slots);
    }

    /** The loops of `encode_array` over the items of a packed array. */
    method EncodeItems(f: Field, vs: seq<Value>) returns (ok: bool)
      requires Valid() && FieldCodable(f) && forall i :: 0 <= i < |vs| ==> Typed(f, vs[i])
      modifies this, buffer
      ensures Valid() && Done(old(View()), View(), EncItems(f, vs), ok)
      decreases f, 1, 0
    {
      hide Done, Sane, EncItem, FieldCodable, Typed;
      ghost var done := Some([]);
      DoneNothing(View());
      ThenNothing(EncItems(f, vs));
      assert vs[0..] == vs;
      for i := 0 to |vs|
        invariant Valid() && Done(old(View()), View(), done, true)
        invariant Then(done, EncItems(f, vs[i..])) == EncItems(f, vs)
      {
        assert vs[i..][1..] == vs[i + 1..];
        ghost var t := View();
        var more := EncodeItem(f, vs[i]);
        DoneInLoop(old(View()), t, View(), done, EncItem(f, vs[i]), EncItems(f, vs[i + 1..]), more);
        if !more {
          return false;
        }
        done := Then(done, EncItem(f, vs[i]));
      }
      ThenNothing(done);
      ok := true;
    }

    /** A key and an item, as for every field that is not packed. */
    method EncodeTagged(f: Field, v: Value) returns (ok: bool)
      requires Valid() && FieldCodable(f) && Typed(f, v)
      modifies this, buffer
      ensures Valid() && Done(old(View()), View(), EncTagged(f, v), ok)
      decreases f, 1, 0
    {
      hide Done, Sane, EncItem, Typed, Key;
      ok := EncodeTag(WireOf(f.l), f.tag);
      ghost var t := View();
      if !ok {
        DoneFails(old(View()), t, t, Some(Key(WireOf(f.l), f.tag)), EncItem(f, v));
        return false;
      }
      ok := EncodeItem(f, v);
      DoneThen(old(View()), t, View(), Some(Key(WireOf(f.l), f.tag)), EncItem(f, v), ok);
    }

    /** The loop of `encode_array` over the items of an array that is not packed. */
    method EncodeEach(f: Field, vs: seq<Value>) returns (ok: bool)
      requires Valid() && FieldCodable(f) && forall i :: 0 <= i < |vs| ==> Typed(f, vs[i])
      modifies this, buffer
      ensures Valid() && Done(old(View()), View(), EncEach(f, vs), ok)
      decreases f, 2, 0
    {
      hide Done, Sane, EncTagged, FieldCodable, Typed;
      ghost var done := Some([]);
      DoneNothing(View());
      ThenNothing(EncEach(f, vs));
      assert vs[0..] == vs;
      for i := 0 to |vs|
        invariant Valid() && Done(old(View()), View(), done, true)
        invariant Then(done, EncEach(f, vs[i..])) == EncEach(f, vs)
      {
        assert vs[i..][1..] == vs[i + 1..];
        ghost var t := View();
        var more := EncodeTagged(f, vs[i]);
        DoneInLoop(old(View()), t, View(), done, EncTagged(f, vs[i]), EncEach(f, vs[i + 1..]), more);
        if !more {
          return false;
        }
        done := Then(done, EncTagged(f, vs[i]));
      }
      ThenNothing(done);
      ok := true;
    }

    /** `encode_array`; the size of a packed array comes from the type where that is enough, from a sizing pass
        otherwise. */
    method EncodeArray(f: Field, vs: seq<Value>) returns (ok: bool)
      requires Valid() && FieldCodable(f) && forall i :: 0 <= i < |vs| ==> Typed(f, vs[i])
      modifies this, buffer
      ensures Valid() && Done(old(View()), View(), EncArray(f, vs), ok)
      decreases f, 3, 0
    {
      hide Done, EncItems, EncEach, Typed, Key, Base128, Sane;
      if vs == [] {
        DoneNothing(View());
        return true;
      }
      if |vs| > f.arraySize {
        Refused(old(View()), View());
        return false;
      }
      if !Packable(f.l) {
        ok := EncodeEach(f, vs);
        return;
      }
      ghost var items := EncItems(f, vs);
      ok := EncodeTag(WtString, f.tag);
      ghost var t := View();
      if !ok {
        KeyFailed(old(View()), t, Key(WtString, f.tag), items);
        return false;
      }
      var size: nat;
      if f.l.Fixed32? {
        size := 4 * |vs|;
        FixedSizes(f, vs);
      } else if f.l.Fixed64? {
        size := 8 * |vs|;
        FixedSizes(f, vs);
      } else {
        var sizes := new OStream.Sizing();
        var sized := sizes.EncodeItems(f, vs);
        SizedBy(sizes.View(), items, sized);
        if !sized {
          Refused(old(View()), View());
          return false;
        }
        size := sizes.bytesWritten;
      }
      ok := EncodePacked(f, vs, size);
      PackedDone(old(View()), t, View(), Key(WtString, f.tag), items, ok);
    }

    /** The length and the items of a packed array. */
    method EncodePacked(f: Field, vs: seq<Value>, size: nat) returns (ok: bool)
      requires Valid() && FieldCodable(f) && forall i :: 0 <= i < |vs| ==> Typed(f, vs[i])
      requires EncItems(f, vs).Some? && |EncItems(f, vs).value| == size
      modifies this, buffer
      ensures Valid() && Done(old(View()), View(), Some(Prefixed(EncItems(f, vs).value)), ok)
      decreases f, 2, 0
    {
      hide Done, EncItems, Typed, Base128, Sane;
      ghost var items := EncItems(f, vs);
      ok := EncodeVarint(size % U64);
      ghost var t := View();
      if !ok {
        DoneFails(old(View()), t, t, Some(Base128(size % U64)), items);
        return false;
      }
      if buffer == null {
        Count(size, items.value);
        ok := true;
      } else {
        ok := EncodeItems(f, vs);
      }
      DoneThen(old(View()), t, View(), Some(Base128(size % U64)), items, ok);
    }

    /** `encode_basic_field`. */
    method EncodeField(f: Field, s: Slot) returns (ok: bool)
      requires Valid() && FieldCodable(f) && SlotTyped(f, s)
      modifies this, buffer
      ensures Valid() && Done(old(View()), View(), EncField(f, s), ok)
      decreases f, 4, 0
    {
      hide Done, EncTagged, EncArray, Typed, IsDefaultValue, FieldCodable, Sane;
      DoneNothing(View());
      match f.h
      case Required =>
        ok := EncodeTagged(f, s.v);
      case Optional =>
        var has := if f.sizeOffset != 0 then s.has else !IsDefaultValue(f, s.v);
        if has {
          ok := EncodeTagged(f, s.v);
        } else {
          ok := true;
        }
      case Repeated =>
        ok := EncodeArray(f, s.vs);
      case Oneof =>
        if s.member.Some? {
          ok := EncodeTagged(f, s.member.value);
        } else {
          ok := true;
        }
    }

    /** `pb_encode`: the fields in the order of the iterator. The stream takes exactly the bytes of the message, or
        refuses them where the message does not encode or they do not fit. */
    method Encode(fields: seq<Field>, slots: seq<Slot>) returns (ok: bool)
      requires Valid() && Codable(fields) && AllTyped(fields, slots)
      modifies this, buffer
      ensures Valid() && Done(old(View()), View(), EncMessage(fields, slots), ok)
      decreases fields, 6
    {
      hide Done, EncField, SlotTyped, FieldCodable, Sane, Exclusive;
      DoneNothing(View());
      assert Listed(fields) by {
        CodableListed(fields);
      }
      var iter := new FieldIter(fields);
      if fields == [] {
        return true;
      }
      ghost var done := Some([]);
      ThenNothing(EncMessage(fields, slots));
      var more := true;
      while more
        invariant Valid() && iter.Valid() && iter.fields == fields && fresh(iter)
        invariant Done(old(View()), View(), done, true)
        invariant Then(done, EncFrom(fields, slots, if more then iter.pos else |fields|)) == EncMessage(fields, slots)
        decreases if more then |fields| - iter.pos else 0
      {
        var k := iter.pos;
        ghost var t := View();
        var went := EncodeField(fields[k], slots[k]);
        DoneInLoop(old(View()), t, View(), done, EncField(fields[k], slots[k]), EncFrom(fields, slots, k + 1), went);
        if !went {
          return false;
        }
        done := Then(done, EncField(fields[k], slots[k]));
        more := iter.Next();
      }
      ThenNothing(done);
      ok := true;
    }
  }

  lemma PrefixFailed(t0: Tape, t: Tape, s: seq<byte>)
    requires Sane(t0) && Done(t0, t, Some(Base128(|s| % U64)), false)
    ensures Done(t0, t, Some(Prefixed(s)), false)
  {
    DoneFails(t0, t, t, Some(Base128(|s| % U64)), Some(s));
  }

  lemma PrefixedDone(t0: Tape, t1: Tape, t2: Tape, s: seq<byte>, ok: bool)
    requires Sane(t0) && Sane(t1) && Done(t0, t1, Some(Base128(|s| % U64)), true) && Done(t1, t2, Some(s), ok)
    ensures Done(t0, t2, Some(Prefixed(s)), ok)
  {
    DoneThen(t0, t1, t2, Some(Base128(|s| % U64)), Some(s), ok);
  }

  lemma TooLong(t: Tape, s: seq<byte>)
    requires Sane(t) && !t.sizing && t.written + |s| > t.max
    ensures Done(t, t, Some(s), false)
  {
  }

  /** What the substream wrote is what the stream is then taken to have written. */
  lemma SubstreamDone(t: Tape, sub: Tape, now: Tape, s: seq<byte>, ok: bool)
    requires Sane(t) && !t.sizing && t.written + |s| <= t.max
    requires Done(Tape(false, 0, |s|, t.at, t.memory), sub, Some(s), ok)
    requires now == Tape(false, t.written + sub.written, t.max, sub.at, sub.memory)
    ensures ok && sub.written == |s| && Sane(now) && Done(t, now, Some(s), true)
  {
  }

  lemma CodableListed(fs: seq<Field>)
    requires Codable(fs)
    ensures Listed(fs)
  {
    forall i | 0 <= i < |fs|
      ensures fs[i].tag != 0
    {
      assert FieldCodable(fs[i]);
    }
  }

  lemma Refused(t0: Tape, t: Tape)
    requires Sane(t0)
    ensures Done(t0, t, None, false)
  {
  }

  lemma KeyFailed(t0: Tape, t: Tape, key: seq<byte>, items: Output)
    requires Sane(t0) && Done(t0, t, Some(key), false)
    ensures Done(t0, t, if items.None? then None else Some(key + Prefixed(items.value)), false)
  {
  }

  lemma SizedBy(t: Tape, items: Output, sized: bool)
    requires Sane(Tape(true, 0, 0, 0, [])) && Done(Tape(true, 0, 0, 0, []), t, items, sized)
    ensures sized <==> items.Some?
    ensures sized ==> |items.value| == t.written
  {
  }

  lemma PackedDone(t0: Tape, t1: Tape, t2: Tape, key: seq<byte>, items: Output, ok: bool)
    requires items.Some?
    requires Sane(t0) && Sane(t1) && Done(t0, t1, Some(key), true) && Done(t1, t2, Some(Prefixed(items.value)), ok)
    ensures Done(t0, t2, if items.None? then None else Some(key + Prefixed(items.value)), ok)
  {
    DoneThen(t0, t1, t2, Some(key), Some(Prefixed(items.value)), ok);
  }

  lemma GroupLeft(n: nat, w: int)
    requires 0 < n && 0 <= w && n < Pow2(w)
    ensures w >= 1 && (w >= 7 ==> n / 128 < Pow2(w - 7)) && (w < 7 ==> n / 128 == 0)
  {
    if w >= 7 {
      Pow2Sum(7, w - 7);
      SevenBits();
    } else {
      Pow2Monotone(w, 7);
      SevenBits();
    }
  }

  /** `pb_get_encoded_size`. */
  method GetEncodedSize(fields: seq<Field>, slots: seq<Slot>) returns (size: Option<nat>)
    requires Codable(fields) && AllTyped(fields, slots)
    ensures var e := EncMessage(fields, slots);
            size == if e.None? then None else Some(|e.value|)
  {
    hide Codable, AllTyped, EncMessage;
    var stream := new OStream.Sizing();
    var ok := stream.Encode(fields, slots);
    size := if ok then Some(stream.bytesWritten) else None;
  }

  /** Encoding into a buffer succeeds exactly when the sizing pass does, with a size that fits; then the buffer holds
      the message and is otherwise untouched. */
  method EncodeToBuffer(buffer: array<byte>, fields: seq<Field>, slots: seq<Slot>) returns (ok: bool, n: nat)
    requires Codable(fields) && AllTyped(fields, slots)
    modifies buffer
    ensures var e := EncMessage(fields, slots);
            && (ok <==> e.Some? && |e.value| <= buffer.Length)
            && (ok ==> n == |e.value| <= buffer.Length && buffer[..n] == e.value && buffer[n..] == old(buffer[n..]))
  {
    hide Codable, AllTyped, EncMessage;
    var stream := new OStream.At(buffer, 0, buffer.Length);
    ok := stream.Encode(fields, slots);
    n := stream.bytesWritten;
  }
}
