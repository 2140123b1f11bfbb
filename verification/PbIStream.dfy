/** Input streams and the decoders that run on them (pb_decode.c): each one reads exactly what `PbDecode` says. */
module PbIStream {
  import opened Bits
  import opened Wrappers
  import opened PbValue
  import opened PbField
  import opened PbVarint
  import opened PbMessage
  import opened PbEncode
  import opened PbRequired
  import opened PbDecode

  /** pb_istream_t over a memory buffer. */
  class IStream {
    const source: seq<byte>
    var state: nat
    var bytesLeft: nat

    ghost predicate Valid()
      reads this
    {
      state + bytesLeft <= |source|
    }

    /** What is still to be read. */
    ghost function Rest(): seq<byte>
      requires Valid()
      reads this
    {
      source[state..state + bytesLeft]
    }

    /** Reading went on to where `rest` is left, in the same limits. */
    ghost predicate Left(rest: seq<byte>, end: nat)
      reads this
    {
      Valid() && Rest() == rest && state + bytesLeft == end
    }

    /** `pb_istream_from_buffer`, and the substreams with a limit of their own. */
    constructor (source: seq<byte>, state: nat, bytesLeft: nat)
      requires state + bytesLeft <= |source|
      ensures Valid() && this.source == source && this.state == state && this.bytesLeft == bytesLeft
    {
      this.source, this.state, this.bytesLeft := source, state, bytesLeft;
    }

    /** `pb_readbyte`. */
    method ReadByte() returns (b: Option<byte>)
      requires Valid()
      modifies this
      ensures Valid() && state + bytesLeft == old(state + bytesLeft)
      ensures old(Rest()) == [] ==> b.None? && bytesLeft == 0
      ensures old(Rest()) != [] ==> b == Some(old(Rest())[0]) && Rest() == old(Rest())[1..]
    {
      if bytesLeft == 0 {
        return None;
      }
      b := Some(source[state]);
      state, bytesLeft := state + 1, bytesLeft - 1;
    }

    /** `pb_read`. */
    method Read(count: nat) returns (bytes: Option<seq<byte>>)
      requires Valid()
      modifies this
      ensures Valid() && state + bytesLeft == old(state + bytesLeft)
      ensures bytes.None? <==> |old(Rest())| < count
      ensures bytes.Some? ==> bytes.value == old(Rest())[..count] && Rest() == old(Rest())[count..]
    {
      if bytesLeft < count {
        return None;
      }
      bytes := Some(source[state..state + count]);
      state, bytesLeft := state + count, bytesLeft - count;
    }

    /** `pb_decode_varint32_eof`. */
    method DecodeVarint32() returns (value: Option<nat>, eof: bool)
      requires Valid()
      modifies this
      ensures Valid() && state + bytesLeft == old(state + bytesLeft)
      ensures eof <==> old(Rest()) == []
      ensures match Dec32(old(Rest()))
              case None => value.None?
              case Some((n, rest)) => value == Some(n) && Rest() == rest
    {
      hide Bit, Or, Shl;
      eof := false;
      var first := ReadByte();
      if first.None? {
        return None, true;
      }
      var b := first.value;
      var result: nat := b % 128;
      if b >= 128 {
        var bitpos: nat := 7;
        ghost var goal := Dec32(old(Rest()));
        while true
          invariant Valid() && state + bytesLeft == old(state + bytesLeft)
          invariant Dec32From(Rest(), bitpos, result) == goal
          decreases bytesLeft
        {
          var next := ReadByte();
          if next.None? {
            return None, false;
          }
          b := next.value;
          if bitpos >= 32 {
            var sign := if bitpos < 63 then 255 else 1;
            if b % 128 != 0 && (!Bit(result, 31) || b != sign) {
              return None, false;
            }
          } else {
            result := Or(result, Shl(b % 128, bitpos, 32));
          }
          bitpos := (bitpos + 7) % 256;
          if b < 128 {
            if bitpos == 35 && b / 16 % 8 != 0 {
              return None, false;
            }
            break;
          }
        }
      }
      value := Some(result);
    }

    /** `pb_decode_varint`. */
    method DecodeVarint() returns (value: Option<nat>)
      requires Valid()
      modifies this
      ensures Valid() && state + bytesLeft == old(state + bytesLeft)
      ensures match Dec64(old(Rest()))
              case None => value.None?
              case Some((n, rest)) => value == Some(n) && Rest() == rest
    {
      hide Or, Shl;
      var bitpos: nat := 0;
      var result: nat := 0;
      var more := true;
      ghost var goal := Dec64(old(Rest()));
      while more
        invariant Valid() && state + bytesLeft == old(state + bytesLeft)
        invariant if more then Dec64From(Rest(), bitpos, result) == goal else goal == Some((result, Rest()))
        decreases more, bytesLeft
      {
        if bitpos >= 64 {
          return None;
        }
        var next := ReadByte();
        if next.None? {
          return None;
        }
        result := Or(result, Shl(next.value % 128, bitpos, 64));
        bitpos := bitpos + 7;
        more := next.value >= 128;
      }
      value := Some(result);
    }

    /** `pb_skip_varint`. */
    method SkipVarintBytes() returns (ok: bool)
      requires Valid()
      modifies this
      ensures Valid() && state + bytesLeft == old(state + bytesLeft)
      ensures match SkipVarint(old(Rest()))
              case None => !ok
              case Some(rest) => ok && Rest() == rest
    {
      var more := true;
      ghost var goal := SkipVarint(old(Rest()));
      while more
        invariant Valid() && state + bytesLeft == old(state + bytesLeft)
        invariant if more then SkipVarint(Rest()) == goal else goal == Some(Rest())
        decreases more, bytesLeft
      {
        var next := ReadByte();
        if next.None? {
          return false;
        }
        more := next.value >= 128;
      }
      ok := true;
    }

    /** `pb_read` of a null pointer: skipping. */
    method SkipBytes(count: nat) returns (ok: bool)
      requires Valid()
      modifies this
      ensures Valid() && state + bytesLeft == old(state + bytesLeft)
      ensures match Drop(old(Rest()), count)
              case None => !ok
              case Some(rest) => ok && Rest() == rest
    {
      var bytes := Read(count);
      ok := bytes.Some?;
    }

    /** `pb_skip_field` and `pb_skip_string`. */
    method SkipField(wt: WireType) returns (ok: bool)
      requires Valid()
      modifies this
      ensures Valid() && state + bytesLeft == old(state + bytesLeft)
      ensures match Skip(wt, old(Rest()))
              case None => !ok
              case Some(rest) => ok && Rest() == rest
    {
      hide Dec32, SkipVarint;
      match wt
      case WtVarint => ok := SkipVarintBytes();
      case Wt64Bit => ok := SkipBytes(8);
      case Wt32Bit => ok := SkipBytes(4);
      case WtInvalid(_) => ok := false;
      case WtString =>
        var length, _ := DecodeVarint32();
        if length.None? {
          return false;
        }
        ok := SkipBytes(length.value);
    }

    /** `pb_decode_tag`; none together with `eof` stands for the end of the message. */
    method DecodeTag() returns (key: Option<(nat, WireType)>, eof: bool)
      requires Valid()
      modifies this
      ensures Valid() && state + bytesLeft == old(state + bytesLeft)
      ensures match DecKey(old(Rest()))
              case None => key.None? && (eof <==> old(Rest()) == [])
              case Some(Stop(rest)) => key.None? && eof && Rest() == rest
              case Some(Begin(tag, wt, rest)) => key == Some((tag, wt)) && !eof && Rest() == rest
    {
      hide Dec32;
      var temp, end := DecodeVarint32();
      if temp.None? {
        Dec32Nothing();
        return None, end;
      }
      if temp.value == 0 {
        return None, true;
      }
      Dec32Nothing();
      key, eof := Some((temp.value / 8, WireFrom(temp.value % 8))), false;
    }

    /** `pb_make_string_substream`: the stream itself stays in front of the part it gave away. */
    method MakeSubstream() returns (sub: IStream?)
      requires Valid()
      modifies this
      ensures Valid()
      ensures match DecPrefixed(old(Rest()))
              case None => sub == null && state + bytesLeft == old(state + bytesLeft)
              case Some((body, rest)) =>
                && sub != null && fresh(sub) && sub.Valid() && sub.source == source && sub.state == state
                && sub.Rest() == body
                && state + |body| + bytesLeft == old(state + bytesLeft)
                && rest == source[state + |body|..state + |body| + bytesLeft]
    {
      hide Dec32;
      var size, _ := DecodeVarint32();
      if size.None? {
        return null;
      }
      if bytesLeft < size.value {
        return null;
      }
      sub := new IStream(source, state, size.value);
      bytesLeft := bytesLeft - size.value;
    }

    /** `pb_close_string_substream`: what the substream left unread is skipped. */
    method CloseSubstream(sub: IStream, ghost end: nat, ghost rest: seq<byte>)
      requires sub != this && sub.Valid() && sub.source == source
      requires sub.state + sub.bytesLeft + bytesLeft == end <= |source|
      requires rest == source[sub.state + sub.bytesLeft..end]
      modifies this, sub
      ensures Left(rest, end)
    {
      if sub.bytesLeft > 0 {
        var _ := sub.Read(sub.bytesLeft);
      }
      state := sub.state;
    }

    /** `pb_dec_varint`, `pb_dec_uvarint` and `pb_dec_svarint`, with their range checks. */
    method DecodeNumber(f: Field) returns (v: Option<Value>)
      requires Valid() && (f.l.Varint? || f.l.UVarint? || f.l.SVarint?)
      modifies this
      ensures Valid() && state + bytesLeft == old(state + bytesLeft)
      ensures match DecNumber(f, old(Rest()))
              case None => v.None?
              case Some((n, rest)) => v == Some(n) && Rest() == rest
    {
      hide Dec64, Signed, UnZigZag, InSigned, InUnsigned;
      ghost var was := Rest();
      var word := DecodeVarint();
      if word.None? {
        return None;
      }
      Dec64IsWord(was);
      var w := word.value;
      if Modulus(f.dataSize) == 0 {
        return None;
      }
      if f.l.UVarint? {
        return if InUnsigned(w, f.dataSize) then Some(Number(w)) else None;
      }
      var n := if f.l.SVarint? then UnZigZag(w) else Signed(w, if f.dataSize == 8 then U64 else U32);
      v := if InSigned(n, f.dataSize) then Some(Number(n)) else None;
    }

    /** `pb_decode_fixed32` and `pb_decode_fixed64`. */
    method DecodeFixed(width: nat) returns (v: Option<Value>)
      requires Valid()
      modifies this
      ensures Valid() && state + bytesLeft == old(state + bytesLeft)
      ensures match DecFixed(old(Rest()), width)
              case None => v.None?
              case Some((n, rest)) => v == Some(n) && Rest() == rest
    {
      var bytes := Read(width);
      v := if bytes.None? then None else Some(Number(FromLittleEndian(bytes.value)));
    }

    /** `pb_dec_bytes`, `pb_dec_string` and `pb_dec_fixed_length_bytes`. */
    method DecodeBlob(f: Field) returns (v: Option<Value>)
      requires Valid() && (f.l.Bytes? || f.l.String? || f.l.FixedLengthBytes?) && f.dataSize < U32
      modifies this
      ensures Valid() && state + bytesLeft == old(state + bytesLeft)
      ensures match DecBlob(f, old(Rest()))
              case None => v.None?
              case Some((n, rest)) => v == Some(n) && Rest() == rest
    {
      hide Dec32, UpToZero;
      var length, _ := DecodeVarint32();
      if length.None? {
        return None;
      }
      var size := length.value;
      if f.l.FixedLengthBytes? && size == 0 {
        return Some(Blob(seq(f.dataSize, _ => 0)));
      }
      var tooLong := if f.l.Bytes? then size + BYTES_OFFSET > f.dataSize
                     else if f.l.String? then size + 1 > f.dataSize else size != f.dataSize;
      if tooLong {
        return None;
      }
      var bytes := Read(size);
      v := if bytes.None? then None else Some(Blob(if f.l.String? then UpToZero(bytes.value) else bytes.value));
    }

    /** `pb_dec_submessage`, into what is there. */
    method DecodeSubmessage(fields: seq<Field>, slots: seq<Slot>) returns (r: Option<seq<Slot>>)
      requires Valid() && Codable(fields) && AllTyped(fields, slots)
      modifies this
      ensures Valid() && state + bytesLeft == old(state + bytesLeft)
      ensures match DecPrefixed(old(Rest()))
              case None => r.None?
              case Some((body, rest)) => r == DecMessage(fields, slots, body) && (r.Some? ==> Rest() == rest)
      decreases fields, 6
    {
      hide DecPrefixed, DecMessage, AllTyped, Codable;
      ghost var was, end := Rest(), state + bytesLeft;
      var sub := MakeSubstream();
      if sub == null {
        return None;
      }
      ghost var rest := DecPrefixed(was).value.1;
      r := sub.DecodeNoinit(fields, slots);
      CloseSubstream(sub, end, rest);
    }

    /** The field decoders `pb_dec_*`, by type. */
    method DecodeItem(f: Field, was: Value) returns (v: Option<Value>)
      requires Valid() && FieldCodable(f) && Typed(f, was)
      modifies this
      ensures Valid() && state + bytesLeft == old(state + bytesLeft)
      ensures match DecItem(f, was, old(Rest()))
              case None => v.None?
              case Some((n, rest)) => v == Some(n) && Rest() == rest
      decreases f, 0, 0
    {
      hide DecNumber, DecFixed, DecBlob, DecPrefixed, DecMessage;
      match f.l
      case Varint => v := DecodeNumber(f);
      case UVarint => v := DecodeNumber(f);
      case SVarint => v := DecodeNumber(f);
      case Fixed32 => v := DecodeFixed(4);
      case Fixed64 => v := DecodeFixed(8);
      case Bytes => v := DecodeBlob(f);
      case String => v := DecodeBlob(f);
      case FixedLengthBytes => v := DecodeBlob(f);
      case Submessage(fields) =>
        var slots := DecodeSubmessage(fields, was.slots);
        v := if slots.None? then None else Some(Message(slots.value));
    }

    /** The loop of `decode_static_field` over the substream of a packed array. */
    method DecodePacked(f: Field, vs: seq<Value>) returns (r: Option<seq<Value>>)
      requires Valid() && FieldCodable(f) && Packable(f.l) && forall i :: 0 <= i < |vs| ==> Typed(f, vs[i])
      modifies this
      ensures Valid() && state + bytesLeft == old(state + bytesLeft)
      ensures r == DecPacked(f, vs, old(Rest())) && (r.Some? ==> bytesLeft == 0)
      decreases f, 1, 0
    {
      hide DecItem, FieldCodable, Typed, InitValue;
      var items := vs;
      ghost var goal := DecPacked(f, vs, Rest());
      InitValueTyped(f);
      while bytesLeft > 0 && |items| < f.arraySize
        invariant Valid() && state + bytesLeft == old(state + bytesLeft)
        invariant forall i :: 0 <= i < |items| ==> Typed(f, items[i])
        invariant DecPacked(f, items, Rest()) == goal
        decreases bytesLeft
      {
        var v := DecodeItem(f, InitValue(f));
        if v.None? {
          return None;
        }
        items := items + [v.value];
      }
      if bytesLeft != 0 {
        return None;
      }
      r := Some(items);
    }

    /** The array case of `decode_static_field`. */
    method DecodeArray(f: Field, vs: seq<Value>, wt: WireType) returns (r: Option<seq<Value>>)
      requires Valid() && FieldCodable(f) && forall i :: 0 <= i < |vs| ==> Typed(f, vs[i])
      modifies this
      ensures Valid() && state + bytesLeft == old(state + bytesLeft)
      ensures match DecArray(f, vs, wt, old(Rest()))
              case None => r.None?
              case Some((items, rest)) => r == Some(items) && Rest() == rest
      decreases f, 2, 0
    {
      hide DecItem, Typed, InitValue, DecPacked, DecPrefixed;
      if wt.WtString? && Packable(f.l) {
        ghost var was, end := Rest(), state + bytesLeft;
        var sub := MakeSubstream();
        if sub == null {
          return None;
        }
        ghost var rest := DecPrefixed(was).value.1;
        r := sub.DecodePacked(f, vs);
        CloseSubstream(sub, end, rest);
      } else if |vs| >= f.arraySize {
        r := None;
      } else {
        InitValueTyped(f);
        var v := DecodeItem(f, InitValue(f));
        r := if v.None? then None else Some(vs + [v.value]);
      }
    }

    /** `decode_static_field`. */
    method DecodeField(fs: seq<Field>, ms: seq<Slot>, k: nat, wt: WireType) returns (r: Option<seq<Slot>>)
      requires Valid() && Codable(fs) && AllTyped(fs, ms) && k < |fs|
      modifies this
      ensures Valid() && state + bytesLeft == old(state + bytesLeft)
      ensures match DecField(fs, ms, k, wt, old(Rest()))
              case None => r.None?
              case Some((next, rest)) => r == Some(next) && Rest() == rest
      decreases fs[k], 3, 0
    {
      var f := fs[k];
      assert FieldCodable(f) && SlotTyped(f, ms[k]);
      InitValueTyped(f);
      hide DecItem, Typed, InitValue, DecArray, SetMember, Codable, AllTyped, FieldCodable;
      match f.h
      case Repeated =>
        var vs := DecodeArray(f, ms[k].vs, wt);
        r := if vs.None? then None else Some(ms[k := Many(vs.value)]);
      case Oneof =>
        var v := DecodeItem(f, if f.l.Submessage? || ms[k].member.None? then InitValue(f) else ms[k].member.value);
        r := if v.None? then None else Some(SetMember(fs, ms, k, v.value));
      case Required =>
        var v := DecodeItem(f, ms[k].v);
        r := if v.None? then None else Some(ms[k := One(v.value)]);
      case Optional =>
        var v := DecodeItem(f, ms[k].v);
        r := if v.None? then None else Some(ms[k := if f.sizeOffset != 0 then Maybe(true, v.value) else One(v.value)]);
    }

    /** The body of the loop of `pb_decode_noinit`, for the key that `s` began with: find the field from wherever the
        iterator is, skip an unknown one, mark a required one, decode. */
    method DecodeOne(iter: FieldIter, words: array<nat>, ghost seen: set<nat>, ms: seq<Slot>, tag: nat, wt: WireType,
                     ghost s: seq<byte>)
      returns (r: Option<seq<Slot>>, ghost now: set<nat>)
      requires Valid() && iter.Valid() && Codable(iter.fields) && AllTyped(iter.fields, ms)
      requires words.Length == 2 && Stands(words[..], seen) && OnlyChecked(iter.fields, seen)
      requires DecKey(s) == Some(Begin(tag, wt, Rest()))
      modifies this, iter, words
      ensures Valid() && state + bytesLeft == old(state + bytesLeft)
      ensures r.Some? ==> bytesLeft <= old(bytesLeft)
      ensures iter.Valid() && Stands(words[..], now) && OnlyChecked(iter.fields, now)
      ensures r.Some? ==> AllTyped(iter.fields, r.value)
      ensures DecLoop(iter.fields, ms, seen, s) == if r.None? then None else DecLoop(iter.fields, r.value, now, Rest())
      decreases iter.fields, 4
    {
      hide DecField, DecKey, Skip, Lookup, AllTyped, Stands, OnlyChecked, RequiredBefore, SizeAt, DataAt, Codable,
           Matches;
      ghost var fs := iter.fields;
      now := seen;
      assert s != [] by {
        KeyNotEmpty(s);
      }
      var found := iter.Find(tag);
      FoundIs(fs, tag, found, iter.pos);
      if !found {
        var ok := SkipField(wt);
        return if ok then Some(ms) else None, now;
      }
      if iter.fields == [] {
        // The terminator: a varint without a size to store it in.
        return None, now;
      }
      if iter.fields[iter.pos].h.Required? {
        MarkSeen(words, iter.requiredIndex, seen);
        SeeChecked(fs, iter.pos, seen);
      }
      now := See(fs, iter.pos, seen);
      r := DecodeField(iter.fields, ms, iter.pos, wt);
    }

    /** `pb_decode_noinit`: the loop over keys, and the check of the required fields at the end. */
    method DecodeNoinit(fs: seq<Field>, dest: seq<Slot>) returns (r: Option<seq<Slot>>)
      requires Valid() && Codable(fs) && AllTyped(fs, dest)
      modifies this
      ensures Valid() && state + bytesLeft == old(state + bytesLeft)
      ensures r == DecMessage(fs, dest, old(Rest()))
      decreases fs, 5
    {
      hide DecKey, AllTyped, Stands, AllSeen, OnlyChecked, Codable, Listed;
      NoTerminator(fs);
      var iter := new FieldIter(fs);
      var words := new nat[2](_ => 0);
      ghost var seen: set<nat> := {};
      EmptyStands();
      assert words[..] == [0, 0];
      EmptyChecked(fs);
      var ms := dest;
      var stopped := false;
      ghost var goal := DecLoop(fs, dest, {}, Rest());
      while bytesLeft > 0 && !stopped
        invariant Valid() && state + bytesLeft == old(state + bytesLeft)
        invariant iter.Valid() && iter.fields == fs && fresh(iter) && fresh(words)
        invariant AllTyped(fs, ms)
        invariant Stands(words[..], seen) && OnlyChecked(fs, seen)
        invariant if stopped then goal == Some(Progress(ms, seen, true)) else DecLoop(fs, ms, seen, Rest()) == goal
        decreases !stopped, bytesLeft
      {
        ghost var s := Rest();
        var key, eof := DecodeTag();
        if key.None? {
          if !eof {
            return None;
          }
          stopped := true;
        } else {
          var next, now := DecodeOne(iter, words, seen, ms, key.value.0, key.value.1, s);
          if next.None? {
            return None;
          }
          ms, seen := next.value, now;
        }
      }
      var all := CheckRequired(iter, words, seen);
      r := if all then Some(ms) else None;
    }
  }

  /** `pb_decode` from a buffer. */
  method DecodeBuffer(fs: seq<Field>, bytes: seq<byte>) returns (r: Option<seq<Slot>>)
    requires Codable(fs)
    ensures r == Decode(fs, bytes)
  {
    hide Codable, AllTyped, DecMessage, Defaults;
    DefaultsTyped(fs);
    var stream := new IStream(bytes, 0, |bytes|);
    assert stream.Rest() == bytes;
    r := stream.DecodeNoinit(fs, Defaults(fs));
  }

  lemma KeyNotEmpty(s: seq<byte>)
    requires DecKey(s).Some?
    ensures s != []
  {
  }

  lemma NoTerminator(fs: seq<Field>)
    requires Codable(fs)
    ensures Listed(fs)
  {
    forall i | 0 <= i < |fs|
      ensures fs[i].tag != 0
    {
      assert FieldCodable(fs[i]);
    }
  }

  /** With distinct numbers, wherever the search started it ends at the same field. */
  lemma FoundIs(fs: seq<Field>, tag: nat, found: bool, pos: nat)
    requires Codable(fs)
    requires found <==> (exists k :: 0 <= k < |fs| && Matches(fs[k], tag)) || (fs == [] && tag == 0)
    requires found && fs != [] ==> pos < |fs| && Matches(fs[pos], tag)
    ensures found && fs != [] ==> Lookup(fs, tag) == Some(pos)
    ensures !found ==> Lookup(fs, tag).None?
  {
  }

  lemma EmptyChecked(fs: seq<Field>)
    ensures OnlyChecked(fs, {})
  {
  }

  lemma SeeChecked(fs: seq<Field>, k: nat, seen: set<nat>)
    requires k < |fs| && fs[k].h.Required? && OnlyChecked(fs, seen)
    ensures OnlyChecked(fs, See(fs, k, seen))
  {
    RequiredMonotone(fs, k, |fs|);
  }

  lemma Dec32Nothing()
    ensures Dec32([]).None?
  {
  }
}
