/** Concatenation merges and unknown fields do not matter (Protocol Buffers encoding, "Last One Wins"). */
module PbMerge {
  import opened Bits
  import opened Wrappers
  import opened PbValue
  import opened PbField
  import opened PbVarint
  import opened PbMessage
  import opened PbEncode
  import opened PbRequired
  import opened PbDecode

  // Decoders look no further than what they read ------------------------------------------------------------

  lemma {:induction false} Dec32FromLocal(s: seq<byte>, bitpos: nat, result: nat, t: seq<byte>)
    requires Dec32From(s, bitpos, result).Some?
    ensures Dec32From(s + t, bitpos, result) ==
            Some((Dec32From(s, bitpos, result).value.0, Dec32From(s, bitpos, result).value.1 + t))
    decreases |s|
  {
    hide Or, Shl, Bit;
    assert (s + t)[1..] == s[1..] + t;
    var b := s[0];
    if b >= 128 {
      var more := if bitpos >= 32 then result else Or(result, Shl(b % 128, bitpos, 32));
      Dec32FromLocal(s[1..], (bitpos + 7) % 256, more, t);
    }
  }

  lemma Dec32Local(s: seq<byte>, t: seq<byte>)
    requires Dec32(s).Some?
    ensures Dec32(s + t) == Some((Dec32(s).value.0, Dec32(s).value.1 + t))
  {
    hide Dec32From;
    assert (s + t)[1..] == s[1..] + t;
    if s[0] >= 128 {
      Dec32FromLocal(s[1..], 7, s[0] % 128, t);
    }
  }

  lemma {:induction false} Dec64FromLocal(s: seq<byte>, bitpos: nat, result: nat, t: seq<byte>)
    requires Dec64From(s, bitpos, result).Some?
    ensures Dec64From(s + t, bitpos, result) ==
            Some((Dec64From(s, bitpos, result).value.0, Dec64From(s, bitpos, result).value.1 + t))
    decreases |s|
  {
    hide Or, Shl;
    assert (s + t)[1..] == s[1..] + t;
    if s[0] >= 128 {
      Dec64FromLocal(s[1..], bitpos + 7, Or(result, Shl(s[0] % 128, bitpos, 64)), t);
    }
  }

  lemma DropLocal(s: seq<byte>, n: nat, t: seq<byte>)
    requires Drop(s, n).Some?
    ensures Drop(s + t, n) == Some(Drop(s, n).value + t)
  {
    assert (s + t)[n..] == s[n..] + t;
  }

  lemma {:induction false} SkipVarintLocal(s: seq<byte>, t: seq<byte>)
    requires SkipVarint(s).Some?
    ensures SkipVarint(s + t) == Some(SkipVarint(s).value + t)
    decreases |s|
  {
    assert (s + t)[1..] == s[1..] + t;
    if s[0] >= 128 {
      SkipVarintLocal(s[1..], t);
    }
  }

  lemma SkipLocal(wt: WireType, s: seq<byte>, t: seq<byte>)
    requires Skip(wt, s).Some?
    ensures Skip(wt, s + t) == Some(Skip(wt, s).value + t)
  {
    hide Dec32;
    match wt
    case WtVarint => SkipVarintLocal(s, t);
    case Wt64Bit => DropLocal(s, 8, t);
    case Wt32Bit => DropLocal(s, 4, t);
    case WtString =>
      Dec32Local(s, t);
      DropLocal(Dec32(s).value.1, Dec32(s).value.0, t);
  }

  lemma DecKeyLocal(s: seq<byte>, t: seq<byte>)
    requires DecKey(s).Some?
    ensures DecKey(s + t) == Some(DecKey(s).value.(rest := DecKey(s).value.rest + t))
  {
    hide Dec32;
    Dec32Local(s, t);
  }

  lemma DecPrefixedLocal(s: seq<byte>, t: seq<byte>)
    requires DecPrefixed(s).Some?
    ensures DecPrefixed(s + t) == Some((DecPrefixed(s).value.0, DecPrefixed(s).value.1 + t))
  {
    hide Dec32;
    Dec32Local(s, t);
    var (n, u) := Dec32(s).value;
    assert (u + t)[..n] == u[..n] && (u + t)[n..] == u[n..] + t;
  }

  lemma DecBlobLocal(f: Field, s: seq<byte>, t: seq<byte>)
    requires f.l.Bytes? || f.l.String? || f.l.FixedLengthBytes?
    requires f.dataSize < U32 && DecBlob(f, s).Some?
    ensures DecBlob(f, s + t) == Some((DecBlob(f, s).value.0, DecBlob(f, s).value.1 + t))
  {
    hide Dec32, UpToZero;
    Dec32Local(s, t);
    var (n, u) := Dec32(s).value;
    if n <= |u| {
      assert (u + t)[..n] == u[..n] && (u + t)[n..] == u[n..] + t;
    }
  }

  lemma DecFixedLocal(s: seq<byte>, width: nat, t: seq<byte>)
    requires DecFixed(s, width).Some?
    ensures DecFixed(s + t, width) == Some((DecFixed(s, width).value.0, DecFixed(s, width).value.1 + t))
  {
    assert (s + t)[..width] == s[..width] && (s + t)[width..] == s[width..] + t;
  }

  lemma DecItemLocal(f: Field, was: Value, s: seq<byte>, t: seq<byte>)
    requires FieldCodable(f) && Typed(f, was) && DecItem(f, was, s).Some?
    ensures DecItem(f, was, s + t) == Some((DecItem(f, was, s).value.0, DecItem(f, was, s).value.1 + t))
  {
    hide Dec64From, DecBlob, DecFixed, DecPrefixed, DecMessage, Signed, UnZigZag, InSigned, InUnsigned, Modulus;
    match f.l
    case Varint => Dec64FromLocal(s, 0, 0, t);
    case UVarint => Dec64FromLocal(s, 0, 0, t);
    case SVarint => Dec64FromLocal(s, 0, 0, t);
    case Fixed32 => DecFixedLocal(s, 4, t);
    case Fixed64 => DecFixedLocal(s, 8, t);
    case Submessage(fields) => DecPrefixedLocal(s, t);
    case Bytes => DecBlobLocal(f, s, t);
    case String => DecBlobLocal(f, s, t);
    case FixedLengthBytes => DecBlobLocal(f, s, t);
  }

  lemma DecFieldLocal(fs: seq<Field>, ms: seq<Slot>, k: nat, wt: WireType, s: seq<byte>, t: seq<byte>)
    requires Codable(fs) && AllTyped(fs, ms) && k < |fs| && DecField(fs, ms, k, wt, s).Some?
    ensures DecField(fs, ms, k, wt, s + t) ==
            Some((DecField(fs, ms, k, wt, s).value.0, DecField(fs, ms, k, wt, s).value.1 + t))
  {
    hide DecItem, DecPacked, DecPrefixed, SetMember, InitValue, Typed, Exclusive;
    var f := fs[k];
    assert FieldCodable(f) && SlotTyped(f, ms[k]);
    InitValueTyped(f);
    match f.h
    case Repeated =>
      if wt.WtString? && Packable(f.l) {
        DecPrefixedLocal(s, t);
      } else {
        DecItemLocal(f, InitValue(f), s, t);
      }
    case Oneof =>
      DecItemLocal(f, if f.l.Submessage? || ms[k].member.None? then InitValue(f) else ms[k].member.value, s, t);
    case Required => DecItemLocal(f, ms[k].v, s, t);
    case Optional => DecItemLocal(f, ms[k].v, s, t);
  }

  // The loop over fields --------------------------------------------------------------------------------------

  /** The loop over `a` followed by `b` is the loop over `b` from where the one over `a` got. */
  lemma {:induction false} LoopSplits(fs: seq<Field>, ms: seq<Slot>, seen: set<nat>, a: seq<byte>, b: seq<byte>)
    requires Codable(fs) && AllTyped(fs, ms)
    requires DecLoop(fs, ms, seen, a).Some? && !DecLoop(fs, ms, seen, a).value.stopped
    ensures var p := DecLoop(fs, ms, seen, a).value;
            DecLoop(fs, ms, seen, a + b) == DecLoop(fs, p.ms, p.seen, b)
    decreases |a|
  {
    hide DecKey, DecField, Skip, Lookup, See, Codable, AllTyped;
    if a == [] {
      assert a + b == b;
    } else {
      DecKeyLocal(a, b);
      var start := DecKey(a).value;
      match Lookup(fs, start.tag)
      case None =>
        SkipLocal(start.wt, start.rest, b);
        LoopSplits(fs, ms, seen, Skip(start.wt, start.rest).value, b);
      case Some(k) =>
        DecFieldLocal(fs, ms, k, start.wt, start.rest, b);
        var (next, rest) := DecField(fs, ms, k, start.wt, start.rest).value;
        LoopSplits(fs, next, See(fs, k, seen), rest, b);
    }
  }

  /** What has been seen before changes nothing else than what has been seen after. */
  lemma {:induction false} SeenAdds(fs: seq<Field>, ms: seq<Slot>, seen: set<nat>, more: set<nat>, s: seq<byte>)
    requires Codable(fs) && AllTyped(fs, ms)
    ensures var p, q := DecLoop(fs, ms, seen, s), DecLoop(fs, ms, seen + more, s);
            q == if p.None? then None else Some(p.value.(seen := p.value.seen + more))
    decreases |s|
  {
    hide DecKey, DecField, Skip, Lookup, Codable, AllTyped;
    if s != [] && DecKey(s).Some? && DecKey(s).value.Begin? {
      var start := DecKey(s).value;
      match Lookup(fs, start.tag)
      case None =>
        if Skip(start.wt, start.rest).Some? {
          SeenAdds(fs, ms, seen, more, Skip(start.wt, start.rest).value);
        }
      case Some(k) =>
        if DecField(fs, ms, k, start.wt, start.rest).Some? {
          var (next, rest) := DecField(fs, ms, k, start.wt, start.rest).value;
          assert See(fs, k, seen + more) == See(fs, k, seen) + more;
          SeenAdds(fs, next, See(fs, k, seen), more, rest);
        }
    }
  }

  /** Decoding `a` and `b` together is decoding `a`, then `b` into the same message, with the required fields checked
      over both. */
  lemma ConcatenationMerges(fs: seq<Field>, ms: seq<Slot>, a: seq<byte>, b: seq<byte>)
    requires Codable(fs) && AllTyped(fs, ms)
    requires DecLoop(fs, ms, {}, a).Some? && !DecLoop(fs, ms, {}, a).value.stopped
    ensures var p := DecLoop(fs, ms, {}, a).value;
            var q := DecLoop(fs, p.ms, {}, b);
            DecMessage(fs, ms, a + b) ==
              if q.None? || !AllSeen(fs, p.seen + q.value.seen) then None else Some(q.value.ms)
  {
    hide DecLoop, Codable, AllTyped, AllSeen;
    LoopSplits(fs, ms, {}, a, b);
    var p := DecLoop(fs, ms, {}, a).value;
    SeenAdds(fs, p.ms, {}, p.seen, b);
    assert {} + p.seen == p.seen;
    var q := DecLoop(fs, p.ms, {}, b);
    if q.Some? {
      assert q.value.seen + p.seen == p.seen + q.value.seen;
    }
  }

  /** One whole field with a number no descriptor has. */
  predicate Unknown(fs: seq<Field>, u: seq<byte>) {
    match DecKey(u)
    case Some(Begin(tag, wt, rest)) => Lookup(fs, tag).None? && (fs == [] ==> tag != 0) && Skip(wt, rest) == Some([])
    case _ => false
  }

  lemma UnknownPasses(fs: seq<Field>, ms: seq<Slot>, seen: set<nat>, u: seq<byte>)
    requires Codable(fs) && AllTyped(fs, ms) && Unknown(fs, u)
    ensures DecLoop(fs, ms, seen, u) == Some(Progress(ms, seen, false))
  {
    hide DecKey, DecField, Skip, Lookup, Codable, AllTyped;
    assert DecLoop(fs, ms, seen, []) == Some(Progress(ms, seen, false));
  }

  /** An unknown field put between any two leaves the result as it is. */
  lemma UnknownIgnored(fs: seq<Field>, ms: seq<Slot>, a: seq<byte>, u: seq<byte>, b: seq<byte>)
    requires Codable(fs) && AllTyped(fs, ms) && Unknown(fs, u)
    requires DecLoop(fs, ms, {}, a).Some? && !DecLoop(fs, ms, {}, a).value.stopped
    ensures DecMessage(fs, ms, a + (u + b)) == DecMessage(fs, ms, a + b)
  {
    hide DecLoop, Codable, AllTyped, AllSeen, Unknown;
    var p := DecLoop(fs, ms, {}, a).value;
    LoopSplits(fs, ms, {}, a, u + b);
    LoopSplits(fs, ms, {}, a, b);
    UnknownPasses(fs, p.ms, p.seen, u);
    LoopSplits(fs, p.ms, p.seen, u, b);
  }
}
