/** Scalars on the wire: base 128 varints, zigzag, little-endian words (Protocol Buffers encoding, "Base 128 Varints"
    and "Signed Integers"; pb_encode.c and pb_decode.c). */
module PbVarint {
  import opened Bits
  import opened Wrappers

  // Base 128 varints -------------------------------------------------------------------------------------

  function Base128(n: nat): (s: seq<byte>)
    ensures s != []
  {
    if n < 128 then [n] else [128 + n % 128] + Base128(n / 128)
  }

  /** The loop of `pb_decode_varint` with `bitpos` bits in `result`. */
  function Dec64From(s: seq<byte>, bitpos: nat, result: nat): (r: Option<(nat, seq<byte>)>)
    ensures r.Some? ==> |r.value.1| < |s|
  {
    if bitpos >= 64 || s == [] then None
    else
      var more := Or(result, Shl(s[0] % 128, bitpos, 64));
      if s[0] >= 128 then Dec64From(s[1..], bitpos + 7, more) else Some((more, s[1..]))
  }

  function Dec64(s: seq<byte>): (r: Option<(nat, seq<byte>)>)
    ensures r.Some? ==> |r.value.1| < |s|
  {
    Dec64From(s, 0, 0)
  }

  /** The loop of `pb_decode_varint32_eof` from the second byte on; `bitpos` is an 8-bit counter. */
  function Dec32From(s: seq<byte>, bitpos: nat, result: nat): (r: Option<(nat, seq<byte>)>)
    ensures r.Some? ==> |r.value.1| < |s|
  {
    if s == [] then None
    else
      var b := s[0];
      var sign := if bitpos < 63 then 255 else 1;
      if bitpos >= 32 && b % 128 != 0 && (!Bit(result, 31) || b != sign) then None
      else
        var more := if bitpos >= 32 then result else Or(result, Shl(b % 128, bitpos, 32));
        var next := (bitpos + 7) % 256;
        if b >= 128 then Dec32From(s[1..], next, more)
        else if next == 35 && b / 16 % 8 != 0 then None
        else Some((more, s[1..]))
  }

  function Dec32(s: seq<byte>): (r: Option<(nat, seq<byte>)>)
    ensures r.Some? ==> |r.value.1| < |s|
  {
    if s == [] then None
    else if s[0] < 128 then Some((s[0], s[1..]))
    else Dec32From(s[1..], 7, s[0] % 128)
  }

  /** Or is addition where the bits do not meet. */
  lemma {:induction false} OrApart(a: nat, x: nat, k: nat)
    requires a < Pow2(k)
    ensures Or(a, x * Pow2(k)) == a + x * Pow2(k)
  {
    if a != 0 && x * Pow2(k) != 0 {
      var p := Pow2(k - 1);
      assert x * Pow2(k) == 2 * (x * p);
      OrApart(a / 2, x, k - 1);
    }
  }

  lemma ShlBelow(x: nat, k: nat, w: nat)
    requires x * Pow2(k) < Pow2(w)
    ensures Shl(x, k, w) == x * Pow2(k)
  {
    SmallModulo(x * Pow2(k), Pow2(w));
  }

  /** One group of seven bits more: `result + n << bitpos` stays the same number. */
  lemma OneGroup(result: nat, n: nat, bitpos: nat, w: nat)
    requires result < Pow2(bitpos) && n * Pow2(bitpos) < Pow2(w)
    ensures Or(result, Shl(n % 128, bitpos, w)) == result + n % 128 * Pow2(bitpos)
    ensures result + n % 128 * Pow2(bitpos) < Pow2(bitpos + 7)
    ensures n / 128 * Pow2(bitpos + 7) <= n * Pow2(bitpos)
    ensures result + n % 128 * Pow2(bitpos) + n / 128 * Pow2(bitpos + 7) == result + n * Pow2(bitpos)
  {
    var p := Pow2(bitpos);
    assert Pow2(7) == 128;
    Pow2Sum(7, bitpos);
    SplitProduct(n / 128, n % 128, p);
    ShlBelow(n % 128, bitpos, w);
    OrApart(result, n % 128, bitpos);
    Scale(n % 128, 127, p);
  }

  lemma SplitProduct(q: nat, r: nat, p: nat)
    ensures (128 * q + r) * p == q * (128 * p) + r * p
  {
  }

  lemma Scale(a: nat, b: nat, p: nat)
    requires a <= b
    ensures a * p <= b * p
  {
  }

  lemma {:induction false} Dec64Below(s: seq<byte>, bitpos: nat, result: nat)
    requires result < Pow2(64)
    ensures var r := Dec64From(s, bitpos, result); r.Some? ==> r.value.0 < Pow2(64)
    decreases |s|
  {
    hide Pow2, Or, Shl;
    if bitpos < 64 && s != [] {
      var group := Shl(s[0] % 128, bitpos, 64);
      ShlSmall(s[0] % 128, bitpos, 64);
      OrBelow(result, group, 64);
      Dec64Below(s[1..], bitpos + 7, Or(result, group));
    }
  }

  lemma ShlSmall(x: nat, k: nat, w: nat)
    ensures Shl(x, k, w) < Pow2(w)
  {
  }

  lemma Dec64IsWord(s: seq<byte>)
    ensures Dec64(s).Some? ==> Dec64(s).value.0 < U64
  {
    Widths();
    Dec64Below(s, 0, 0);
  }

  lemma Dec32Byte(b: byte, t: seq<byte>, bitpos: nat, result: nat)
    requires b >= 128 && bitpos < 32
    ensures Dec32From([b] + t, bitpos, result) == Dec32From(t, bitpos + 7, Or(result, Shl(b % 128, bitpos, 32)))
  {
    hide Pow2, Or, Shl, Bit;
    assert ([b] + t)[1..] == t;
  }

  lemma VarintMore(n: nat, rest: seq<byte>)
    requires n >= 128
    ensures Base128(n) + rest == [128 + n % 128] + (Base128(n / 128) + rest)
  {
  }

  /** A group that is not the last, with all its bits inside the word. */
  lemma Dec32Step(n: nat, bitpos: nat, result: nat, rest: seq<byte>)
    requires n >= 128 && bitpos + 7 <= 32 && result < Pow2(bitpos)
    ensures Dec32From(Base128(n) + rest, bitpos, result) ==
            Dec32From(Base128(n / 128) + rest, bitpos + 7, result + n % 128 * Pow2(bitpos))
    ensures result + n % 128 * Pow2(bitpos) < Pow2(bitpos + 7)
  {
    hide Pow2, Or, Shl, Base128, Dec32From;
    VarintMore(n, rest);
    Dec32Byte(128 + n % 128, Base128(n / 128) + rest, bitpos, result);
    GroupInside(n % 128, bitpos);
    OneGroup(result, n % 128, bitpos, 32);
  }

  lemma GroupInside(low: nat, bitpos: nat)
    requires low < 128 && bitpos + 7 <= 32
    ensures low * Pow2(bitpos) < Pow2(32)
  {
    hide Pow2;
    Pow2Sum(7, bitpos);
    SevenBits();
    Scale(low, 127, Pow2(bitpos));
    if bitpos + 7 < 32 {
      Pow2Monotone(bitpos + 7, 32);
    }
  }

  lemma SevenBits()
    ensures Pow2(7) == 128
  {
  }

  lemma TopGroup(n: nat)
    requires n * Pow2(28) < Pow2(32)
    ensures n < 16
  {
    assert Pow2(4) == 16;
    Pow2Sum(4, 28);
    if n >= 16 {
      Scale(16, n, Pow2(28));
    }
  }

  lemma Dec32Start(n: nat, rest: seq<byte>)
    requires n >= 128
    ensures Dec32(Base128(n) + rest) == Dec32From(Base128(n / 128) + rest, 7, n % 128)
  {
    hide Dec32From;
    var s := Base128(n) + rest;
    assert s[0] % 128 == n % 128 && s[1..] == Base128(n / 128) + rest;
  }

  /** The last five bytes of a sign-extended negative number. */
  lemma SignBytes(rest: seq<byte>, result: nat)
    requires Bit(result, 31)
    ensures Dec32From(Base128(0x1fff_ffff) + rest, 35, result) == Some((result, rest))
  {
    hide Bit, Dec32From, Base128;
    Ones();
    SignTail(rest, 63, result);
    SignStep([1] + rest, 56, result);
    SignStep([255, 1] + rest, 49, result);
    SignStep([255, 255, 1] + rest, 42, result);
    SignStep([255, 255, 255, 1] + rest, 35, result);
    assert [255] + ([255, 255, 255, 1] + rest) == [255, 255, 255, 255, 1] + rest;
    assert [255] + ([255, 255, 1] + rest) == [255, 255, 255, 1] + rest;
    assert [255] + ([255, 1] + rest) == [255, 255, 1] + rest;
    assert [255] + ([1] + rest) == [255, 1] + rest;
  }

  lemma Ones()
    ensures Base128(0x1fff_ffff) == [255, 255, 255, 255, 1]
  {
    assert Base128(255) == [255] + Base128(1);
    assert Base128(0x7fff) == [255] + Base128(255);
    assert Base128(0x3f_ffff) == [255] + Base128(0x7fff);
  }

  lemma SignStep(s: seq<byte>, bitpos: nat, result: nat)
    requires 32 <= bitpos < 63 && Bit(result, 31)
    ensures Dec32From([255] + s, bitpos, result) == Dec32From(s, bitpos + 7, result)
  {
    hide Bit, Or, Shl, Pow2;
    assert ([255] + s)[1..] == s;
  }

  lemma SignTail(rest: seq<byte>, bitpos: nat, result: nat)
    requires bitpos == 63 && Bit(result, 31)
    ensures Dec32From([1] + rest, bitpos, result) == Some((result, rest))
  {
    hide Bit, Or, Shl, Pow2;
    assert ([1] + rest)[1..] == rest;
  }

  lemma {:induction false} TopBitSet(m: nat, w: nat)
    requires Pow2(w) <= m < 2 * Pow2(w)
    ensures Bit(m, w)
  {
    if w > 0 {
      TopBitSet(m / 2, w - 1);
    }
  }

  lemma Powers()
    ensures Pow2(14) == 0x4000 && Pow2(21) == 0x20_0000 && Pow2(28) == 0x1000_0000 && Pow2(31) == 0x8000_0000
  {
    SevenBits();
    Pow2Sum(7, 7);
    Pow2Sum(14, 7);
    Pow2Sum(14, 14);
    Pow2Sum(28, 3);
  }

  /** The fifth group of a sign-extended number: its upper three bits fall off the word. */
  lemma FifthGroup(top: nat, n: nat, result: nat, rest: seq<byte>)
    requires 8 <= top < 16 && n == top + 16 * 0xffff_ffff && result < 0x1000_0000
    ensures Dec32From(Base128(n) + rest, 28, result) ==
            Dec32From(Base128(0x1fff_ffff) + rest, 35, result + top * 0x1000_0000)
  {
    hide Pow2, Or, Shl, Dec32From;
    assert n % 128 == top + 112 && n / 128 == 0x1fff_ffff;
    VarintMore(n, rest);
    Dec32Byte(128 + n % 128, Base128(0x1fff_ffff) + rest, 28, result);
    ShiftedOut(top);
    Powers();
    OrApart(result, top, 28);
  }

  lemma ShiftedOut(top: nat)
    requires top < 16
    ensures Shl(top + 112, 28, 32) == top * 0x1000_0000
  {
    hide Pow2;
    Powers();
    Widths();
    assert (top + 112) * 0x1000_0000 == top * 0x1000_0000 + 7 * U32;
  }

  /** It also reads a negative int32 as other encoders write it, sign-extended to 64 bits: `m` is its two's complement
      in 32 bits. */
  lemma Varint32SignExtended(m: nat, rest: seq<byte>)
    requires 0x8000_0000 <= m < U32
    ensures Dec32(Base128(m + 0xffff_ffff * U32) + rest) == Some((m, rest))
  {
    hide Pow2, Dec32From, Bit, Base128, Dec32;
    var n := m + 0xffff_ffff * U32;
    var n1 := n / 128;
    var n2 := n1 / 128;
    var n3 := n2 / 128;
    var n4 := n3 / 128;
    Powers();
    SevenBits();
    var r1 := n % 128;
    var r2 := r1 + n1 % 128 * 0x80;
    var r3 := r2 + n2 % 128 * 0x4000;
    var r4 := r3 + n3 % 128 * 0x20_0000;
    Dec32Start(n, rest);
    Dec32Step(n1, 7, r1, rest);
    Dec32Step(n2, 14, r2, rest);
    Dec32Step(n3, 21, r3, rest);
    var top := m / 0x1000_0000;
    assert n == r4 + 0x1000_0000 * n4;
    FifthGroup(top, n4, r4, rest);
    TopBitSet(m, 31);
    SignBytes(rest, m);
  }

  // What the bytes mean -----------------------------------------------------------------------------------

  /** The number that groups of seven bits spell, the lowest first. */
  function FromGroups(s: seq<byte>): nat {
    if s == [] then 0 else s[0] % 128 + 128 * FromGroups(s[1..])
  }

  /** One varint: the top bit is set in every byte but the last. */
  predicate IsVarint(s: seq<byte>) {
    s != [] && s[|s| - 1] < 128 && forall i :: 0 <= i < |s| - 1 ==> s[i] >= 128
  }

  /** The encoding of a number is the one varint that spells it and does not end in an empty group. */
  lemma {:induction false} Base128Means(n: nat)
    ensures var s := Base128(n); IsVarint(s) && FromGroups(s) == n && (|s| > 1 ==> s[|s| - 1] != 0)
    decreases n
  {
    var s := Base128(n);
    if n < 128 {
      assert FromGroups(s[1..]) == 0;
    } else {
      Base128Means(n / 128);
      assert s[1..] == Base128(n / 128);
    }
  }

  lemma {:induction false} VarintLength(n: nat, k: nat)
    requires n < Pow2(7 * k) && k > 0
    ensures |Base128(n)| <= k
    decreases k
  {
    if n >= 128 {
      assert k > 1 by {
        SevenBits();
      }
      Pow2Sum(7, 7 * (k - 1));
      SevenBits();
      VarintLength(n / 128, k - 1);
    }
  }

  lemma LastGroup(x: nat, result: nat)
    requires x < 128 && result < Pow2(63)
    ensures Or(result, Shl(x, 63, 64)) == (result + x * Pow2(63)) % Pow2(64)
  {
    hide Pow2, Or;
    var p := Pow2(63);
    assert Pow2(64) == 2 * p by {
      Pow2Sum(1, 63);
      SmallPowers();
    }
    var q, b := x / 2, x % 2;
    assert x * p == (2 * p) * q + b * p by {
      Halves(q, b, p);
    }
    assert b * p <= p;
    RemainderUnique(x * p, 2 * p, q, b * p);
    OrApart(result, b, 63);
    RemainderUnique(result + x * p, 2 * p, q, result + b * p);
  }

  lemma Halves(q: nat, b: nat, p: nat)
    ensures (2 * q + b) * p == (2 * p) * q + b * p
  {
  }

  lemma {:induction false} Dec64OfVarint(s: seq<byte>, rest: seq<byte>, bitpos: nat, result: nat)
    requires IsVarint(s) && bitpos % 7 == 0 && (bitpos < 64 ==> result < Pow2(bitpos))
    ensures Dec64From(s + rest, bitpos, result) ==
            if bitpos + 7 * (|s| - 1) < 64 then Some(((result + FromGroups(s) * Pow2(bitpos)) % Pow2(64), rest))
            else None
    decreases |s|
  {
    hide Pow2, Or, Shl;
    if bitpos < 64 {
      var x, tail := s[0] % 128, s[1..];
      assert (s + rest)[1..] == tail + rest;
      var group := Or(result, Shl(x, bitpos, 64));
      if bitpos < 63 {
        GroupJoins(x, bitpos, result);
        if s[0] >= 128 {
          Dec64OfVarint(tail, rest, bitpos + 7, group);
          GroupScales(FromGroups(tail), x, bitpos);
        } else {
          assert tail == [] && FromGroups(s) == x;
          SmallModulo(group, Pow2(64));
        }
      } else {
        LastGroup(x, result);
        if s[0] < 128 {
          assert tail == [] && FromGroups(s) == x;
        }
      }
    }
  }

  lemma GroupJoins(x: nat, bitpos: nat, result: nat)
    requires x < 128 && bitpos <= 56 && result < Pow2(bitpos)
    ensures Or(result, Shl(x, bitpos, 64)) == result + x * Pow2(bitpos) < Pow2(bitpos + 7) < Pow2(64)
  {
    hide Pow2, Or, Shl;
    SevenBits();
    Pow2Sum(7, bitpos);
    Scale(x, 127, Pow2(bitpos));
    Pow2Monotone(bitpos + 7, 64);
    OneGroup(result, x, bitpos, 64);
  }

  lemma GroupScales(tail: nat, x: nat, bitpos: nat)
    ensures tail * Pow2(bitpos + 7) + x * Pow2(bitpos) == (x + 128 * tail) * Pow2(bitpos)
  {
    hide Pow2;
    SevenBits();
    Pow2Sum(7, bitpos);
    SplitProduct(tail, x, Pow2(bitpos));
  }

  /** The 64-bit decoder on every input: a varint of up to ten bytes, canonical or not, gives the number it spells in
      64 bits; a longer one and one without an end are refused. */
  lemma Varint64Exactly(s: seq<byte>, rest: seq<byte>)
    ensures IsVarint(s) ==> Dec64(s + rest) == if |s| <= 10 then Some((FromGroups(s) % U64, rest)) else None
    ensures (forall i :: 0 <= i < |s| ==> s[i] >= 128) ==> Dec64(s) == None
  {
    hide Pow2, Dec64From;
    Widths();
    if IsVarint(s) {
      SmallPowers();
      Dec64OfVarint(s, rest, 0, 0);
    }
    if forall i :: 0 <= i < |s| ==> s[i] >= 128 {
      Dec64Endless(s, 0, 0);
    }
  }

  /** Decoding an encoded 64-bit number gives it back, whatever follows. */
  lemma Varint64RoundTrip(n: nat, rest: seq<byte>)
    requires n < U64
    ensures Dec64(Base128(n) + rest) == Some((n, rest))
  {
    hide Pow2, Dec64, FromGroups, Base128;
    Base128Means(n);
    Widths();
    Pow2Monotone(64, 70);
    VarintLength(n, 10);
    Varint64Exactly(Base128(n), rest);
    SmallModulo(n, U64);
  }

  lemma {:induction false} Dec64Endless(s: seq<byte>, bitpos: nat, result: nat)
    requires forall i :: 0 <= i < |s| ==> s[i] >= 128
    ensures Dec64From(s, bitpos, result) == None
    decreases |s|
  {
    hide Or, Shl;
    if s != [] && bitpos < 64 {
      Dec64Endless(s[1..], bitpos + 7, Or(result, Shl(s[0] % 128, bitpos, 64)));
    }
  }

  lemma VarintTail(s: seq<byte>)
    requires IsVarint(s)
    ensures s != [] && FromGroups(s) == s[0] % 128 + 128 * FromGroups(s[1..])
    ensures if s[0] >= 128 then IsVarint(s[1..]) else s[1..] == [] && FromGroups(s) == s[0]
  {
  }

  lemma EmptyGroups(s: seq<byte>, bitpos: nat)
    requires s != [] && bitpos >= 32 && FromGroups(s) * Pow2(bitpos) < Pow2(32)
    ensures FromGroups(s) == 0 && s[0] % 128 == 0 && FromGroups(s[1..]) == 0
  {
    hide Pow2;
    if bitpos > 32 {
      Pow2Monotone(32, bitpos);
    }
    if FromGroups(s) > 0 {
      Scale(1, FromGroups(s), Pow2(bitpos));
    }
  }

  lemma GroupJoins32(x: nat, tail: nat, bitpos: nat, result: nat)
    requires x < 128 && bitpos <= 28 && result < Pow2(bitpos) && (x + 128 * tail) * Pow2(bitpos) < Pow2(32)
    ensures Or(result, Shl(x, bitpos, 32)) == result + x * Pow2(bitpos) < Pow2(bitpos + 7)
    ensures tail * Pow2(bitpos + 7) + x * Pow2(bitpos) == (x + 128 * tail) * Pow2(bitpos)
    ensures tail * Pow2(bitpos + 7) < Pow2(32) && (bitpos == 28 ==> x < 16)
  {
    hide Pow2, Or, Shl;
    GroupScales(tail, x, bitpos);
    assert x * Pow2(bitpos) < Pow2(32);
    OneGroup(result, x, bitpos, 32);
    if bitpos == 28 {
      TopGroup(x);
    }
  }

  lemma {:induction false} Dec32OfVarint(s: seq<byte>, rest: seq<byte>, bitpos: nat, result: nat)
    requires IsVarint(s) && bitpos % 7 == 0 && 0 < bitpos && bitpos + 7 * |s| <= 70
    requires (bitpos < 32 ==> result < Pow2(bitpos)) && FromGroups(s) * Pow2(bitpos) < Pow2(32)
    ensures Dec32From(s + rest, bitpos, result) == Some((result + FromGroups(s) * Pow2(bitpos), rest))
    decreases |s|
  {
    hide Pow2, Or, Shl, Bit, IsVarint, FromGroups;
    VarintTail(s);
    var x, tail := s[0] % 128, s[1..];
    assert (s + rest)[1..] == tail + rest;
    if bitpos >= 32 {
      EmptyGroups(s, bitpos);
      if s[0] >= 128 {
        Dec32OfVarint(tail, rest, bitpos + 7, result);
      }
    } else {
      GroupJoins32(x, FromGroups(tail), bitpos, result);
      if s[0] >= 128 {
        Dec32OfVarint(tail, rest, bitpos + 7, result + x * Pow2(bitpos));
      }
    }
  }

  lemma MoreGroups(tail: nat, x: nat)
    requires x < 128
    ensures x < Pow2(7) && x + tail * Pow2(7) == x + 128 * tail
    ensures x + 128 * tail < U32 ==> tail * Pow2(7) < Pow2(32)
  {
    hide Pow2;
    SevenBits();
    Widths();
  }

  /** The 32-bit decoder reads every varint of up to ten bytes that spells a number below 2^32, canonical or with empty
      groups behind. */
  lemma Varint32Padded(s: seq<byte>, rest: seq<byte>)
    requires IsVarint(s) && |s| <= 10 && FromGroups(s) < U32
    ensures Dec32(s + rest) == Some((FromGroups(s), rest))
  {
    hide Pow2, Dec32From, IsVarint, FromGroups;
    VarintTail(s);
    assert (s + rest)[1..] == s[1..] + rest;
    if s[0] >= 128 {
      MoreGroups(FromGroups(s[1..]), s[0] % 128);
      Dec32OfVarint(s[1..], rest, 7, s[0] % 128);
    }
  }

  /** So it reads the canonical encoding of every number below 2^32. */
  lemma Varint32RoundTrip(n: nat, rest: seq<byte>)
    requires n < U32
    ensures Dec32(Base128(n) + rest) == Some((n, rest))
  {
    hide Pow2, Dec32, FromGroups, Base128;
    Base128Means(n);
    Widths();
    Pow2Monotone(32, 70);
    VarintLength(n, 10);
    Varint32Padded(Base128(n), rest);
  }

  /** Past its fifth byte a 32-bit varint may hold empty groups and sign bits alone. */
  lemma {:induction false} Dec32Overflows(n: nat, bitpos: nat, result: nat, rest: seq<byte>)
    requires n > 0 && 35 <= bitpos < 63 && n < Pow2(63 - bitpos)
    ensures Dec32From(Base128(n) + rest, bitpos, result) == None
    decreases n
  {
    hide Bit, Pow2;
    var s := Base128(n) + rest;
    if n >= 128 {
      assert s[1..] == Base128(n / 128) + rest;
      FewerBits(n, 63 - bitpos);
      Dec32Overflows(n / 128, bitpos + 7, result, rest);
    }
  }

  lemma FewerBits(n: nat, w: nat)
    requires 128 <= n < Pow2(w)
    ensures w > 7 && n / 128 < Pow2(w - 7)
  {
    hide Pow2;
    SevenBits();
    if w <= 7 {
      if w < 7 {
        Pow2Monotone(w, 7);
      }
    } else {
      Pow2Sum(7, w - 7);
    }
  }

  lemma MoreBits(n: nat, w: nat)
    requires Pow2(w) <= n && w >= 7
    ensures Pow2(w - 7) <= n / 128
  {
    hide Pow2;
    SevenBits();
    Pow2Sum(7, w - 7);
  }

  lemma {:induction false} Dec32Refused(n: nat, bitpos: nat, result: nat, rest: seq<byte>)
    requires bitpos == 7 || bitpos == 14 || bitpos == 21 || bitpos == 28
    requires Pow2(32 - bitpos) <= n < Pow2(63 - bitpos)
    ensures Dec32From(Base128(n) + rest, bitpos, result) == None
    decreases n
  {
    hide Bit, Pow2, Or, Shl;
    var s := Base128(n) + rest;
    assert Pow2(4) == 16 && Pow2(7) == 128 by {
      SmallPowers();
      SevenBits();
    }
    if bitpos < 28 {
      if 32 - bitpos > 7 {
        Pow2Monotone(7, 32 - bitpos);
      }
      MoreBits(n, 32 - bitpos);
    }
    if n >= 128 {
      assert s[1..] == Base128(n / 128) + rest;
      FewerBits(n, 63 - bitpos);
      var more := Or(result, Shl(s[0] % 128, bitpos, 32));
      if bitpos < 28 {
        Dec32Refused(n / 128, bitpos + 7, more, rest);
      } else {
        Dec32Overflows(n / 128, 35, more, rest);
      }
    }
  }

  lemma SmallPowers()
    ensures Pow2(0) == 1 && Pow2(1) == 2 && Pow2(4) == 16
  {
  }

  /** A length or a key of 2^32 or more is refused, but for the sign-extended numbers. */
  lemma Varint32Refuses(n: nat, rest: seq<byte>)
    requires U32 <= n < 0x8000_0000_0000_0000
    ensures Dec32(Base128(n) + rest) == None
  {
    hide Pow2, Dec32From;
    Widths();
    assert Pow2(64) == 2 * Pow2(63) by {
      Pow2Sum(1, 63);
      SmallPowers();
    }
    Dec32Start(n, rest);
    MoreBits(n, 32);
    FewerBits(n, 63);
    Dec32Refused(n / 128, 7, n % 128, rest);
  }

  // Zigzag ------------------------------------------------------------------------------------------------

  predicate IsInt64(v: int) {
    -0x8000_0000_0000_0000 <= v < 0x8000_0000_0000_0000
  }

  /** The 64-bit word of a signed number, and back. */
  function Word(v: int): (n: nat)
    requires IsInt64(v)
    ensures n < U64
  {
    if v < 0 then v + U64 else v
  }

  function Signed(n: nat, width: nat): int
    requires width == U64 || width == U32
  {
    if n % width >= width / 2 then n % width - width else n % width
  }

  /** `pb_encode_svarint`: `~(value << 1)` for negative values, `value << 1` otherwise. */
  function ZigZag(v: int): (n: nat)
    requires IsInt64(v)
    ensures n < U64
  {
    if v < 0 then U64 - 1 - 2 * Word(v) % U64 else 2 * Word(v) % U64
  }

  /** `pb_decode_svarint`: `~(value >> 1)` for odd values, `value >> 1` otherwise. */
  function UnZigZag(n: nat): int
    requires n < U64
  {
    Signed(if n % 2 == 1 then U64 - 1 - n / 2 else n / 2, U64)
  }

  /** Zigzag numbers the integers 0, -1, 1, -2, ... and is undone by the decoder; every word is one. */
  lemma ZigZagRoundTrip(v: int, n: nat)
    requires IsInt64(v) && n < U64
    ensures ZigZag(v) == (if v >= 0 then 2 * v else -2 * v - 1)
    ensures UnZigZag(ZigZag(v)) == v
    ensures IsInt64(UnZigZag(n)) && ZigZag(UnZigZag(n)) == n
  {
  }

  lemma WordRoundTrip(v: int)
    requires IsInt64(v)
    ensures Signed(Word(v), U64) == v
    ensures -0x8000_0000 <= v < 0x8000_0000 ==> Signed(Word(v), U32) == v
  {
  }

  // Little-endian words -------------------------------------------------------------------------------------

  function LittleEndian(n: nat, bytes: nat): (s: seq<byte>)
    ensures |s| == bytes
  {
    if bytes == 0 then [] else [n % 256] + LittleEndian(n / 256, bytes - 1)
  }

  function FromLittleEndian(s: seq<byte>): nat {
    if s == [] then 0 else s[0] + 256 * FromLittleEndian(s[1..])
  }

  lemma {:induction false} LittleEndianRoundTrip(n: nat, bytes: nat)
    requires n < Pow2(8 * bytes)
    ensures FromLittleEndian(LittleEndian(n, bytes)) == n
  {
    if bytes > 0 {
      Pow2Byte(bytes - 1);
      LittleEndianRoundTrip(n / 256, bytes - 1);
      assert LittleEndian(n, bytes)[1..] == LittleEndian(n / 256, bytes - 1);
    }
  }

  /** The lowest byte first. */
  lemma {:induction false} LittleEndianDigits(n: nat, bytes: nat, i: nat)
    requires i < bytes
    ensures LittleEndian(n, bytes)[i] == n / Pow2(8 * i) % 256
    decreases i
  {
    if i > 0 {
      LittleEndianDigits(n / 256, bytes - 1, i - 1);
      Pow2Byte(i - 1);
      DivideTwice(n, Pow2(8 * (i - 1)));
    }
  }

  lemma DivideTwice(n: nat, p: nat)
    requires p > 0
    ensures n / (256 * p) == n / 256 / p
  {
    var q := n / 256;
    assert n == 256 * q + n % 256 && q == p * (q / p) + q % p;
    assert 256 * (p * (q / p)) == 256 * p * (q / p);
    RemainderUnique(n, 256 * p, q / p, 256 * (q % p) + n % 256);
  }

  lemma {:induction false} FromLittleEndianBelow(s: seq<byte>)
    ensures FromLittleEndian(s) < Pow2(8 * |s|)
  {
    if s != [] {
      FromLittleEndianBelow(s[1..]);
      Pow2Byte(|s| - 1);
    }
  }
}
