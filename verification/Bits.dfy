/** Machine words as natural numbers, with the bitwise operations the C sources use on them.
    A word is a plain `nat`; the width is applied where the source applies it. */
module Bits {

  type byte = x: int | 0 <= x < 256

  const U16: nat := 0x1_0000
  const U32: nat := 0x1_0000_0000
  const U64: nat := 0x1_0000_0000_0000_0000

  function Pow2(n: nat): (r: nat)
    ensures r >= 1
  {
    if n == 0 then 1 else 2 * Pow2(n - 1)
  }

  /** The test `(m >> k) & 1`. */
  predicate Bit(m: nat, k: nat) {
    if k == 0 then m % 2 == 1 else Bit(m / 2, k - 1)
  }

  /** The operator `a | b`. */
  function Or(a: nat, b: nat): nat {
    if a == 0 then b
    else if b == 0 then a
    else 2 * Or(a / 2, b / 2) + (if a % 2 == 1 || b % 2 == 1 then 1 else 0)
  }

  /** The operator `m << s` on a word of `width` bits. */
  function Shl(m: nat, s: nat, width: nat): nat {
    (m * Pow2(s)) % Pow2(width)
  }

  lemma {:induction false} ZeroHasNoBits(k: nat)
    ensures !Bit(0, k)
  {
    if k > 0 {
      ZeroHasNoBits(k - 1);
    }
  }

  lemma {:induction false} OrBits(a: nat, b: nat, k: nat)
    ensures Bit(Or(a, b), k) <==> Bit(a, k) || Bit(b, k)
  {
    if a == 0 {
      ZeroHasNoBits(k);
    } else if b == 0 {
      ZeroHasNoBits(k);
    } else {
      var low := if a % 2 == 1 || b % 2 == 1 then 1 else 0;
      assert Or(a, b) / 2 == Or(a / 2, b / 2) && Or(a, b) % 2 == low;
      if k > 0 {
        OrBits(a / 2, b / 2, k - 1);
      }
    }
  }

  lemma {:induction false} OrBelow(a: nat, b: nat, w: nat)
    requires a < Pow2(w) && b < Pow2(w)
    ensures Or(a, b) < Pow2(w)
  {
    if a != 0 && b != 0 {
      assert w > 0;
      OrBelow(a / 2, b / 2, w - 1);
    }
  }

  lemma {:induction false} DoubledBits(m: nat, k: nat)
    ensures Bit(2 * m, k) <==> k > 0 && Bit(m, k - 1)
  {
    assert 2 * m / 2 == m && (2 * m) % 2 == 0;
  }

  lemma {:induction false} ProductBits(m: nat, s: nat, k: nat)
    ensures Bit(m * Pow2(s), k) <==> k >= s && Bit(m, k - s)
  {
    if s > 0 {
      var half := m * Pow2(s - 1);
      assert m * Pow2(s) == 2 * half;
      DoubledBits(half, k);
      if k > 0 {
        ProductBits(m, s - 1, k - 1);
      }
    }
  }

  lemma Multiple(p: nat, d: int)
    ensures d >= 1 ==> p * d >= p
    ensures d <= -1 ==> p * d <= 0 - p
  {
  }

  lemma RemainderUnique(x: nat, p: nat, q: nat, r: nat)
    requires p > 0 && r < p && x == p * q + r
    ensures x / p == q && x % p == r
  {
    assert x == p * (x / p) + x % p;
    assert p * (x / p - q) == r - x % p;
    Multiple(p, x / p - q);
  }

  lemma TwoFirst(p: nat, q: nat)
    ensures (2 * p) * q == 2 * (p * q)
  {
  }

  /** Division in two steps: the low bit apart. */
  lemma HalfModulo(m: nat, p: nat, d: nat)
    requires p > 0 && d == 2 * p
    ensures m % d == 2 * ((m / 2) % p) + m % 2
  {
    var h := m / 2;
    var q, r := h / p, h % p;
    assert h == p * q + r;
    TwoFirst(p, q);
    RemainderUnique(m, d, q, 2 * r + m % 2);
  }

  lemma {:induction false} TruncatedBits(m: nat, w: nat, k: nat)
    ensures Bit(m % Pow2(w), k) <==> k < w && Bit(m, k)
  {
    if w == 0 {
      ZeroHasNoBits(k);
    } else {
      HalfModulo(m, Pow2(w - 1), Pow2(w));
      if k > 0 {
        TruncatedBits(m / 2, w - 1, k - 1);
      }
    }
  }

  lemma ShlBits(m: nat, s: nat, width: nat, k: nat)
    ensures Bit(Shl(m, s, width), k) <==> s <= k < width && Bit(m, k - s)
  {
    TruncatedBits(m * Pow2(s), width, k);
    ProductBits(m, s, k);
  }

  lemma {:induction false} OneBit(a: nat, k: nat)
    ensures Bit(Pow2(a), k) <==> k == a
  {
    if a == 0 {
      if k > 0 {
        ZeroHasNoBits(k - 1);
      }
    } else {
      DoubledBits(Pow2(a - 1), k);
      if k > 0 {
        OneBit(a - 1, k - 1);
      }
    }
  }

  lemma {:induction false} Pow2Monotone(a: nat, b: nat)
    requires a < b
    ensures Pow2(a) < Pow2(b)
  {
    if a + 1 < b {
      Pow2Monotone(a, b - 1);
    }
  }

  lemma {:induction false} Pow2Sum(a: nat, b: nat)
    ensures Pow2(a + b) == Pow2(a) * Pow2(b)
  {
    if a > 0 {
      Pow2Sum(a - 1, b);
    }
  }

  predicate AllSet(m: nat, w: nat) {
    forall k :: 0 <= k < w ==> Bit(m, k)
  }

  /** A word below 2^w is all ones exactly when every one of its w bits is set. */
  lemma {:induction false} AllOnes(m: nat, w: nat)
    requires m < Pow2(w)
    ensures m == Pow2(w) - 1 <==> AllSet(m, w)
  {
    if w > 0 {
      AllOnes(m / 2, w - 1);
      assert m == Pow2(w) - 1 <==> m / 2 == Pow2(w - 1) - 1 && m % 2 == 1;
      if AllSet(m / 2, w - 1) && m % 2 == 1 {
        forall k | 0 <= k < w
          ensures Bit(m, k)
        {
          assert k > 0 ==> Bit(m / 2, k - 1);
        }
      }
      if AllSet(m, w) {
        assert Bit(m, 0);
        forall k | 0 <= k < w - 1
          ensures Bit(m / 2, k)
        {
          assert Bit(m, k + 1);
        }
      }
    }
  }

  lemma Widths()
    ensures Pow2(16) == U16 && Pow2(32) == U32 && Pow2(48) == 0x1_0000_0000_0000 && Pow2(64) == U64
  {
    assert Pow2(8) == 256;
    Pow2Sum(8, 8);
    Pow2Sum(16, 16);
    Pow2Sum(16, 32);
    Pow2Sum(32, 32);
  }

  /** The number a big-endian byte string denotes. */
  function BigEndian(s: seq<byte>): nat {
    if s == [] then 0 else 256 * BigEndian(s[..|s| - 1]) + s[|s| - 1]
  }

  lemma BigEndianShort(s: seq<byte>)
    ensures |s| == 2 ==> BigEndian(s) == s[0] as int * 0x100 + s[1] as int
    ensures |s| == 3 ==> BigEndian(s) == s[0] as int * 0x1_0000 + s[1] as int * 0x100 + s[2] as int
  {
    if |s| == 2 || |s| == 3 {
      assert BigEndian(s[..1]) == s[0] as int by {
        assert BigEndian(s[..1][..0]) == 0;
      }
      assert s[..2][..1] == s[..1];
    }
  }

  function Be24(n: nat): (s: seq<byte>)
    requires n < 0x100_0000
    ensures |s| == 3
  {
    [n / 0x1_0000, n / 0x100 % 0x100, n % 0x100]
  }

  function Be16(n: nat): (s: seq<byte>)
    requires n < U16
    ensures |s| == 2
  {
    [n / 0x100, n % 0x100]
  }

  function FromBe24(s: seq<byte>): (n: nat)
    requires |s| == 3
    ensures n < 0x100_0000
  {
    s[0] as int * 0x1_0000 + s[1] as int * 0x100 + s[2] as int
  }

  function FromBe16(s: seq<byte>): (n: nat)
    requires |s| == 2
    ensures n < U16
  {
    s[0] as int * 0x100 + s[1] as int
  }

  lemma Be24Back(n: nat)
    requires n < 0x100_0000
    ensures FromBe24(Be24(n)) == n
  {
  }

  lemma Be16Back(n: nat)
    requires n < U16
    ensures FromBe16(Be16(n)) == n
  {
  }

  lemma NumbersAgree(s: seq<byte>)
    ensures |s| == 3 ==> Be24(FromBe24(s)) == s
    ensures |s| == 2 ==> Be16(FromBe16(s)) == s
  {
    if |s| == 3 {
      var n := FromBe24(s);
      RemainderUnique(n, 0x1_0000, s[0], s[1] as int * 0x100 + s[2] as int);
      RemainderUnique(n, 0x100, s[0] as int * 0x100 + s[1] as int, s[2]);
    }
  }

  lemma Be24Means(n: nat)
    requires n < 0x100_0000
    ensures BigEndian(Be24(n)) == n
  {
    BigEndianShort(Be24(n));
  }

  lemma Be16Means(n: nat)
    requires n < U16
    ensures BigEndian(Be16(n)) == n
  {
    BigEndianShort(Be16(n));
  }

  lemma Pow2Byte(n: nat)
    ensures Pow2(8 * (n + 1)) == 256 * Pow2(8 * n)
  {
    assert Pow2(8) == 256;
    Pow2Sum(8, 8 * n);
  }

  lemma SmallModulo(x: nat, m: nat)
    requires m > 0
    ensures x < m ==> x % m == x
    ensures x == m ==> x % m == 0
  {
  }

  lemma Scaled(x: nat, p: nat, y: nat, b: nat)
    ensures 256 * (x * p + y) + b == x * (256 * p) + (256 * y + b)
  {
    assert 256 * (x * p) == x * (256 * p);
  }

  lemma {:induction false} BigEndianZeros(s: seq<byte>)
    requires forall i :: 0 <= i < |s| ==> s[i] == 0
    ensures BigEndian(s) == 0
  {
    if s != [] {
      BigEndianZeros(s[..|s| - 1]);
    }
  }

  lemma {:induction false} BigEndianConcat(s: seq<byte>, t: seq<byte>)
    ensures BigEndian(s + t) == BigEndian(s) * Pow2(8 * |t|) + BigEndian(t)
  {
    if t == [] {
      assert s + t == s;
    } else {
      var u, b := t[..|t| - 1], t[|t| - 1];
      assert (s + t)[..|s + t| - 1] == s + u;
      BigEndianConcat(s, u);
      Pow2Byte(|u|);
      Scaled(BigEndian(s), Pow2(8 * |u|), BigEndian(u), b);
    }
  }

  lemma {:induction false} BigEndianBelow(s: seq<byte>)
    ensures BigEndian(s) < Pow2(8 * |s|)
  {
    if s != [] {
      BigEndianBelow(s[..|s| - 1]);
      Pow2Byte(|s| - 1);
    }
  }
}
