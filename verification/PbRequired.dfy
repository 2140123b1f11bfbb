/** The bitmap of required fields in pb_decode_noinit (pb_decode.c). */
module PbRequired {
  import opened Bits
  import opened PbField

  /** Two 32-bit words stand for the set of required numbers seen. */
  ghost predicate Stands(words: seq<nat>, seen: set<nat>) {
    && |words| == 2
    && words[0] < Pow2(32) && words[1] < Pow2(32)
    && forall n: nat :: n < MAX_REQUIRED ==> (Bit(words[n / 32], n % 32) <==> n in seen)
  }

  /** The numbers that are checked: the first 64 of the required fields. */
  function Checked(fs: seq<Field>): (n: nat)
    ensures n <= MAX_REQUIRED
  {
    var all := RequiredBefore(fs, |fs|);
    if all > MAX_REQUIRED then MAX_REQUIRED else all
  }

  predicate AllSeen(fs: seq<Field>, seen: set<nat>) {
    forall n: nat :: n < Checked(fs) ==> n in seen
  }

  ghost predicate OnlyChecked(fs: seq<Field>, seen: set<nat>) {
    forall n: nat :: n in seen ==> n < Checked(fs)
  }

  /** The same said of fields: each of the first 64 required ones has its number in the set, and each number checked is
      that of exactly one field. */
  lemma AllSeenMeans(fs: seq<Field>, seen: set<nat>)
    ensures AllSeen(fs, seen) <==>
            forall k: nat :: k < |fs| && fs[k].h.Required? && RequiredBefore(fs, k) < MAX_REQUIRED ==>
              RequiredBefore(fs, k) in seen
    ensures forall n: nat :: n < Checked(fs) ==> OneField(fs, n)
  {
    forall n: nat | n < Checked(fs)
      ensures OneField(fs, n)
    {
      var k := RequiredNumbered(fs, |fs|, n);
      assert IsNumber(fs, k, n);
      forall j: nat | IsNumber(fs, j, n)
        ensures j == k
      {
        RequiredDistinct(fs, j, k, n);
      }
    }
    forall k: nat | k < |fs| && fs[k].h.Required?
      ensures RequiredBefore(fs, k) < RequiredBefore(fs, |fs|)
    {
      RequiredMonotone(fs, k, |fs|);
    }
    if forall k: nat :: k < |fs| && fs[k].h.Required? && RequiredBefore(fs, k) < MAX_REQUIRED ==>
       RequiredBefore(fs, k) in seen {
      forall n: nat | n < Checked(fs)
        ensures n in seen
      {
        var k := RequiredNumbered(fs, |fs|, n);
        assert k < |fs| && fs[k].h.Required?;
      }
    }
  }

  lemma EmptyStands()
    ensures Stands([0, 0], {})
  {
    forall n: nat | n < MAX_REQUIRED
      ensures !Bit(0, n % 32)
    {
      ZeroHasNoBits(n % 32);
    }
  }

  lemma MarkedStands(words: seq<nat>, seen: set<nat>, n: nat)
    requires Stands(words, seen) && n < MAX_REQUIRED
    ensures Stands(words[n / 32 := Or(words[n / 32], Pow2(n % 32))], seen + {n})
  {
    hide Bit, Or, Pow2;
    var after := words[n / 32 := Or(words[n / 32], Pow2(n % 32))];
    Pow2Monotone(n % 32, 32);
    OrBelow(words[n / 32], Pow2(n % 32), 32);
    forall m: nat | m < MAX_REQUIRED
      ensures Bit(after[m / 32], m % 32) <==> m in seen + {n}
    {
      if m / 32 == n / 32 {
        OrBits(words[n / 32], Pow2(n % 32), m % 32);
        OneBit(n % 32, m % 32);
      }
    }
  }

  /** `fields_seen[index >> 5] |= 1 << (index & 31)`, for the numbers there is room for. */
  method MarkSeen(words: array<nat>, index: nat, ghost seen: set<nat>)
    requires words.Length == 2 && Stands(words[..], seen)
    modifies words
    ensures Stands(words[..], if index < MAX_REQUIRED then seen + {index} else seen)
  {
    hide Stands;
    if index < MAX_REQUIRED {
      MarkedStands(words[..], seen, index);
      ghost var after := words[..][index / 32 := Or(words[index / 32], Pow2(index % 32))];
      words[index / 32] := Or(words[index / 32], Pow2(index % 32));
      assert words[..] == after;
    }
  }

  /** A word is the mask of its first `r` bits exactly when those, and no others, are set. */
  lemma MaskMeans(m: nat, r: nat)
    requires m < Pow2(32) && r <= 32 && (forall k: nat :: r <= k < 32 ==> !Bit(m, k))
    ensures m == Pow2(r) - 1 <==> AllSet(m, r)
  {
    BelowByBits(m, r, 32);
    AllOnes(m, r);
  }

  lemma {:induction false} BelowByBits(m: nat, r: nat, w: nat)
    requires m < Pow2(w) && r <= w && (forall k: nat :: r <= k < w ==> !Bit(m, k))
    ensures m < Pow2(r)
  {
    if w > r {
      TopBitClear(m, w - 1);
      BelowByBits(m, r, w - 1);
    }
  }

  lemma {:induction false} TopBitClear(m: nat, w: nat)
    requires m < Pow2(w + 1) && !Bit(m, w)
    ensures m < Pow2(w)
  {
    if w > 0 {
      TopBitClear(m / 2, w - 1);
    }
  }

  /** One word of the check against the set it stands for. */
  lemma WordCheck(words: seq<nat>, seen: set<nat>, i: nat, r: nat)
    requires Stands(words, seen) && i < 2 && r <= 32
    requires forall n: nat :: n in seen && n / 32 == i ==> n % 32 < r
    ensures words[i] == Pow2(r) - 1 <==> forall n: nat :: 32 * i <= n < 32 * i + r ==> n in seen
  {
    hide Bit, Pow2;
    var m := words[i];
    forall k: nat | k < 32
      ensures Bit(m, k) <==> 32 * i + k in seen
    {
      var n := 32 * i + k;
      assert n / 32 == i && n % 32 == k;
    }
    MaskMeans(m, r);
    if AllSet(m, r) {
      forall n: nat | 32 * i <= n < 32 * i + r
        ensures n in seen
      {
        assert Bit(m, n - 32 * i);
      }
    }
    if forall n: nat :: 32 * i <= n < 32 * i + r ==> n in seen {
      forall k | 0 <= k < r
        ensures Bit(m, k)
      {
        assert 32 * i + k in seen;
      }
    }
  }

  /** The whole words, then the remaining bits. */
  method CheckWords(words: array<nat>, count: nat, ghost seen: set<nat>) returns (ok: bool)
    requires words.Length == 2 && Stands(words[..], seen)
    requires count <= MAX_REQUIRED && forall n: nat :: n in seen ==> n < count
    ensures ok <==> forall n: nat :: n < count ==> n in seen
  {
    hide Stands, Pow2, Bit;
    Widths();
    var whole := count / 32;
    for i := 0 to whole
      invariant forall n: nat :: n < 32 * i ==> n in seen
    {
      WordCheck(words[..], seen, i, 32);
      if words[i] != U32 - 1 {
        ghost var n: nat :| 32 * i <= n < 32 * i + 32 && n !in seen;
        assert n < count;
        return false;
      }
    }
    var rest := count % 32;
    assert count == 32 * whole + rest;
    if rest != 0 {
      WordCheck(words[..], seen, whole, rest);
      // allbits >> (32 - r) is the word whose lowest r bits are ones.
      if words[whole] != Pow2(rest) - 1 {
        ghost var n: nat :| 32 * whole <= n < 32 * whole + rest && n !in seen;
        return false;
      }
    }
    ok := true;
  }

  /** The end of `pb_decode_noinit`: the count of required fields by running the iterator to its end from wherever it
      is, then the words. It accepts exactly when each of the first 64 required fields has been seen. */
  method CheckRequired(iter: FieldIter, words: array<nat>, ghost seen: set<nat>) returns (ok: bool)
    requires iter.Valid() && words.Length == 2
    requires Stands(words[..], seen) && OnlyChecked(iter.fields, seen)
    modifies iter
    ensures iter.Valid()
    ensures ok <==> AllSeen(iter.fields, seen)
  {
    hide Stands;
    var count := CountRequired(iter);
    if count > MAX_REQUIRED {
      count := MAX_REQUIRED;
    }
    ok := CheckWords(words, count, seen);
  }

  method CountRequired(iter: FieldIter) returns (count: nat)
    requires iter.Valid()
    modifies iter
    ensures iter.Valid() && count == RequiredBefore(iter.fields, |iter.fields|)
  {
    count := iter.requiredIndex;
    var lastRequired := iter.fields != [] && iter.fields[iter.pos].h.Required?;
    var more := iter.Next();
    while more
      invariant iter.Valid()
      invariant iter.fields != [] ==>
                  lastRequired == iter.fields[if more then iter.pos - 1 else |iter.fields| - 1].h.Required?
      invariant more ==> iter.pos > 0
      invariant iter.fields != [] ==>
                  count == RequiredBefore(iter.fields, if more then iter.pos - 1 else |iter.fields| - 1)
      invariant iter.fields == [] ==> count == 0 && !lastRequired && !more
      decreases if more then |iter.fields| - iter.pos else 0
    {
      count := iter.requiredIndex;
      lastRequired := iter.fields[iter.pos].h.Required?;
      more := iter.Next();
    }
    if lastRequired {
      count := count + 1;
    }
  }
}
