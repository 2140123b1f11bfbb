/** One incoming handshake message under reassembly: `hm_fragment` of d1_both.cc. */
module DtlsFragment {
  import opened Bits
  import opened Wrappers
  import opened DtlsWire

  predicate BitOf(b: bv8, i: nat)
    requires i < 8
  {
    (b >> i) & 1 == 1
  }

  /** `bit_range`: the bits start, inclusive, to end, exclusive. */
  function BitRange(start: nat, end: nat): bv8
    requires start <= 8 && end <= 8
  {
    (!(((1 as bv32) << start) - 1) & (((1 as bv32) << end) - 1) & 0xff) as bv8
  }

  lemma RangeBits(start: nat, end: nat, i: nat)
    requires start <= end <= 8 && i < 8
    ensures BitOf(BitRange(start, end), i) <==> start <= i < end
  {
  }

  lemma OrBit(a: bv8, b: bv8, i: nat)
    requires i < 8
    ensures BitOf(a | b, i) <==> BitOf(a, i) || BitOf(b, i)
  {
  }

  lemma SameBits(a: bv8, b: bv8)
    requires forall i: nat :: i < 8 ==> (BitOf(a, i) <==> BitOf(b, i))
    ensures a == b
  {
    assert BitOf(a, 0) <==> BitOf(b, 0);
    assert BitOf(a, 1) <==> BitOf(b, 1);
    assert BitOf(a, 2) <==> BitOf(b, 2);
    assert BitOf(a, 3) <==> BitOf(b, 3);
    assert BitOf(a, 4) <==> BitOf(b, 4);
    assert BitOf(a, 5) <==> BitOf(b, 5);
    assert BitOf(a, 6) <==> BitOf(b, 6);
    assert BitOf(a, 7) <==> BitOf(b, 7);
  }

  /** Position `p` of a message is marked in the mask. */
  predicate Marked(mask: seq<bv8>, p: nat) {
    p / 8 < |mask| && BitOf(mask[p / 8], p % 8)
  }

  lemma OrByte(mask: seq<bv8>, i: nat, lo: nat, hi: nat)
    requires i < |mask| && lo <= hi <= 8
    ensures forall p: nat :: Marked(mask[i := mask[i] | BitRange(lo, hi)], p) <==>
                             Marked(mask, p) || 8 * i + lo <= p < 8 * i + hi
  {
    forall p: nat
      ensures Marked(mask[i := mask[i] | BitRange(lo, hi)], p) <==> Marked(mask, p) || 8 * i + lo <= p < 8 * i + hi
    {
      if p / 8 == i {
        OrBit(mask[i], BitRange(lo, hi), p % 8);
        RangeBits(lo, hi, p % 8);
      }
    }
  }

  lemma FullByte(mask: seq<bv8>, i: nat)
    requires i < |mask|
    ensures forall p: nat :: Marked(mask[i := 0xff], p) <==> Marked(mask, p) || 8 * i <= p < 8 * i + 8
  {
    assert BitRange(0, 8) == 0xff;
    forall p: nat
      ensures Marked(mask[i := 0xff], p) <==> Marked(mask, p) || 8 * i <= p < 8 * i + 8
    {
      RangeBits(0, 8, p % 8);
    }
  }

  lemma ZeroByte(i: nat)
    requires i < 8
    ensures !BitOf(0, i)
  {
  }

  lemma ByteIs(mask: seq<bv8>, i: nat, hi: nat)
    requires i < |mask| && hi <= 8
    ensures mask[i] == BitRange(0, hi) <==>
              forall p: nat :: 8 * i <= p < 8 * i + 8 ==> (Marked(mask, p) <==> p < 8 * i + hi)
  {
    if mask[i] == BitRange(0, hi) {
      forall p: nat | 8 * i <= p < 8 * i + 8
        ensures Marked(mask, p) <==> p < 8 * i + hi
      {
        RangeBits(0, hi, p % 8);
      }
    } else if forall p: nat :: 8 * i <= p < 8 * i + 8 ==> (Marked(mask, p) <==> p < 8 * i + hi) {
      forall k: nat | k < 8
        ensures BitOf(mask[i], k) <==> BitOf(BitRange(0, hi), k)
      {
        var p := 8 * i + k;
        assert p / 8 == i && p % 8 == k;
        assert Marked(mask, p) <==> p < 8 * i + hi;
        RangeBits(0, hi, k);
      }
      SameBits(mask[i], BitRange(0, hi));
    }
  }

  /** What a message under reassembly stands for: the body bytes received so far, by position. */
  datatype Slot = Slot(typ: byte, seqNo: nat, msgLen: nat, got: map<nat, byte>) {
    ghost predicate Valid() {
      msgLen < 0x100_0000 && seqNo < U16 && forall p :: p in got ==> p < msgLen
    }

    ghost predicate Complete() {
      forall p: nat :: p < msgLen ==> p in got
    }

    function HeaderOf(): Header {
      Header(typ, msgLen, seqNo, 0, msgLen)
    }

    /** The whole message, header included, as one unfragmented message. */
    function Raw(): seq<byte>
      requires Valid() && Complete()
    {
      HeaderBytes(HeaderOf()) + seq(msgLen, i requires 0 <= i < msgLen => got[i])
    }
  }

  function NewSlot(h: Header): Slot {
    Slot(h.typ, h.seqNo, h.msgLen, map[])
  }

  /** A fragment body lands on its positions, over whatever was there. */
  function WithBody(s: Slot, off: nat, body: seq<byte>): Slot {
    s.(got := map p: nat | p < s.msgLen && (p in s.got || off <= p < off + |body|) ::
                if off <= p < off + |body| then body[p - off] else s.got[p])
  }

  class HmFragment {
    const typ: byte
    const seqNo: nat
    const msgLen: nat
    /** Header and body. */
    const data: array<byte>
    /** One bit a body byte; null once the message is complete. */
    var reassembly: array?<bv8>

    ghost predicate Has(p: nat)
      reads this, reassembly
    {
      reassembly == null || Marked(reassembly[..], p)
    }

    ghost function View(): Slot
      requires data.Length == HEADER_LENGTH + msgLen
      reads this, data, reassembly
    {
      Slot(typ, seqNo, msgLen, map p: nat | p < msgLen && Has(p) :: data[HEADER_LENGTH + p])
    }

    ghost predicate Shape()
      reads this, data
    {
      && msgLen < 0x100_0000 && seqNo < U16
      && data.Length == HEADER_LENGTH + msgLen
      && data[..HEADER_LENGTH] == HeaderBytes(Header(typ, msgLen, seqNo, 0, msgLen))
    }

    /** Bits past the message length stay zero, and a mask that is still there misses some position. */
    ghost predicate Valid()
      reads this, data, reassembly
    {
      && Shape()
      && (reassembly != null ==>
            && reassembly.Length == (msgLen + 7) / 8
            && reassembly as object != data
            && (forall p: nat :: msgLen <= p ==> !Marked(reassembly[..], p))
            && exists p: nat :: p < msgLen && !Marked(reassembly[..], p))
    }

    /** `dtls1_hm_fragment_new`. */
    constructor (h: Header)
      requires Fits(h)
      ensures Valid() && View() == NewSlot(h)
      ensures fresh(data) && (reassembly != null ==> fresh(reassembly))
      ensures reassembly == null <==> h.msgLen == 0
    {
      typ, seqNo, msgLen := h.typ, h.seqNo, h.msgLen;
      data := new byte[HEADER_LENGTH + h.msgLen];
      new;
      var bytes := HeaderBytes(Header(h.typ, h.msgLen, h.seqNo, 0, h.msgLen));
      for i := 0 to HEADER_LENGTH
        invariant data[..i] == bytes[..i]
        modifies data
      {
        data[i] := bytes[i];
      }
      if h.msgLen > 0 {
        reassembly := new bv8[(h.msgLen + 7) / 8](_ => 0);
        forall p: nat
          ensures !Marked(reassembly[..], p)
        {
          ZeroByte(p % 8);
        }
        assert !Marked(reassembly[..], 0);
      } else {
        reassembly := null;
      }
    }

    method OrIn(mask: array<bv8>, i: nat, lo: nat, hi: nat)
      requires i < mask.Length && lo <= hi <= 8
      modifies mask
      ensures forall p: nat :: Marked(mask[..], p) <==> Marked(old(mask[..]), p) || 8 * i + lo <= p < 8 * i + hi
    {
      hide Marked, BitRange;
      ghost var before := mask[..];
      var b := mask[i] | BitRange(lo, hi);
      OrByte(before, i, lo, hi);
      mask[i] := b;
      assert mask[..] == before[i := b];
    }

    method FillIn(mask: array<bv8>, i: nat)
      requires i < mask.Length
      modifies mask
      ensures forall p: nat :: Marked(mask[..], p) <==> Marked(old(mask[..]), p) || 8 * i <= p < 8 * i + 8
    {
      hide Marked;
      FullByte(mask[..], i);
      ghost var after := mask[..][i := 0xff];
      mask[i] := 0xff;
      assert mask[..] == after;
    }

    /** The bits of `dtls1_hm_fragment_mark`: first byte, whole bytes between, last byte. */
    method SetBits(mask: array<bv8>, start: nat, end: nat)
      requires start < end && end <= 8 * mask.Length
      modifies mask
      ensures forall p: nat :: Marked(mask[..], p) <==> Marked(old(mask[..]), p) || start <= p < end
    {
      hide Marked;
      if start / 8 == end / 8 {
        OrIn(mask, start / 8, start % 8, end % 8);
        return;
      }
      OrIn(mask, start / 8, start % 8, 8);
      for i := start / 8 + 1 to end / 8
        invariant forall p: nat :: Marked(mask[..], p) <==> Marked(old(mask[..]), p) || start <= p < 8 * i
      {
        FillIn(mask, i);
      }
      if end % 8 != 0 {
        OrIn(mask, end / 8, 0, end % 8);
      }
    }

    /** The completeness test of `dtls1_hm_fragment_mark`: whole bytes all ones, the last one ones up to the length. */
    method AllMarked(mask: array<bv8>) returns (all: bool)
      requires mask.Length == (msgLen + 7) / 8
      requires forall p: nat :: msgLen <= p ==> !Marked(mask[..], p)
      ensures all <==> forall p: nat :: p < msgLen ==> Marked(mask[..], p)
    {
      for i := 0 to msgLen / 8
        invariant forall p: nat :: p < 8 * i ==> Marked(mask[..], p)
      {
        ByteIs(mask[..], i, 8);
        if mask[i] != 0xff {
          return false;
        }
      }
      if msgLen % 8 != 0 {
        ByteIs(mask[..], msgLen / 8, msgLen % 8);
        if mask[msgLen / 8] != BitRange(0, msgLen % 8) {
          return false;
        }
      }
      all := true;
    }

    /** `dtls1_hm_fragment_mark`: records that the positions start, inclusive, to end, exclusive, arrived. */
    method Mark(start: nat, end: nat)
      requires Valid() && reassembly != null && start <= end <= msgLen
      modifies this`reassembly, reassembly
      ensures Valid()
      ensures reassembly == null || reassembly == old(reassembly)
      ensures forall p: nat :: p < msgLen ==> (Has(p) <==> old(Has(p)) || start <= p < end)
      ensures reassembly == null <==> forall p: nat :: p < msgLen ==> Has(p)
    {
      hide Marked;
      if start == end {
        ghost var p: nat :| p < msgLen && !Marked(reassembly[..], p);
        assert !Has(p);
        return;
      }
      ghost var was := reassembly[..];
      SetBits(reassembly, start, end);
      var all := AllMarked(reassembly);
      if all {
        reassembly := null;
      } else {
        ghost var p: nat :| p < msgLen && !Marked(reassembly[..], p);
        assert !Has(p);
      }
      forall p: nat | p < msgLen
        ensures Has(p) <==> old(Has(p)) || start <= p < end
      {
        assert old(Has(p)) <==> Marked(was, p);
      }
    }

    /** The copy of a fragment body into `data`. */
    method CopyBody(off: nat, body: seq<byte>)
      requires Valid() && off + |body| <= msgLen
      modifies data
      ensures Valid() && (reassembly != null ==> reassembly[..] == old(reassembly[..]))
      ensures forall j :: HEADER_LENGTH <= j < data.Length ==>
                data[j] == if 0 <= j - HEADER_LENGTH - off < |body| then body[j - HEADER_LENGTH - off] else old(data[j])
    {
      for i := 0 to |body|
        invariant Shape()
        invariant reassembly != null ==> reassembly[..] == old(reassembly[..])
        invariant forall j :: HEADER_LENGTH <= j < data.Length ==>
                    data[j] == if 0 <= j - HEADER_LENGTH - off < i then body[j - HEADER_LENGTH - off] else old(data[j])
      {
        data[HEADER_LENGTH + off + i] := body[i];
        assert data[..HEADER_LENGTH] == old(data[..HEADER_LENGTH]);
      }
    }

    /** A fragment for a message still under reassembly: the copy into `data`, then the mark. */
    method Absorb(off: nat, body: seq<byte>)
      requires Valid() && reassembly != null && off + |body| <= msgLen
      modifies this`reassembly, reassembly, data
      ensures Valid()
      ensures reassembly == null || reassembly == old(reassembly)
      ensures View() == WithBody(old(View()), off, body)
      ensures reassembly == null <==> View().Complete()
    {
      hide Marked, HeaderBytes;
      CopyBody(off, body);
      Mark(off, off + |body|);
      assert reassembly == null <==> View().Complete() by {
        assert forall p: nat :: p < msgLen ==> (p in View().got <==> Has(p));
      }
      ghost var was := old(View());
      forall p: nat | p < msgLen
        ensures p in View().got <==> p in was.got || off <= p < off + |body|
        ensures p in View().got ==> View().got[p] == WithBody(was, off, body).got[p]
      {
        assert Has(p) <==> old(Has(p)) || off <= p < off + |body|;
      }
      assert View().got == WithBody(was, off, body).got;
    }
  }
}
