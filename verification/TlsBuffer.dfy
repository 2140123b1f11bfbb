/** SSLBuffer (ssl_buffer.cc, internal.h): a byte queue with 16-bit fields. */
module TlsBuffer {
  import opened Bits

  /** SSL3_ALIGN_PAYLOAD. */
  const ALIGN: nat := 8

  /** A piece of memory where the contents begin, how long they are and how long they may get. */
  datatype Region = Region(offset: nat, size: nat, cap: nat)

  /** `Consume` on the three fields: the offset is added to in 16 bits. */
  function Consumed(r: Region, len: nat): Region
    requires len <= r.size <= r.cap
  {
    Region((r.offset + len) % U16, r.size - len, r.cap - len)
  }

  /** After any partial write, what is left begins where that write ended, exactly when the end of the contents is at
      most 2^16; a caller can see this from the offset and the size. */
  lemma OffsetExact(r: Region)
    requires r.offset < U16 && r.size <= r.cap
    ensures (forall n: nat :: n < r.size ==> Consumed(r, n).offset == r.offset + n) <==> r.offset + r.size <= U16
  {
    if forall n: nat :: n < r.size ==> Consumed(r, n).offset == r.offset + n {
      if r.size > 0 {
        assert Consumed(r, r.size - 1).offset == r.offset + (r.size - 1);
      }
    }
  }

  /** A capacity `EnsureCap` accepts, and a partial write after which the wrong bytes would follow: 65530 of 65535
      bytes are gone, and the next one taken is at place 1 instead of 65537. */
  lemma OffsetWraps()
    ensures Consumed(Region(7, 0xffff, 0xffff), 65530) == Region(1, 5, 5)
  {
  }

  lemma Wrapped(at: nat)
    ensures at < U16 ==> at % U16 == at
    ensures at % U16 <= at
  {
  }

  method Copy(dest: array<byte>, at: nat, bytes: seq<byte>)
    requires at + |bytes| <= dest.Length
    modifies dest
    ensures dest[..at] == old(dest[..at])
    ensures dest[at..at + |bytes|] == bytes
  {
    for i := 0 to |bytes|
      invariant dest[..at] == old(dest[..at])
      invariant dest[at..at + i] == bytes[..i]
    {
      dest[at + i] := bytes[i];
    }
  }

  class SslBuffer {
    var buf: array?<byte>
    var offset: nat
    var size: nat
    var cap: nat

    ghost function Fields(): Region
      reads this
    {
      Region(offset, size, cap)
    }

    ghost predicate Valid()
      reads this
    {
      && offset < U16 && size <= cap < U16
      && (buf == null ==> offset == 0 && cap == 0)
      && (buf != null ==> offset + cap <= buf.Length)
    }

    ghost function Contents(): (s: seq<byte>)
      requires Valid()
      reads this, buf
      ensures |s| == size
    {
      if buf == null then [] else buf[offset..offset + size]
    }

    constructor ()
      ensures Valid() && Contents() == [] && buf == null
    {
      buf, offset, size, cap := null, 0, 0, 0;
    }

    /** `span()`. */
    method Span() returns (s: seq<byte>)
      requires Valid()
      ensures s == Contents()
    {
      s := if buf == null then [] else buf[offset..offset + size];
    }

    method Clear()
      modifies this
      ensures Valid() && Contents() == [] && buf == null
    {
      buf, offset, size, cap := null, 0, 0, 0;
    }

    /** `address` is where the allocator puts a new buffer; the body of the record after the header is then aligned. */
    method EnsureCap(headerLen: nat, newCap: nat, address: nat) returns (ok: bool)
      requires Valid()
      modifies this
      ensures Valid() && Contents() == old(Contents())
      ensures ok <==> newCap <= 0xffff
      ensures ok ==> cap >= newCap
      ensures buf == old(buf) || fresh(buf)
      ensures Fields() == old(Fields())
              || (ok && cap == newCap && offset < ALIGN && (offset + headerLen + address) % ALIGN == 0)
    {
      if newCap > 0xffff {
        return false;
      }
      if cap >= newCap {
        return true;
      }
      var newBuf := new byte[newCap + ALIGN - 1](_ => 0);
      var newOffset := (0 - headerLen - address) % ALIGN;
      if buf != null {
        Copy(newBuf, newOffset, buf[offset..offset + size]);
      }
      buf, offset, cap := newBuf, newOffset, newCap;
      ok := true;
    }

    /** Bytes copied to `remaining()`, then `DidWrite`, which aborts where there is no room. */
    method Append(bytes: seq<byte>)
      requires Valid() && |bytes| <= cap - size
      modifies this, buf
      ensures Valid() && Contents() == old(Contents()) + bytes
      ensures buf == old(buf) && offset == old(offset) && cap == old(cap)
      ensures buf != null ==> buf[..offset] == old(buf[..offset])
    {
      if buf != null {
        ghost var was := buf[..];
        ghost var at := offset;
        Copy(buf, offset + size, bytes);
        assert buf[..at] == buf[..offset + size][..at] == was[..at];
        assert buf[offset..offset + size] == was[offset..offset + size];
        assert buf[offset..offset + size + |bytes|] == buf[offset..offset + size] + bytes;
      }
      size := size + |bytes|;
    }

    /** Aborts where `len` is more than there is. */
    method Consume(len: nat)
      requires Valid() && len <= size
      modifies this
      ensures Valid() && Fields() == Consumed(old(Fields()), len) && buf == old(buf)
      ensures old(offset) + len < U16 || len == old(size) ==> Contents() == old(Contents())[len..]
    {
      ghost var at := offset + len;
      Wrapped(at);
      offset := (offset + len) % U16;
      size := size - len;
      cap := cap - len;
      if buf != null && at < U16 {
        assert buf[at..at + size] == old(buf[offset..offset + size])[len..];
      }
    }
  }

  /** The wrap on a buffer: 65535 bytes are put in at offset 7, the transport takes 65530, and what is then next to go
      out is not what is left of them. */
  method ConsumeWraps() returns (b: SslBuffer, sent: seq<byte>)
    ensures b.Valid() && |sent| == 0xffff
    ensures b.size == |sent[65530..]| && b.Contents() != sent[65530..]
  {
    b := new SslBuffer();
    var ok := b.EnsureCap(5, 0xffff, 4);
    assert b.offset == 7;
    // Any bytes will do that are not those in front of the contents.
    var x: byte := if b.buf[1] == 0 then 1 else 0;
    sent := seq(0xffff, _ => x);
    b.Append(sent);
    assert b.buf[1] == b.buf[..7][1] != x;
    assert sent[65530..][0] == x;
    OffsetWraps();
    b.Consume(65530);
    assert b.Contents()[0] == b.buf[1];
  }
}
