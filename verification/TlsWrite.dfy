/** Writing TLS records without blocking: the flight of handshake records and the write buffer (s3_both.cc, s3_pkt.cc,
    ssl_buffer.cc). */
module TlsWrite {
  import opened Bits
  import opened Wrappers
  import opened TlsBuffer

  datatype ContentType = ChangeCipherSpec | Alert | Handshake | ApplicationData

  /** SSL3_RT_MAX_PLAIN_LENGTH. */
  const MAX_PLAIN: nat := 16384

  const INT_MAX: nat := 0x7fff_ffff

  /** One call of `tls_seal_record` that succeeded: what went in, and the record or records that came out. */
  datatype Sealed = Sealed(typ: ContentType, plaintext: seq<byte>, bytes: seq<byte>)

  /** The bytes of everything sealed, in the order of sealing. */
  function Bytes(log: seq<Sealed>): seq<byte> {
    if log == [] then [] else Bytes(log[..|log| - 1]) + log[|log| - 1].bytes
  }

  /** The plaintext of all records of one type, in the order of sealing. */
  function Plain(log: seq<Sealed>, typ: ContentType): seq<byte> {
    if log == [] then []
    else Plain(log[..|log| - 1], typ) + (if log[|log| - 1].typ == typ then log[|log| - 1].plaintext else [])
  }

  lemma OneMore(log: seq<Sealed>, s: Sealed)
    ensures Bytes(log + [s]) == Bytes(log) + s.bytes
    ensures Plain(log + [s], s.typ) == Plain(log, s.typ) + s.plaintext
    ensures forall t: ContentType :: t != s.typ ==> Plain(log + [s], t) == Plain(log, t)
  {
    assert (log + [s])[..|log|] == log;
  }

  /** What the transport says to an offer of `n` bytes, its next answer being the first of `answers`. */
  function Answer(answers: seq<int>, n: nat): int {
    if answers == [] then -1 else if answers[0] > n then n else answers[0]
  }

  function Later(answers: seq<int>): seq<int> {
    if answers == [] then [] else answers[1..]
  }

  /** What becomes of `n` bytes that are offered again and again until all are taken or the transport refuses: the
      answers left, how many bytes were taken, and 1 or the refusal. */
  datatype Flow = Flow(answers: seq<int>, taken: nat, verdict: int)

  function Pushed(answers: seq<int>, n: nat): (f: Flow)
    ensures f.taken <= n
    ensures if f.verdict > 0 then f.verdict == 1 && f.taken == n else f.taken < n
    decreases n
  {
    var a := Answer(answers, n);
    if n == 0 then Flow(answers, 0, 1)
    else if a <= 0 then Flow(Later(answers), 0, a)
    else
      var f := Pushed(Later(answers), n - a);
      f.(taken := f.taken + a)
  }

  lemma PushStep(answers: seq<int>, n: nat)
    requires n > 0
    ensures var a := Answer(answers, n);
            if a <= 0 then Pushed(answers, n) == Flow(Later(answers), 0, a)
            else SameFlow(Pushed(answers, n), n, Pushed(Later(answers), n - a), n - a)
  {
  }

  lemma PushEnd(answers: seq<int>)
    ensures Pushed(answers, 0) == Flow(answers, 0, 1)
  {
  }

  /** The same outcome, of `m` bytes of which `n` are left. */
  predicate SameFlow(f: Flow, m: nat, g: Flow, n: nat) {
    f.answers == g.answers && f.verdict == g.verdict && f.taken + n == g.taken + m
  }

  /** The bytes went that way: `before` of them there were, and `after` are left. */
  predicate Went(f: Flow, before: nat, after: nat, answers: seq<int>, ret: int) {
    answers == f.answers && ret == f.verdict && before == f.taken + after
  }

  /** First the `size` bytes of the write buffer, then the `left` bytes of the flight, then a flush. */
  ghost predicate FlightWent(answers: seq<int>, size: nat, left: nat, answers': seq<int>, size': nat, left': nat,
                             flushes: bool, ret: int)
  {
    var first := Pushed(answers, size);
    var second := Pushed(first.answers, left);
    size == first.taken + size' &&
    if first.verdict <= 0 then
      ret == first.verdict && answers' == first.answers && left' == left
    else
      && answers' == second.answers && left == second.taken + left'
      && ret == if second.verdict <= 0 then second.verdict else if flushes then 1 else -1
  }

  /** The transport. Its answers are given: how much of what it is offered it takes, or that it would block. */
  class Transport {
    var answers: seq<int>
    var wire: seq<byte>
    ghost var refusals: nat

    constructor (answers: seq<int>)
      ensures wire == []
    {
      this.answers, wire := answers, [];
      refusals := 0;
    }

    /** BIO_write. */
    method Write(data: seq<byte>) returns (ret: int)
      requires data != []
      modifies this
      ensures ret == Answer(old(answers), |data|) && answers == Later(old(answers))
      ensures wire == old(wire) + (if ret > 0 then data[..ret] else [])
      ensures refusals == old(refusals) + if ret > 0 then 0 else 1
    {
      ret := if answers == [] then -1 else answers[0];
      answers := if answers == [] then [] else answers[1..];
      if ret > |data| {
        ret := |data|;
      }
      if ret > 0 {
        wire := wire + data[..ret];
      } else {
        refusals := refusals + 1;
      }
    }
  }

  /** A place in one of the caller's buffers: what is compared when a write is retried. */
  datatype Place = Place(id: nat, offset: nat)

  /** What a blocked application write leaves behind: `wnum` and the `wpend_*` fields. */
  datatype Retry = Retry(wnum: nat, pending: bool, tot: nat, ret: nat, buf: Place, typ: ContentType)

  /** What `ssl3_write_pending` refuses. */
  predicate BadRetry(r: Retry, typ: ContentType, place: Place, len: nat, moving: bool) {
    r.tot > len || (!moving && r.buf != place) || r.typ != typ
  }

  class TlsWriter {
    const buffer: SslBuffer
    const bio: Transport
    /** The AEAD, by record number; the most it adds to a record; the largest fragment to put in one. */
    const seal: (nat, ContentType, seq<byte>) -> Option<seq<byte>>
    const overhead: nat
    const maxSendFragment: nat
    /** SSL_MODE_ENABLE_PARTIAL_WRITE and SSL_MODE_ACCEPT_MOVING_WRITE_BUFFER. */
    const partialWrite: bool
    const movingBuffer: bool

    var writeSequence: nat
    var pendingFlight: Option<seq<byte>>
    var pendingFlightOffset: nat
    var writeShutdown: bool
    var wnum: nat
    var wpendPending: bool
    var wpendTot: nat
    var wpendRet: nat
    var wpendBuf: Place
    var wpendType: ContentType

    /** Everything sealed so far; and whether the capacity asked for, with the slack for alignment, has always fitted
        in 16 bits. */
    ghost var log: seq<Sealed>
    ghost var fits: bool

    ghost function Unsent(): seq<byte>
      requires pendingFlight.Some? ==> pendingFlightOffset <= |pendingFlight.value|
      reads this
    {
      if pendingFlight.None? then [] else pendingFlight.value[pendingFlightOffset..]
    }

    ghost function RetryState(): Retry
      reads this
    {
      Retry(wnum, wpendPending, wpendTot, wpendRet, wpendBuf, wpendType)
    }

    ghost function Arrays(): set<object>
      reads this, buffer
    {
      if buffer.buf == null then {} else {buffer.buf}
    }

    ghost predicate Shape()
      reads this, buffer
    {
      && buffer.Valid()
      && (pendingFlight.Some? ==> pendingFlightOffset <= |pendingFlight.value|)
      && (buffer.size == 0 ==> buffer.offset < ALIGN)
    }

    /** What the transport has taken, then the write buffer, then the unsent flight, is everything sealed, in order. */
    ghost predicate Conserved()
      requires Shape()
      reads this, bio, buffer, buffer.buf
    {
      bio.wire + buffer.Contents() + Unsent() == Bytes(log)
    }

    ghost predicate Valid()
      reads this, bio, buffer, buffer.buf
    {
      && Shape()
      && 1 <= maxSendFragment <= MAX_PLAIN
      && (fits ==> Conserved() && buffer.offset + buffer.size <= U16)
      && (wpendPending ==> wpendTot == wpendRet > 0)
    }

    constructor (answers: seq<int>, seal: (nat, ContentType, seq<byte>) -> Option<seq<byte>>, overhead: nat,
                 maxSendFragment: nat, partialWrite: bool, movingBuffer: bool)
      requires 1 <= maxSendFragment <= MAX_PLAIN
      ensures Valid() && fits && log == [] && fresh(buffer) && fresh(bio)
      ensures wnum == 0 && !wpendPending && buffer.buf == null
    {
      buffer := new SslBuffer();
      bio := new Transport(answers);
      this.seal, this.overhead, this.maxSendFragment := seal, overhead, maxSendFragment;
      this.partialWrite, this.movingBuffer := partialWrite, movingBuffer;
      writeSequence, pendingFlight, pendingFlightOffset, writeShutdown := 0, None, 0, false;
      wnum, wpendPending, wpendTot, wpendRet, wpendBuf, wpendType := 0, false, 0, 0, Place(0, 0), ApplicationData;
      log, fits := [], true;
    }

    /** The AEAD seals this as the next record, within its overhead. */
    ghost predicate Seals(typ: ContentType, data: seq<byte>)
      reads this`writeSequence
    {
      var record := seal(writeSequence, typ, data);
      record.Some? && |record.value| <= |data| + overhead
    }

    ghost predicate AlwaysSeals(typ: ContentType) {
      forall n: nat, data: seq<byte> :: |data| <= maxSendFragment ==>
        var record := seal(n, typ, data);
        record.Some? && |record.value| <= |data| + overhead
    }

    /** `tls_seal_record` into `maxOut` bytes. */
    method SealRecord(typ: ContentType, data: seq<byte>, maxOut: nat) returns (record: Option<seq<byte>>)
      requires Valid() && |data| + overhead <= maxOut
      modifies this`writeSequence
      ensures Valid()
      ensures record.Some? <==> old(Seals(typ, data))
      ensures record.Some? ==>
                && record == seal(old(writeSequence), typ, data) && |record.value| <= |data| + overhead
                && writeSequence == old(writeSequence) + 1
      ensures record.None? ==> writeSequence == old(writeSequence)
    {
      record := seal(writeSequence, typ, data);
      if record.None? || |record.value| > |data| + overhead || |record.value| > maxOut {
        return None;
      }
      writeSequence := writeSequence + 1;
    }

    /** `add_record_to_flight`. */
    method AddRecordToFlight(typ: ContentType, data: seq<byte>) returns (ok: bool)
      requires Valid()
      modifies this`writeSequence, this`pendingFlight, this`pendingFlightOffset, this`log
      ensures Valid() && RetryState() == old(RetryState())
      ensures ok <==> old(Seals(typ, data))
      ensures log == if ok then old(log) + [Sealed(typ, data, seal(old(writeSequence), typ, data).value)] else old(log)
    {
      hide Bytes, Plain, SslBuffer.Contents;
      if pendingFlight.None? {
        pendingFlight, pendingFlightOffset := Some([]), 0;
      }
      var record := SealRecord(typ, data, |data| + overhead);
      if record.None? {
        return false;
      }
      AppendToFlight(record.value, Sealed(typ, data, record.value));
      ok := true;
    }

    method AppendToFlight(record: seq<byte>, ghost s: Sealed)
      requires Valid() && pendingFlight.Some? && s.bytes == record
      modifies this`pendingFlight, this`log
      ensures Valid() && log == old(log) + [s]
    {
      hide Bytes, Plain, SslBuffer.Contents;
      OneMore(log, s);
      ghost var unsent := Unsent();
      pendingFlight := Some(pendingFlight.value + record);
      log := log + [s];
      assert Unsent() == unsent + record;
      Regroup(bio.wire + buffer.Contents(), unsent, record);
    }

    /** `ssl3_add_message`: at least one record, each at most one fragment long and all but the last exactly that,
        which together hold the message. */
    method AddMessage(data: seq<byte>) returns (ok: bool)
      requires Valid()
      modifies this`writeSequence, this`pendingFlight, this`pendingFlightOffset, this`log
      ensures Valid() && RetryState() == old(RetryState())
      ensures old(log) <= log && Splits(log[|old(log)|..], data, maxSendFragment, ok)
      ensures AlwaysSeals(Handshake) ==> ok
    {
      hide Shape, Conserved;
      var rest := data;
      ghost var before := log;
      ok := true;
      while true
        invariant Valid() && RetryState() == old(RetryState())
        invariant before <= log && InProgress(log[|before|..], data, rest, maxSendFragment)
        decreases |rest|
      {
        var n := if |rest| < maxSendFragment then |rest| else maxSendFragment;
        ghost var was := log;
        ok := AddRecordToFlight(Handshake, rest[..n]);
        if !ok {
          return;
        }
        OneFragment(was[|before|..], log[|was|], data, rest, maxSendFragment);
        assert log[|before|..] == was[|before|..] + [log[|was|]];
        rest := rest[n..];
        if rest == [] {
          return;
        }
      }
    }

    /** One offer of what is in the buffer. What is taken leaves its front. */
    method OfferBuffer() returns (ret: int)
      requires buffer.Valid() && buffer.size > 0
      modifies buffer, bio
      ensures buffer.Valid() && buffer.buf == old(buffer.buf)
      ensures ret == Answer(old(bio.answers), old(buffer.size)) && bio.answers == Later(old(bio.answers))
      ensures buffer.size == old(buffer.size) - if ret > 0 then ret else 0
      ensures bio.refusals == old(bio.refusals) + if ret > 0 then 0 else 1
      ensures old(buffer.offset + buffer.size) <= U16 ==>
                && bio.wire + buffer.Contents() == old(bio.wire + buffer.Contents())
                && (buffer.size > 0 ==> buffer.offset + buffer.size <= U16)
    {
      hide SslBuffer.Contents;
      ghost var wire := bio.wire;
      var span := buffer.Span();
      ret := bio.Write(span);
      if ret <= 0 {
        assert bio.wire == wire;
        return;
      }
      buffer.Consume(ret);
      TakenOver(wire, span, ret);
    }

    /** `tls_write_buffer_flush`: 1 once the buffer is empty, otherwise what the transport said. What is taken leaves
        the front of the buffer. */
    method FlushBuffer() returns (ret: int)
      requires buffer.Valid() && (buffer.size == 0 ==> buffer.offset < ALIGN)
      modifies buffer, bio
      ensures buffer.Valid() && (buffer.size == 0 ==> buffer.offset < ALIGN)
      ensures Went(Pushed(old(bio.answers), old(buffer.size)), old(buffer.size), buffer.size, bio.answers, ret)
      ensures bio.refusals == old(bio.refusals) + if ret > 0 then 0 else 1
      ensures buffer.buf == old(buffer.buf) || buffer.buf == null
      ensures old(buffer.offset + buffer.size) <= U16 ==>
                && bio.wire + buffer.Contents() == old(bio.wire + buffer.Contents())
                && buffer.offset + buffer.size <= U16
    {
      hide Pushed, SslBuffer.Contents, Answer, Later;
      ghost var all := bio.wire + buffer.Contents();
      ghost var inside := buffer.offset + buffer.size <= U16;
      ghost var whole := Pushed(bio.answers, buffer.size);
      while buffer.size > 0
        invariant buffer.Valid() && buffer.buf == old(buffer.buf) && bio.refusals == old(bio.refusals)
        invariant SameFlow(whole, old(buffer.size), Pushed(bio.answers, buffer.size), buffer.size)
        invariant inside ==>
                    bio.wire + buffer.Contents() == all && (buffer.size > 0 ==> buffer.offset + buffer.size <= U16)
        decreases buffer.size
      {
        PushStep(bio.answers, buffer.size);
        ret := OfferBuffer();
        if ret <= 0 {
          return;
        }
      }
      PushEnd(bio.answers);
      EmptyContents(buffer);
      buffer.Clear();
      ret := 1;
    }

    /** One offer of what the flight has left, from where the last attempt ended. */
    method OfferFlight() returns (ret: int)
      requires Valid() && buffer.size == 0 && Unsent() != []
      modifies this`pendingFlightOffset, bio
      ensures Valid()
      ensures ret == Answer(old(bio.answers), |old(Unsent())|) && bio.answers == Later(old(bio.answers))
      ensures Unsent() == old(Unsent())[if ret > 0 then ret else 0..]
    {
      hide Bytes, SslBuffer.Contents;
      ghost var wire, left := bio.wire, Unsent();
      EmptyContents(buffer);
      ret := bio.Write(pendingFlight.value[pendingFlightOffset..]);
      if ret <= 0 {
        assert bio.wire == wire;
        return;
      }
      pendingFlightOffset := pendingFlightOffset + ret;
      assert Unsent() == left[ret..];
      Moved(wire, left, ret);
    }

    /** `ssl3_flush_flight`: first the write buffer, then the flight, from where the last attempt ended. */
    method FlushFlight(flushes: bool) returns (ret: int)
      requires Valid()
      modifies this`pendingFlight, this`pendingFlightOffset, buffer, bio
      ensures Valid()
      ensures if old(pendingFlight).None? || writeShutdown || |old(pendingFlight).value| > INT_MAX then
                && ret == (if old(pendingFlight).None? then 1 else -1)
                && Unsent() == old(Unsent()) && buffer.size == old(buffer.size) && bio.answers == old(bio.answers)
              else
                FlightWent(old(bio.answers), old(buffer.size), |old(Unsent())|, bio.answers, buffer.size, |Unsent()|,
                    flushes, ret)
      ensures ret > 0 ==> pendingFlight.None?
      ensures ret <= 0 ==> pendingFlight == old(pendingFlight)
      ensures buffer.buf == old(buffer.buf) || buffer.buf == null
    {
      hide Bytes, SslBuffer.Contents, Pushed, Answer, Later, Conserved;
      if pendingFlight.None? {
        return 1;
      }
      if writeShutdown || |pendingFlight.value| > INT_MAX {
        return -1;
      }
      PushEnd(bio.answers);
      if buffer.size > 0 {
        ret := FlushFirst();
        if ret <= 0 {
          return;
        }
      }
      ghost var before, left := Pushed(bio.answers, |Unsent()|), |Unsent()|;
      while pendingFlightOffset < |pendingFlight.value|
        invariant Valid() && buffer.size == 0 && pendingFlight == old(pendingFlight)
        invariant SameFlow(before, left, Pushed(bio.answers, |Unsent()|), |Unsent()|)
        invariant buffer.buf == old(buffer.buf) || buffer.buf == null
        decreases |pendingFlight.value| - pendingFlightOffset
      {
        PushStep(bio.answers, |Unsent()|);
        ret := OfferFlight();
        if ret <= 0 {
          return;
        }
      }
      PushEnd(bio.answers);
      if !flushes {
        return -1;
      }
      DropFlight();
      ret := 1;
    }

    /** The write buffer goes before the flight. */
    method FlushFirst() returns (ret: int)
      requires Valid()
      modifies buffer, bio
      ensures Valid()
      ensures Went(Pushed(old(bio.answers), old(buffer.size)), old(buffer.size), buffer.size, bio.answers, ret)
      ensures bio.refusals == old(bio.refusals) + if ret > 0 then 0 else 1
      ensures buffer.buf == old(buffer.buf) || buffer.buf == null
    {
      hide Bytes, SslBuffer.Contents, Pushed;
      ret := FlushBuffer();
    }

    /** A flight that is sent to its end is let go. */
    method DropFlight()
      requires Valid() && Unsent() == []
      modifies this`pendingFlight, this`pendingFlightOffset
      ensures Valid() && pendingFlight.None?
    {
      hide Bytes, SslBuffer.Contents;
      pendingFlight, pendingFlightOffset := None, 0;
    }

    /** `ssl3_write_pending`: a retry with other arguments is refused, otherwise the buffer is flushed. */
    method WritePending(typ: ContentType, place: Place, len: nat) returns (ret: int)
      requires Valid() && wpendPending
      modifies this`wpendPending, buffer, bio
      ensures Valid()
      ensures bio.refusals >= old(bio.refusals)
      ensures if old(wpendTot) > len || (!movingBuffer && old(wpendBuf) != place) || old(wpendType) != typ then
                && ret == -1 && wpendPending && buffer.size == old(buffer.size)
                && bio.answers == old(bio.answers) && bio.wire == old(bio.wire)
              else
                && Went(Pushed(old(bio.answers), old(buffer.size)), old(buffer.size), buffer.size, bio.answers,
                        if ret > 0 then 1 else ret)
                && (ret <= 0 ==> bio.refusals > old(bio.refusals))
      ensures ret <= 0 ==> wpendPending
      ensures ret > 0 ==> !wpendPending && ret == wpendRet && buffer.size == 0
      ensures buffer.buf == old(buffer.buf) || buffer.buf == null
    {
      hide Pushed;
      if wpendTot > len || (!movingBuffer && wpendBuf != place) || wpendType != typ {
        return -1;
      }
      ret := FlushBuffer();
      if ret <= 0 {
        return;
      }
      wpendPending := false;
      ret := wpendRet;
    }

    /** The start of a new record in `do_ssl3_write`: room, then the unsent flight, which goes in front. */
    method MoveFlight(len: nat, prefixLen: nat, address: nat) returns (ok: bool)
      requires Valid() && buffer.size == 0
      modifies this`pendingFlight, this`pendingFlightOffset, this`fits, buffer, buffer.buf
      ensures Valid() && fresh(Arrays() - old(Arrays()))
      ensures ok <==> |old(Unsent())| + len + overhead <= 0xffff
      ensures ok ==> pendingFlight.None? && buffer.size == |old(Unsent())| && buffer.cap - buffer.size >= len + overhead
      ensures !ok ==> Unsent() == old(Unsent()) && buffer.size == 0
      ensures ok && fits ==> buffer.offset + buffer.size + len + overhead <= U16
      ensures fits <==> old(fits) && (ok ==> |old(Unsent())| + len + overhead + ALIGN - 1 <= U16)
    {
      hide Bytes, SslBuffer.Contents;
      var flightLen := if pendingFlight.None? then 0 else |pendingFlight.value| - pendingFlightOffset;
      var maxOut := len + overhead + flightLen;
      ok := buffer.EnsureCap(flightLen + prefixLen, maxOut, address);
      if !ok {
        return;
      }
      fits := fits && maxOut + ALIGN - 1 <= U16;
      if pendingFlight.Some? {
        ghost var wire, held, left := bio.wire, buffer.Contents(), Unsent();
        buffer.Append(pendingFlight.value[pendingFlightOffset..]);
        pendingFlight, pendingFlightOffset := None, 0;
        assert wire + (held + left) + [] == wire + held + left;
      }
    }

    /** A new record can be started: there is something to write, nothing else is in the buffer, the record and the
        flight before it have room, and the AEAD seals it. */
    ghost predicate CanStart(typ: ContentType, data: seq<byte>)
      requires Shape()
      reads this, buffer
    {
      && 0 < |data| <= MAX_PLAIN && buffer.size == 0
      && |Unsent()| + |data| + overhead <= 0xffff
      && Seals(typ, data)
    }

    /** The middle of `do_ssl3_write`: the flight and one new record go into the buffer, where that can be done. */
    method StartWrite(typ: ContentType, place: Place, data: seq<byte>, prefixLen: nat, address: nat) returns (ret: int)
      requires Valid() && !wpendPending
      modifies this, buffer, buffer.buf
      ensures Valid() && fresh(Arrays() - old(Arrays()))
      ensures writeShutdown == old(writeShutdown) && |Unsent()| <= |old(Unsent())|
      ensures if old(CanStart(typ, data)) then
                && ret > 0
                && log == old(log) + [Sealed(typ, data, seal(old(writeSequence), typ, data).value)]
                && RetryState() == Retry(old(wnum), true, |data|, |data|, place, typ)
              else
                ret <= 0 && log == old(log) && RetryState() == old(RetryState())
    {
      hide Bytes, Plain, SslBuffer.Contents, Conserved, SslBuffer.Valid;
      if |data| > MAX_PLAIN || buffer.size > 0 {
        return -1;
      }
      if data == [] {
        return 0;
      }
      var room := MoveFlight(|data|, prefixLen, address);
      if !room {
        return -1;
      }
      var record := SealRecord(typ, data, buffer.cap - buffer.size);
      if record.None? {
        return -1;
      }
      AppendToBuffer(record.value, Sealed(typ, data, record.value));
      Memorize(typ, place, |data|);
      ret := 1;
    }

    /** `do_ssl3_write`. Either it only goes on with the record sealed before, or it seals one record with exactly this
        plaintext, or, where it cannot, it fails and nothing is sealed. Otherwise only the transport can stop it. */
    method DoWrite(typ: ContentType, place: Place, data: seq<byte>, prefixLen: nat, address: nat) returns (ret: int)
      requires Valid()
      modifies this, buffer, buffer.buf, bio
      ensures Valid() && fresh(Arrays() - old(Arrays()))
      ensures wnum == old(wnum) && writeShutdown == old(writeShutdown) && bio.refusals >= old(bio.refusals)
      ensures old(wpendPending) ==> log == old(log) && Resumed(old(RetryState()), RetryState(), ret)
      ensures !old(wpendPending) ==>
                if old(CanStart(typ, data)) then
                  && log == old(log) + [Sealed(typ, data, seal(old(writeSequence), typ, data).value)]
                  && Resumed(Retry(wnum, true, |data|, |data|, place, typ), RetryState(), ret)
                else
                  log == old(log) && RetryState() == old(RetryState()) && ret <= 0
      ensures (if old(wpendPending) then !BadRetry(old(RetryState()), typ, place, |data|, movingBuffer)
               else old(CanStart(typ, data))) ==>
                ret > 0 || bio.refusals > old(bio.refusals)
      ensures ret > 0 ==> buffer.size == 0 && |Unsent()| <= |old(Unsent())|
    {
      hide Bytes, Plain, SslBuffer.Contents, SslBuffer.Valid, Conserved, Pushed, Seals;
      if !wpendPending {
        ret := StartWrite(typ, place, data, prefixLen, address);
        if ret <= 0 {
          return;
        }
      }
      ret := WritePending(typ, place, |data|);
    }

    /** What `ssl3_write_pending` compares a retry with. */
    method Memorize(typ: ContentType, place: Place, len: nat)
      requires Valid() && len > 0
      modifies this`wpendTot, this`wpendBuf, this`wpendType, this`wpendRet, this`wpendPending
      ensures Valid() && RetryState() == Retry(wnum, true, len, len, place, typ)
    {
      hide Bytes, SslBuffer.Contents;
      wpendTot, wpendBuf, wpendType, wpendRet, wpendPending := len, place, typ, len, true;
    }

    method AppendToBuffer(record: seq<byte>, ghost s: Sealed)
      requires Valid() && pendingFlight.None? && s.bytes == record
      requires |record| <= buffer.cap - buffer.size && (fits ==> buffer.offset + buffer.size + |record| <= U16)
      modifies this`log, buffer, buffer.buf
      ensures Valid() && log == old(log) + [s] && buffer.buf == old(buffer.buf)
    {
      hide Bytes, Plain, SslBuffer.Contents;
      OneMore(log, s);
      ghost var wire, held := bio.wire, buffer.Contents();
      buffer.Append(record);
      log := log + [s];
      assert wire + (held + record) + [] == (wire + held + []) + record;
    }

    ghost predicate Midway(id: nat, data: seq<byte>, before: seq<byte>)
      reads this
    {
      MidwayAt(RetryState(), log, id, data, before, wnum, maxSendFragment)
    }

    /** Nothing but the transport is in the way of application data: what is in the buffer belongs to a pending record,
        there is room for a whole fragment behind the flight, and the AEAD seals every fragment. */
    ghost predicate Unobstructed()
      requires Shape()
      reads this, buffer
    {
      && (buffer.size > 0 ==> wpendPending)
      && |Unsent()| + maxSendFragment + overhead <= 0xffff
      && AlwaysSeals(ApplicationData)
    }

    /** One round of `ssl3_write_app_data`, with `tot` bytes behind it. */
    method WriteChunk(id: nat, data: seq<byte>, tot: nat, prefixLen: nat, address: nat, ghost before: seq<byte>)
      returns (ret: int)
      requires Valid() && MidwayAt(RetryState(), log, id, data, before, tot, maxSendFragment)
      requires tot <= |data|
      modifies this, buffer, buffer.buf, bio
      ensures Valid() && fresh(Arrays() - old(Arrays()))
      ensures wnum == old(wnum) && writeShutdown == old(writeShutdown)
      ensures ret > 0 ==> ret == Chunk(|data| - tot, maxSendFragment) && !wpendPending
      ensures MidwayAt(RetryState(), log, id, data, before, if ret > 0 then tot + ret else tot, maxSendFragment)
      ensures bio.refusals >= old(bio.refusals)
      ensures tot < |data| && old(Unobstructed()) ==>
                if ret > 0 then Unobstructed() else bio.refusals > old(bio.refusals)
    {
      hide Bytes, Plain, SslBuffer.Contents, SslBuffer.Valid, Conserved, MidwayAt, Resumed, BadRetry, Seals;
      var n := |data| - tot;
      var nw := if n > maxSendFragment then maxSendFragment else n;
      ghost var was, plain := RetryState(), log;
      if nw > 0 && Unobstructed() && !wpendPending {
        Startable(data[tot..tot + nw]);
      }
      MidwayRetries(was, log, id, data, before, tot, maxSendFragment, movingBuffer);
      ret := DoWrite(ApplicationData, Place(id, tot), data[tot..tot + nw], prefixLen, address);
      if was.pending {
        ResumedWrite(was, RetryState(), log, id, data, before, tot, maxSendFragment, ret);
      } else if log != plain {
        NewWrite(was, RetryState(), plain, log, id, data, before, tot, maxSendFragment, ret);
      }
    }

    /** `ssl3_write_app_data`, without early data. A call, or a retry of one that was blocked, with the same buffer and
        length: where it returns a length, that much of the buffer has been sealed, each byte once and in order, and
        all of it unless partial writes are enabled; where it does not, it can be retried, and where nothing else is in
        the way it was the transport that blocked it. */
    method WriteAppData(id: nat, data: seq<byte>, prefixLen: nat, address: nat, ghost before: seq<byte>)
      returns (ret: int)
      requires Valid() && |data| <= INT_MAX && Midway(id, data, before)
      modifies this, buffer, buffer.buf, bio
      ensures Valid() && fresh(Arrays() - old(Arrays()))
      ensures writeShutdown == old(writeShutdown)
      ensures old(writeShutdown) ==> ret == -1 && log == old(log) && bio.wire == old(bio.wire)
      ensures ret <= 0 ==> Midway(id, data, before)
      ensures ret <= 0 && old(wnum < |data| && !writeShutdown && Unobstructed()) ==> bio.refusals > old(bio.refusals)
      ensures ret > 0 ==>
                && ret <= |data| && (!partialWrite ==> ret == |data|)
                && wnum == 0 && !wpendPending
                && Plain(log, ApplicationData) == before + data[..ret]
    {
      hide Bytes, Plain, SslBuffer.Contents, SslBuffer.Valid, Conserved, MidwayAt, Unobstructed, Shape;
      if writeShutdown {
        return -1;
      }
      var tot := wnum;
      SetWnum(0);
      MidwayBounds(RetryState(), old(RetryState()), log, id, data, before, tot, maxSendFragment);
      var n := |data| - tot;
      while true
        invariant Valid() && fresh(Arrays() - old(Arrays()))
        invariant tot <= |data| && n == |data| - tot && wnum == 0 && !writeShutdown
        invariant MidwayAt(RetryState(), log, id, data, before, tot, maxSendFragment)
        invariant old(wnum < |data| && Unobstructed()) ==> n > 0 && Unobstructed() && bio.refusals >= old(bio.refusals)
        decreases n
      {
        ret := WriteChunk(id, data, tot, prefixLen, address, before);
        if ret <= 0 {
          SetWnum(tot);
          MidwayBounds(RetryState(), RetryState().(wnum := 0), log, id, data, before, tot, maxSendFragment);
          return;
        }
        if ret == n || partialWrite {
          Finished(RetryState(), log, id, data, before, tot + ret, maxSendFragment);
          ret := tot + ret;
          return;
        }
        n := n - ret;
        tot := tot + ret;
      }
    }

    lemma Startable(data: seq<byte>)
      requires Valid() && 0 < |data| <= maxSendFragment && Unobstructed() && !wpendPending
      ensures CanStart(ApplicationData, data)
    {
    }

    method SetWnum(n: nat)
      requires Valid()
      modifies this`wnum
      ensures Valid() && wnum == n && Unobstructed() == old(Unobstructed())
    {
      hide Bytes, SslBuffer.Contents;
      wnum := n;
    }
  }

  function Chunk(left: nat, max: nat): (n: nat)
    ensures n <= left && n <= max && (n < max ==> n == left)
  {
    if left > max then max else left
  }

  /** Between calls on the same buffer, with `tot` bytes of it behind: the plaintext sealed since the first call is
      exactly the front of the buffer, up to and including a record that is still pending. */
  ghost predicate MidwayAt(r: Retry, log: seq<Sealed>, id: nat, data: seq<byte>, before: seq<byte>, tot: nat,
                           max: nat) {
    && tot <= |data|
    && (r.pending ==>
          && r.buf == Place(id, tot) && r.typ == ApplicationData
          && r.tot == r.ret == Chunk(|data| - tot, max) > 0)
    && Plain(log, ApplicationData) == before + data[..tot + if r.pending then Chunk(|data| - tot, max) else 0]
  }

  lemma MidwayBounds(r: Retry, q: Retry, log: seq<Sealed>, id: nat, data: seq<byte>, before: seq<byte>, tot: nat,
                     max: nat)
    requires MidwayAt(q, log, id, data, before, tot, max) && r.(wnum := 0) == q.(wnum := 0)
    ensures tot <= |data| && MidwayAt(r, log, id, data, before, tot, max)
  {
  }

  lemma Finished(r: Retry, log: seq<Sealed>, id: nat, data: seq<byte>, before: seq<byte>, tot: nat, max: nat)
    requires MidwayAt(r, log, id, data, before, tot, max) && !r.pending
    ensures Plain(log, ApplicationData) == before + data[..tot]
  {
  }

  lemma ResumedWrite(was: Retry, now: Retry, log: seq<Sealed>, id: nat, data: seq<byte>, before: seq<byte>, tot: nat,
                     max: nat, ret: int)
    requires MidwayAt(was, log, id, data, before, tot, max) && was.pending && Resumed(was, now, ret)
    ensures ret <= 0 ==> MidwayAt(now, log, id, data, before, tot, max)
    ensures ret > 0 ==>
              ret == Chunk(|data| - tot, max) && !now.pending && MidwayAt(now, log, id, data, before, tot + ret, max)
  {
    hide Plain;
  }

  /** A new record takes the next chunk of the buffer. */
  lemma NewWrite(was: Retry, now: Retry, oldLog: seq<Sealed>, log: seq<Sealed>, id: nat, data: seq<byte>,
                 before: seq<byte>, tot: nat, max: nat, ret: int)
    requires MidwayAt(was, oldLog, id, data, before, tot, max) && !was.pending
    requires |log| == |oldLog| + 1 && log[..|oldLog|] == oldLog
    requires var n := Chunk(|data| - tot, max);
             && n > 0 && log[|oldLog|].typ == ApplicationData && log[|oldLog|].plaintext == data[tot..tot + n]
             && Resumed(Retry(was.wnum, true, n, n, Place(id, tot), ApplicationData), now, ret)
    ensures ret <= 0 ==> MidwayAt(now, log, id, data, before, tot, max)
    ensures ret > 0 ==>
              ret == Chunk(|data| - tot, max) && !now.pending && MidwayAt(now, log, id, data, before, tot + ret, max)
  {
    hide Plain, Chunk;
    var n := Chunk(|data| - tot, max);
    var s := log[|oldLog|];
    assert Plain(log, ApplicationData) == Plain(oldLog, ApplicationData) + s.plaintext by {
      assert log == oldLog + [s];
      OneMore(oldLog, s);
    }
    NextPart(before, data, tot, n);
  }

  lemma NextPart(before: seq<byte>, data: seq<byte>, tot: nat, n: nat)
    requires tot + n <= |data|
    ensures (before + data[..tot]) + data[tot..tot + n] == before + data[..tot + n]
  {
  }

  /** A retry with the same buffer and length is never refused. */
  lemma MidwayRetries(r: Retry, log: seq<Sealed>, id: nat, data: seq<byte>, before: seq<byte>, tot: nat, max: nat,
                      moving: bool)
    requires MidwayAt(r, log, id, data, before, tot, max)
    ensures r.pending ==> !BadRetry(r, ApplicationData, Place(id, tot), Chunk(|data| - tot, max), moving)
  {
  }

  /** Once both queues are empty, everything sealed is on the wire. */
  lemma AllOnTheWire(w: TlsWriter)
    requires w.Valid() && w.fits && w.buffer.size == 0 && w.pendingFlight.None?
    ensures w.bio.wire == Bytes(w.log)
  {
    assert w.bio.wire + [] + [] == w.bio.wire;
  }

  lemma TakenOver(wire: seq<byte>, left: seq<byte>, n: nat)
    requires n <= |left|
    ensures (wire + left[..n]) + left[n..] == wire + left
  {
  }

  lemma EmptyContents(b: SslBuffer)
    requires b.Valid() && b.size == 0
    ensures b.Contents() == []
  {
  }

  lemma Moved(wire: seq<byte>, left: seq<byte>, n: nat)
    requires n <= |left|
    ensures (wire + left[..n]) + [] + left[n..] == wire + [] + left
  {
  }

  /** A pending record: after success it is no longer pending and its length is returned, otherwise nothing changed. */
  ghost predicate Resumed(was: Retry, now: Retry, ret: int) {
    if ret > 0 then ret == was.ret && now == was.(pending := false) else now == was
  }

  function Joined(log: seq<Sealed>): seq<byte> {
    if log == [] then [] else Joined(log[..|log| - 1]) + log[|log| - 1].plaintext
  }

  ghost predicate Fragments(log: seq<Sealed>, max: nat) {
    forall i :: 0 <= i < |log| ==> log[i].typ == Handshake && |log[i].plaintext| <= max
  }

  /** Before the last record every fragment is full, and what is joined is all but the rest. */
  ghost predicate InProgress(log: seq<Sealed>, data: seq<byte>, rest: seq<byte>, max: nat) {
    && Fragments(log, max)
    && Joined(log) + rest == data
    && (forall i :: 0 <= i < |log| ==> |log[i].plaintext| == max)
    && (rest == [] ==> log == [])
  }

  /** The records hold the message, or after a failure the front of it. */
  ghost predicate Splits(log: seq<Sealed>, data: seq<byte>, max: nat, whole: bool) {
    && Fragments(log, max)
    && (forall i :: 0 <= i < |log| - 1 ==> |log[i].plaintext| == max)
    && (if whole then log != [] && Joined(log) == data else Joined(log) <= data)
  }

  lemma OneFragment(log: seq<Sealed>, s: Sealed, data: seq<byte>, rest: seq<byte>, max: nat)
    requires 1 <= max && InProgress(log, data, rest, max)
    requires s.typ == Handshake && s.plaintext == rest[..if |rest| < max then |rest| else max]
    ensures var left := rest[|s.plaintext|..];
            if left == [] then Splits(log + [s], data, max, true) else InProgress(log + [s], data, left, max)
  {
    var left := rest[|s.plaintext|..];
    assert (log + [s])[..|log|] == log;
    assert rest == s.plaintext + left;
    assert (Joined(log) + s.plaintext) + left == data;
    if left == [] {
      assert Joined(log) + s.plaintext == data;
    }
  }

  lemma Regroup(a: seq<byte>, b: seq<byte>, c: seq<byte>)
    ensures a + (b + c) == (a + b) + c
  {
  }
}
