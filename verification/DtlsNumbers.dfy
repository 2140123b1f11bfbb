/** No two records on the network share their epoch and number, through failed writes, retransmission and changes of
    keys (dtls_record.cc, `dtls_seal_record`; d1_both.cc, `send_flight`). */
module DtlsNumbers {
  import opened Bits
  import opened Wrappers
  import opened DtlsRing
  import opened DtlsSend
  import opened DtlsFlight
  import opened DtlsEndToEnd
  import DtlsSeal

  ghost predicate Used(r: Record, w: DtlsSeal.Writer) {
    DtlsSeal.Below(r.epoch, r.number, w)
  }

  /** No counter has gone back to zero, and the epoch is the same. */
  ghost predicate Onward(w: DtlsSeal.Writer, x: DtlsSeal.Writer) {
    w.epoch == x.epoch && w.current <= x.current && w.last <= x.last
  }

  ghost predicate Different(rs: seq<Record>) {
    forall i, j :: 0 <= i < j < |rs| ==> (rs[i].epoch, rs[i].number) != (rs[j].epoch, rs[j].number)
  }

  /** The records' numbers are new after `w` and used up after `x`. */
  ghost predicate NewNumbers(w: DtlsSeal.Writer, rs: seq<Record>, x: DtlsSeal.Writer) {
    Onward(w, x) && Different(rs) && forall i :: 0 <= i < |rs| ==> !Used(rs[i], w) && Used(rs[i], x)
  }

  /** A record sealed successfully takes the next number of its epoch. */
  lemma SealedNumber(s: Sender, ciphers: Ciphers, maxOut: nat)
    requires s.written < |s.flight|
    ensures var (t, r) := SealNextMessage(s, ciphers, maxOut);
            r.Whole? || r.Partial? ==> NewNumbers(s.writer, [r.record], t.writer)
    ensures SealNextMessage(s, ciphers, maxOut).1.NoProgress? ==>
              SealNextMessage(s, ciphers, maxOut).0.writer == s.writer
  {
    hide MessageOf, Cut;
  }

  lemma NumbersAppend(w: DtlsSeal.Writer, r: Record, x: DtlsSeal.Writer, rs: seq<Record>, z: DtlsSeal.Writer)
    requires NewNumbers(w, [r], x) && NewNumbers(x, rs, z)
    ensures NewNumbers(w, [r] + rs, z)
  {
    assert [r][0] == r;
    forall i | 0 <= i < |rs|
      ensures (r.epoch, r.number) != (rs[i].epoch, rs[i].number)
    {
    }
  }

  /** A datagram's records have numbers never used before, and different ones. */
  lemma {:induction false} FillNumbers(s: Sender, ciphers: Ciphers, maxOut: nat)
    ensures var (u, rs) := Fill(s, ciphers, maxOut);
            rs.Some? ==> NewNumbers(s.writer, rs.value, u.writer)
    decreases |s.flight| - s.written
  {
    hide SealNextMessage, NewNumbers;
    NoNumbers(s.writer);
    if s.written < |s.flight| {
      SealedNumber(s, ciphers, maxOut);
      var (t, sealed) := SealNextMessage(s, ciphers, maxOut);
      NoNumbers(t.writer);
      if sealed.Whole? {
        var next := t.(written := t.written + 1);
        FillNumbers(next, ciphers, maxOut - sealed.record.length);
        var (u, rs) := Fill(next, ciphers, maxOut - sealed.record.length);
        if rs.Some? {
          NumbersAppend(s.writer, sealed.record, t.writer, rs.value, u.writer);
        }
      }
    }
  }

  lemma NoNumbers(w: DtlsSeal.Writer)
    ensures NewNumbers(w, [], w)
  {
  }

  // In the system -------------------------------------------------------------------------------------------------

  ghost predicate Numbered(y: System) {
    && (forall r :: r in y.net ==> Used(r, y.sender.writer))
    && (forall r, q :: r in y.net && q in y.net && r.epoch == q.epoch && r.number == q.number ==> r == q)
  }

  /** No counter wraps in this step: neither the write epoch nor, where sealing fails, a record number. */
  ghost predicate Unwrapped(y: System, e: Step) {
    match e
    case ChangeWriteState => y.sender.writer.epoch + 1 < U16
    case SendPacket(ciphers, mtu, _) =>
      var (t, p) := NextPacket(y.sender, ciphers, mtu);
      p == SealError ==> Onward(y.sender.writer, t.writer)
    case _ => true
  }

  lemma UsedStays(r: Record, w: DtlsSeal.Writer, x: DtlsSeal.Writer)
    requires Used(r, w) && Onward(w, x)
    ensures Used(r, x)
  {
  }

  lemma SendNumbered(y: System, ciphers: Ciphers, mtu: nat, taken: bool)
    requires Numbered(y) && Unwrapped(y, SendPacket(ciphers, mtu, taken))
    ensures Numbered(DoSend(y, ciphers, mtu, taken))
  {
    hide Fill;
    FillNumbers(y.sender, ciphers, mtu);
    var (t, p) := NextPacket(y.sender, ciphers, mtu);
    assert Onward(y.sender.writer, t.writer);
    forall r | r in y.net
      ensures Used(r, t.writer)
    {
      UsedStays(r, y.sender.writer, t.writer);
    }
  }

  lemma StepNumbered(y: System, e: Step)
    requires Inv(y) && Possible(y, e) && Numbered(y) && Unwrapped(y, e)
    ensures Numbered(DtlsEndToEnd.Next(y, e))
  {
    hide Inv, DoSend;
    match e
    case SendPacket(ciphers, mtu, taken) => SendNumbered(y, ciphers, mtu, taken);
    case _ => {
    }
  }

  /** As `Reaches`, with no counter wrapping on the way. */
  ghost predicate ReachesUnwrapped(y: System, es: seq<Step>, z: System)
    requires Inv(y)
    decreases |es|
  {
    if es == [] then y == z
    else
      Possible(y, es[0]) && Unwrapped(y, es[0]) &&
      (StepKeepsInv(y, es[0]);
       ReachesUnwrapped(DtlsEndToEnd.Next(y, es[0]), es[1..], z))
  }

  lemma {:induction false} RunNumbered(y: System, es: seq<Step>, z: System)
    requires Inv(y) && Numbered(y) && ReachesUnwrapped(y, es, z)
    ensures Numbered(z)
    decreases |es|
  {
    hide DtlsEndToEnd.Next, SenderInv, NetInv, Numbered, Unwrapped;
    if es != [] {
      StepKeepsInv(y, es[0]);
      StepNumbered(y, es[0]);
      RunNumbered(DtlsEndToEnd.Next(y, es[0]), es[1..], z);
    }
  }

  /** Until a counter wraps, any two different records ever put on the network differ in epoch or number. */
  lemma RecordsDiffer(es: seq<Step>, y: System, r: Record, q: Record)
    requires (InitialInv(); ReachesUnwrapped(INITIAL, es, y))
    requires r in y.net && q in y.net && r.epoch == q.epoch && r.number == q.number
    ensures r == q
  {
    InitialInv();
    RunNumbered(INITIAL, es, y);
    hide ReachesUnwrapped;
  }
}
