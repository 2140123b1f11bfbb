/** Reassembly completes: once the records of one transmission of a flight have been taken, in any order, repeated,
    mixed with others and with messages released in between, every message of it is there (RFC 6347,
    section 4.2.3). */
module DtlsDelivery {
  import opened Bits
  import opened Wrappers
  import opened DtlsWire
  import opened DtlsFragment
  import opened DtlsRing
  import opened DtlsSend
  import opened DtlsEndToEnd
  import DtlsWindow

  /** What piece `f` carried is there: its message is under way and has those positions. */
  ghost predicate Holds(r: Receiver, f: Fragment)
    requires Consistent(r)
  {
    var m := Pending(r);
    && f.header.seqNo in m
    && forall p: nat :: f.header.fragOff <= p < f.header.fragOff + f.header.fragLen ==> p in m[f.header.seqNo].got
  }

  /** The receiver would look at piece `f`: in the window, within the size limit, and not ahead in epoch 1. */
  ghost predicate Welcome(r: Receiver, f: Fragment, maxLen: nat) {
    && InWindow(r, f.header.seqNo)
    && f.header.msgLen <= maxLen
    && (r.rEpoch == 1 ==> f.header.seqNo == r.readSeq)
  }

  ghost predicate From(log: seq<Fragment>, r: Receiver) {
    GoodLog(log) && Consistent(r) && RingFrom(log, r.ring)
  }

  lemma PendingFrom(log: seq<Fragment>, r: Receiver, n: nat)
    requires From(log, r) && n in Pending(r)
    ensures SlotFrom(log, Pending(r)[n]) && Pending(r)[n].seqNo == n
  {
    SameNumber(r, n);
  }

  /** A welcome piece is taken without error, and then held. */
  lemma TakenIsHeld(log: seq<Fragment>, r: Receiver, f: Fragment, maxLen: nat)
    requires From(log, r) && WellFormed(f) && IsPiece(log, f) && Welcome(r, f, maxLen)
    ensures var (r', ok) := TakeFragment(r, f, maxLen);
            ok && From(log, r') && Holds(r', f)
  {
    hide TakeFragment, SlotFrom, GoodLog;
    RingRefinesMap(r, f, maxLen);
    TakePiece(log, r, f, maxLen);
    PieceFits(log, f);
    var n := f.header.seqNo;
    if n in Pending(r) {
      PendingFrom(log, r, n);
      SlotAgrees(log, Pending(r)[n], f);
    }
  }

  lemma PieceFits(log: seq<Fragment>, f: Fragment)
    requires GoodLog(log) && IsPiece(log, f)
    ensures f.header.fragOff + f.header.fragLen <= f.header.msgLen
  {
  }

  lemma SlotAgrees(log: seq<Fragment>, s: Slot, f: Fragment)
    requires GoodLog(log) && SlotFrom(log, s) && IsPiece(log, f) && s.seqNo == f.header.seqNo
    ensures s.typ == f.header.typ && s.msgLen == f.header.msgLen
  {
  }

  // From the sender's records --------------------------------------------------------------------------

  /** Record `r` carries the piece `f`. */
  ghost predicate CarriesPiece(r: Record, f: Fragment) {
    r.typ == Handshake && WellFormed(f) && r.plaintext == FragmentBytes(f)
  }

  /** Some piece of message `m` covers position `p`, or starts there. */
  ghost predicate Covers(f: Fragment, m: Fragment, p: nat) {
    && f.header.seqNo == m.header.seqNo
    && f.header.fragOff + f.header.fragLen <= |m.body|
    && f.header.fragOff <= p && (p < f.header.fragOff + f.header.fragLen || m.body == [])
  }

  ghost predicate CoveredBy(rs: seq<Record>, m: Fragment, p: nat) {
    exists r: Record, f: Fragment :: r in rs && CarriesPiece(r, f) && Covers(f, m, p)
  }

  /** The positions of message `k` still to be sent from cursor `c` on. */
  ghost predicate Ahead(c: Cursor, k: nat, p: nat) {
    k > c.message || (k == c.message && p >= c.offset)
  }

  lemma CoveredNow(flight: seq<Outgoing>, c: Cursor, r: Record, d: Cursor, k: nat, p: nat)
    requires GoodFlight(flight) && Carries(flight, c, r, d)
    requires k < |flight| && !flight[k].isCcs && Ahead(c, k, p)
    requires p < |Body(flight[k])| || (p == 0 && Body(flight[k]) == [])
    ensures Ahead(d, k, p) || CoveredBy([r], MessageOf(flight[k]).value, p)
  {
    hide FragmentBytes;
    if k == c.message && !Ahead(d, k, p) {
      var m := MessageOf(flight[k]).value;
      var f := Cut(m, c.offset, |r.plaintext| - HEADER_LENGTH);
      assert CarriesPiece(r, f) && Covers(f, m, p);
      assert r in [r];
    }
  }

  lemma {:induction false} TileCovers(flight: seq<Outgoing>, c: Cursor, rs: seq<Record>, k: nat, p: nat)
    requires GoodFlight(flight) && Tiles(flight, c, rs, Cursor(|flight|, 0))
    requires k < |flight| && !flight[k].isCcs && Ahead(c, k, p)
    requires p < |Body(flight[k])| || (p == 0 && Body(flight[k]) == [])
    ensures CoveredBy(rs, MessageOf(flight[k]).value, p)
    decreases |rs|
  {
    hide Carries, CarriesPiece, Covers, Body, MessageOf;
    var e: Cursor :| Carries(flight, c, rs[0], e) && Tiles(flight, e, rs[1..], Cursor(|flight|, 0));
    var m := MessageOf(flight[k]).value;
    CoveredNow(flight, c, rs[0], e, k, p);
    if Ahead(e, k, p) {
      TileCovers(flight, e, rs[1..], k, p);
      var r: Record, f: Fragment :| r in rs[1..] && CarriesPiece(r, f) && Covers(f, m, p);
      assert r in rs;
    } else {
      var r: Record, f: Fragment :| r in [rs[0]] && CarriesPiece(r, f) && Covers(f, m, p);
      assert r in rs;
    }
  }

  // Over runs -------------------------------------------------------------------------------------------

  /** What piece `f` carried is in the ring, or its message has been released. */
  ghost predicate Kept(y: System, f: Fragment) {
    Consistent(y.receiver) && (f.header.seqNo < |y.released| || Holds(y.receiver, f))
  }

  /** This delivery counts: the record layer accepts the record, and the piece in it belongs to a message released
      before or is welcome. */
  ghost predicate Counts(y: System, r: Record, maxLen: nat) {
    && DtlsWindow.Accepts(y.reader, DtlsWindow.Arrival(r.epoch, r.number, true))
    && forall f: Fragment :: CarriesPiece(r, f) ==>
         f.header.seqNo < y.receiver.readSeq || Welcome(y.receiver, f, maxLen)
  }

  /** Some delivery of `r` counts in the course of `es`. */
  ghost predicate TakenIn(y: System, es: seq<Step>, r: Record)
    requires Inv(y)
    decreases |es|
  {
    && es != [] && Possible(y, es[0])
    && (|| (es[0].Deliver? && es[0].record == r && Counts(y, r, es[0].maxLen))
        || (StepKeepsInv(y, es[0]);
            TakenIn(Next(y, es[0]), es[1..], r)))
  }

  /** Nothing that arrives takes away what is held. */
  lemma TakingHolds(r: Receiver, g: Fragment, maxLen: nat, f: Fragment)
    requires Consistent(r) && WellFormed(g) && Holds(r, f)
    ensures Consistent(TakeFragment(r, g, maxLen).0) && Holds(TakeFragment(r, g, maxLen).0, f)
  {
    assert Placed(r, f.header.seqNo % FLIGHT);
    hide TakeFragment, Placed, Slot.Complete;
    RingRefinesMap(r, g, maxLen);
    var (r', ok) := TakeFragment(r, g, maxLen);
    if r' != r {
      var n, m := f.header.seqNo, Pending(r);
      assert Pending(r') == TakeInto(m, g);
      forall p: nat | f.header.fragOff <= p < f.header.fragOff + f.header.fragLen
        ensures p in Pending(r')[n].got
      {
        assert p in m[n].got && p < m[n].msgLen;
        assert p in WithBody(m[n], g.header.fragOff, g.body).got;
      }
    }
  }

  lemma SamePiece(f: Fragment, g: Fragment)
    requires WellFormed(f) && WellFormed(g) && FragmentBytes(f) == FragmentBytes(g)
    ensures f == g
  {
    hide FragmentBytes, ParseFragment;
    ParseAfterWrite(f, []);
    ParseAfterWrite(g, []);
  }

  lemma DeliveryKeeps(y: System, r: Record, maxLen: nat, f: Fragment)
    requires Inv(y) && r in y.net && Kept(y, f)
    ensures Kept(DoDeliver(y, r, maxLen), f)
  {
    hide Good, FlightFrom, GoodLog, FragmentBytes, IsPiece, TakeRecord, TakeFragment, Placed, RingFrom, Holds,
         DtlsWindow.Accepts, DtlsWindow.Next, Faithful;
    DeliverKeepsInv(y, r, maxLen);
    assert FromLog(y.log, r);
    if r.typ == Handshake {
      var g: Fragment :| IsPiece(y.log, g) && WellFormed(g) && r.plaintext == FragmentBytes(g);
      TakeWhole(y.receiver, g, maxLen);
      if f.header.seqNo >= |y.released| {
        TakingHolds(y.receiver, g, maxLen, f);
      }
    } else {
      FlagsKeepConsistent(y.receiver, y.receiver.(hasCcs := true));
      SameRing(y.receiver, y.receiver.(hasCcs := true), f);
    }
  }

  lemma SameRing(r: Receiver, q: Receiver, f: Fragment)
    requires Consistent(r) && Consistent(q) && q.ring == r.ring && q.readSeq == r.readSeq
    ensures Holds(r, f) ==> Holds(q, f)
  {
    hide Consistent;
    assert Pending(q) == Pending(r);
  }

  lemma CountedIsKept(y: System, r: Record, maxLen: nat, f: Fragment)
    requires Inv(y) && r in y.net && CarriesPiece(r, f) && Counts(y, r, maxLen)
    ensures Kept(DoDeliver(y, r, maxLen), f)
  {
    hide Good, FlightFrom, FragmentBytes, IsPiece, TakeRecord, TakeFragment, Placed, RingFrom, Holds, Welcome,
         DtlsWindow.Accepts, DtlsWindow.Next, Faithful, GoodLog;
    DeliverKeepsInv(y, r, maxLen);
    assert FromLog(y.log, r);
    var g: Fragment :| IsPiece(y.log, g) && WellFormed(g) && r.plaintext == FragmentBytes(g);
    SamePiece(f, g);
    if f.header.seqNo >= y.receiver.readSeq {
      TakeWhole(y.receiver, g, maxLen);
      TakenIsHeld(y.log, y.receiver, g, maxLen);
    }
  }

  lemma ReleaseKeeps(y: System, f: Fragment)
    requires Inv(y) && y.receiver.hasMessage && Kept(y, f)
    ensures Kept(Next(y, ReleaseMessage), f)
  {
    hide SenderInv, NetInv, RingFrom, Faithful, Placed, CurrentRaw, Slot.Complete;
    NextRemovesCurrent(y.receiver);
  }

  lemma StepKeeps(y: System, e: Step, f: Fragment)
    requires Inv(y) && Possible(y, e) && Kept(y, f)
    ensures Kept(Next(y, e), f)
  {
    hide SenderInv, NetInv, RingFrom, Faithful, Consistent, Holds, DoAdd, DoSend, DoDeliver, HasUnprocessed;
    StepKeepsInv(y, e);
    match e
    case Deliver(r, maxLen) => DeliveryKeeps(y, r, maxLen, f);
    case ReleaseMessage => ReleaseKeeps(y, f);
    case AddMessage(typ, body) => SameReceiver(y, e, f);
    case SendPacket(_, _, _) => SameReceiver(y, e, f);
    case _ => SameRing(y.receiver, Next(y, e).receiver, f);
  }

  lemma SameReceiver(y: System, e: Step, f: Fragment)
    requires Inv(y) && Possible(y, e) && (e.AddMessage? || e.SendPacket?) && Kept(y, f)
    ensures Kept(Next(y, e), f)
  {
    hide Inv, Consistent, Holds, Add;
  }

  lemma {:induction false} RunKeeps(y: System, es: seq<Step>, z: System, f: Fragment)
    requires Inv(y) && Reaches(y, es, z) && Kept(y, f)
    ensures Kept(z, f)
    decreases |es|
  {
    hide Next, SenderInv, NetInv, RingFrom, Faithful, Consistent, Kept;
    if es != [] {
      StepKeepsInv(y, es[0]);
      StepKeeps(y, es[0], f);
      RunKeeps(Next(y, es[0]), es[1..], z, f);
    }
  }

  /** A piece whose record was taken at some point of a run is still there at the end, or its message released. */
  lemma {:induction false} TakenIsKept(y: System, es: seq<Step>, z: System, r: Record, f: Fragment)
    requires Inv(y) && Reaches(y, es, z) && TakenIn(y, es, r) && CarriesPiece(r, f)
    ensures Kept(z, f)
    decreases |es|
  {
    hide SenderInv, NetInv, RingFrom, Faithful, Consistent, Kept, DoDeliver, CarriesPiece, Counts;
    var e := es[0];
    StepKeepsInv(y, e);
    if e.Deliver? && e.record == r && Counts(y, r, e.maxLen) {
      CountedIsKept(y, r, e.maxLen, f);
      RunKeeps(Next(y, e), es[1..], z, f);
    } else {
      hide Next;
      TakenIsKept(Next(y, e), es[1..], z, r, f);
    }
  }

  /** The records of a transmission that carry pieces of message `m` have all been taken in the course of a run. */
  ghost predicate AllTaken(es: seq<Step>, rs: seq<Record>, m: Fragment) {
    InitialInv();
    forall r: Record, f: Fragment ::
      r in rs && CarriesPiece(r, f) && f.header.seqNo == m.header.seqNo ==> TakenIn(INITIAL, es, r)
  }

  lemma PositionKept(es: seq<Step>, z: System, rs: seq<Record>, m: Fragment, p: nat)
    requires (InitialInv(); Reaches(INITIAL, es, z))
    requires CoveredBy(rs, m, p) && AllTaken(es, rs, m)
    ensures Consistent(z.receiver)
    ensures m.header.seqNo >= |z.released| ==>
              && m.header.seqNo in Pending(z.receiver)
              && (p < |m.body| ==> p in Pending(z.receiver)[m.header.seqNo].got)
  {
    InitialInv();
    hide TakenIn, Reaches, CarriesPiece;
    var x: Record, f: Fragment :| x in rs && CarriesPiece(x, f) && Covers(f, m, p);
    TakenIsKept(INITIAL, es, z, x, f);
  }

  /** Message `m` has been released, or it is complete in the ring, in either case with the sender's raw bytes. */
  ghost predicate ThroughWith(z: System, m: Fragment)
    requires WellFormed(m)
  {
    var n := m.header.seqNo;
    || (n < |z.released| && z.released[n] == FragmentBytes(m))
    || (&& Consistent(z.receiver) && n in Pending(z.receiver)
        && Pending(z.receiver)[n].Valid() && Pending(z.receiver)[n].Complete()
        && Pending(z.receiver)[n].Raw() == FragmentBytes(m))
  }

  /** Over any run, once the records of one full transmission have been taken, each message of the flight has been
      released or is complete in the ring. */
  lemma TransmissionCompletes(es: seq<Step>, z: System, flight: seq<Outgoing>, rs: seq<Record>, k: nat)
    requires (InitialInv(); Reaches(INITIAL, es, z))
    requires GoodFlight(flight) && Tiles(flight, REWOUND, rs, Cursor(|flight|, 0))
    requires k < |flight| && !flight[k].isCcs && MessageOf(flight[k]).value in z.log
    requires AllTaken(es, rs, MessageOf(flight[k]).value)
    ensures ThroughWith(z, MessageOf(flight[k]).value)
  {
    InitialInv();
    RunKeepsInv(INITIAL, es, z);
    hide Reaches, CoveredBy, Carries, MessageOf, FragmentBytes, Slot.Raw, AllTaken, SenderInv, NetInv, Tiles;
    var m := MessageOf(flight[k]).value;
    InLogOf(z, m);
    TileCovers(flight, REWOUND, rs, k, 0);
    PositionKept(es, z, rs, m, 0);
    if m.header.seqNo >= |z.released| {
      forall p: nat | p < |m.body|
        ensures p in Pending(z.receiver)[m.header.seqNo].got
      {
        TileCovers(flight, REWOUND, rs, k, p);
        PositionKept(es, z, rs, m, p);
      }
      CompleteHere(z, m);
    }
  }

  lemma InLogOf(z: System, m: Fragment)
    requires Inv(z) && m in z.log
    ensures m.header.seqNo < |z.log| && z.log[m.header.seqNo] == m && WellFormed(m)
    ensures m.header.seqNo < |z.released| ==> z.released[m.header.seqNo] == FragmentBytes(m)
  {
    hide FragmentBytes;
    InLog(z.log, m);
  }

  lemma CompleteHere(z: System, m: Fragment)
    requires Inv(z) && m.header.seqNo < |z.log| && z.log[m.header.seqNo] == m && WellFormed(m)
    requires m.header.seqNo in Pending(z.receiver)
    requires forall p: nat :: p < |m.body| ==> p in Pending(z.receiver)[m.header.seqNo].got
    ensures ThroughWith(z, m)
  {
    hide FragmentBytes, Slot.Raw;
    var n := m.header.seqNo;
    var s := Pending(z.receiver)[n];
    PendingFrom(z.log, z.receiver, n);
    assert s.Valid() by {
      assert Placed(z.receiver, n % FLIGHT);
    }
    CompleteIsWhole(z.log, s);
  }
}
