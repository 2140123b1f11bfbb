/** The anti-replay window of the DTLS record layer (dtls_record.cc; RFC 6347, section 4.1.2.6). */
module DtlsWindow {
  import opened Bits

  const WINDOW_SIZE: nat := 64

  /** The two 64-bit words of DTLS1_BITMAP. */
  datatype Window = Window(bits: nat, max: nat)

  const EMPTY := Window(0, 0)

  predicate Discards(w: Window, n: nat) {
    n <= w.max && (w.max - n >= WINDOW_SIZE || Bit(w.bits, w.max - n))
  }

  /** How far the window slides to make room for `n`. */
  function Shift(w: Window, n: nat): nat {
    if n > w.max then n - w.max else 0
  }

  function Slid(bits: nat, shift: nat): nat {
    if shift == 0 then bits
    else if shift >= WINDOW_SIZE then 0
    else Shl(bits, shift, 64)
  }

  function Recorded(w: Window, n: nat): Window {
    var max := w.max + Shift(w, n);
    var slid := Slid(w.bits, Shift(w, n));
    Window(if max - n < WINDOW_SIZE then Or(slid, Pow2(max - n)) else slid, max)
  }

  /** DTLS1_BITMAP and the two functions that read and update it in place. */
  class Bitmap {
    var bits: nat
    var maxSeqNum: nat

    ghost function View(): Window
      reads this
    {
      Window(bits, maxSeqNum)
    }

    constructor ()
      ensures View() == EMPTY
    {
      bits, maxSeqNum := 0, 0;
    }

    method ShouldDiscard(seqNum: seq<byte>) returns (discard: bool)
      requires |seqNum| == 8
      ensures discard == Discards(View(), BigEndian(seqNum))
    {
      var n := ToU64Be(seqNum);
      if n > maxSeqNum {
        return false;
      }
      var idx := maxSeqNum - n;
      discard := idx >= WINDOW_SIZE || Bit(bits, idx);
    }

    method Record(seqNum: seq<byte>)
      requires |seqNum| == 8
      modifies this
      ensures View() == Recorded(old(View()), BigEndian(seqNum))
    {
      var n := ToU64Be(seqNum);
      if n > maxSeqNum {
        var shift := n - maxSeqNum;
        if shift >= WINDOW_SIZE {
          bits := 0;
        } else {
          bits := Shl(bits, shift, 64);
        }
        maxSeqNum := n;
      }
      var idx := maxSeqNum - n;
      if idx < WINDOW_SIZE {
        bits := Or(bits, Pow2(idx));
      }
    }
  }

  method ToU64Be(s: seq<byte>) returns (ret: nat)
    requires |s| == 8
    ensures ret == BigEndian(s)
    ensures ret < U64
  {
    ret := 0;
    for i := 0 to 8
      invariant ret == BigEndian(s[..i])
      invariant ret < Pow2(8 * i)
    {
      assert s[..i + 1][..i] == s[..i];
      assert Pow2(8) == 256;
      Pow2Sum(8 * i, 8);
      // `ret <<= 8; ret |= in[i]`: the low byte is free after the shift.
      ret := 256 * ret + s[i];
    }
    assert s[..8] == s;
    Widths();
  }

  // What the window means ----------------------------------------------------------------------

  /** `max` is the largest number of the set, or 0 for the empty set. */
  ghost predicate IsMax(max: nat, seen: set<nat>) {
    && (max in seen || (max == 0 && seen == {}))
    && forall n: nat :: n in seen ==> n <= max
  }

  /** The pair of words stands for the set of numbers recorded so far. */
  ghost predicate Refines(w: Window, seen: set<nat>) {
    && w.bits < Pow2(WINDOW_SIZE)
    && IsMax(w.max, seen)
    && forall n: nat :: n <= w.max && w.max - n < WINDOW_SIZE ==> (Bit(w.bits, w.max - n) <==> n in seen)
  }

  lemma EmptyRefines()
    ensures Refines(EMPTY, {})
  {
    ZeroHasNoBits(0);
  }

  lemma SlidBits(bits: nat, shift: nat, k: nat)
    requires bits < Pow2(WINDOW_SIZE) && k < WINDOW_SIZE
    ensures Slid(bits, shift) < Pow2(WINDOW_SIZE)
    ensures Bit(Slid(bits, shift), k) <==> shift <= k && Bit(bits, k - shift)
  {
    if 0 < shift < WINDOW_SIZE {
      ShlBits(bits, shift, 64, k);
    } else if shift >= WINDOW_SIZE {
      ZeroHasNoBits(k);
    }
  }

  lemma RecordedBits(w: Window, n: nat, k: nat)
    requires w.bits < Pow2(WINDOW_SIZE) && k < WINDOW_SIZE
    ensures Recorded(w, n).bits < Pow2(WINDOW_SIZE)
    ensures Bit(Recorded(w, n).bits, k) <==>
            Recorded(w, n).max - n == k || (Shift(w, n) <= k && Bit(w.bits, k - Shift(w, n)))
  {
    var at := Recorded(w, n).max - n;
    var slid := Slid(w.bits, Shift(w, n));
    SlidBits(w.bits, Shift(w, n), k);
    if at < WINDOW_SIZE {
      Pow2Monotone(at, WINDOW_SIZE);
      OrBelow(slid, Pow2(at), WINDOW_SIZE);
      OrBits(slid, Pow2(at), k);
      OneBit(at, k);
    }
  }

  lemma RecordRefines(w: Window, n: nat, seen: set<nat>)
    requires Refines(w, seen)
    ensures Refines(Recorded(w, n), seen + {n})
  {
    hide Bit, Pow2, Or, Slid;
    var r := Recorded(w, n);
    RecordedBits(w, n, 0);
    forall k: nat | k <= r.max && r.max - k < WINDOW_SIZE
      ensures Bit(r.bits, r.max - k) <==> k in seen + {n}
    {
      RecordedBits(w, n, r.max - k);
      if k <= w.max {
        assert r.max - k - Shift(w, n) == w.max - k;
      }
    }
  }

  /** A number is discarded exactly when it was recorded before or lies 64 or more below the maximum. */
  lemma DiscardsExactly(w: Window, n: nat, seen: set<nat>)
    requires Refines(w, seen)
    ensures Discards(w, n) <==> n in seen || n + WINDOW_SIZE <= w.max
  {
  }

  // The receiving half of the record layer --------------------------------------------------------

  /** A record as `dtls_open_record` sees it: the epoch and 48-bit number of its header, and whether the
      AEAD opens it to a plaintext of legal length. */
  datatype Arrival = Arrival(epoch: nat, number: nat, opens: bool)

  datatype Event = Receive(a: Arrival) | NewReadState

  datatype Reader = Reader(rEpoch: nat, window: Window)

  const START := Reader(0, EMPTY)

  function FullNumber(epoch: nat, number: nat): nat {
    epoch * 0x1_0000_0000_0000 + number
  }

  predicate Accepts(r: Reader, a: Arrival) {
    a.epoch == r.rEpoch && !Discards(r.window, FullNumber(a.epoch, a.number)) && a.opens
  }

  function Next(r: Reader, e: Event): Reader {
    match e
    case Receive(a) =>
      if Accepts(r, a) then r.(window := Recorded(r.window, FullNumber(a.epoch, a.number))) else r
    case NewReadState =>
      // `r_epoch` is 16 bits wide, and the bitmap is cleared.
      Reader((r.rEpoch + 1) % U16, EMPTY)
  }

  function Run(es: seq<Event>): Reader {
    if es == [] then START else Next(Run(es[..|es| - 1]), es[|es| - 1])
  }

  /** The records accepted over a run, in order. */
  function Accepted(es: seq<Event>): seq<Arrival> {
    if es == [] then []
    else
      var front, last := es[..|es| - 1], es[|es| - 1];
      Accepted(front) + (if last.Receive? && Accepts(Run(front), last.a) then [last.a] else [])
  }

  function Changes(es: seq<Event>): nat {
    if es == [] then 0 else Changes(es[..|es| - 1]) + (if es[|es| - 1].NewReadState? then 1 else 0)
  }

  /** The full numbers accepted since the last change of read state. */
  ghost function SeenNow(es: seq<Event>): set<nat> {
    if es == [] then {}
    else
      var front, last := es[..|es| - 1], es[|es| - 1];
      match last
      case NewReadState => {}
      case Receive(a) => SeenNow(front) + (if Accepts(Run(front), a) then {FullNumber(a.epoch, a.number)} else {})
  }

  ghost predicate WellNumbered(es: seq<Event>) {
    forall i :: 0 <= i < |es| && es[i].Receive? ==> es[i].a.number < 0x1_0000_0000_0000
  }

  lemma {:induction false} RunRefines(es: seq<Event>)
    ensures Refines(Run(es).window, SeenNow(es))
  {
    hide Bit, Pow2, Refines, Recorded, Discards;
    if es == [] {
      EmptyRefines();
    } else {
      var front, last := es[..|es| - 1], es[|es| - 1];
      RunRefines(front);
      if last.NewReadState? {
        EmptyRefines();
      } else if Accepts(Run(front), last.a) {
        RecordRefines(Run(front).window, FullNumber(last.a.epoch, last.a.number), SeenNow(front));
      } else {
        assert SeenNow(es) == SeenNow(front);
      }
    }
  }

  /** Over any run, the next record is turned away exactly when it belongs to another epoch, does not open,
      repeats a record accepted in this epoch, or is 64 or more behind the newest one. */
  lemma AcceptanceExact(es: seq<Event>, a: Arrival)
    ensures Accepts(Run(es), a) <==>
            && a.epoch == Run(es).rEpoch && a.opens
            && FullNumber(a.epoch, a.number) !in SeenNow(es)
            && FullNumber(a.epoch, a.number) + WINDOW_SIZE > Run(es).window.max
  {
    RunRefines(es);
    DiscardsExactly(Run(es).window, FullNumber(a.epoch, a.number), SeenNow(es));
  }

  lemma {:induction false} EpochCountsChanges(es: seq<Event>)
    requires Changes(es) < U16
    ensures Run(es).rEpoch == Changes(es)
  {
    if es != [] {
      EpochCountsChanges(es[..|es| - 1]);
    }
  }

  lemma {:induction false} AcceptedBelongs(es: seq<Event>, i: nat)
    requires Changes(es) < U16 && WellNumbered(es) && i < |Accepted(es)|
    ensures var a := Accepted(es)[i];
            a.number < 0x1_0000_0000_0000 && a.epoch <= Changes(es)
            && (a.epoch == Changes(es) ==> FullNumber(a.epoch, a.number) in SeenNow(es))
  {
    var front, last := es[..|es| - 1], es[|es| - 1];
    EpochCountsChanges(front);
    if i < |Accepted(front)| {
      AcceptedBelongs(front, i);
    } else {
      assert es[|es| - 1].Receive?;
    }
  }

  /** No (epoch, number) pair is accepted twice, across changes of read state, until the 16-bit epoch wraps. */
  lemma {:induction false} AcceptedOnce(es: seq<Event>, i: nat, j: nat)
    requires Changes(es) < U16 && WellNumbered(es)
    requires i < j < |Accepted(es)|
    ensures (Accepted(es)[i].epoch, Accepted(es)[i].number) != (Accepted(es)[j].epoch, Accepted(es)[j].number)
  {
    var front, last := es[..|es| - 1], es[|es| - 1];
    if j < |Accepted(front)| {
      AcceptedOnce(front, i, j);
    } else {
      EpochCountsChanges(front);
      AcceptedBelongs(front, i);
      RunRefines(front);
      DiscardsExactly(Run(front).window, FullNumber(last.a.epoch, last.a.number), SeenNow(front));
    }
  }
}
