/** Sequence numbers of outgoing DTLS records: `dtls_seal_record` (dtls_record.cc), `dtls1_set_write_state`
    (dtls_method.cc) and `ssl_record_sequence_update` (tls_record.cc). */
module DtlsSeal {
  import opened Bits

  /** The 48-bit record number leaves room for this many records an epoch. */
  const NUMBERS: nat := 0x1_0000_0000_0000

  lemma FrontByte(b: byte, tail: seq<byte>)
    ensures BigEndian([b] + tail) == b * Pow2(8 * |tail|) + BigEndian(tail)
  {
    BigEndianConcat([b], tail);
    assert BigEndian([b]) == b by {
      assert [b][..0] == [];
    }
  }

  /** A carry out of a tail of 255s into a byte below 255 adds one to the whole number. */
  lemma CarryStops(front: seq<byte>, b: byte, tail: seq<byte>, zeros: seq<byte>)
    requires |zeros| == |tail| && b < 255
    requires BigEndian(tail) == Pow2(8 * |tail|) - 1 && BigEndian(zeros) == 0
    ensures BigEndian(front + ([b + 1] + zeros)) == BigEndian(front + ([b] + tail)) + 1
  {
    hide BigEndian, Pow2;
    FrontByte(b, tail);
    FrontByte(b + 1, zeros);
    BigEndianConcat(front, [b] + tail);
    BigEndianConcat(front, [b + 1] + zeros);
    var p := Pow2(8 * |tail|);
    assert (b as int + 1) * p == b as int * p + p;
  }

  lemma CarryOn(tail: seq<byte>, zeros: seq<byte>)
    requires |zeros| == |tail|
    requires BigEndian(tail) == Pow2(8 * |tail|) - 1 && BigEndian(zeros) == 0
    ensures BigEndian([255] + tail) == Pow2(8 * (|tail| + 1)) - 1 && BigEndian([0] + zeros) == 0
  {
    FrontByte(255, tail);
    FrontByte(0, zeros);
    Pow2Byte(|tail|);
  }

  /** From place `i` on, every byte was 255 and is now 0; the bytes before are untouched. */
  ghost predicate Carried(was: seq<byte>, now: seq<byte>, i: nat) {
    && i <= |was| == |now|
    && now[..i] == was[..i]
    && BigEndian(was[i..]) == Pow2(8 * (|was| - i)) - 1
    && BigEndian(now[i..]) == 0
  }

  lemma CarryStep(was: seq<byte>, now: seq<byte>, i: nat)
    requires Carried(was, now, i + 1)
    ensures was[i] == 255 ==> Carried(was, now[i := 0], i)
    ensures was[i] < 255 ==> BigEndian(now[i := was[i] + 1]) == BigEndian(was) + 1
  {
    hide BigEndian, Pow2;
    var tail, zeros := was[i + 1..], now[i + 1..];
    assert was[i..] == [was[i]] + tail && was == was[..i] + was[i..];
    if was[i] == 255 {
      CarryOn(tail, zeros);
      assert now[i := 0][i..] == [0] + zeros;
    } else {
      CarryStops(was[..i], was[i], tail, zeros);
      assert now[i := was[i] + 1] == was[..i] + ([was[i] + 1] + zeros);
    }
  }

  lemma CarryOut(was: seq<byte>, now: seq<byte>)
    requires Carried(was, now, 0)
    ensures BigEndian(was) == Pow2(8 * |was|) - 1 && BigEndian(now) == 0
  {
    assert was[0..] == was && now[0..] == now;
  }

  lemma Incremented(was: seq<byte>, now: seq<byte>)
    requires |was| == |now|
    requires BigEndian(now) == BigEndian(was) + 1 || (BigEndian(was) == Pow2(8 * |was|) - 1 && BigEndian(now) == 0)
    ensures BigEndian(now) == (BigEndian(was) + 1) % Pow2(8 * |was|)
    ensures BigEndian(now) == BigEndian(was) + 1 <==> BigEndian(was) + 1 < Pow2(8 * |was|)
  {
    BigEndianBelow(now);
    SmallModulo(BigEndian(was) + 1, Pow2(8 * |was|));
  }

  /** `ssl_record_sequence_update`: a big-endian increment in place; false at the wrap to zero. */
  method SequenceUpdate(s: array<byte>) returns (ok: bool)
    modifies s
    ensures BigEndian(s[..]) == (BigEndian(old(s[..])) + 1) % Pow2(8 * s.Length)
    ensures ok <==> BigEndian(old(s[..])) + 1 < Pow2(8 * s.Length)
  {
    var i := s.Length;
    ghost var was := s[..];
    while i > 0
      invariant 0 <= i <= s.Length && Carried(was, s[..], i)
    {
      i := i - 1;
      ghost var before := s[..];
      CarryStep(was, before, i);
      assert before[i] == was[i];
      s[i] := if s[i] == 255 then 0 else s[i] + 1;
      assert s[..] == before[i := s[i]];
      if s[i] != 0 {
        Incremented(was, s[..]);
        return true;
      }
    }
    CarryOut(was, s[..]);
    Incremented(was, s[..]);
    ok := false;
  }

  /** What six bytes hold. */
  type Number = n: nat | n < NUMBERS

  /** The write epoch, the record numbers of it, and those of the epoch before it. */
  datatype Writer = Writer(epoch: nat, current: Number, last: Number)

  const START := Writer(0, 0, 0)

  datatype Use = CurrentEpoch | PreviousEpoch

  /** The (epoch, number) pair the next record would carry. */
  function Stamp(w: Writer, use: Use): (nat, nat)
    requires use.PreviousEpoch? ==> w.epoch >= 1
  {
    if use.CurrentEpoch? then (w.epoch, w.current) else (w.epoch - 1, w.last)
  }

  /** Sealing takes the next number; false where the counter wraps, and then nothing is emitted. */
  function Bump(w: Writer, use: Use): (Writer, bool)
  {
    match use
    case CurrentEpoch => (w.(current := (w.current + 1) % NUMBERS), w.current + 1 < NUMBERS)
    case PreviousEpoch => (w.(last := (w.last + 1) % NUMBERS), w.last + 1 < NUMBERS)
  }

  function NewWriteState(w: Writer): Writer {
    Writer((w.epoch + 1) % U16, 0, w.current)
  }

  lemma SixBytes(s: seq<byte>)
    requires |s| == 6
    ensures BigEndian(s) < NUMBERS
  {
    BigEndianBelow(s);
    Widths();
  }

  /** The counters as the connection keeps them: six bytes each. */
  class Counters {
    var wEpoch: nat
    var writeSequence: array<byte>
    var lastWriteSequence: array<byte>

    ghost predicate Valid()
      reads this
    {
      writeSequence.Length == 6 && lastWriteSequence.Length == 6 && writeSequence != lastWriteSequence
    }

    ghost function View(): Writer
      requires Valid()
      reads this, writeSequence, lastWriteSequence
    {
      SixBytes(writeSequence[..]);
      SixBytes(lastWriteSequence[..]);
      Writer(wEpoch, BigEndian(writeSequence[..]), BigEndian(lastWriteSequence[..]))
    }

    constructor ()
      ensures Valid() && View() == START
      ensures fresh(writeSequence) && fresh(lastWriteSequence)
    {
      wEpoch := 0;
      writeSequence := new byte[6](_ => 0);
      lastWriteSequence := new byte[6](_ => 0);
      new;
      BigEndianZeros(writeSequence[..]);
      BigEndianZeros(lastWriteSequence[..]);
    }

    /** The counter part of `dtls_seal_record`. */
    method Advance(use: Use) returns (ok: bool)
      requires Valid()
      modifies writeSequence, lastWriteSequence
      ensures Valid() && (View(), ok) == Bump(old(View()), use)
    {
      hide BigEndian, Pow2;
      Widths();
      if use.CurrentEpoch? {
        ok := SequenceUpdate(writeSequence);
      } else {
        ok := SequenceUpdate(lastWriteSequence);
      }
    }

    /** `dtls1_set_write_state`: the counters move over, and the new epoch starts at zero. */
    method SetWriteState()
      requires Valid()
      modifies this, writeSequence, lastWriteSequence
      ensures Valid() && View() == NewWriteState(old(View()))
      ensures writeSequence == old(writeSequence) && lastWriteSequence == old(lastWriteSequence)
    {
      wEpoch := (wEpoch + 1) % U16;
      for i := 0 to 6
        invariant lastWriteSequence[..i] == writeSequence[..i]
        invariant writeSequence[..] == old(writeSequence[..])
        modifies lastWriteSequence
      {
        lastWriteSequence[i] := writeSequence[i];
      }
      assert lastWriteSequence[..] == lastWriteSequence[..6] == writeSequence[..6] == old(writeSequence[..]);
      ghost var moved := lastWriteSequence[..];
      forall i | 0 <= i < 6 {
        writeSequence[i] := 0;
      }
      assert lastWriteSequence[..] == moved;
      BigEndianZeros(writeSequence[..]);
    }
  }

  // Uniqueness over every run -------------------------------------------------------------------

  datatype Event = Seal(use: Use) | ChangeWriteState

  ghost predicate Possible(w: Writer, e: Event) {
    e == Seal(PreviousEpoch) ==> w.epoch >= 1
  }

  ghost predicate Fails(w: Writer, e: Event) {
    match e
    case Seal(use) => !Bump(w, use).1
    case ChangeWriteState => w.epoch + 1 == U16
  }

  function Next(w: Writer, e: Event): Writer {
    match e
    case Seal(use) => Bump(w, use).0
    case ChangeWriteState => NewWriteState(w)
  }

  ghost function Run(es: seq<Event>): Writer {
    if es == [] then START else Next(Run(es[..|es| - 1]), es[|es| - 1])
  }

  /** Every event could happen, and no counter has wrapped yet. */
  ghost predicate Sound(es: seq<Event>) {
    es != [] ==>
      var front, last := es[..|es| - 1], es[|es| - 1];
      Sound(front) && Possible(Run(front), last) && !Fails(Run(front), last)
  }

  /** The stamps of the records emitted over a run, in order. */
  ghost function Emitted(es: seq<Event>): seq<(nat, nat)>
    requires Sound(es)
  {
    if es == [] then []
    else
      var front, last := es[..|es| - 1], es[|es| - 1];
      Emitted(front) + (if last.Seal? then [Stamp(Run(front), last.use)] else [])
  }

  ghost predicate Below(epoch: nat, number: nat, w: Writer) {
    epoch <= w.epoch && (epoch == w.epoch ==> number < w.current) && (epoch + 1 == w.epoch ==> number < w.last)
  }

  lemma StaysBelow(epoch: nat, number: nat, w: Writer, e: Event)
    requires Below(epoch, number, w) && Possible(w, e) && !Fails(w, e)
    requires w.epoch < U16
    ensures Below(epoch, number, Next(w, e))
  {
  }

  lemma StampedBelow(w: Writer, use: Use)
    requires Possible(w, Seal(use)) && !Fails(w, Seal(use))
    requires w.epoch < U16
    ensures var (epoch, number) := Stamp(w, use);
            Below(epoch, number, Next(w, Seal(use)))
  {
  }

  /** Each emitted stamp lies below the counter of its epoch. */
  lemma {:induction false} EmittedBelow(es: seq<Event>, i: nat)
    requires Sound(es) && i < |Emitted(es)|
    ensures var (epoch, number) := Emitted(es)[i];
            var w := Run(es);
            Below(epoch, number, w)
  {
    hide Next, Stamp, Below, Fails;
    var front, last := es[..|es| - 1], es[|es| - 1];
    EpochBounded(front);
    assert Run(es) == Next(Run(front), last);
    if i < |Emitted(front)| {
      EmittedBelow(front, i);
      StaysBelow(Emitted(es)[i].0, Emitted(es)[i].1, Run(front), last);
    } else {
      assert last.Seal?;
      StampedBelow(Run(front), last.use);
    }
  }

  lemma {:induction false} EpochBounded(es: seq<Event>)
    requires Sound(es)
    ensures Run(es).epoch < U16
  {
    if es != [] {
      EpochBounded(es[..|es| - 1]);
    }
  }

  /** Until a counter wraps, no two emitted records share an (epoch, number) pair, whatever the order of sealing
      under the current and the previous epoch and of write-state changes. */
  lemma {:induction false} StampsUnique(es: seq<Event>, i: nat, j: nat)
    requires Sound(es) && i < j < |Emitted(es)|
    ensures Emitted(es)[i] != Emitted(es)[j]
  {
    var front := es[..|es| - 1];
    if j < |Emitted(front)| {
      StampsUnique(front, i, j);
    } else {
      EmittedBelow(front, i);
    }
  }

  /** How many of the stamps are of that epoch. */
  ghost function CountOf(ss: seq<(nat, nat)>, epoch: nat): nat {
    if ss == [] then 0
    else CountOf(ss[..|ss| - 1], epoch) + if ss[|ss| - 1].0 == epoch then 1 else 0
  }

  lemma CountMore(ss: seq<(nat, nat)>, s: (nat, nat), epoch: nat)
    ensures CountOf(ss + [s], epoch) == CountOf(ss, epoch) + if s.0 == epoch then 1 else 0
  {
    assert (ss + [s])[..|ss|] == ss;
  }

  lemma {:induction false} NoneOf(ss: seq<(nat, nat)>, epoch: nat)
    requires forall i :: 0 <= i < |ss| ==> ss[i].0 < epoch
    ensures CountOf(ss, epoch) == 0
  {
    if ss != [] {
      NoneOf(ss[..|ss| - 1], epoch);
    }
  }

  /** The counters hold how many records their epochs have had. */
  ghost predicate Counted(w: Writer, ss: seq<(nat, nat)>) {
    && w.epoch < U16
    && w.current == CountOf(ss, w.epoch)
    && (w.epoch >= 1 ==> w.last == CountOf(ss, w.epoch - 1))
    && forall i :: 0 <= i < |ss| ==> ss[i].0 <= w.epoch
  }

  lemma SealCounts(w: Writer, ss: seq<(nat, nat)>, use: Use)
    requires Counted(w, ss) && Possible(w, Seal(use)) && !Fails(w, Seal(use))
    ensures Counted(Next(w, Seal(use)), ss + [Stamp(w, use)])
  {
    hide CountOf;
    CountMore(ss, Stamp(w, use), w.epoch);
    if w.epoch >= 1 {
      CountMore(ss, Stamp(w, use), w.epoch - 1);
    }
  }

  lemma ChangeCounts(w: Writer, ss: seq<(nat, nat)>)
    requires Counted(w, ss) && !Fails(w, ChangeWriteState)
    ensures Counted(NewWriteState(w), ss)
  {
    hide CountOf;
    NoneOf(ss, w.epoch + 1);
    SmallModulo(w.epoch + 1, U16);
  }

  lemma {:induction false} CountersCount(es: seq<Event>)
    requires Sound(es)
    ensures Counted(Run(es), Emitted(es))
  {
    hide Counted, Fails, Bump, Stamp, NewWriteState;
    if es == [] {
      StartCounted();
    } else {
      var front, last := es[..|es| - 1], es[|es| - 1];
      CountersCount(front);
      if last.Seal? {
        SealCounts(Run(front), Emitted(front), last.use);
      } else {
        ChangeCounts(Run(front), Emitted(front));
        assert Emitted(es) == Emitted(front);
      }
    }
  }

  lemma StartCounted()
    ensures Counted(START, [])
  {
  }

  /** The records of each epoch are numbered 0, 1, 2, ... in the order they are sealed. */
  lemma {:induction false} NumbersRunOn(es: seq<Event>, i: nat)
    requires Sound(es) && i < |Emitted(es)|
    ensures var (epoch, number) := Emitted(es)[i];
            number == CountOf(Emitted(es)[..i], epoch)
  {
    var front := es[..|es| - 1];
    if i < |Emitted(front)| {
      NumbersRunOn(front, i);
      assert Emitted(es)[..i] == Emitted(front)[..i];
    } else {
      CountersCount(front);
      assert Emitted(es)[..i] == Emitted(front);
    }
  }
}
