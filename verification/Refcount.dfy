/** Saturating reference counts: the compare-and-swap loops of refcount_c11.c against the locked counter of
    refcount_lock.c. */
module Refcount {

  /** CRYPTO_REFCOUNT_MAX. */
  const MAX: nat := 0xffff_ffff

  // The locked counter: the specification -----------------------------------------------------------------

  /** An operation with what it returned; a decrement of zero aborts. */
  datatype Operation = Inc | Dec(zero: bool) | Abort

  predicate Returns(count: nat, op: Operation) {
    match op
    case Inc => true
    case Dec(zero) => count > 0 && (zero <==> count == 1)
    case Abort => count == 0
  }

  function Applied(count: nat, op: Operation): nat {
    match op
    case Inc => if count < MAX then count + 1 else count
    case Dec(_) => if 0 < count < MAX then count - 1 else count
    case Abort => count
  }

  /** The operations, one after the other on the locked counter, return what they are said to and leave `count`. */
  ghost predicate Locked(start: nat, ops: seq<Operation>, count: nat) {
    if ops == [] then count == start
    else
      var front, last := ops[..|ops| - 1], ops[|ops| - 1];
      exists mid: nat :: Locked(start, front, mid) && Returns(mid, last) && count == Applied(mid, last)
  }

  lemma LockedMore(start: nat, ops: seq<Operation>, mid: nat, op: Operation)
    requires Locked(start, ops, mid) && Returns(mid, op)
    ensures Locked(start, ops + [op], Applied(mid, op))
  {
    assert (ops + [op])[..|ops|] == ops;
  }

  /** What the operations returned determines the count they leave. */
  lemma {:induction false} LockedOnce(start: nat, ops: seq<Operation>, a: nat, b: nat)
    requires Locked(start, ops, a) && Locked(start, ops, b)
    ensures a == b
    decreases |ops|
  {
    if ops != [] {
      var front, last := ops[..|ops| - 1], ops[|ops| - 1];
      var x: nat :| Locked(start, front, x) && Returns(x, last) && a == Applied(x, last);
      var y: nat :| Locked(start, front, y) && Returns(y, last) && b == Applied(y, last);
      LockedOnce(start, front, x, y);
    }
  }

  /** The counter under its lock: a call is one step. */
  class LockedCount {
    var count: nat
    ghost const start: nat
    ghost var ops: seq<Operation>

    ghost predicate Valid()
      reads this
    {
      count <= MAX && Locked(start, ops, count)
    }

    constructor (n: nat)
      requires n <= MAX
      ensures Valid() && start == n && ops == []
    {
      count, start, ops := n, n, [];
    }

    /** `CRYPTO_refcount_inc`. */
    method Increment()
      requires Valid()
      modifies this
      ensures Valid() && ops == old(ops) + [Inc]
    {
      LockedMore(start, ops, count, Inc);
      if count < MAX {
        count := count + 1;
      }
      ops := ops + [Inc];
    }

    /** `CRYPTO_refcount_dec_and_test_zero`, which aborts the program on zero. */
    method DecrementAndTestZero() returns (result: Operation)
      requires Valid()
      modifies this
      ensures Valid() && ops == old(ops) + [result] && !result.Inc?
    {
      if count == 0 {
        LockedMore(start, ops, count, Abort);
        result := Abort;
      } else {
        LockedMore(start, ops, count, Dec(count == 1));
        if count < MAX {
          count := count - 1;
        }
        result := Dec(count == 0);
      }
      ops := ops + [result];
    }
  }

  // The compare-and-swap loops, interleaved ------------------------------------------------------------------

  /** Where a thread is: what it last read is in its `expected`. */
  datatype Phase = Idle | Incrementing(expected: nat) | Decrementing(expected: nat) | Aborted

  /** `held` counts the references in the clients' hands that no running operation has to do with. */
  datatype State = State(count: nat, threads: seq<Phase>, held: int, ops: seq<Operation>)

  /** One atomic access: the first load of an operation, or a turn of its loop, whose weak compare-and-swap may fail
      for no reason. */
  datatype Step = BeginInc(t: nat) | BeginDec(t: nat) | Turn(t: nat, spurious: bool)

  predicate Possible(s: State, e: Step) {
    && e.t < |s.threads|
    && (if e.Turn? then s.threads[e.t].Incrementing? || s.threads[e.t].Decrementing? else s.threads[e.t].Idle?)
  }

  /** A decrement that reads zero has taken place there: it will abort, whatever the counter is by then. */
  function Read(s: State, t: nat, dec: bool): State
    requires t < |s.threads|
  {
    if dec && s.count == 0 then s.(threads := s.threads[t := Decrementing(0)], ops := s.ops + [Abort])
    else s.(threads := s.threads[t := if dec then Decrementing(s.count) else Incrementing(s.count)])
  }

  function Finish(s: State, t: nat, count: nat, op: Operation): State
    requires t < |s.threads|
  {
    s.(count := count, threads := s.threads[t := Idle], ops := s.ops + [op],
       held := if op.Inc? then s.held + 2 else s.held)
  }

  function Next(s: State, e: Step): State
    requires Possible(s, e)
  {
    match e
    case BeginInc(t) => Read(s.(held := s.held - 1), t, false)
    case BeginDec(t) => Read(s.(held := s.held - 1), t, true)
    case Turn(t, spurious) =>
      match s.threads[t]
      case Incrementing(expected) =>
        if expected == MAX then Finish(s, t, s.count, Inc)
        else if s.count == expected && !spurious then Finish(s, t, expected + 1, Inc)
        else Read(s, t, false)
      case Decrementing(expected) =>
        if expected == 0 then s.(threads := s.threads[t := Aborted])
        else if expected == MAX then Finish(s, t, s.count, Dec(false))
        else if s.count == expected && !spurious then Finish(s, t, expected - 1, Dec(expected - 1 == 0))
        else Read(s, t, true)
  }

  /** A thread that has read the saturated value finds it there forever. */
  ghost predicate Stuck(s: State) {
    forall t: nat :: t < |s.threads| ==>
      match s.threads[t]
      case Incrementing(expected) => expected == MAX ==> s.count == MAX
      case Decrementing(expected) => expected == MAX ==> s.count == MAX
      case _ => true
  }

  ghost predicate Refines(start: nat, s: State) {
    s.count <= MAX && Stuck(s) && Locked(start, s.ops, s.count)
  }

  lemma StepRefines(start: nat, s: State, e: Step)
    requires Refines(start, s) && Possible(s, e)
    ensures Refines(start, Next(s, e))
    ensures s.count == MAX ==> Next(s, e).count == MAX
  {
    hide Locked;
    var z := Next(s, e);
    if z.ops != s.ops {
      var op := z.ops[|s.ops|];
      LockedMore(start, s.ops, s.count, op);
    }
  }

  ghost predicate Reaches(s: State, es: seq<Step>, z: State)
    decreases |es|
  {
    if es == [] then s == z else Possible(s, es[0]) && Reaches(Next(s, es[0]), es[1..], z)
  }

  ghost predicate Fresh(s: State) {
    s.count <= MAX && s.ops == [] && forall t: nat :: t < |s.threads| ==> s.threads[t].Idle?
  }

  lemma {:induction false} RunRefines(start: nat, s: State, es: seq<Step>, z: State)
    requires Refines(start, s) && Reaches(s, es, z)
    ensures Refines(start, z)
    ensures s.count == MAX ==> z.count == MAX
    decreases |es|
  {
    hide Refines, Next;
    if es != [] {
      StepRefines(start, s, es[0]);
      RunRefines(start, Next(s, es[0]), es[1..], z);
    }
  }

  /** Every interleaving of any number of threads, with any spurious failures, is a run of the locked counter: the
      operations, each at one of its own accesses, return what they would return there. */
  lemma Linearizes(s: State, es: seq<Step>, z: State)
    requires Fresh(s) && Reaches(s, es, z)
    ensures Locked(s.count, z.ops, z.count)
  {
    RunRefines(s.count, s, es, z);
  }

  /** In particular, a locked counter called with the same operations returns the same and holds the same count. */
  lemma AgreesWithLocked(c: LockedCount, s: State, es: seq<Step>, z: State)
    requires Fresh(s) && Reaches(s, es, z)
    requires c.Valid() && c.start == s.count && c.ops == z.ops
    ensures c.count == z.count
  {
    Linearizes(s, es, z);
    LockedOnce(s.count, z.ops, c.count, z.count);
  }

  /** Once saturated, the count never moves. */
  lemma SaturatedStays(start: nat, s: State, es: seq<Step>, z: State)
    requires Refines(start, s) && s.count == MAX && Reaches(s, es, z)
    ensures z.count == MAX
  {
    RunRefines(start, s, es, z);
  }

  // One decrement for each reference ---------------------------------------------------------------------------

  function Weight(p: Phase): nat {
    if p.Incrementing? || p.Decrementing? then 1 else 0
  }

  /** The references that running operations have in hand. */
  function Busy(threads: seq<Phase>): nat {
    if threads == [] then 0 else Weight(threads[0]) + Busy(threads[1..])
  }

  lemma {:induction false} BusyAfter(threads: seq<Phase>, t: nat, p: Phase)
    requires t < |threads|
    ensures Busy(threads[t := p]) == Busy(threads) - Weight(threads[t]) + Weight(p)
    ensures Weight(threads[t]) <= Busy(threads)
  {
    if t == 0 {
      assert threads[0 := p][1..] == threads[1..];
    } else {
      assert threads[t := p][1..] == threads[1..][t - 1 := p];
      BusyAfter(threads[1..], t - 1, p);
    }
  }

  lemma {:induction false} BusyIdle(threads: seq<Phase>)
    requires forall t: nat :: t < |threads| ==> threads[t].Idle?
    ensures Busy(threads) == 0
  {
    if threads != [] {
      forall t: nat | t < |threads[1..]|
        ensures threads[1..][t].Idle?
      {
        assert threads[1..][t] == threads[t + 1];
      }
      BusyIdle(threads[1..]);
    }
  }

  function Zeros(ops: seq<Operation>): nat {
    if ops == [] then 0 else Zeros(ops[..|ops| - 1]) + (if ops[|ops| - 1] == Dec(true) then 1 else 0)
  }

  /** An operation starts only on a reference the client has; an increment gives it back with the new one. */
  predicate Disciplined(s: State, e: Step) {
    !e.Turn? ==> s.held >= 1
  }

  ghost predicate Counted(s: State) {
    && s.count <= MAX && Stuck(s) && s.held >= 0
    && (s.count == MAX || s.count == s.held + Busy(s.threads))
    && (forall t: nat :: t < |s.threads| ==> s.threads[t] != Decrementing(0) && s.threads[t] != Aborted)
    && Abort !in s.ops
    && Zeros(s.ops) == if s.count == 0 then 1 else 0
  }

  lemma ZerosMore(ops: seq<Operation>, op: Operation)
    ensures Zeros(ops + [op]) == Zeros(ops) + (if op == Dec(true) then 1 else 0)
  {
    assert (ops + [op])[..|ops|] == ops;
  }

  lemma StepCounted(s: State, e: Step)
    requires Counted(s) && Possible(s, e) && Disciplined(s, e)
    ensures Counted(Next(s, e))
  {
    hide Busy, Zeros;
    var z := Next(s, e);
    BusyAfter(s.threads, e.t, z.threads[e.t]);
    if z.ops != s.ops {
      ZerosMore(s.ops, z.ops[|s.ops|]);
    }
  }

  ghost predicate ReachesDisciplined(s: State, es: seq<Step>, z: State)
    decreases |es|
  {
    if es == [] then s == z
    else Possible(s, es[0]) && Disciplined(s, es[0]) && ReachesDisciplined(Next(s, es[0]), es[1..], z)
  }

  lemma {:induction false} RunCounted(s: State, es: seq<Step>, z: State)
    requires Counted(s) && ReachesDisciplined(s, es, z)
    ensures Counted(z)
    decreases |es|
  {
    hide Counted, Next;
    if es != [] {
      StepCounted(s, es[0]);
      RunCounted(Next(s, es[0]), es[1..], z);
    }
  }

  /** With one decrement for each reference, starting from the creator's: nothing aborts, at most one decrement returns
      1, and unless the count saturated, exactly one has once every reference is given up. */
  lemma OneLastDecrement(s: State, es: seq<Step>, z: State)
    requires Fresh(s) && s.count == 1 && s.held == 1 && ReachesDisciplined(s, es, z)
    ensures forall t: nat :: t < |z.threads| ==> z.threads[t] != Aborted
    ensures Abort !in z.ops && Zeros(z.ops) <= 1
    ensures z.count < MAX ==> (Zeros(z.ops) == 1 <==> z.held == 0 && Busy(z.threads) == 0)
  {
    BusyIdle(s.threads);
    RunCounted(s, es, z);
  }
}
