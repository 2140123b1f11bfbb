/** A one-shot result with pending callbacks on a first-in first-out main queue (AsyncRequest.swift). */
module AsyncRequests {
  import opened Wrappers

  /** A result and an error, either of which may be missing. */
  datatype Outcome = Outcome(result: Option<nat>, error: Option<nat>)

  /** What anyone may call, from outside or from inside a callback. */
  datatype Call = CallSet(o: Outcome) | CallWith

  /** What waits on the main queue. Callbacks are named by the order of their registration. */
  datatype Block = SetBlock(o: Outcome) | WithBlock(callback: nat) | InvokeBlock(callback: nat)

  /** What has happened on the main queue. */
  datatype Event = ResultSet(o: Outcome) | Delivered(callback: nat, o: Outcome)

  function WithOf(b: Block): seq<nat> {
    if b.WithBlock? then [b.callback] else []
  }

  function InvokeOf(b: Block): seq<nat> {
    if b.InvokeBlock? then [b.callback] else []
  }

  function Withs(queue: seq<Block>): seq<nat> {
    if queue == [] then [] else Withs(queue[..|queue| - 1]) + WithOf(queue[|queue| - 1])
  }

  function Invokes(queue: seq<Block>): seq<nat> {
    if queue == [] then [] else Invokes(queue[..|queue| - 1]) + InvokeOf(queue[|queue| - 1])
  }

  function Deliveries(history: seq<Event>): seq<nat> {
    if history == [] then []
    else Deliveries(history[..|history| - 1]) +
         (match history[|history| - 1] case Delivered(c, _) => [c] case _ => [])
  }

  function LastSet(history: seq<Event>): Option<Outcome> {
    if history == [] then None
    else match history[|history| - 1] case ResultSet(o) => Some(o) case _ => LastSet(history[..|history| - 1])
  }

  /** Each callback got the result set last before it ran, and there was one. */
  ghost predicate Honest(history: seq<Event>) {
    forall i :: 0 <= i < |history| && history[i].Delivered? ==> LastSet(history[..i]) == Some(history[i].o)
  }

  function Upto(n: nat): (s: seq<nat>)
    ensures |s| == n && forall i :: 0 <= i < n ==> s[i] == i
  {
    if n == 0 then [] else Upto(n - 1) + [n - 1]
  }

  lemma QueueMore(queue: seq<Block>, b: Block)
    ensures Withs(queue + [b]) == Withs(queue) + WithOf(b)
    ensures Invokes(queue + [b]) == Invokes(queue) + InvokeOf(b)
  {
    assert (queue + [b])[..|queue|] == queue;
  }

  lemma {:induction false} QueueFirst(b: Block, rest: seq<Block>)
    ensures Withs([b] + rest) == WithOf(b) + Withs(rest)
    ensures Invokes([b] + rest) == InvokeOf(b) + Invokes(rest)
    decreases |rest|
  {
    hide WithOf, InvokeOf;
    var queue := [b] + rest;
    if rest == [] {
      assert queue == [] + [b];
      QueueMore([], b);
      assert WithOf(b) + [] == WithOf(b) == [] + WithOf(b) && InvokeOf(b) + [] == InvokeOf(b) == [] + InvokeOf(b);
    } else {
      var front, last := rest[..|rest| - 1], rest[|rest| - 1];
      assert rest == front + [last] && queue == ([b] + front) + [last];
      QueueMore(front, last);
      QueueMore([b] + front, last);
      QueueFirst(b, front);
    }
  }

  lemma HistoryMore(history: seq<Event>, e: Event)
    ensures Deliveries(history + [e]) == Deliveries(history) + (match e case Delivered(c, _) => [c] case _ => [])
    ensures LastSet(history + [e]) == match e case ResultSet(o) => Some(o) case _ => LastSet(history)
    ensures Honest(history + [e]) <==> Honest(history) && (e.Delivered? ==> LastSet(history) == Some(e.o))
  {
    assert (history + [e])[..|history|] == history;
    assert forall i :: 0 <= i < |history| ==> (history + [e])[..i] == history[..i] && (history + [e])[i] == history[i];
    if Honest(history + [e]) {
      assert e.Delivered? ==> (history + [e])[|history|].Delivered?;
    }
  }

  /** Every callback registered is in exactly one place, and these places are in order of registration: delivered,
      waiting for a result, to be invoked, still to be looked at. */
  ghost predicate LinedUp(history: seq<Event>, waiting: seq<nat>, queue: seq<Block>, registered: nat) {
    Deliveries(history) + waiting + Invokes(queue) + Withs(queue) == Upto(registered)
  }

  lemma OneRegistered(history: seq<Event>, waiting: seq<nat>, queue: seq<Block>, n: nat)
    requires LinedUp(history, waiting, queue, n)
    ensures LinedUp(history, waiting, queue + [WithBlock(n)], n + 1)
  {
    hide Deliveries, Invokes, Withs;
    QueueMore(queue, WithBlock(n));
    var front := Deliveries(history) + waiting + Invokes(queue);
    assert front + (Withs(queue) + [n]) == (front + Withs(queue)) + [n];
    assert Invokes(queue) + [] == Invokes(queue);
  }

  lemma OneSet(history: seq<Event>, waiting: seq<nat>, queue: seq<Block>, n: nat, o: Outcome)
    requires LinedUp(history, waiting, queue, n)
    ensures LinedUp(history, waiting, queue + [SetBlock(o)], n)
  {
    hide Deliveries, Invokes, Withs;
    QueueMore(queue, SetBlock(o));
    assert Withs(queue) + [] == Withs(queue) && Invokes(queue) + [] == Invokes(queue);
  }

  lemma OneDelivered(history: seq<Event>, callback: nat, waiting: seq<nat>, queue: seq<Block>, n: nat, o: Outcome)
    requires LinedUp(history, [callback] + waiting, queue, n)
    ensures LinedUp(history + [Delivered(callback, o)], waiting, queue, n)
  {
    HistoryMore(history, Delivered(callback, o));
    hide Deliveries, Invokes, Withs;
    assert Deliveries(history) + ([callback] + waiting) == (Deliveries(history) + [callback]) + waiting;
  }

  lemma SetOnly(history: seq<Event>, waiting: seq<nat>, queue: seq<Block>, n: nat, o: Outcome)
    requires LinedUp(history, waiting, queue, n)
    ensures LinedUp(history + [ResultSet(o)], waiting, queue, n)
  {
    HistoryMore(history, ResultSet(o));
    hide Deliveries, Invokes, Withs;
    assert Deliveries(history) + [] == Deliveries(history);
  }

  /** The block of a `withResult` runs while callbacks wait: this one waits behind them. */
  lemma OneWaiting(history: seq<Event>, callback: nat, waiting: seq<nat>, rest: seq<Block>, n: nat)
    requires LinedUp(history, waiting, [WithBlock(callback)] + rest, n) && Invokes([WithBlock(callback)] + rest) == []
    ensures LinedUp(history, waiting + [callback], rest, n) && Invokes(rest) == []
  {
    QueueFirst(WithBlock(callback), rest);
    hide Deliveries, Invokes, Withs;
    var front := Deliveries(history) + waiting;
    assert front + [] + ([callback] + Withs(rest)) == Deliveries(history) + (waiting + [callback]) + [] + Withs(rest);
  }

  /** It runs after a result: it is put behind the others to be invoked. */
  lemma OneToInvoke(history: seq<Event>, callback: nat, rest: seq<Block>, n: nat)
    requires LinedUp(history, [], [WithBlock(callback)] + rest, n)
    ensures LinedUp(history, [], rest + [InvokeBlock(callback)], n)
  {
    QueueFirst(WithBlock(callback), rest);
    QueueMore(rest, InvokeBlock(callback));
    hide Deliveries, Invokes, Withs;
    var front := Deliveries(history) + [];
    assert front + ([] + Invokes(rest)) + ([callback] + Withs(rest)) ==
           front + (Invokes(rest) + [callback]) + (Withs(rest) + []);
  }

  lemma OneInvoked(history: seq<Event>, callback: nat, rest: seq<Block>, n: nat)
    requires LinedUp(history, [], [InvokeBlock(callback)] + rest, n)
    ensures LinedUp(history, [callback] + [], rest, n)
  {
    QueueFirst(InvokeBlock(callback), rest);
    hide Deliveries, Invokes, Withs;
    assert Deliveries(history) + [] + ([callback] + Invokes(rest)) + ([] + Withs(rest)) ==
           Deliveries(history) + ([callback] + []) + Invokes(rest) + Withs(rest);
  }

  lemma SetTaken(history: seq<Event>, waiting: seq<nat>, o: Outcome, rest: seq<Block>, n: nat)
    requires LinedUp(history, waiting, [SetBlock(o)] + rest, n)
    ensures LinedUp(history, waiting, rest, n) && Invokes(rest) == Invokes([SetBlock(o)] + rest)
  {
    QueueFirst(SetBlock(o), rest);
    hide Deliveries, Invokes, Withs;
    assert [] + Withs(rest) == Withs(rest) && [] + Invokes(rest) == Invokes(rest);
  }

  function Registrations(calls: seq<Call>): nat {
    if |calls| == 0 then 0
    else Registrations(calls[..|calls| - 1]) + (if calls[|calls| - 1].CallWith? then 1 else 0)
  }

  /** The blocks that these calls put on the queue, the next callback registered being number `n`. */
  function BlocksOf(calls: seq<Call>, n: nat): seq<Block> {
    if |calls| == 0 then []
    else
      var front := calls[..|calls| - 1];
      BlocksOf(front, n) + [match calls[|calls| - 1]
                            case CallSet(o) => SetBlock(o)
                            case CallWith => WithBlock(n + Registrations(front))]
  }

  /** What the callbacks do, one after the other, when given `o`. */
  function Reacted(reaction: (nat, Outcome) -> seq<Call>, callbacks: seq<nat>, o: Outcome): seq<Call> {
    if |callbacks| == 0 then []
    else Reacted(reaction, callbacks[..|callbacks| - 1], o) + reaction(callbacks[|callbacks| - 1], o)
  }

  lemma {:induction false} BlocksMore(a: seq<Call>, b: seq<Call>, n: nat)
    ensures Registrations(a + b) == Registrations(a) + Registrations(b)
    ensures BlocksOf(a + b, n) == BlocksOf(a, n) + BlocksOf(b, n + Registrations(a))
    decreases |b|
  {
    if |b| == 0 {
      assert a + b == a;
    } else {
      BlocksMore(a, b[..|b| - 1], n);
      assert (a + b)[..|a + b| - 1] == a + b[..|b| - 1];
    }
  }

  lemma OneReaction(reaction: (nat, Outcome) -> seq<Call>, callbacks: seq<nat>, c: nat, o: Outcome, n: nat)
    ensures var before, now := Reacted(reaction, callbacks, o), Reacted(reaction, callbacks + [c], o);
            && Registrations(now) == Registrations(before) + Registrations(reaction(c, o))
            && BlocksOf(now, n) == BlocksOf(before, n) + BlocksOf(reaction(c, o), n + Registrations(before))
  {
    assert (callbacks + [c])[..|callbacks|] == callbacks;
    BlocksMore(Reacted(reaction, callbacks, o), reaction(c, o), n);
  }

  lemma NoReaction(reaction: (nat, Outcome) -> seq<Call>, o: Outcome, n: nat)
    ensures BlocksOf(Reacted(reaction, [], o), n) == [] && Registrations(Reacted(reaction, [], o)) == 0
  {
  }

  class AsyncRequest {
    var outcome: Outcome
    /** The callbacks that came before a result; none once a result has been set. */
    var pending: Option<seq<nat>>
    var mainQueue: seq<Block>

    /** What a callback calls when it is given an outcome. */
    const reaction: (nat, Outcome) -> seq<Call>

    var registered: nat
    ghost var history: seq<Event>

    ghost predicate Lined(waiting: seq<nat>)
      reads this
    {
      LinedUp(history, waiting, mainQueue, registered)
    }

    ghost function Waiting(): seq<nat>
      reads this
    {
      if pending.Some? then pending.value else []
    }

    ghost predicate Valid()
      reads this
    {
      && Honest(history)
      && Lined(Waiting())
      && (pending.Some? ==> Deliveries(history) == [] && Invokes(mainQueue) == [] && LastSet(history) == None)
      && (pending.None? ==> LastSet(history) == Some(outcome))
    }

    constructor (reaction: (nat, Outcome) -> seq<Call>)
      ensures Valid() && history == [] && registered == 0 && mainQueue == []
    {
      outcome, pending, mainQueue, registered := Outcome(None, None), Some([]), [], 0;
      this.reaction := reaction;
      history := [];
    }

    /** Both calls only put a block on the main queue. */
    method Enqueue(call: Call, ghost waiting: seq<nat>)
      requires Lined(waiting)
      modifies this`mainQueue, this`registered
      ensures Lined(waiting) && Invokes(mainQueue) == old(Invokes(mainQueue))
      ensures call.CallWith? ==>
                mainQueue == old(mainQueue) + [WithBlock(old(registered))] && registered == old(registered) + 1
      ensures call.CallSet? ==> mainQueue == old(mainQueue) + [SetBlock(call.o)] && registered == old(registered)
    {
      hide LinedUp, Invokes, Withs;
      if call.CallWith? {
        QueueMore(mainQueue, WithBlock(registered));
        OneRegistered(history, waiting, mainQueue, registered);
        mainQueue := mainQueue + [WithBlock(registered)];
        registered := registered + 1;
      } else {
        QueueMore(mainQueue, SetBlock(call.o));
        OneSet(history, waiting, mainQueue, registered, call.o);
        mainQueue := mainQueue + [SetBlock(call.o)];
      }
      assert old(Invokes(mainQueue)) + [] == old(Invokes(mainQueue));
    }

    method SetResult(o: Outcome)
      requires Valid()
      modifies this`mainQueue, this`registered
      ensures Valid() && mainQueue == old(mainQueue) + [SetBlock(o)] && registered == old(registered)
    {
      Enqueue(CallSet(o), Waiting());
    }

    method WithResult()
      requires Valid()
      modifies this`mainQueue, this`registered
      ensures Valid() && mainQueue == old(mainQueue) + [WithBlock(old(registered))] && registered == old(registered) + 1
    {
      Enqueue(CallWith, Waiting());
    }

    /** A callback runs, on the result as it is now, and may call either method. */
    method Invoke(callback: nat, ghost waiting: seq<nat>)
      requires Honest(history) && LastSet(history) == Some(outcome) && Lined([callback] + waiting)
      modifies this`mainQueue, this`registered, this`history
      ensures history == old(history) + [Delivered(callback, outcome)]
      ensures Honest(history) && LastSet(history) == Some(outcome) && Lined(waiting)
      ensures Invokes(mainQueue) == old(Invokes(mainQueue))
      ensures mainQueue == old(mainQueue) + BlocksOf(reaction(callback, outcome), old(registered))
      ensures registered == old(registered) + Registrations(reaction(callback, outcome))
    {
      hide Honest, LinedUp, Invokes, Withs, LastSet;
      HistoryMore(history, Delivered(callback, outcome));
      OneDelivered(history, callback, waiting, mainQueue, registered, outcome);
      history := history + [Delivered(callback, outcome)];
      var calls := reaction(callback, outcome);
      for i := 0 to |calls|
        invariant Lined(waiting) && Invokes(mainQueue) == old(Invokes(mainQueue))
        invariant mainQueue == old(mainQueue) + BlocksOf(calls[..i], old(registered))
        invariant registered == old(registered) + Registrations(calls[..i])
        modifies this`mainQueue, this`registered
      {
        assert calls[..i + 1][..i] == calls[..i];
        Enqueue(calls[i], waiting);
      }
      assert calls[..|calls|] == calls;
    }

    /** `setResultMain`: the first result goes to all pending callbacks, in the order in which they came; a later one
        is only remembered. */
    method SetResultMain(o: Outcome)
      requires Valid()
      modifies this
      ensures Valid() && pending.None? && outcome == o
      ensures mainQueue == old(mainQueue) + BlocksOf(Reacted(reaction, old(Waiting()), o), old(registered))
      ensures Deliveries(history) == old(Deliveries(history) + Waiting())
      ensures old(history) + [ResultSet(o)] <= history
    {
      hide Honest, LinedUp, Invokes, Withs, LastSet, Deliveries, Reacted, BlocksOf, Registrations;
      HistoryMore(history, ResultSet(o));
      SetOnly(history, Waiting(), mainQueue, registered, o);
      ghost var base := Deliveries(history);
      assert base + [] == base;
      outcome := o;
      history := history + [ResultSet(o)];
      NoReaction(reaction, o, registered);
      if pending.None? {
        return;
      }
      var validPending := pending.value;
      assert validPending[0..] == validPending && validPending[..0] == [];
      for i := 0 to |validPending|
        invariant pending == Some(validPending) && outcome == o
        invariant Honest(history) && LastSet(history) == Some(o)
        invariant Invokes(mainQueue) == []
        invariant var calls := Reacted(reaction, validPending[..i], o);
                  && mainQueue == old(mainQueue) + BlocksOf(calls, old(registered))
                  && registered == old(registered) + Registrations(calls)
        invariant Lined(validPending[i..])
        invariant Deliveries(history) == base + validPending[..i]
        invariant old(history) + [ResultSet(o)] <= history
      {
        assert validPending[i..] == [validPending[i]] + validPending[i + 1..];
        HistoryMore(history, Delivered(validPending[i], o));
        OneReaction(reaction, validPending[..i], validPending[i], o, old(registered));
        Invoke(validPending[i], validPending[i + 1..]);
        assert validPending[..i + 1] == validPending[..i] + [validPending[i]];
      }
      assert validPending[|validPending|..] == [] && validPending[..|validPending|] == validPending;
      pending := None;
    }

    /** The block of `withResult`, taken off the front of the queue: too early, and the callback waits; otherwise it is
        put on the main queue again, to run in its turn. */
    method WithResultMain(callback: nat)
      requires Valid() && mainQueue != [] && mainQueue[0] == WithBlock(callback)
      modifies this`pending, this`mainQueue
      ensures Valid()
      ensures if old(pending).Some? then
                pending == Some(old(pending).value + [callback]) && mainQueue == old(mainQueue)[1..]
              else
                pending.None? && mainQueue == old(mainQueue)[1..] + [InvokeBlock(callback)]
    {
      hide Honest, LinedUp, Invokes, Withs, LastSet, Deliveries;
      assert mainQueue == [WithBlock(callback)] + mainQueue[1..];
      if pending.Some? {
        OneWaiting(history, callback, pending.value, mainQueue[1..], registered);
        mainQueue := mainQueue[1..];
        pending := Some(pending.value + [callback]);
      } else {
        OneToInvoke(history, callback, mainQueue[1..], registered);
        mainQueue := mainQueue[1..] + [InvokeBlock(callback)];
      }
    }

    /** The main queue runs its first block. */
    method RunNext()
      requires Valid() && mainQueue != []
      modifies this
      ensures Valid()
      ensures match old(mainQueue)[0]
              case SetBlock(o) =>
                && pending.None? && outcome == o
                && Deliveries(history) == old(Deliveries(history) + Waiting())
                && mainQueue == old(mainQueue)[1..] + BlocksOf(Reacted(reaction, old(Waiting()), o), old(registered))
              case WithBlock(callback) =>
                && history == old(history) && outcome == old(outcome)
                && pending == (if old(pending).Some? then Some(old(pending).value + [callback]) else None)
                && mainQueue == old(mainQueue)[1..] + (if old(pending).Some? then [] else [InvokeBlock(callback)])
              case InvokeBlock(callback) =>
                && history == old(history) + [Delivered(callback, outcome)]
                && outcome == old(outcome) && pending == old(pending)
                && mainQueue == old(mainQueue)[1..] + BlocksOf(reaction(callback, outcome), old(registered))
    {
      hide Honest, LinedUp, Invokes, Withs, LastSet, Deliveries;
      var b := mainQueue[0];
      assert mainQueue == [b] + mainQueue[1..];
      match b
      case SetBlock(o) =>
        SetTaken(history, Waiting(), o, mainQueue[1..], registered);
        mainQueue := mainQueue[1..];
        SetResultMain(o);
      case WithBlock(callback) =>
        WithResultMain(callback);
      case InvokeBlock(callback) =>
        NoInvokeBefore(callback, mainQueue[1..]);
        OneInvoked(history, callback, mainQueue[1..], registered);
        mainQueue := mainQueue[1..];
        Invoke(callback, []);
    }
  }

  lemma NoInvokeBefore(callback: nat, rest: seq<Block>)
    ensures Invokes([InvokeBlock(callback)] + rest) != []
  {
    QueueFirst(InvokeBlock(callback), rest);
  }

  /** At most once, in order of registration, and never before a result: at any time the callbacks that have run are the
      first so many registered, each once, each on the result set last before. */
  lemma DeliveredInOrder(r: AsyncRequest, i: nat)
    requires r.Valid() && i < |Deliveries(r.history)|
    ensures Deliveries(r.history)[i] == i < r.registered
    ensures Honest(r.history) && LastSet(r.history).Some?
  {
    assert Upto(r.registered)[i] == i;
  }

  /** Once the queue is empty after a first result, each callback registered has run exactly once. */
  lemma AllDelivered(r: AsyncRequest)
    requires r.Valid() && r.mainQueue == [] && LastSet(r.history).Some?
    ensures Deliveries(r.history) == Upto(r.registered)
  {
  }
}
