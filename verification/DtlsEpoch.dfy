/** No handshake message is put together across a change of read keys (dtls_method.cc, `dtls1_set_read_state`). */
module DtlsEpoch {
  import opened Bits
  import opened Wrappers
  import opened DtlsWire
  import opened DtlsFragment
  import opened DtlsRing
  import DtlsWindow

  /** The record layer, the receiver, how often the read state has changed, and for each place of the ring during
      which read states the records arrived that it was built from. */
  datatype Connection = Connection(reader: DtlsWindow.Reader, receiver: Receiver, changes: nat, sources: seq<set<nat>>)

  const START := Connection(DtlsWindow.START, DtlsRing.FRESH, 0, [{}, {}, {}, {}, {}, {}, {}])

  datatype Event =
    | Arrive(a: DtlsWindow.Arrival, typ: RecordType, plaintext: seq<byte>, maxLen: nat)
    | ConsumeCcs
    | Get
    | Release
    | ChangeReadState

  ghost predicate Possible(c: Connection, e: Event) {
    Consistent(c.receiver) && |c.sources| == FLIGHT && (e.Release? ==> c.receiver.hasMessage)
  }

  /** A place that the record changed has that record among its sources. */
  ghost function Sources(before: Receiver, after: Receiver, sources: seq<set<nat>>, now: nat): seq<set<nat>>
    requires |before.ring| == |after.ring| == |sources| == FLIGHT
  {
    seq(FLIGHT, i requires 0 <= i < FLIGHT =>
      if after.ring[i] != before.ring[i] then sources[i] + {now} else sources[i])
  }

  ghost function Next(c: Connection, e: Event): Connection
    requires Possible(c, e)
  {
    var r := c.receiver;
    match e
    case Arrive(a, typ, plaintext, maxLen) =>
      if !DtlsWindow.Accepts(c.reader, a) then c
      else
        TakeRecordConsistent(r, plaintext, maxLen);
        var r' := OpenHandshake(r, typ, plaintext, maxLen).0;
        Connection(DtlsWindow.Next(c.reader, DtlsWindow.Receive(a)), r', c.changes,
                   Sources(r, r', c.sources, c.changes))
    case ConsumeCcs => c.(receiver := r.(hasCcs := false))
    case Get => c.(receiver := r.(hasMessage := r.hasMessage || CurrentComplete(r)))
    case Release =>
      c.(receiver := NextMessage(r), sources := c.sources[r.readSeq % FLIGHT := {}])
    case ChangeReadState =>
      var (r', ok) := SetReadState(r);
      if ok then
        c.(reader := DtlsWindow.Next(c.reader, DtlsWindow.NewReadState), receiver := r', changes := c.changes + 1)
      else c
  }

  /** The place holds a message that has been handed out and not yet released. */
  ghost predicate HandedOut(r: Receiver, i: nat) {
    r.hasMessage && i == r.readSeq % FLIGHT
  }

  ghost predicate Pure(c: Connection, i: nat)
    requires |c.receiver.ring| == |c.sources| == FLIGHT && i < FLIGHT
  {
    if c.receiver.ring[i].None? then c.sources[i] == {}
    else HandedOut(c.receiver, i) || c.sources[i] == {c.changes}
  }

  ghost predicate Separate(c: Connection) {
    Consistent(c.receiver) && |c.sources| == FLIGHT && forall i: nat :: i < FLIGHT ==> Pure(c, i)
  }

  /** A record never empties a place, and never touches the message that was handed out: that one is complete. */
  lemma TakeFragmentKeeps(r: Receiver, f: Fragment, maxLen: nat, i: nat)
    requires Consistent(r) && i < FLIGHT
    ensures |TakeFragment(r, f, maxLen).0.ring| == FLIGHT
    ensures r.ring[i].Some? ==> TakeFragment(r, f, maxLen).0.ring[i].Some?
    ensures r.ring[i].Some? && r.ring[i].value.Complete() ==> TakeFragment(r, f, maxLen).0.ring[i] == r.ring[i]
  {
  }

  lemma {:induction false} TakeRecordKeeps(r: Receiver, record: seq<byte>, maxLen: nat, i: nat)
    requires Consistent(r) && i < FLIGHT
    ensures |TakeRecord(r, record, maxLen).0.ring| == FLIGHT
    ensures r.ring[i].Some? ==> TakeRecord(r, record, maxLen).0.ring[i].Some?
    ensures r.ring[i].Some? && r.ring[i].value.Complete() ==> TakeRecord(r, record, maxLen).0.ring[i] == r.ring[i]
    decreases |record|
  {
    hide TakeFragment, Slot.Complete, ParseFragment;
    if record != [] && ParseFragment(record).Some? {
      var (f, rest) := ParseFragment(record).value;
      TakeFragmentConsistent(r, f, maxLen);
      TakeFragmentKeeps(r, f, maxLen, i);
      var (r', ok) := TakeFragment(r, f, maxLen);
      if ok {
        TakeRecordKeeps(r', rest, maxLen, i);
      }
    }
  }

  lemma ArriveKeepsSeparate(c: Connection, e: Event)
    requires Separate(c) && e.Arrive?
    ensures Separate(Next(c, e))
  {
    hide Placed, TakeRecord, Slot.Complete, DtlsWindow.Accepts, DtlsWindow.Next;
    var r := c.receiver;
    TakeRecordConsistent(r, e.plaintext, e.maxLen);
    FlagsKeepConsistent(r, r.(hasCcs := true));
    var d := Next(c, e);
    forall i: nat | i < FLIGHT
      ensures Pure(d, i)
    {
      assert Pure(c, i);
      TakeRecordKeeps(r, e.plaintext, e.maxLen, i);
    }
  }

  lemma StepKeepsSeparate(c: Connection, e: Event)
    requires Separate(c) && Possible(c, e)
    ensures Separate(Next(c, e))
  {
    hide Placed, TakeRecord, Slot.Complete, DtlsWindow.Accepts, DtlsWindow.Next, OpenHandshake;
    if e.Arrive? {
      ArriveKeepsSeparate(c, e);
    } else {
      var d := Next(c, e);
      if e.Release? {
        NextMessageConsistent(c.receiver);
      } else {
        FlagsKeepConsistent(c.receiver, d.receiver);
      }
      forall i: nat | i < FLIGHT
        ensures Pure(d, i)
      {
        assert Pure(c, i);
      }
    }
  }

  ghost predicate Reaches(c: Connection, es: seq<Event>, d: Connection)
    decreases |es|
  {
    if es == [] then c == d else Possible(c, es[0]) && Reaches(Next(c, es[0]), es[1..], d)
  }

  lemma {:induction false} RunKeepsSeparate(c: Connection, es: seq<Event>, d: Connection)
    requires Separate(c) && Reaches(c, es, d)
    ensures Separate(d)
    decreases |es|
  {
    hide Separate, Next;
    if es != [] {
      StepKeepsSeparate(c, es[0]);
      RunKeepsSeparate(Next(c, es[0]), es[1..], d);
    }
  }

  /** Over any run, a message handed out for the first time was built from records opened under the current read
      state alone; and right after a change of read state nothing else is left in the ring than the message handed
      out before it. */
  lemma MessagesDoNotCrossEpochs(es: seq<Event>, c: Connection)
    requires Reaches(START, es, c)
    ensures Possible(c, Get)
    ensures !c.receiver.hasMessage && Next(c, Get).receiver.hasMessage ==>
              c.sources[c.receiver.readSeq % FLIGHT] == {c.changes}
    ensures Next(c, ChangeReadState).changes == c.changes + 1 ==>
              forall i: nat :: i < FLIGHT && c.receiver.ring[i].Some? ==> HandedOut(c.receiver, i)
  {
    hide Placed, Slot.Complete;
    StartSeparate();
    RunKeepsSeparate(START, es, c);
    assert Pure(c, c.receiver.readSeq % FLIGHT);
  }

  lemma StartSeparate()
    ensures Separate(START)
  {
  }

  // The epoch ---------------------------------------------------------------------------------------------

  /** Both copies of the 16-bit epoch, the record layer's and the one that decides on record types, count the
      changes of read state. */
  ghost predicate CountsChanges(c: Connection) {
    c.receiver.rEpoch == c.reader.rEpoch == c.changes % U16
  }

  lemma StepCounts(c: Connection, e: Event)
    requires CountsChanges(c) && Possible(c, e)
    ensures CountsChanges(Next(c, e))
  {
    hide Placed, TakeRecord, DtlsWindow.Accepts, HasUnprocessed;
    if e.Arrive? {
      TakeRecordConsistent(c.receiver, e.plaintext, e.maxLen);
    }
  }

  /** Over any run both epochs are the number of changes of read state, in 16 bits. A change is made exactly where
      no ChangeCipherSpec waits and nothing but the message handed out is in the ring. */
  lemma {:induction false} EpochsCountChanges(c: Connection, es: seq<Event>, d: Connection)
    requires CountsChanges(c) && Reaches(c, es, d)
    ensures d.receiver.rEpoch == d.reader.rEpoch == d.changes % U16
    ensures Possible(d, ChangeReadState) ==>
              Next(d, ChangeReadState).changes ==
              (if !d.receiver.hasCcs
                  && forall i: nat :: i < FLIGHT && d.receiver.ring[i].Some? ==> HandedOut(d.receiver, i)
               then d.changes + 1 else d.changes)
    decreases |es|
  {
    hide CountsChanges, Possible, Next, Separate;
    if es != [] {
      StepCounts(c, es[0]);
      EpochsCountChanges(Next(c, es[0]), es[1..], d);
    } else {
      AtTheEnd(c);
    }
  }

  lemma AtTheEnd(c: Connection)
    requires CountsChanges(c)
    ensures c.receiver.rEpoch == c.reader.rEpoch == c.changes % U16
    ensures Possible(c, ChangeReadState) ==>
              Next(c, ChangeReadState).changes ==
              (if !c.receiver.hasCcs
                  && forall i: nat :: i < FLIGHT && c.receiver.ring[i].Some? ==> HandedOut(c.receiver, i)
               then c.changes + 1 else c.changes)
  {
    hide Consistent;
  }

  /** What a record does by its type after `changes` changes of read state: application data is an error at first
      and discarded later, a ChangeCipherSpec is taken only at first and then waits. */
  lemma TypesByEpoch(es: seq<Event>, c: Connection, record: seq<byte>, maxLen: nat)
    requires Reaches(START, es, c)
    ensures Consistent(c.receiver)
    ensures OpenHandshake(c.receiver, ApplicationData, record, maxLen) ==
            (c.receiver, if c.changes % U16 == 0 then Error else Discard)
    ensures OpenHandshake(c.receiver, ChangeCipherSpec, record, maxLen) ==
            if c.changes % U16 == 0 && record == [1] then (c.receiver.(hasCcs := true), Success)
            else (c.receiver, Error)
  {
    hide Placed, Next, Reaches, CountsChanges;
    StartSeparate();
    RunKeepsSeparate(START, es, c);
    StartCounts();
    EpochsCountChanges(START, es, c);
  }

  lemma StartCounts()
    ensures CountsChanges(START)
  {
  }

  /** A ChangeCipherSpec that was taken refuses every change of read state until it is consumed. */
  lemma {:induction false} CcsBlocksChanges(c: Connection, es: seq<Event>, d: Connection)
    requires c.receiver.hasCcs && ConsumeCcs !in es && Reaches(c, es, d)
    ensures d.receiver.hasCcs && d.changes == c.changes
    decreases |es|
  {
    hide Next, Possible;
    if es != [] {
      CcsStays(c, es[0]);
      CcsBlocksChanges(Next(c, es[0]), es[1..], d);
    }
  }

  lemma CcsStays(c: Connection, e: Event)
    requires c.receiver.hasCcs && e != ConsumeCcs && Possible(c, e)
    ensures Next(c, e).receiver.hasCcs && Next(c, e).changes == c.changes
  {
    hide Placed, TakeFragment, ParseFragment, DtlsWindow.Accepts, DtlsWindow.Next;
    if e.Arrive? {
      TakeRecordKeepsCcs(c.receiver, e.plaintext, e.maxLen);
    }
  }

  lemma {:induction false} TakeRecordKeepsCcs(r: Receiver, record: seq<byte>, maxLen: nat)
    requires Consistent(r)
    ensures TakeRecord(r, record, maxLen).0.hasCcs == r.hasCcs
    decreases |record|
  {
    hide ParseFragment, Placed;
    if record != [] && ParseFragment(record).Some? {
      var (f, rest) := ParseFragment(record).value;
      TakeFragmentConsistent(r, f, maxLen);
      var (r', ok) := TakeFragment(r, f, maxLen);
      if ok {
        TakeRecordKeepsCcs(r', rest, maxLen);
      }
    }
  }
}
