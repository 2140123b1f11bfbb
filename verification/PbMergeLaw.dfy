/** Merging one message into another, as the protocol defines it: what decoding an encoded message into memory that
    already holds one comes to. */
module PbMergeLaw {
  import opened Bits
  import opened Wrappers
  import opened PbValue
  import opened PbField
  import opened PbMessage
  import opened PbEncode

  function Normals(f: Field, vs: seq<Value>): seq<Value>
    requires forall i :: 0 <= i < |vs| ==> Typed(f, vs[i])
  {
    seq(|vs|, i requires 0 <= i < |vs| => Normal(f, vs[i]))
  }

  /** The last scalar wins; submessages merge. */
  function Merged(f: Field, was: Value, v: Value): Value
    requires Typed(f, was) && Typed(f, v)
    decreases f, 0
  {
    if f.l.Submessage? then Message(MergeAll(f.l.fields, was.slots, v.slots)) else v
  }

  /** Arrays are joined; what the second message does not have stays; a union member starts afresh. */
  function MergedSlot(f: Field, was: Slot, s: Slot): Slot
    requires SlotTyped(f, was) && SlotTyped(f, s)
    decreases f, 1
  {
    match f.h
    case Required => One(Merged(f, was.v, s.v))
    case Optional =>
      if f.sizeOffset != 0 then (if s.has then Maybe(true, Merged(f, was.v, s.v)) else was)
      else if IsDefaultValue(f, s.v) then was else One(Merged(f, was.v, s.v))
    case Repeated => Many(was.vs + Normals(f, s.vs))
    case Oneof => if s.member.Some? then Choice(Some(Normal(f, s.member.value))) else was
  }

  /** Another member of the same union is in the message, among the first `k` fields. */
  predicate Superseded(fs: seq<Field>, ms: seq<Slot>, k: nat, i: nat)
    requires |ms| == |fs| && k <= |fs| && i < |fs|
  {
    exists j: nat :: j < k && j != i && Share(fs, i, j) && ms[j].Choice? && ms[j].member.Some?
  }

  function MergeAll(fs: seq<Field>, was: seq<Slot>, ms: seq<Slot>): (r: seq<Slot>)
    requires AllTyped(fs, was) && AllTyped(fs, ms)
    ensures |r| == |fs|
    decreases fs, 2
  {
    seq(|fs|, i requires 0 <= i < |fs| =>
      if Superseded(fs, ms, |fs|, i) then Choice(None) else MergedSlot(fs[i], was[i], ms[i]))
  }

  /** The arrays have room for both. */
  ghost predicate Room(f: Field, was: Value, v: Value)
    requires Typed(f, was) && Typed(f, v)
    decreases f, 0
  {
    f.l.Submessage? ==> RoomAll(f.l.fields, was.slots, v.slots)
  }

  ghost predicate SlotRoom(f: Field, was: Slot, s: Slot)
    requires SlotTyped(f, was) && SlotTyped(f, s)
    decreases f, 1
  {
    match f.h
    case Required => Room(f, was.v, s.v)
    case Optional => (if f.sizeOffset != 0 then s.has else !IsDefaultValue(f, s.v)) ==> Room(f, was.v, s.v)
    case Repeated => |was.vs| + |s.vs| <= f.arraySize
    case Oneof => true
  }

  ghost predicate RoomAll(fs: seq<Field>, was: seq<Slot>, ms: seq<Slot>)
    requires AllTyped(fs, was) && AllTyped(fs, ms)
    decreases fs, 2
  {
    forall i :: 0 <= i < |fs| ==> SlotRoom(fs[i], was[i], ms[i])
  }

  // Merging keeps types ---------------------------------------------------------------------------------------------

  lemma NormalTyped(f: Field, v: Value)
    requires FieldCodable(f) && Typed(f, v)
    ensures Typed(f, Normal(f, v))
    decreases f, 0
  {
    if f.l.Submessage? {
      NormalMessageTyped(f.l.fields, v.slots);
    }
  }

  lemma NormalSlotTyped(f: Field, s: Slot)
    requires FieldCodable(f) && SlotTyped(f, s)
    ensures SlotTyped(f, NormalSlot(f, s))
    decreases f, 1
  {
    hide Typed, Normal;
    InitValueTyped(f);
    match f.h
    case Required => NormalTyped(f, s.v);
    case Optional => NormalTyped(f, s.v);
    case Repeated =>
      forall i | 0 <= i < |s.vs|
        ensures Typed(f, Normal(f, s.vs[i]))
      {
        NormalTyped(f, s.vs[i]);
      }
    case Oneof =>
      if s.member.Some? {
        NormalTyped(f, s.member.value);
      }
  }

  lemma {:induction false} NormalMessageTyped(fs: seq<Field>, ms: seq<Slot>)
    requires Codable(fs) && AllTyped(fs, ms)
    ensures AllTyped(fs, NormalMessage(fs, ms))
    decreases fs, 2
  {
    forall i | 0 <= i < |fs|
      ensures SlotTyped(fs[i], NormalSlot(fs[i], ms[i]))
    {
      assert FieldCodable(fs[i]);
      NormalSlotTyped(fs[i], ms[i]);
    }
  }

  lemma MergedTyped(f: Field, was: Value, v: Value)
    requires FieldCodable(f) && Typed(f, was) && Typed(f, v)
    ensures Typed(f, Merged(f, was, v))
    decreases f, 0
  {
    if f.l.Submessage? {
      MergeAllTyped(f.l.fields, was.slots, v.slots);
    }
  }

  lemma MergedSlotTyped(f: Field, was: Slot, s: Slot)
    requires FieldCodable(f) && SlotTyped(f, was) && SlotTyped(f, s)
    ensures SlotTyped(f, MergedSlot(f, was, s))
    decreases f, 1
  {
    hide Typed, Normal, Merged, IsDefaultValue;
    match f.h
    case Required => MergedTyped(f, was.v, s.v);
    case Optional => MergedTyped(f, was.v, s.v);
    case Repeated =>
      forall i | 0 <= i < |s.vs|
        ensures Typed(f, Normal(f, s.vs[i]))
      {
        NormalTyped(f, s.vs[i]);
      }
    case Oneof =>
      if s.member.Some? {
        NormalTyped(f, s.member.value);
      }
  }

  lemma {:induction false} MergeAllTyped(fs: seq<Field>, was: seq<Slot>, ms: seq<Slot>)
    requires Codable(fs) && AllTyped(fs, was) && AllTyped(fs, ms)
    ensures AllTyped(fs, MergeAll(fs, was, ms))
    decreases fs, 2
  {
    forall i | 0 <= i < |fs|
      ensures SlotTyped(fs[i], MergedSlot(fs[i], was[i], ms[i]))
    {
      assert FieldCodable(fs[i]);
      MergedSlotTyped(fs[i], was[i], ms[i]);
    }
    MergeExclusive(fs, was, ms);
  }

  lemma SupersededBy(fs: seq<Field>, ms: seq<Slot>, k: nat, i: nat, j: nat)
    requires |ms| == |fs| && k <= |fs| && i < |fs| && j < k && j != i && Share(fs, i, j)
    requires ms[j].Choice? && ms[j].member.Some?
    ensures Superseded(fs, ms, k, i)
  {
  }

  lemma MemberOf(fs: seq<Field>, was: seq<Slot>, ms: seq<Slot>, i: nat)
    requires AllTyped(fs, was) && AllTyped(fs, ms) && i < |fs| && fs[i].h.Oneof?
    ensures was[i].Choice? && ms[i].Choice? && MergeAll(fs, was, ms)[i].Choice?
    ensures MergeAll(fs, was, ms)[i].member.Some? ==>
              !Superseded(fs, ms, |fs|, i) && (ms[i].member.Some? || was[i].member.Some?)
  {
    hide Normal, Merged, Typed, Exclusive;
    assert SlotTyped(fs[i], was[i]) && SlotTyped(fs[i], ms[i]);
  }

  lemma MergeExclusive(fs: seq<Field>, was: seq<Slot>, ms: seq<Slot>)
    requires AllTyped(fs, was) && AllTyped(fs, ms)
    ensures Exclusive(fs, MergeAll(fs, was, ms))
  {
    hide MergedSlot, Superseded, SlotTyped;
    var r := MergeAll(fs, was, ms);
    forall j: nat, k: nat | j < k < |fs| && Share(fs, j, k) && r[j].Choice? && r[k].Choice?
      ensures r[j].member.None? || r[k].member.None?
    {
      MemberOf(fs, was, ms, j);
      MemberOf(fs, was, ms, k);
      assert Share(fs, k, j);
      if ms[j].member.Some? {
        SupersededBy(fs, ms, |fs|, k, j);
      }
      if ms[k].member.Some? {
        SupersededBy(fs, ms, |fs|, j, k);
      }
    }
  }

  // Merging into initialized memory -----------------------------------------------------------------------------------

  lemma MergeIntoInit(f: Field, v: Value)
    requires FieldCodable(f) && Typed(f, v)
    ensures Typed(f, InitValue(f)) && Merged(f, InitValue(f), v) == Normal(f, v)
    decreases f, 0
  {
    InitValueTyped(f);
    if f.l.Submessage? {
      MergeIntoDefaults(f.l.fields, v.slots);
    }
  }

  lemma MergeIntoInitSlot(f: Field, s: Slot)
    requires FieldCodable(f) && SlotTyped(f, s) && SlotTyped(f, InitSlot(f))
    ensures MergedSlot(f, InitSlot(f), s) == NormalSlot(f, s)
    decreases f, 1
  {
    hide Typed, Normal, Merged, IsDefaultValue, InitValue, FieldCodable;
    match f.h
    case Required => MergeIntoInit(f, s.v);
    case Optional => {
      MergeIntoInit(f, s.v);
      if f.sizeOffset == 0 && IsDefaultValue(f, s.v) {
        DefaultValueIsInit(f, s.v);
      }
    }
    case Repeated => assert [] + Normals(f, s.vs) == Normals(f, s.vs);
    case Oneof => {
    }
  }

  /** Merging into initialized memory keeps the message, up to the contents of absent optionals. */
  lemma {:induction false} MergeIntoDefaults(fs: seq<Field>, ms: seq<Slot>)
    requires Codable(fs) && AllTyped(fs, ms)
    ensures AllTyped(fs, Defaults(fs)) && MergeAll(fs, Defaults(fs), ms) == NormalMessage(fs, ms)
    decreases fs, 2
  {
    DefaultsTyped(fs);
    forall i: nat | i < |fs|
      ensures MergeAll(fs, Defaults(fs), ms)[i] == NormalSlot(fs[i], ms[i])
    {
      assert FieldCodable(fs[i]) && SlotTyped(fs[i], ms[i]) && SlotTyped(fs[i], InitSlot(fs[i]));
      MergeIntoInitSlot(fs[i], ms[i]);
      if Superseded(fs, ms, |fs|, i) {
        SupersededAbsent(fs, ms, i);
      }
    }
  }

  lemma SupersededAbsent(fs: seq<Field>, ms: seq<Slot>, i: nat)
    requires AllTyped(fs, ms) && i < |fs| && Superseded(fs, ms, |fs|, i)
    ensures fs[i].h.Oneof? && ms[i] == Choice(None)
  {
    assert SlotTyped(fs[i], ms[i]);
    var j: nat :| j < |fs| && j != i && Share(fs, i, j) && ms[j].Choice? && ms[j].member.Some?;
    assert Share(fs, j, i);
  }

  lemma FreshRoomItem(f: Field, v: Value)
    requires FieldCodable(f) && Typed(f, v) && EncItem(f, v).Some?
    ensures Typed(f, InitValue(f)) && Room(f, InitValue(f), v)
    decreases f, 0
  {
    InitValueTyped(f);
    if f.l.Submessage? {
      FreshRoom(f.l.fields, v.slots, 0);
    }
  }

  lemma FreshRoomSlot(f: Field, s: Slot)
    requires FieldCodable(f) && SlotTyped(f, s) && SlotTyped(f, InitSlot(f)) && EncField(f, s).Some?
    ensures SlotRoom(f, InitSlot(f), s)
    decreases f, 1
  {
    hide Typed, InitValue, FieldCodable, EncItem, IsDefaultValue;
    match f.h
    case Required => FreshRoomItem(f, s.v);
    case Optional =>
      if (if f.sizeOffset != 0 then s.has else !IsDefaultValue(f, s.v)) {
        FreshRoomItem(f, s.v);
      }
    case Repeated => {
    }
    case Oneof => {
    }
  }

  /** A message that can be encoded fits into initialized memory. */
  lemma {:induction false} FreshRoom(fs: seq<Field>, ms: seq<Slot>, k: nat)
    requires Codable(fs) && AllTyped(fs, ms) && k <= |fs| && EncFrom(fs, ms, k).Some?
    ensures AllTyped(fs, Defaults(fs))
    ensures forall i :: k <= i < |fs| ==> SlotRoom(fs[i], Defaults(fs)[i], ms[i])
    decreases fs, 2, |fs| - k
  {
    DefaultsTyped(fs);
    if k < |fs| {
      assert FieldCodable(fs[k]) && SlotTyped(fs[k], Defaults(fs)[k]);
      FreshRoomSlot(fs[k], ms[k]);
      FreshRoom(fs, ms, k + 1);
    }
  }
}
