/** Field descriptors of nanopb (pb.h) and the cyclic iterator over them (pb_common.c). */
module PbField {
  import opened Bits
  import opened Wrappers
  import opened PbValue

  datatype HType = Required | Optional | Repeated | Oneof

  datatype AType = Static | Callback | Pointer

  datatype LType =
    | Varint | UVarint | SVarint | Fixed32 | Fixed64
    | Bytes | String | Submessage(fields: seq<Field>) | Extension | FixedLengthBytes

  /** One pb_field_t. `init` is the default value `ptr` leads to; `offset` the data offset from the end of the field
      before, `sizeOffset` that of the count, the has-flag or the oneof tag from the data. */
  datatype Field = Field(
    tag: nat, h: HType, a: AType, l: LType,
    dataOffset: nat, sizeOffset: int, dataSize: nat, arraySize: nat,
    init: Option<Value>)

  /** PB_SIZE_MAX for a 32-bit pb_size_t: as data offset it marks a further member of a union. */
  const SIZE_MAX: nat := 0xffff_ffff

  const POINTER_SIZE: nat := 8

  const MAX_REQUIRED: nat := 64

  /** The descriptors before the terminator, which is the one with tag zero. */
  ghost predicate Listed(fs: seq<Field>) {
    forall i :: 0 <= i < |fs| ==> fs[i].tag != 0
  }

  predicate InUnion(fs: seq<Field>, k: nat)
    requires k < |fs|
  {
    k > 0 && fs[k - 1].h.Oneof? && fs[k].h.Oneof? && fs[k].dataOffset == SIZE_MAX
  }

  /** The space a field takes in the message structure. */
  function Extent(f: Field): nat {
    if f.a.Static? && f.h.Repeated? then f.dataSize * f.arraySize
    else if f.a.Pointer? then POINTER_SIZE
    else f.dataSize
  }

  /** Where field `k` lies in the structure: a sum over the descriptors before it. */
  function DataAt(fs: seq<Field>, k: nat): nat
    requires k < |fs|
  {
    if k == 0 then fs[0].dataOffset
    else if InUnion(fs, k) then DataAt(fs, k - 1)
    else DataAt(fs, k - 1) + Extent(fs[k - 1]) + fs[k].dataOffset
  }

  /** The first member of the union that field `k` belongs to; `k` itself outside unions. */
  function Leader(fs: seq<Field>, k: nat): (j: nat)
    requires k < |fs|
    ensures j <= k && !InUnion(fs, j)
  {
    if InUnion(fs, k) then Leader(fs, k - 1) else k
  }

  function SizeAt(fs: seq<Field>, k: nat): int
    requires k < |fs|
  {
    DataAt(fs, k) + fs[Leader(fs, k)].sizeOffset
  }

  function RequiredBefore(fs: seq<Field>, k: nat): (n: nat)
    requires k <= |fs|
    ensures n <= k
  {
    if k == 0 then 0 else RequiredBefore(fs, k - 1) + (if fs[k - 1].h.Required? then 1 else 0)
  }

  // What the sums mean --------------------------------------------------------------------------------

  /** Member `k` lies at `places[k]` (the PB_DATAOFFSET macros): the first offset is the place, later ones the gap after
      the member before, and union members share a place. */
  ghost predicate MemberLies(fs: seq<Field>, places: seq<nat>, k: nat)
    requires k < |fs| == |places|
  {
    places[k] ==
    if k == 0 then fs[k].dataOffset
    else if InUnion(fs, k) then places[k - 1]
    else places[k - 1] + Extent(fs[k - 1]) + fs[k].dataOffset
  }

  /** The descriptors were made from a structure whose members lie at `places`. */
  ghost predicate Describes(fs: seq<Field>, places: seq<nat>) {
    |places| == |fs| && forall k: nat :: k < |fs| ==> MemberLies(fs, places, k)
  }

  /** The iterator's data pointer is the address of the member. */
  lemma {:induction false} PointsAtMember(fs: seq<Field>, places: seq<nat>, k: nat)
    requires Describes(fs, places) && k < |fs|
    ensures DataAt(fs, k) == places[k]
  {
    hide Extent, InUnion;
    assert MemberLies(fs, places, k);
    if k > 0 {
      PointsAtMember(fs, places, k - 1);
    }
  }

  /** The count, has-flag or union tag of member `k` lies at `sizes[k]` (`pb_delta`): the offset is from the
      member's data, and the members of a union share their tag. */
  ghost predicate SizeLies(fs: seq<Field>, places: seq<nat>, sizes: seq<int>, k: nat)
    requires k < |fs| == |places| == |sizes|
  {
    sizes[k] == if InUnion(fs, k) then sizes[k - 1] else places[k] + fs[k].sizeOffset
  }

  ghost predicate DescribesSizes(fs: seq<Field>, places: seq<nat>, sizes: seq<int>) {
    |sizes| == |fs| == |places| && forall k: nat :: k < |fs| ==> SizeLies(fs, places, sizes, k)
  }

  /** The iterator's size pointer is the address of the member's count, has-flag or union tag. */
  lemma {:induction false} PointsAtSize(fs: seq<Field>, places: seq<nat>, sizes: seq<int>, k: nat)
    requires Describes(fs, places) && DescribesSizes(fs, places, sizes) && k < |fs|
    ensures SizeAt(fs, k) == sizes[k]
  {
    hide MemberLies, Extent;
    PointsAtMember(fs, places, k);
    assert SizeLies(fs, places, sizes, k);
    if InUnion(fs, k) {
      PointsAtSize(fs, places, sizes, k - 1);
      UnionShares(fs, k - 1, k);
    }
  }

  /** The members of one union share their data and their tag field. */
  lemma {:induction false} UnionShares(fs: seq<Field>, j: nat, k: nat)
    requires j <= k < |fs| && Leader(fs, j) == Leader(fs, k)
    ensures DataAt(fs, j) == DataAt(fs, k) && SizeAt(fs, j) == SizeAt(fs, k)
  {
    if j < k {
      UnionShares(fs, j, k - 1);
    }
  }

  lemma {:induction false} RequiredMonotone(fs: seq<Field>, j: nat, k: nat)
    requires j <= k <= |fs|
    ensures RequiredBefore(fs, j) <= RequiredBefore(fs, k)
    ensures j < k && fs[j].h.Required? ==> RequiredBefore(fs, j) < RequiredBefore(fs, k)
  {
    if j < k {
      RequiredMonotone(fs, j, k - 1);
    }
  }

  /** Field `k` is required, and number `n` of the required ones. */
  ghost predicate IsNumber(fs: seq<Field>, k: nat, n: nat) {
    k < |fs| && fs[k].h.Required? && RequiredBefore(fs, k) == n
  }

  /** It is the number of exactly one field. */
  ghost predicate OneField(fs: seq<Field>, n: nat) {
    exists k: nat :: IsNumber(fs, k, n) && forall j: nat :: IsNumber(fs, j, n) ==> j == k
  }

  lemma {:induction false} RequiredNumbered(fs: seq<Field>, k: nat, n: nat) returns (j: nat)
    requires k <= |fs| && n < RequiredBefore(fs, k)
    ensures j < k && fs[j].h.Required? && RequiredBefore(fs, j) == n
  {
    if n < RequiredBefore(fs, k - 1) {
      j := RequiredNumbered(fs, k - 1, n);
    } else {
      j := k - 1;
    }
  }

  lemma RequiredDistinct(fs: seq<Field>, j: nat, k: nat, n: nat)
    requires IsNumber(fs, j, n) && IsNumber(fs, k, n)
    ensures j == k
  {
    if j < k {
      RequiredMonotone(fs, j, k);
    } else {
      RequiredMonotone(fs, k, j);
    }
  }

  // The iterator -----------------------------------------------------------------------------------------

  predicate Matches(f: Field, tag: nat) {
    f.tag == tag && !f.l.Extension?
  }

  /** pb_field_iter_t; pointers are offsets into the destination structure. */
  class FieldIter {
    const fields: seq<Field>
    var pos: nat
    var requiredIndex: nat
    var pData: int
    var pSize: int

    /** Every field of the iterator is a function of its position. */
    ghost predicate Valid()
      reads this
    {
      Listed(fields) &&
      if fields == [] then pos == 0 && requiredIndex == 0 && pData == 0 && pSize == 0
      else
        && pos < |fields|
        && requiredIndex == RequiredBefore(fields, pos)
        && pData == DataAt(fields, pos)
        && pSize == SizeAt(fields, pos)
    }

    constructor (fields: seq<Field>)
      requires Listed(fields)
      ensures Valid() && this.fields == fields && pos == 0
    {
      this.fields := fields;
      pos, requiredIndex := 0, 0;
      pData := if fields == [] then 0 else fields[0].dataOffset;
      pSize := if fields == [] then 0 else fields[0].dataOffset + fields[0].sizeOffset;
    }

    /** `pb_field_iter_begin` on the same fields. */
    method Begin() returns (some: bool)
      requires Listed(fields)
      modifies this
      ensures Valid() && pos == 0 && some == (fields != [])
    {
      pos, requiredIndex := 0, 0;
      pData := if fields == [] then 0 else fields[0].dataOffset;
      pSize := pData + (if fields == [] then 0 else fields[0].sizeOffset);
      some := fields != [];
    }

    /** `pb_field_iter_next`: one field on, or back to the first, which is told by false. */
    method Next() returns (more: bool)
      requires Valid()
      modifies this
      ensures Valid()
      ensures more == (old(pos) + 1 < |fields|)
      ensures pos == if more then old(pos) + 1 else 0
    {
      if fields == [] {
        return false;
      }
      var prev := fields[pos];
      pos := pos + 1;
      if pos == |fields| {
        var _ := Begin();
        return false;
      }
      var here := fields[pos];
      var prevSize := prev.dataSize;
      if prev.h.Oneof? && here.h.Oneof? && here.dataOffset == SIZE_MAX {
        return true;
      } else if prev.a.Static? && prev.h.Repeated? {
        prevSize := prevSize * prev.arraySize;
      } else if prev.a.Pointer? {
        prevSize := POINTER_SIZE;
      }
      if prev.h.Required? {
        requiredIndex := requiredIndex + 1;
      }
      pData := pData + prevSize + here.dataOffset;
      pSize := pData + here.sizeOffset;
      more := true;
    }

    /** `pb_field_iter_find`: from anywhere, all the way round. It ends, and finds a field exactly when there is one;
        an empty message answers to tag zero, its terminator. */
    method Find(tag: nat) returns (found: bool)
      requires Valid()
      modifies this
      ensures Valid()
      ensures found <==> (exists k :: 0 <= k < |fields| && Matches(fields[k], tag)) || (fields == [] && tag == 0)
      ensures found && fields != [] ==> Matches(fields[pos], tag)
      ensures !found ==> pos == old(pos)
    {
      if fields == [] {
        // The terminator has tag and type zero; the one call of `next` does not move.
        return tag == 0;
      }
      var start := pos;
      ghost var wrapped := false;
      while true
        invariant Valid()
        invariant wrapped ==> pos < start
        invariant !wrapped ==> start <= pos
        invariant forall k :: start <= k < (if wrapped then |fields| else pos) ==> !Matches(fields[k], tag)
        invariant wrapped ==> forall k :: 0 <= k < pos ==> !Matches(fields[k], tag)
        decreases !wrapped, |fields| - pos
      {
        if fields[pos].tag == tag && !fields[pos].l.Extension? {
          return true;
        }
        var more := Next();
        wrapped := wrapped || !more;
        if pos == start {
          return false;
        }
      }
    }
  }
}
