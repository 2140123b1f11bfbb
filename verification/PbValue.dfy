/** The contents of message structures: what the memory behind a field descriptor holds. */
module PbValue {
  import opened Bits
  import opened Wrappers

  /** One item: a number, the bytes of a bytes or string field (for strings, up to the terminator), or a message. */
  datatype Value = Number(n: int) | Blob(bytes: seq<byte>) | Message(slots: seq<Slot>)

  /** One field: always there, with a has-flag, an array and its count, or a member of a union, which is there when
      the union's tag field says so. */
  datatype Slot = One(v: Value) | Maybe(has: bool, v: Value) | Many(vs: seq<Value>) | Choice(member: Option<Value>)
}
