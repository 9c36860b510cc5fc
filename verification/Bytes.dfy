/** Bytes and the machine integers of the program. */
module Bytes {
  type byte = bv8

  const U64_LIMIT: int := 0x1_0000_0000_0000_0000

  /** An unsigned 64-bit integer. Dafny checks that no operation on it overflows. */
  newtype u64 = x: int | 0 <= x < 0x1_0000_0000_0000_0000

  const U64_MAX: u64 := 0xFFFF_FFFF_FFFF_FFFF

  datatype Option<+T> = None | Some(value: T)

  function Min(a: nat, b: nat): nat {
    if a < b then a else b
  }

  // ---- Bytes and numbers ----

  lemma ByteOfInt(b: byte)
    ensures (b as int) as bv8 == b
  {
  }

  lemma NextByte(b: byte)
    requires b as int < 255
    ensures (b + 1) as int == b as int + 1
  {
  }

  lemma Successor(b: byte, i: nat)
    requires b as int == i < 255
    ensures ((i + 1) as bv8) as int == i + 1
  {
    NextByte(b);
    ByteOfInt(b + 1);
  }

  lemma {:induction false} IntOfByte(i: nat)
    requires i < 256
    ensures (i as bv8) as int == i
  {
    if i > 0 {
      IntOfByte(i - 1);
      Successor((i - 1) as bv8, i - 1);
    }
  }
}
