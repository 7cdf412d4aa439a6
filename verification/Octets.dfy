/** Octets and 16-bit words as the attribute protocol stores them (little endian). */
module Octets {

  type byte = i: int | 0 <= i < 0x100

  type u16 = i: int | 0 <= i < 0x1_0000

  datatype Option<+T> = None | Some(value: T)

  function Min(a: int, b: int): (m: int)
    ensures m <= a && m <= b && (m == a || m == b)
  {
    if a <= b then a else b
  }

  /** The two octets att_put_u16 stores. */
  function PutU16(v: u16): (b: seq<byte>)
    ensures |b| == 2 && GetU16(b) == v && v == b[0] as int + 0x100 * b[1] as int
  {
    [v % 0x100, v / 0x100]
  }

  /** The word att_get_u16 reads back. */
  function GetU16(b: seq<byte>): (v: u16)
    requires |b| >= 2
  {
    b[0] as int + 0x100 * b[1] as int
  }

  /** Element i of a zero-filled buffer that holds `rx` at its start. */
  function At(rx: seq<byte>, i: nat): (b: byte)
    ensures i < |rx| ==> b == rx[i]
    ensures i >= |rx| ==> b == 0
  {
    if i < |rx| then rx[i] else 0
  }
}
