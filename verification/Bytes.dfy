/** Machine integers and big-endian byte strings, as `encoding/binary` reads and writes them. */
module Bytes {
  const U16_SIZE: int := 0x1_0000
  const U32_SIZE: int := 0x1_0000_0000

  type byte = x: int | 0 <= x < 0x100
  type u16 = x: int | 0 <= x < 0x1_0000
  type u32 = x: int | 0 <= x < 0x1_0000_0000
  type bytes = seq<byte>

  datatype Option<+T> = None | Some(value: T)

  datatype Result<+T, +E> = Ok(value: T) | Err(error: E)

  /** Go's conversions and `+=` on unsigned integers keep the low bits. */
  function ToU16(x: int): u16 { x % U16_SIZE }

  function ToU32(x: int): u32 { x % U32_SIZE }

  function Min(a: int, b: int): int { if a < b then a else b }

  function PutU16(v: u16): (b: bytes)
    ensures |b| == 2 && GetU16(b) == v
  {
    [v / 0x100, v % 0x100]
  }

  function GetU16(b: bytes): u16
    requires |b| >= 2
  {
    0x100 * (b[0] as int) + b[1]
  }

  function PutU32(v: u32): (b: bytes)
    ensures |b| == 4 && GetU32(b) == v
  {
    PutU16(v / U16_SIZE) + PutU16(v % U16_SIZE)
  }

  function GetU32(b: bytes): u32
    requires |b| >= 4
  {
    U16_SIZE * (GetU16(b[..2]) as int) + GetU16(b[2..4])
  }

  /** Writing back what was read. */
  lemma PutGetU16(b: bytes)
    requires |b| == 2
    ensures PutU16(GetU16(b)) == b
  {
    assert GetU16(b) / 0x100 == b[0] && GetU16(b) % 0x100 == b[1];
  }

  /** The most significant byte comes first. */
  lemma BigEndian(v: u16, w: u32)
    ensures var b := PutU16(v); 0x100 * (b[0] as int) + b[1] == v
    ensures var b := PutU32(w);
            0x100_0000 * (b[0] as int) + 0x1_0000 * (b[1] as int) + 0x100 * (b[2] as int) + b[3] == w
  {
    assert w == U16_SIZE * (w / U16_SIZE) + w % U16_SIZE;
  }

  /** The consecutive integers lo, lo+1, ..., hi-1. */
  function Range(lo: int, hi: int): (s: seq<int>)
    ensures |s| == if lo <= hi then hi - lo else 0
    ensures forall i :: 0 <= i < |s| ==> s[i] == lo + i
  {
    if lo < hi then seq(hi - lo, i requires 0 <= i => lo + i) else []
  }

  /** `binary.BigEndian.PutUint16(a[at:at+2], v)`. */
  method StoreU16(a: array<byte>, at: nat, v: u16)
    requires at + 2 <= a.Length
    modifies a
    ensures a[..at + 2] == old(a[..at]) + PutU16(v)
    ensures a[at + 2..] == old(a[at + 2..])
  {
    a[at], a[at + 1] := v / 0x100, v % 0x100;
    assert a[..at + 2] == old(a[..at]) + PutU16(v);
  }

  /** `binary.BigEndian.PutUint32(a[at:at+4], v)`. */
  method StoreU32(a: array<byte>, at: nat, v: u32)
    requires at + 4 <= a.Length
    modifies a
    ensures a[..at + 4] == old(a[..at]) + PutU32(v)
    ensures a[at + 4..] == old(a[at + 4..])
  {
    StoreU16(a, at, v / U16_SIZE);
    StoreU16(a, at + 2, v % U16_SIZE);
    assert a[..at + 4] == old(a[..at]) + PutU32(v);
  }
}
