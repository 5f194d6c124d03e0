/** Bytes, big-endian integers and concatenation, shared by the wire formats. */
module Bytes {

  type byte = x: int | 0 <= x < 256

  const U16: nat := 0x1_0000
  const U32: nat := 0x1_0000_0000
  const U64: nat := 0x1_0000_0000_0000_0000

  datatype Option<+T> = None | Some(value: T)

  /** `(n as u16).to_be_bytes()`: a wider number is truncated. */
  function PutU16(n: nat): (b: seq<byte>)
    ensures |b| == 2
  {
    [n / 0x100 % 0x100, n % 0x100]
  }

  /** `(n as u32).to_be_bytes()`. */
  function PutU32(n: nat): (b: seq<byte>)
    ensures |b| == 4
  {
    PutU16(n / U16) + PutU16(n)
  }

  function GetU16(b: seq<byte>): (n: nat)
    requires |b| == 2
    ensures n < U16
  {
    var hi: int, lo: int := b[0], b[1];
    hi * 0x100 + lo
  }

  function GetU32(b: seq<byte>): (n: nat)
    requires |b| == 4
    ensures n < U32
  {
    GetU16(b[..2]) * U16 + GetU16(b[2..])
  }

  lemma U16OfBytes(b: seq<byte>)
    requires |b| == 2
    ensures PutU16(GetU16(b)) == b
  {}

  lemma BytesOfU16(n: nat)
    ensures GetU16(PutU16(n)) == n % U16
  {}

  /** Only the low 16 bits are written. */
  lemma Truncated16(hi: nat, lo: nat)
    requires lo < U16
    ensures PutU16(hi * U16 + lo) == PutU16(lo)
  {
    assert (hi * U16 + lo) / 0x100 == hi * 0x100 + lo / 0x100;
  }

  lemma Bytes16(n: nat)
    requires n < 0x1_0000
    ensures PutU16(n) == [n / 0x100, n % 0x100]
  {}

  lemma Bytes32(n: nat)
    requires n < 0x1_0000_0000
    ensures PutU32(n) == [n / 0x100_0000, n / 0x1_0000 % 0x100, n / 0x100 % 0x100, n % 0x100]
  {
    assert n / U16 / 0x100 == n / 0x100_0000;
  }

  lemma BytesOfU32(n: nat)
    ensures GetU32(PutU32(n)) == n % U32
  {
    assert PutU32(n)[..2] == PutU16(n / U16) && PutU32(n)[2..] == PutU16(n);
    BytesOfU16(n / U16);
    BytesOfU16(n);
    assert n / U16 == n / U32 * U16 + n / U16 % U16;
  }

  lemma U32OfBytes(b: seq<byte>)
    requires |b| == 4
    ensures PutU32(GetU32(b)) == b
  {
    var hi, lo := GetU16(b[..2]), GetU16(b[2..]);
    U16OfBytes(b[..2]);
    U16OfBytes(b[2..]);
    assert (hi * U16 + lo) / U16 == hi;
    Truncated16(hi, lo);
    assert b == b[..2] + b[2..];
  }

  function Concat(parts: seq<seq<byte>>): seq<byte> {
    if parts == [] then [] else parts[0] + Concat(parts[1..])
  }

  lemma {:induction false} ConcatAppend(a: seq<seq<byte>>, b: seq<seq<byte>>)
    ensures Concat(a + b) == Concat(a) + Concat(b)
  {
    if a == [] {
      assert a + b == b;
      assert Concat(a) + Concat(b) == Concat(b);
    } else {
      ConcatAppend(a[1..], b);
      assert (a + b)[1..] == a[1..] + b;
      assert a[0] + (Concat(a[1..]) + Concat(b)) == a[0] + Concat(a[1..]) + Concat(b);
    }
  }
}
