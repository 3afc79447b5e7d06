/** Octets, optional values, and the fixed-width big-endian integers of the wire and of the
    stored formats. */
module Bytes {

  type byte = b: int | 0 <= b < 256
  type bytes = seq<byte>

  datatype Option<+T> = None | Some(value: T)

  datatype Result<+T, +E> = Ok(value: T) | Err(error: E)

  const TWO_16: int := 0x1_0000
  const TWO_32: int := 0x1_0000_0000

  /** The number that octets denote, the most significant first. */
  function Unsigned(b: bytes): (n: nat) {
    if b == [] then 0 else Unsigned(b[..|b| - 1]) * 256 + b[|b| - 1]
  }

  /** `u32::to_be_bytes`. */
  function BigEndian32(n: int): (b: bytes)
    requires 0 <= n < TWO_32
    ensures |b| == 4
  {
    [n / 0x100_0000, n / 0x1_0000 % 256, n / 0x100 % 256, n % 256]
  }

  function ReadBigEndian32(b: bytes): (n: int)
    requires |b| == 4
    ensures 0 <= n < TWO_32
  {
    (b[0] as int) * 0x100_0000 + (b[1] as int) * 0x1_0000 + (b[2] as int) * 0x100 + b[3]
  }

  function BigEndian16(n: int): (b: bytes)
    requires 0 <= n < TWO_16
    ensures |b| == 2
  {
    [n / 256, n % 256]
  }

  function ReadBigEndian16(b: bytes): (n: int)
    requires |b| == 2
    ensures 0 <= n < TWO_16
  {
    (b[0] as int) * 256 + b[1]
  }

  /** Network byte order: what is read is what the octets denote. */
  lemma {:induction false} ReadsUnsigned(b: bytes)
    ensures |b| == 4 ==> ReadBigEndian32(b) == Unsigned(b)
    ensures |b| == 2 ==> ReadBigEndian16(b) == Unsigned(b)
  {
    if |b| == 4 {
      assert b[..3][..2] == b[..2] && b[..2][..1] == b[..1];
      assert Unsigned(b[..1]) == b[0];
      assert Unsigned(b[..2]) == (b[0] as int) * 256 + b[1];
      assert Unsigned(b[..3]) == ((b[0] as int) * 256 + b[1]) * 256 + b[2];
    } else if |b| == 2 {
      assert Unsigned(b[..1]) == b[0];
    }
  }

  lemma BigEndian32Inverse(n: int, b: bytes)
    requires 0 <= n < TWO_32 && |b| == 4
    ensures ReadBigEndian32(BigEndian32(n)) == n
    ensures BigEndian32(ReadBigEndian32(b)) == b
  {
    assert n == n / 0x100 * 0x100 + n % 256;
    assert n / 0x100 == n / 0x1_0000 * 0x100 + n / 0x100 % 256;
    assert n / 0x1_0000 == n / 0x100_0000 * 0x100 + n / 0x1_0000 % 256;
    var m := ReadBigEndian32(b);
    assert m / 0x100 == (b[0] as int) * 0x1_0000 + (b[1] as int) * 0x100 + b[2];
    assert m / 0x1_0000 == (b[0] as int) * 0x100 + b[1];
    assert m / 0x100_0000 == b[0];
  }

  lemma BigEndian16Inverse(n: int, b: bytes)
    requires 0 <= n < TWO_16 && |b| == 2
    ensures ReadBigEndian16(BigEndian16(n)) == n
    ensures BigEndian16(ReadBigEndian16(b)) == b
  {
    assert ReadBigEndian16(b) / 256 == b[0];
  }
}
