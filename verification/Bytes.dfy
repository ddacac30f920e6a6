/** Bytes, big-endian numbers and Go's 64-bit arithmetic. */
module Bytes {
  type byte = x: int | 0 <= x < 256

  const TwoTo8 := 0x100
  const TwoTo16 := 0x1_0000
  const TwoTo24 := 0x100_0000
  const TwoTo32 := 0x1_0000_0000
  const TwoTo63 := 0x8000_0000_0000_0000
  const TwoTo64 := 0x1_0000_0000_0000_0000

  /** binary.BigEndian.Uint32 */
  function Uint32(b: seq<byte>): nat
    requires |b| == 4
  {
    b[0] * TwoTo24 + b[1] * TwoTo16 + b[2] * TwoTo8 + b[3]
  }

  function PutUint32(n: nat): (b: seq<byte>)
    requires n < TwoTo32
    ensures |b| == 4 && Uint32(b) == n
  {
    var n1 := n / 256;
    var n2 := n1 / 256;
    var n3 := n2 / 256;
    assert n == n1 * 256 + n % 256 && n1 == n2 * 256 + n1 % 256 && n2 == n3 * 256 + n2 % 256;
    [n3, n2 % 256, n1 % 256, n % 256]
  }

  /** binary.BigEndian.Uint64 */
  function Uint64(b: seq<byte>): (n: nat)
    requires |b| == 8
    ensures n < TwoTo64
  {
    Uint32Bound(b[..4]);
    Uint32Bound(b[4..]);
    Uint32(b[..4]) * TwoTo32 + Uint32(b[4..])
  }

  lemma Uint32Bound(b: seq<byte>)
    requires |b| == 4
    ensures Uint32(b) < TwoTo32
  {
  }

  function PutUint64(n: nat): (b: seq<byte>)
    requires n < TwoTo64
    ensures |b| == 8 && Uint64(b) == n
  {
    var hi, lo := PutUint32(n / TwoTo32), PutUint32(n % TwoTo32);
    assert (hi + lo)[..4] == hi && (hi + lo)[4..] == lo;
    hi + lo
  }

  /** A conversion to int64: two's complement, modulo 2^64. */
  function ToInt64(n: int): (r: int)
    ensures -TwoTo63 <= r < TwoTo63
  {
    (n + TwoTo63) % TwoTo64 - TwoTo63
  }

  /** Go's integer division truncates toward zero. */
  function TruncDiv(a: int, b: int): int
    requires b > 0
  {
    if a >= 0 then a / b else -(-a / b)
  }

  /** The conversions by what they mean: the first byte is the highest, int64
      is the one representative of its class, the quotient leaves a remainder
      with the dividend's sign. */
  lemma BigEndian(b: seq<byte>)
    requires |b| == 4
    ensures Uint32(b) == ((b[0] as int * 256 + b[1]) * 256 + b[2]) * 256 + b[3]
  {
  }

  lemma Congruent(n: int, r: int)
    requires -0x8000_0000_0000_0000 <= r < 0x8000_0000_0000_0000
    ensures r == ToInt64(n) <==> (n - r) % 0x1_0000_0000_0000_0000 == 0
  {
  }

  lemma Truncates(a: int, b: int)
    requires b > 0
    ensures var rest := a - b * TruncDiv(a, b); if a >= 0 then 0 <= rest < b else -b < rest <= 0
  {
  }
}
