/** Bytes and the big-endian length word of the control protocol's header. */
module Bytes {
  type Byte = b: int | 0 <= b < 256

  const U32_LIMIT := 0x1_0000_0000

  function BigEndian(n: nat): (b: seq<Byte>)
    requires n < U32_LIMIT
    ensures |b| == 4
  {
    [n / 0x100_0000, n / 0x1_0000 % 256, n / 256 % 256, n % 256]
  }

  function Word4(a: int, b: int, c: int, d: int): int {
    ((a * 256 + b) * 256 + c) * 256 + d
  }

  function FromBigEndian(b: seq<Byte>): (n: nat)
    requires |b| == 4
    ensures n < U32_LIMIT
  {
    Word4(b[0], b[1], b[2], b[3])
  }

  lemma BigEndianRoundTrip(n: nat)
    requires n < U32_LIMIT
    ensures FromBigEndian(BigEndian(n)) == n
  {
    assert n / 0x100_0000 == n / 256 / 256 / 256;
    assert n / 0x1_0000 == n / 256 / 256;
  }

  /** Every four bytes are the encoding of the number they decode to. */
  lemma BigEndianOnto(b: seq<Byte>)
    requires |b| == 4
    ensures BigEndian(FromBigEndian(b)) == b
  {
    var n := FromBigEndian(b);
    var high: int := b[0];
    var x := high * 256 + b[1];
    var y := x * 256 + b[2];
    assert n == y * 256 + b[3];
    assert n / 256 == y && n % 256 == b[3];
    assert y / 256 == x && y % 256 == b[2];
    assert x / 256 == high && x % 256 == b[1];
    assert n / 0x1_0000 == n / 256 / 256 && n / 0x100_0000 == n / 256 / 256 / 256;
  }

  /** The number four bytes stand for, the first the most significant. */
  function Value(b: seq<Byte>): int
    requires |b| == 4
  {
    var w, x, y, z: int := b[0], b[1], b[2], b[3];
    w * 0x100_0000 + x * 0x1_0000 + y * 0x100 + z
  }

  lemma BigEndianValue(n: nat)
    requires n < U32_LIMIT
    ensures Value(BigEndian(n)) == n
  {
    BigEndianRoundTrip(n);
  }

  /** The bytes are in the order of the network: the first in which two numbers differ is smaller
      for the smaller one. */
  lemma MostSignificantFirst(m: nat, n: nat)
    requires m < n < U32_LIMIT
    ensures var a, b := BigEndian(m), BigEndian(n);
            exists k :: 0 <= k < 4 && a[k] < b[k] && forall j :: 0 <= j < k ==> a[j] == b[j]
  {
    BigEndianValue(m);
    BigEndianValue(n);
    SmallerFirst(BigEndian(m), BigEndian(n));
  }

  lemma SmallerFirst(a: seq<Byte>, b: seq<Byte>)
    requires |a| == |b| == 4 && Value(a) < Value(b)
    ensures exists k :: 0 <= k < 4 && a[k] < b[k] && forall j :: 0 <= j < k ==> a[j] == b[j]
  {
    var k := if a[0] != b[0] then 0 else if a[1] != b[1] then 1 else if a[2] != b[2] then 2 else 3;
    assert forall j :: 0 <= j < k ==> a[j] == b[j];
    assert a[k] < b[k];
  }
}
