/** Byte strings and big-endian integers. */
module Bytes {

  type byte = b: int | 0 <= b < 256
  type bytes = seq<byte>

  function Zeros(n: nat): (r: bytes)
    ensures |r| == n
  {
    seq(n, i => 0)
  }

  function Pow256(k: nat): nat {
    if k == 0 then 1 else 256 * Pow256(k - 1)
  }

  /** `n.to_bytes(k, "big")`, for a number that fits. */
  function ToBytes(n: nat, k: nat): (r: bytes)
    ensures |r| == k
  {
    if k == 0 then [] else ToBytes(n / 256, k - 1) + [n % 256]
  }

  /** `int.from_bytes(b, "big")` */
  function FromBytes(b: bytes): nat {
    if b == [] then 0 else 256 * FromBytes(b[..|b| - 1]) + b[|b| - 1]
  }

  /** A number that fits in `k` bytes survives the round trip. */
  lemma {:induction false} BigEndianRoundTrip(n: nat, k: nat)
    requires n < Pow256(k)
    ensures FromBytes(ToBytes(n, k)) == n
  {
    if k > 0 {
      BigEndianRoundTrip(n / 256, k - 1);
      assert ToBytes(n, k)[..k - 1] == ToBytes(n / 256, k - 1);
    }
  }

  /** Two bytes are determined by the number they stand for. */
  lemma TwoBytes(b: bytes)
    requires |b| == 2
    ensures FromBytes(b) == 256 * (b[0] as int) + b[1] < 65536 && ToBytes(FromBytes(b), 2) == b
  {
    assert b[..1] == [b[0]];
    assert [b[0]][..0] == [];
    assert FromBytes(b[..1]) == b[0];
    var n := FromBytes(b);
    assert n / 256 == b[0] && n % 256 == b[1];
    assert ToBytes(b[0], 1) == [b[0]];
  }
}
