/** Byte strings and their big-endian reading, as `int.from_bytes` and `int.to_bytes` see them. */
module Bytes {

  newtype byte = x: int | 0 <= x < 256

  /** `int.from_bytes(data, "big")`. */
  function FromBytes(data: seq<byte>): nat {
    if data == [] then 0 else FromBytes(data[..|data| - 1]) * 256 + data[|data| - 1] as nat
  }

  /** `x.to_bytes(k, "big")`; Python raises OverflowError when `x` needs more than `k` bytes. */
  function ToBytes(x: nat, k: nat): seq<byte>
    requires x < Pow256(k)
  {
    if k == 0 then [] else ToBytes(x / 256, k - 1) + [(x % 256) as byte]
  }

  function Pow256(k: nat): (p: nat)
    ensures p > 0
  {
    if k == 0 then 1 else 256 * Pow256(k - 1)
  }

  /** The fewest bytes that hold `x`, at least one. */
  function Width(x: nat): (w: nat)
    ensures w > 0 && x < Pow256(w)
  {
    if x < 256 then 1 else Width(x / 256) + 1
  }

  lemma {:induction false} FromToBytes(x: nat, k: nat)
    requires x < Pow256(k)
    ensures |ToBytes(x, k)| == k && FromBytes(ToBytes(x, k)) == x
  {
    if k > 0 {
      FromToBytes(x / 256, k - 1);
      assert ToBytes(x, k)[..k - 1] == ToBytes(x / 256, k - 1);
    }
  }

  lemma {:induction false} FromBytesBound(data: seq<byte>)
    ensures FromBytes(data) < Pow256(|data|)
  {
    if data != [] { FromBytesBound(data[..|data| - 1]); }
  }

  lemma {:induction false} FromBytesConcat(a: seq<byte>, b: seq<byte>)
    ensures FromBytes(a + b) == FromBytes(a) * Pow256(|b|) + FromBytes(b)
  {
    if b == [] {
      assert a + b == a;
    } else {
      var c := b[..|b| - 1];
      assert (a + b)[..|a + b| - 1] == a + c;
      FromBytesConcat(a, c);
    }
  }

  lemma {:induction false} PowMonotone(j: nat, k: nat)
    requires j <= k
    ensures Pow256(j) <= Pow256(k)
  {
    if j < k { PowMonotone(j, k - 1); }
  }
}
