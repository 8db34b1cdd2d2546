/** halves (internal/routing/tunnels.go) as the program computes it, on the bytes of an
address, and what that is on bit strings.
 */
module Octets {
  import opened Prefixes

  type Bytes = seq<bv8>

  function Mask(k: nat): bv8
    requires k < 8
  {
    0x80 >> k
  }

  predicate Bit(raw: Bytes, k: nat)
    requires k < 8 * |raw|
  {
    raw[k / 8] & Mask(k % 8) != 0
  }

  function Bits(raw: Bytes): (bits: seq<bool>)
    ensures |bits| == 8 * |raw|
  {
    seq(8 * |raw|, k requires 0 <= k < 8 * |raw| => Bit(raw, k))
  }

  /** An address masked to n bits: nothing is set from bit n on. */
  ghost predicate IsMasked(raw: Bytes, n: nat) {
    forall k :: n <= k < 8 * |raw| ==> !Bit(raw, k)
  }

  /** The prefix an address and a length stand for. */
  function AsPrefix(fam: Family, raw: Bytes, n: nat): Prefix
    requires 8 * |raw| == Width(fam) && n <= Width(fam)
  {
    Block(fam, Bits(raw)[..n])
  }

  /** halves' addresses: the block's own, and that with the bit after the prefix set. */
  function HalfAddresses(raw: Bytes, n: nat): (Bytes, Bytes)
    requires n < 8 * |raw|
  {
    (raw, raw[n / 8 := raw[n / 8] | Mask(n % 8)])
  }

  lemma {:induction false} SetBit(b: bv8, i: nat, j: nat)
    requires i < 8 && j < 8
    ensures (b | Mask(i)) & Mask(j) != 0 <==> i == j || b & Mask(j) != 0
  {
    assert Mask(0) == 128 && Mask(1) == 64 && Mask(2) == 32 && Mask(3) == 16;
    assert Mask(4) == 8 && Mask(5) == 4 && Mask(6) == 2 && Mask(7) == 1;
  }

  /** The two results are the two halves, and masked to their length again. */
  lemma {:induction false} HalvesAppendABit(fam: Family, raw: Bytes, n: nat)
    requires 8 * |raw| == Width(fam) && n < Width(fam) && IsMasked(raw, n)
    ensures var (lo, hi) := HalfAddresses(raw, n);
            && AsPrefix(fam, lo, n + 1) == Half(AsPrefix(fam, raw, n), false)
            && AsPrefix(fam, hi, n + 1) == Half(AsPrefix(fam, raw, n), true)
            && IsMasked(lo, n + 1) && IsMasked(hi, n + 1)
  {
    var (lo, hi) := HalfAddresses(raw, n);
    forall k: nat | k < 8 * |raw|
      ensures Bit(hi, k) <==> k == n || Bit(raw, k)
    {
      if k / 8 == n / 8 {
        SetBit(raw[n / 8], n % 8, k % 8);
      }
    }
    assert !Bit(raw, n);
    assert Bits(lo)[..n + 1] == Bits(raw)[..n] + [false];
    assert Bits(hi)[..n + 1] == Bits(raw)[..n] + [true];
  }

  lemma {:induction false} ByteTold(b: bv8, c: bv8)
    requires forall i: nat :: i < 8 ==> (b & Mask(i) != 0 <==> c & Mask(i) != 0)
    ensures b == c
  {
    assert Mask(0) == 128 && Mask(1) == 64 && Mask(2) == 32 && Mask(3) == 16;
    assert Mask(4) == 8 && Mask(5) == 4 && Mask(6) == 2 && Mask(7) == 1;
  }

  /** The bits say which address it is, and the first is set from 128 on: no two addresses
      of a family have the same bits. */
  lemma {:induction false} BitsTell(x: Bytes, y: Bytes)
    requires |x| == |y|
    ensures Bits(x) == Bits(y) <==> x == y
    ensures |x| > 0 ==> (Bits(x)[0] <==> x[0] >= 128)
  {
    assert Mask(0) == 128;
    if Bits(x) == Bits(y) {
      forall k | 0 <= k < |x|
        ensures x[k] == y[k]
      {
        forall i: nat | i < 8
          ensures x[k] & Mask(i) != 0 <==> y[k] & Mask(i) != 0
        {
          assert Bits(x)[8 * k + i] == Bits(y)[8 * k + i];
        }
        ByteTold(x[k], y[k]);
      }
    }
  }
}
