/** Fixed-width integers as dictionary keys: bit strings, highest bit first. */
module BitStrings {
  import opened Cells

  function BitsOf(n: nat, width: nat): (bits: Bits)
    ensures |bits| == width
  {
    if width == 0 then [] else BitsOf(n / 2, width - 1) + [n % 2 == 1]
  }

  function ValueOf(bits: Bits): nat {
    if bits == [] then 0
    else 2 * ValueOf(bits[..|bits| - 1]) + (if bits[|bits| - 1] then 1 else 0)
  }

  ghost function PowerOfTwo(k: nat): nat {
    if k == 0 then 1 else 2 * PowerOfTwo(k - 1)
  }

  lemma {:induction false} ValueRoundTrip(n: nat, width: nat)
    requires n < PowerOfTwo(width)
    ensures ValueOf(BitsOf(n, width)) == n
  {
    if width > 0 {
      ValueRoundTrip(n / 2, width - 1);
      assert BitsOf(n, width)[..width - 1] == BitsOf(n / 2, width - 1);
    }
  }

  lemma {:induction false} BitsRoundTrip(bits: Bits)
    ensures BitsOf(ValueOf(bits), |bits|) == bits
    ensures ValueOf(bits) < PowerOfTwo(|bits|)
  {
    if bits != [] {
      BitsRoundTrip(bits[..|bits| - 1]);
    }
  }
}
