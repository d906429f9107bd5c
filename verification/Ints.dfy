/** Fixed-width integer ranges and the saturating operations the source relies on. */
module Ints {
  const U32_LIMIT: nat := 0x1_0000_0000
  const U64_LIMIT: nat := 0x1_0000_0000_0000_0000
  const U64_MAX: u64 := 0xFFFF_FFFF_FFFF_FFFF

  type u32 = x: nat | x < 0x1_0000_0000
  type u64 = x: nat | x < 0x1_0000_0000_0000_0000

  function Min(x: nat, y: nat): nat { if x <= y then x else y }

  function Max(x: nat, y: nat): nat { if x <= y then y else x }

  function SatSub(x: nat, y: nat): nat { if x <= y then 0 else x - y }

  function SatAdd64(x: u64, y: u64): u64 { if x + y < U64_LIMIT then x + y else U64_MAX }

  function SatMul64(x: u64, y: u64): u64 { if x * y < U64_LIMIT then x * y else U64_MAX }

  /** `rate` tokens for each of `secs` seconds. */
  function Gain(rate: nat, secs: nat): nat {
    if secs == 0 then 0 else Gain(rate, secs - 1) + rate
  }

  lemma {:induction false} GainIsProduct(rate: nat, secs: nat)
    ensures Gain(rate, secs) == rate * secs
  {
    if secs != 0 {
      GainIsProduct(rate, secs - 1);
      assert rate * secs == rate * (secs - 1) + rate;
    }
  }

  lemma {:induction false} GainAdds(rate: nat, x: nat, y: nat)
    ensures Gain(rate, x + y) == Gain(rate, x) + Gain(rate, y)
  {
    if y != 0 {
      GainAdds(rate, x, y - 1);
    }
  }

  lemma {:induction false} GainMono(rate: nat, x: nat, y: nat)
    requires x <= y
    ensures Gain(rate, x) <= Gain(rate, y)
  {
    if x < y {
      GainMono(rate, x, y - 1);
    }
  }
}
