/** 16.16 fixed-point nearest-neighbour sampling, in 32-bit unsigned arithmetic. */
module Sampling {
  import opened Words

  /** `(side << 16) / target + 1`, each operation wrapping. */
  function Ratio(side: u32, target: u32): u32
    requires target > 0
  {
    Wrap32(Wrap32(side * 0x1_0000) / target + 1)
  }

  /** `(j * ratio) >> 16`. */
  function Sample(side: u32, target: u32, j: u32): u32
    requires target > 0
  {
    Wrap32(j * Ratio(side, target)) / 0x1_0000
  }

  /** A shrunk side of an image. */
  predicate Shrinks(side: u32, target: u32) {
    1 <= target <= side < 0x1_0000
  }

  lemma MulLe(a: int, b: int, c: int)
    requires a <= b && 0 <= c
    ensures a * c <= b * c && c * a <= c * b
  {
  }

  lemma MulCancel(a: int, b: int, c: int)
    requires a * c < b * c && 0 < c
    ensures a < b
  {
    if a >= b { MulLe(b, a, c); }
  }

  lemma DivBounds(a: nat, b: nat)
    requires b > 0
    ensures 0 <= a / b && a / b * b <= a < (a / b + 1) * b
  {
    assert a == a / b * b + a % b;
  }

  lemma QuotientBounds(s: nat, q: int, target: nat)
    requires q * target <= s < (q + 1) * target && 0 < target && target * 0x1_0000 <= s
    ensures 0x1_0000 <= q <= s
  {
    if q < 0x1_0000 { MulLe(q + 1, 0x1_0000, target); }
    if q > s { MulLe(1, target, q); }
  }

  lemma ProductFits(j: nat, q: nat, target: nat, s: nat)
    requires j < target <= q && q * target <= s
    ensures 0 <= j * (q + 1) < s
  {
    MulLe(j, target - 1, q + 1);
    MulLe(0, j, q + 1);
    assert (target - 1) * (q + 1) == q * target - q + target - 1;
  }

  /** No operation wraps: the ratio is the quotient plus one, the sample the product shifted. */
  lemma {:induction false} RatioFits(side: u32, target: u32, j: u32)
    requires Shrinks(side, target) && j < target
    ensures var s := side * 0x1_0000; var q := s / target;
            && q * target <= s < (q + 1) * target
            && Ratio(side, target) == q + 1
            && 0 <= j * (q + 1) < s < TWO_32
            && Sample(side, target, j) == j * (q + 1) / 0x1_0000
  {
    var s := side * 0x1_0000;
    var q := s / target;
    DivBounds(s, target);
    QuotientBounds(s, q, target);
    ProductFits(j, q, target, s);
    WrapSmall(s);
    WrapSmall(q + 1);
    WrapSmall(j * (q + 1));
  }

  lemma WrapSmall(x: int)
    requires 0 <= x < TWO_32
    ensures Wrap32(x) == x
  {
  }

  /** Scaled by the target, the product lies within `j * target` above the exact one. */
  lemma ScaledProduct(j: nat, q: nat, target: nat, s: nat)
    requires q * target <= s < (q + 1) * target
    ensures j * s <= j * (q + 1) * target <= j * s + j * target
  {
    MulLe(s, (q + 1) * target, j);
    MulLe(q * target, s, j);
    assert j * (q + 1) * target == j * ((q + 1) * target);
    assert j * ((q + 1) * target) == j * (q * target) + j * target;
  }

  lemma AtLeastExact(x: int, f: int, p: int, e: int, target: int, js: int)
    requires p < (x + 1) * 0x1_0000 && f * target <= js && e == js * 0x1_0000 && e <= p * target && target > 0
    ensures f <= x
  {
    MulLe(p + 1, (x + 1) * 0x1_0000, target);
    assert (p + 1) * target == p * target + target;
    assert f * target * 0x1_0000 < (x + 1) * 0x1_0000 * target;
    assert f * (target * 0x1_0000) < (x + 1) * (target * 0x1_0000);
    MulCancel(f, x + 1, target * 0x1_0000);
  }

  lemma AtMostNext(x: int, f: int, p: int, e: int, target: int, js: int, err: int)
    requires x * 0x1_0000 <= p && js < (f + 1) * target && e == js * 0x1_0000 && p * target <= e + err && target > 0
    requires err < 0x1_0000 * target
    ensures x <= f + 1
    ensures err < 0x1_0000 ==> x <= f
  {
    MulLe(x * 0x1_0000, p, target);
    assert x * (target * 0x1_0000) == x * 0x1_0000 * target <= e + err;
    assert e <= ((f + 1) * target - 1) * 0x1_0000 == (f + 1) * (target * 0x1_0000) - 0x1_0000;
    if err < 0x1_0000 {
      MulCancel(x, f + 1, target * 0x1_0000);
    }
    assert (f + 2) * (target * 0x1_0000) == (f + 1) * (target * 0x1_0000) + target * 0x1_0000;
    MulCancel(x, f + 2, target * 0x1_0000);
  }

  /** The bound for a quotient q of the shifted side, in plain integers. */
  lemma QuotientError(side: nat, target: nat, j: nat, q: nat)
    requires 0 < target && j < 0x1_0000
    requires q * target <= side * 0x1_0000 < (q + 1) * target
    ensures var x, exact := j * (q + 1) / 0x1_0000, j * side / target;
            exact <= x <= exact + 1 && (j * target < 0x1_0000 ==> x == exact)
  {
    var s, p := side * 0x1_0000, j * (q + 1);
    MulLe(0, j, q + 1);
    DivBounds(p, 0x1_0000);
    MulLe(0, j, side);
    DivBounds(j * side, target);
    ScaledProduct(j, q, target, s);
    ShiftedProduct(j, side);
    MulLe(j, 0xffff, target);
    AtLeastExact(p / 0x1_0000, j * side / target, p, j * s, target, j * side);
    AtMostNext(p / 0x1_0000, j * side / target, p, j * s, target, j * side, j * target);
  }

  lemma ShiftedProduct(j: nat, side: nat)
    ensures j * (side * 0x1_0000) == j * side * 0x1_0000
  {
  }

  /** The error bound: a sample never leaves the side, and is the exact position
      `floor(j * side / target)` or the next one; it is the exact one while
      `j * target` stays below 65536. */
  lemma {:induction false} SampleErrorBound(side: u32, target: u32, j: u32)
    requires Shrinks(side, target) && j < target
    ensures j * Ratio(side, target) < TWO_32
    ensures Sample(side, target, j) < side
    ensures var exact := j * side / target; exact <= Sample(side, target, j) <= exact + 1
    ensures j * target < 0x1_0000 ==> Sample(side, target, j) == j * side / target
  {
    RatioFits(side, target, j);
    QuotientError(side, target, j, side * 0x1_0000 / target);
  }

  /** What the product, scaled by the target, exceeds the exact position by. */
  function Excess(side: nat, target: nat, j: nat): int
    requires target > 0
  {
    (j * side % target) * 0x1_0000 + j * (target - side * 0x1_0000 % target)
  }

  lemma ExcessIs(side: nat, target: nat, j: nat, q: nat, f: nat)
    requires target > 0 && q == side * 0x1_0000 / target && f == j * side / target
    ensures j * (q + 1) * target == f * (target * 0x1_0000) + Excess(side, target, j)
  {
    var s, js := side * 0x1_0000, j * side;
    MulLe(0, j, side);
    var r, m := s % target, js % target;
    assert s == q * target + r && js == f * target + m;
    SplitProduct(j, q, target, s, r);
    ShiftedProduct(j, side);
    assert js * 0x1_0000 == (f * target + m) * 0x1_0000 == f * (target * 0x1_0000) + m * 0x1_0000;
  }

  lemma SplitProduct(j: nat, q: nat, target: nat, s: nat, r: nat)
    requires s == q * target + r
    ensures j * (q + 1) * target == j * s + j * (target - r)
  {
    assert j * (q + 1) * target == j * ((q + 1) * target);
    assert (q + 1) * target == s + (target - r);
    assert j * (s + (target - r)) == j * s + j * (target - r);
  }

  lemma ScaledLess(a: int, b: int, c: nat)
    requires c > 0
    ensures a < b <==> a * c < b * c
  {
    if a < b {
      MulLe(a + 1, b, c);
      assert (a + 1) * c == a * c + c;
    } else {
      MulLe(b, a, c);
    }
  }

  /** The exact condition for the exact position, in terms of the two remainders. */
  lemma {:induction false} SampleExact(side: u32, target: u32, j: u32)
    requires Shrinks(side, target) && j < target
    ensures Sample(side, target, j) == j * side / target <==> Excess(side, target, j) < target * 0x1_0000
  {
    RatioFits(side, target, j);
    SampleErrorBound(side, target, j);
    var q, f := side * 0x1_0000 / target, j * side / target;
    MulLe(0, j, side);
    DivBounds(j * side, target);
    ExactWhenBelow(side, target, j, q, f);
  }

  lemma ExactWhenBelow(side: nat, target: nat, j: nat, q: nat, f: nat)
    requires target > 0 && q == side * 0x1_0000 / target && f == j * side / target
    requires f <= j * (q + 1) / 0x1_0000
    ensures j * (q + 1) / 0x1_0000 == f <==> Excess(side, target, j) < target * 0x1_0000
  {
    var p, e := j * (q + 1), Excess(side, target, j);
    ExcessIs(side, target, j, q, f);
    ScaledLess(p, (f + 1) * 0x1_0000, target);
    NextScaled(f, target);
    assert p * target == f * (target * 0x1_0000) + e;
  }

  lemma NextScaled(f: nat, target: nat)
    ensures (f + 1) * 0x1_0000 * target == f * (target * 0x1_0000) + target * 0x1_0000
  {
  }

  /** Samples follow the image: a later target pixel never samples an earlier source one. */
  lemma {:induction false} SamplesAscend(side: u32, target: u32, i: u32, j: u32)
    requires Shrinks(side, target) && i <= j < target
    ensures Sample(side, target, i) <= Sample(side, target, j)
  {
    RatioFits(side, target, i);
    RatioFits(side, target, j);
    MulLe(i, j, Ratio(side, target));
  }

  /** At full size every pixel samples itself. */
  lemma {:induction false} FullSizeSamples(side: u32, j: u32)
    requires 0 < side < 0x1_0000 && j < side
    ensures Sample(side, side, j) == j
  {
    var q := side * 0x1_0000 / side;
    DivBounds(side * 0x1_0000, side);
    MulCancel(0xffff, q, side);
    MulCancel(q, 0x1_0001, side);
    RatioFits(side, side, j);
  }

  /** A position can be missed: the last pixel of a 1281 to 1280 shrink is off by one. */
  lemma {:induction false} SampleCanMiss()
    ensures Shrinks(1281, 1280) && Sample(1281, 1280, 1279) == 1279 * 1281 / 1280 + 1
  {
    assert 1281 * 0x1_0000 / 1280 == 65587;
    assert Ratio(1281, 1280) == 65588;
  }
}
