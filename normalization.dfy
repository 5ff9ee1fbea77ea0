/** The fallback transform: min-max normalisation of a frame onto the full
    range of the output bit depth, in integer arithmetic. */
module Normalization {
  import opened Common

  function Pow2(n: nat): (r: nat)
    ensures r >= 1
  {
    if n == 0 then 1 else 2 * Pow2(n - 1)
  }

  /** Integer floor division, as the converter's `//` computes it; for a
      positive divisor it is Dafny's `/`, for a negative one it is the
      quotient of the negated operands. */
  function FloorDiv(a: int, b: int): (q: int)
    requires b != 0
    ensures b > 0 ==> q * b <= a < q * b + b
    ensures b < 0 ==> q * b + b < a <= q * b
  {
    if b > 0 then a / b else (-a) / (-b)
  }

  /** Only 8-bit and 16-bit output images are supported. */
  predicate SupportedDepth(depth: int) {
    depth == 8 || depth == 16
  }

  /** One normalised sample: shift by the minimum, scale by the largest
      output level, floor-divide by the observed range, then cast to the
      unsigned output type of `depth` bits (which keeps the value modulo
      2^depth).  Whatever the sample, the result is a level of the output
      type. */
  function NormalizeSample(v: int, min: int, max: int, depth: nat): (r: int)
    requires max != min
    ensures 0 <= r <= Pow2(depth) - 1
  {
    FloorDiv((v - min) * (Pow2(depth) - 1), max - min) % Pow2(depth)
  }

  /** Normalisation of a whole frame.  An unsupported depth is an error,
      and so is a flat frame whose observed minimum equals its maximum. */
  function NormalizeFrame(frame: Frame, min: int, max: int, depth: int): (r: Result<Frame>)
    ensures r.Err? <==> !SupportedDepth(depth) || max == min
    ensures !SupportedDepth(depth) ==> r == Err(UnsupportedDepth(depth))
    ensures SupportedDepth(depth) && max == min ==> r == Err(FlatRange)
    ensures r.Ok? ==> |r.value| == |frame|
  {
    if !SupportedDepth(depth) then Err(UnsupportedDepth(depth))
    else if max == min then Err(FlatRange)
    else Ok(seq(|frame|, i requires 0 <= i < |frame| => NormalizeSample(frame[i], min, max, depth)))
  }

  lemma DivBounded(a: int, d: int, m: nat)
    requires 0 <= a <= d && 0 < d
    ensures 0 <= a * m / d <= m
  {
    assert a * m <= d * m;
    assert d * m / d == m;
    DivMonotone(a * m, d * m, d);
  }

  lemma DivMonotone(x: int, y: int, d: int)
    requires x <= y && 0 < d
    ensures x / d <= y / d
  {
    var qx, qy := x / d, y / d;
    assert d * qx <= x && y < d * qy + d;
    assert d * (qx - qy - 1) < 0;
    NegativeFactor(d, qx - qy - 1);
  }

  lemma NegativeFactor(d: int, k: int)
    requires d > 0 && d * k < 0
    ensures k < 0
  {
  }

  lemma MulDivCancel(d: int, m: int)
    requires d > 0
    ensures d * m / d == m
  {
    var q := d * m / d;
    assert d * q <= d * m < d * q + d;
    assert d * (m - q) >= 0 && d * (m - q - 1) < 0;
    NegativeFactor(d, m - q - 1);
    NegativeFactor(d, q - m - 1);
  }

  lemma ModOfSmall(q: int, n: int)
    requires 0 <= q < n
    ensures q % n == q
  {
  }

  /** For a sample within the observed range, the normalised value lies in
      `[0, 2^depth - 1]`, so the cast to the output type does not wrap. */
  lemma NormalizeSampleInRange(v: int, min: int, max: int, depth: nat)
    requires min <= v <= max && min < max
    ensures 0 <= NormalizeSample(v, min, max, depth) <= Pow2(depth) - 1
    ensures NormalizeSample(v, min, max, depth) == (v - min) * (Pow2(depth) - 1) / (max - min)
  {
    var n := Pow2(depth);
    var a, d := v - min, max - min;
    var p := a * (n - 1);
    assert FloorDiv(p, d) == p / d;
    DivBounded(a, d, n - 1);
    ModOfSmall(p / d, n);
  }

  /** The observed minimum maps to 0 and the observed maximum to the
      largest output level. */
  lemma NormalizeEndpoints(min: int, max: int, depth: nat)
    requires min < max
    ensures NormalizeSample(min, min, max, depth) == 0
    ensures NormalizeSample(max, min, max, depth) == Pow2(depth) - 1
  {
    var n := Pow2(depth);
    var d := max - min;
    NormalizeSampleInRange(min, min, max, depth);
    NormalizeSampleInRange(max, min, max, depth);
    MulDivCancel(d, 0);
    MulDivCancel(d, n - 1);
  }

  /** Within the observed range, normalisation preserves the order of
      samples. */
  lemma NormalizeMonotone(a: int, b: int, min: int, max: int, depth: nat)
    requires min <= a <= b <= max && min < max
    ensures NormalizeSample(a, min, max, depth) <= NormalizeSample(b, min, max, depth)
  {
    NormalizeSampleInRange(a, min, max, depth);
    NormalizeSampleInRange(b, min, max, depth);
    assert (a - min) * (Pow2(depth) - 1) <= (b - min) * (Pow2(depth) - 1);
    DivMonotone((a - min) * (Pow2(depth) - 1), (b - min) * (Pow2(depth) - 1), max - min);
  }

  /** A frame whose samples all lie in the observed range normalises to a
      frame whose samples all lie in `[0, 2^depth - 1]`. */
  lemma NormalizeFrameInRange(frame: Frame, min: int, max: int, depth: int)
    requires SupportedDepth(depth) && min < max
    requires forall i :: 0 <= i < |frame| ==> min <= frame[i] <= max
    ensures NormalizeFrame(frame, min, max, depth).Ok?
    ensures forall i :: 0 <= i < |frame| ==> 0 <= NormalizeFrame(frame, min, max, depth).value[i] <= Pow2(depth) - 1
  {
    forall i | 0 <= i < |frame|
      ensures 0 <= NormalizeFrame(frame, min, max, depth).value[i] <= Pow2(depth) - 1
    {
      NormalizeSampleInRange(frame[i], min, max, depth);
    }
  }

  /** The worked example: 10, 20, 30 with observed range [10, 30] at depth 8
      normalise to 0, 127, 255. */
  lemma NormalizeExample()
    ensures NormalizeFrame([10, 20, 30], 10, 30, 8) == Ok([0, 127, 255])
  {
    assert Pow2(8) == 256;
    var r := NormalizeFrame([10, 20, 30], 10, 30, 8);
    assert r.value == [0, 127, 255];
  }
}
