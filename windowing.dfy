/** The windowing transform: linear rescale, clamp to the window, map the
    window onto the 8-bit display range and cast to an unsigned byte. */
module Windowing {
  import opened Common

  /** Lower bound of the window: centre minus half the width, the half
      width taken by floor division (Dafny's `/` by 2 is floor division). */
  function WindowLow(centre: int, width: int): int {
    centre - width / 2
  }

  /** Upper bound of the window: centre plus half the width. */
  function WindowHigh(centre: int, width: int): int {
    centre + width / 2
  }

  /** The rescaled value `v * slope + intercept`, in exact arithmetic. */
  function Rescaled(v: int, intercept: real, slope: real): real {
    v as real * slope + intercept
  }

  /** First mask: every value below `lo` becomes `lo`. */
  function RaisedTo(x: real, lo: real): real {
    if x < lo then lo else x
  }

  /** Second mask: every value above `hi` becomes `hi`. */
  function LoweredTo(x: real, hi: real): real {
    if x > hi then hi else x
  }

  /** The two masks applied in the source's order. */
  function Clamped(x: real, lo: real, hi: real): (r: real)
    ensures lo <= hi ==> lo <= r <= hi
    ensures lo <= x <= hi ==> r == x
    ensures hi < lo ==> r == hi
  {
    LoweredTo(RaisedTo(x, lo), hi)
  }

  /** The linear map of the window `[lo, hi]` onto `[0, 255]`. */
  function Scaled(c: real, lo: real, hi: real): real
    requires lo != hi
  {
    (c - lo) / (hi - lo) * 255.0
  }

  /** One output sample of the windowing transform.  The uint8 cast of a
      non-negative value is its floor.  Every sample fits in a byte, so the
      cast never wraps; inside the window the clamped value is mapped into
      the display range, and a negative width makes the second mask send
      everything to `hi`, which maps to 255. */
  function WindowSample(v: int, centre: int, width: int, intercept: real, slope: real): (r: int)
    requires WindowLow(centre, width) != WindowHigh(centre, width)
    ensures 0 <= r <= 255
    ensures WindowHigh(centre, width) < WindowLow(centre, width) ==> r == 255
  {
    var lo := WindowLow(centre, width) as real;
    var hi := WindowHigh(centre, width) as real;
    var c := Clamped(Rescaled(v, intercept, slope), lo, hi);
    var x := Scaled(c, lo, hi);
    assert 0.0 <= x <= 255.0 && (hi < lo ==> x == 255.0) by {
      if lo < hi {
        ScaledWithinRange(c, lo, hi);
      } else {
        DivSelf(hi - lo);
      }
    }
    x.Floor
  }

  /** The windowing transform of a whole frame; a zero-width window
      (low bound equal to high bound) is an error. */
  function WindowFrame(frame: Frame, centre: int, width: int, intercept: real, slope: real): (r: Result<Frame>)
    ensures r.Err? <==> WindowLow(centre, width) == WindowHigh(centre, width)
    ensures r.Err? ==> r.error == DegenerateWindow
    ensures r.Ok? ==> |r.value| == |frame|
  {
    if WindowLow(centre, width) == WindowHigh(centre, width) then Err(DegenerateWindow)
    else Ok(seq(|frame|, i requires 0 <= i < |frame| => WindowSample(frame[i], centre, width, intercept, slope)))
  }

  /** The window's bounds coincide exactly when the width is 0 or 1. */
  lemma DegenerateIffNarrow(centre: int, width: int)
    ensures WindowLow(centre, width) == WindowHigh(centre, width) <==> width == 0 || width == 1
    ensures WindowLow(centre, width) < WindowHigh(centre, width) <==> width >= 2
  {
  }

  /** After the clamp every value lies within the window `[lo, hi]`. */
  lemma ClampedWithinWindow(x: real, centre: int, width: int)
    requires width >= 0
    ensures WindowLow(centre, width) as real <= Clamped(x, WindowLow(centre, width) as real, WindowHigh(centre, width) as real)
                                             <= WindowHigh(centre, width) as real
  {
  }

  lemma ScaledWithinRange(c: real, lo: real, hi: real)
    requires lo < hi && lo <= c <= hi
    ensures 0.0 <= (c - lo) / (hi - lo) * 255.0 <= 255.0
  {
    var d := hi - lo;
    var q := (c - lo) / d;
    assert (q - 1.0) * d == (c - lo) - d;
  }

  lemma DivSelf(d: real)
    requires d != 0.0
    ensures d / d * 255.0 == 255.0
  {
    assert d / d == 1.0;
  }

  lemma ScaleMonotone(x: real, y: real, d: real)
    requires x <= y && d > 0.0
    ensures x / d * 255.0 <= y / d * 255.0
  {
    var qx := x / d;
    var qy := y / d;
    assert (qy - qx) * d == y - x;
  }

  /** Samples at or below the window's low bound map to 0, samples at or
      above its high bound map to 255. */
  lemma WindowSampleSaturates(v: int, centre: int, width: int, intercept: real, slope: real)
    requires WindowLow(centre, width) < WindowHigh(centre, width)
    ensures Rescaled(v, intercept, slope) <= WindowLow(centre, width) as real ==>
              WindowSample(v, centre, width, intercept, slope) == 0
    ensures Rescaled(v, intercept, slope) >= WindowHigh(centre, width) as real ==>
              WindowSample(v, centre, width, intercept, slope) == 255
  {
    var lo := WindowLow(centre, width) as real;
    var hi := WindowHigh(centre, width) as real;
    if Rescaled(v, intercept, slope) >= hi {
      DivSelf(hi - lo);
    }
  }

  lemma RescaledMonotone(a: int, b: int, intercept: real, slope: real)
    requires slope > 0.0 && a <= b
    ensures Rescaled(a, intercept, slope) <= Rescaled(b, intercept, slope)
  {
    assert Rescaled(b, intercept, slope) - Rescaled(a, intercept, slope) == (b - a) as real * slope;
  }

  lemma ClampedMonotone(x: real, y: real, lo: real, hi: real)
    requires x <= y
    ensures Clamped(x, lo, hi) <= Clamped(y, lo, hi)
  {
  }

  /** For a positive slope the transform preserves the order of samples. */
  lemma WindowSampleMonotone(a: int, b: int, centre: int, width: int, intercept: real, slope: real)
    requires WindowLow(centre, width) != WindowHigh(centre, width)
    requires slope > 0.0 && a <= b
    ensures WindowSample(a, centre, width, intercept, slope) <= WindowSample(b, centre, width, intercept, slope)
  {
    var lo := WindowLow(centre, width) as real;
    var hi := WindowHigh(centre, width) as real;
    var ra := Rescaled(a, intercept, slope);
    var rb := Rescaled(b, intercept, slope);
    RescaledMonotone(a, b, intercept, slope);
    var ca := Clamped(ra, lo, hi);
    var cb := Clamped(rb, lo, hi);
    ClampedMonotone(ra, rb, lo, hi);
    if lo < hi {
      ScaleMonotone(ca - lo, cb - lo, hi - lo);
      assert Scaled(ca, lo, hi) <= Scaled(cb, lo, hi);
    }
  }

  /** The worked example: centre 50, width 100 (window [0, 100]), intercept
      0 and slope 1 send -100, 0, 50, 200 to 0, 0, 127, 255. */
  lemma WindowExample()
    ensures WindowFrame([-100, 0, 50, 200], 50, 100, 0.0, 1.0) == Ok([0, 0, 127, 255])
  {
    var r := WindowFrame([-100, 0, 50, 200], 50, 100, 0.0, 1.0);
    assert WindowSample(50, 50, 100, 0.0, 1.0) == 127 by {
      assert (50.0 - 0.0) / (100.0 - 0.0) * 255.0 == 127.5;
    }
    assert r.value == [0, 0, 127, 255];
  }

  /** The first mask, applied in place. */
  method RaiseBelow(a: array<real>, lo: real)
    modifies a
    ensures forall i :: 0 <= i < a.Length ==> a[i] == RaisedTo(old(a[i]), lo)
  {
    var i := 0;
    while i < a.Length
      invariant 0 <= i <= a.Length
      invariant forall k :: 0 <= k < i ==> a[k] == RaisedTo(old(a[k]), lo)
      invariant forall k :: i <= k < a.Length ==> a[k] == old(a[k])
    {
      if a[i] < lo {
        a[i] := lo;
      }
      i := i + 1;
    }
  }

  /** The second mask, applied in place. */
  method LowerAbove(a: array<real>, hi: real)
    modifies a
    ensures forall i :: 0 <= i < a.Length ==> a[i] == LoweredTo(old(a[i]), hi)
  {
    var i := 0;
    while i < a.Length
      invariant 0 <= i <= a.Length
      invariant forall k :: 0 <= k < i ==> a[k] == LoweredTo(old(a[k]), hi)
      invariant forall k :: i <= k < a.Length ==> a[k] == old(a[k])
    {
      if a[i] > hi {
        a[i] := hi;
      }
      i := i + 1;
    }
  }

  /** The windowing routine: rescales into a fresh buffer, clamps that
      buffer in place with the two masks, then maps it to bytes. */
  method WindowImage(img: Frame, centre: int, width: int, intercept: real, slope: real)
    returns (r: Result<Frame>)
    ensures r == WindowFrame(img, centre, width, intercept, slope)
  {
    var buf := new real[|img|](i requires 0 <= i < |img| => Rescaled(img[i], intercept, slope));
    var lo := WindowLow(centre, width);
    var hi := WindowHigh(centre, width);
    RaiseBelow(buf, lo as real);
    LowerAbove(buf, hi as real);
    if lo == hi {
      return Err(DegenerateWindow);
    }
    assert forall k :: 0 <= k < buf.Length ==>
      buf[k] == Clamped(Rescaled(img[k], intercept, slope), lo as real, hi as real);
    var out: Frame := [];
    var i := 0;
    while i < buf.Length
      invariant 0 <= i <= buf.Length == |img|
      invariant forall k :: 0 <= k < buf.Length ==>
        buf[k] == Clamped(Rescaled(img[k], intercept, slope), lo as real, hi as real)
      invariant |out| == i
      invariant forall k :: 0 <= k < i ==> out[k] == WindowSample(img[k], centre, width, intercept, slope)
    {
      out := out + [((buf[i] - lo as real) / (hi as real - lo as real) * 255.0).Floor];
      i := i + 1;
    }
    assert out == WindowFrame(img, centre, width, intercept, slope).value;
    r := Ok(out);
  }
}
