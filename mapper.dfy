// The coordinate mapper of the curve editor (arbitrarywavwidget.cpp,
// `transx`, `transy` and `transRatio`): physical units (mm along the
// radius, waves of height) to pixels and back.

module Mapper {
  import opened Numerics

  /** The layout values the editor keeps (set on resize) and its two scales:
      `mirrorRadius` (mm at the right edge of the graph) and `waveHeight`
      (waves at the top of the graph). */
  datatype View = View(
    graphLeft: int,      // pixel column of radius 0
    graphHeight: int,    // pixel rows used by the graph
    posY0: int,          // pixel row of height 0
    posEdge: int,        // pixel column of the mirror edge
    width: int,          // widget width in pixels
    mirrorRadius: real,
    waveHeight: real)

  /** The maps divide by these spans and scales; the editor must not be
      asked to map anything before they are non-zero. */
  predicate NonDegenerate(v: View)
  {
    v.posEdge != v.graphLeft && v.graphHeight != v.posY0 &&
    v.mirrorRadius != 0.0 && v.waveHeight != 0.0
  }

  /** `transx(double r)`: mm to pixel column, truncated toward zero. */
  function PixelX(v: View, r: real): int
    requires NonDegenerate(v)
  {
    Trunc((r / v.mirrorRadius) * (v.posEdge - v.graphLeft) as real + v.graphLeft as real)
  }

  /** `transy(double y)`: waves to pixel row (rows grow downwards),
      truncated toward zero. */
  function PixelY(v: View, y: real): int
    requires NonDegenerate(v)
  {
    Trunc(-y / v.waveHeight * (v.graphHeight - v.posY0) as real + v.posY0 as real)
  }

  /** `transx(int x)`: pixel column to mm. */
  function MmX(v: View, ix: int): real
    requires NonDegenerate(v)
  {
    (ix - v.graphLeft) as real * v.mirrorRadius / (v.posEdge - v.graphLeft) as real
  }

  /** `transy(int y)`: pixel row to waves. */
  function WaveY(v: View, iy: int): real
    requires NonDegenerate(v)
  {
    (iy - v.posY0) as real * (-v.waveHeight) / (v.graphHeight - v.posY0) as real
  }

  /** `transRatio()`: waves per pixel divided by mm per pixel. */
  function TransRatio(v: View): (r: real)
    requires NonDegenerate(v)
    ensures r > 0.0
  {
    var wavesPerPixel := v.waveHeight / (v.graphHeight - v.posY0) as real;
    var mmPerPixel := v.mirrorRadius / (v.posEdge - v.graphLeft) as real;
    assert wavesPerPixel != 0.0 && mmPerPixel != 0.0;
    AbsR(wavesPerPixel / mmPerPixel)
  }

  /** The fixed points of the maps: radius 0 is at `graphLeft`, the mirror
      edge at `posEdge`, and height 0 at `posY0`, in both directions. */
  lemma MapEnds(v: View)
    requires NonDegenerate(v)
    ensures PixelX(v, 0.0) == v.graphLeft && PixelX(v, v.mirrorRadius) == v.posEdge
    ensures PixelY(v, 0.0) == v.posY0
    ensures MmX(v, v.graphLeft) == 0.0 && MmX(v, v.posEdge) == v.mirrorRadius
    ensures WaveY(v, v.posY0) == 0.0
  {
    TruncOfInt(v.graphLeft);
    TruncOfInt(v.posEdge);
    TruncOfInt(v.posY0);
    assert (v.mirrorRadius / v.mirrorRadius) * (v.posEdge - v.graphLeft) as real + v.graphLeft as real
        == v.posEdge as real;
  }

  /** In exact arithmetic, mapping a pixel column to mm and back gives the
      same column. */
  lemma PixelXOfMmX(v: View, ix: int)
    requires NonDegenerate(v)
    ensures PixelX(v, MmX(v, ix)) == ix
  {
    var span := (v.posEdge - v.graphLeft) as real;
    var r := MmX(v, ix);
    assert r / v.mirrorRadius == (ix - v.graphLeft) as real / span;
    assert (r / v.mirrorRadius) * span == (ix - v.graphLeft) as real;
    TruncOfInt(ix);
  }

  /** In exact arithmetic, mapping a pixel row to waves and back gives the
      same row. */
  lemma PixelYOfWaveY(v: View, iy: int)
    requires NonDegenerate(v)
    ensures PixelY(v, WaveY(v, iy)) == iy
  {
    var span := (v.graphHeight - v.posY0) as real;
    var y := WaveY(v, iy);
    assert -y / v.waveHeight == (iy - v.posY0) as real / span;
    assert -y / v.waveHeight * span == (iy - v.posY0) as real;
    TruncOfInt(iy);
  }

  /** `n * b / c` read as one step per pixel: scaling distributes over a
      unit step. */
  lemma ScaledStep(n: int, b: real, c: real)
    requires c != 0.0
    ensures (n + 1) as real * b / c - n as real * b / c == b / c
  {
    assert (n + 1) as real * b == n as real * b + b;
  }

  /** Undoing the scale of `transx(double)` in exact arithmetic. */
  lemma UnscaleX(r: real, radius: real, span: real, left: real)
    requires radius != 0.0 && span != 0.0
    ensures ((r / radius) * span + left - left) * (radius / span) == r
  {
    calc {
      ((r / radius) * span + left - left) * (radius / span);
      ((r / radius) * span) * (radius / span);
      (r / radius) * radius * (span / span);
      r;
    }
  }

  /** A factor of size below one shrinks a non-zero quantity. */
  lemma ShrinkByFraction(a: real, k: real)
    requires -1.0 < a < 1.0 && k != 0.0
    ensures AbsR(a * k) < AbsR(k)
  {
    if k > 0.0 {
      assert -k < a * k < k;
    } else {
      assert k < a * k < -k;
    }
  }

  /** Mapping mm to a pixel column and back loses less than one pixel's
      worth of mm (the truncation of `transx(double)`). */
  lemma MmXOfPixelX(v: View, r: real)
    requires NonDegenerate(v)
    ensures AbsR(MmX(v, PixelX(v, r)) - r) < AbsR(v.mirrorRadius / (v.posEdge - v.graphLeft) as real)
  {
    var span := (v.posEdge - v.graphLeft) as real;
    var left := v.graphLeft as real;
    var k := v.mirrorRadius / span;
    var u := (r / v.mirrorRadius) * span + left;
    var p := PixelX(v, r);
    assert -1.0 < p as real - u < 1.0;
    UnscaleX(r, v.mirrorRadius, span, left);
    assert MmX(v, p) == (p as real - left) * k;
    assert MmX(v, p) - r == (p as real - u) * k;
    ShrinkByFraction(p as real - u, k);
  }

  /** The size of a quotient is the quotient of the sizes. */
  lemma AbsOfQuotient(a: real, b: real)
    requires b != 0.0
    ensures AbsR(a / b) == AbsR(a) / AbsR(b)
  {
    var c := a / b;
    assert c * b == a;
    if c < 0.0 && b < 0.0 {
      assert AbsR(c) * AbsR(b) == (-c) * (-b);
    } else if c < 0.0 {
      assert AbsR(c) * AbsR(b) == -(c * b);
    } else if b < 0.0 {
      assert AbsR(c) * AbsR(b) == -(c * b);
    }
    assert AbsR(c) * AbsR(b) == AbsR(a);
  }

  /** One pixel column to the right is always the same number of mm. */
  lemma MmXStep(v: View, ix: int)
    requires NonDegenerate(v)
    ensures MmX(v, ix + 1) - MmX(v, ix) == v.mirrorRadius / (v.posEdge - v.graphLeft) as real
  {
    ScaledStep(ix - v.graphLeft, v.mirrorRadius, (v.posEdge - v.graphLeft) as real);
  }

  /** One pixel row down is always the same (negative) number of waves. */
  lemma WaveYStep(v: View, iy: int)
    requires NonDegenerate(v)
    ensures WaveY(v, iy + 1) - WaveY(v, iy) == -(v.waveHeight / (v.graphHeight - v.posY0) as real)
  {
    var span := (v.graphHeight - v.posY0) as real;
    ScaledStep(iy - v.posY0, -v.waveHeight, span);
    assert -v.waveHeight / span == -(v.waveHeight / span);
  }

  /** `transRatio` is the number of waves in one pixel row divided by the
      number of mm in one pixel column, taken positive. */
  lemma TransRatioIsPixelAspect(v: View, ix: int, iy: int)
    requires NonDegenerate(v)
    ensures AbsR(MmX(v, ix + 1) - MmX(v, ix)) > 0.0
    ensures TransRatio(v) == AbsR(WaveY(v, iy + 1) - WaveY(v, iy)) / AbsR(MmX(v, ix + 1) - MmX(v, ix))
  {
    var mmPerPixel := v.mirrorRadius / (v.posEdge - v.graphLeft) as real;
    var wavesPerPixel := v.waveHeight / (v.graphHeight - v.posY0) as real;
    MmXStep(v, ix);
    WaveYStep(v, iy);
    assert mmPerPixel != 0.0;
    assert AbsR(-wavesPerPixel) == AbsR(wavesPerPixel);
    AbsOfQuotient(wavesPerPixel, mmPerPixel);
  }
}
