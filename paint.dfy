// The arithmetic `paintEvent` (arbitrarywavwidget.cpp) does before it draws:
// the chain of S-curves through the anchors in cubic mode, the control
// points of the Bezier segments in Bezier mode, and the spacing of the grid.

module Paint {
  import opened Numerics
  import opened CPoints
  import opened Mapper
  import opened Curve

  // Cubic mode: one S-curve per pair of neighbouring anchors.

  /** The argument tuple of one `doCurve` call. */
  datatype Span = Span(lx: int, ly: int, rx: int, ry: int)

  /** The pixel position of every anchor, in list order. */
  function AnchorPixels(v: View, pts: seq<Anchor>): (p: seq<(int, int)>)
    requires NonDegenerate(v)
    ensures |p| == |pts|
    ensures forall i :: 0 <= i < |pts| ==> p[i] == (PixelX(v, pts[i].x), PixelY(v, pts[i].y))
  {
    seq(|pts|, i requires 0 <= i < |pts| => (PixelX(v, pts[i].x), PixelY(v, pts[i].y)))
  }

  /** The curves cubic mode draws: one from each anchor to the next, then,
      when the last right end (0 if there was no pair) is left of the
      mirror edge, a level one from the last anchor to the widget's right
      border. */
  function Spans(v: View, pts: seq<Anchor>): seq<Span>
    requires NonDegenerate(v) && |pts| >= 1
  {
    var p := AnchorPixels(v, pts);
    var inner := seq(|pts| - 1, i requires 0 <= i < |pts| - 1 => Span(p[i].0, p[i].1, p[i + 1].0, p[i + 1].1));
    var last := p[|p| - 1];
    var rightEnd := if |pts| == 1 then 0 else last.0;
    if rightEnd < PixelX(v, v.mirrorRadius) then inner + [Span(last.0, last.1, v.width, last.1)] else inner
  }

  /** Every curve is at least two columns wide or wide the other way, so
      that `doCurve` does not divide by zero. */
  predicate Drawable(spans: seq<Span>)
  {
    forall i :: 0 <= i < |spans| ==> HalfDist(spans[i].lx, spans[i].rx) != 0
  }

  /** The draw commands of the curves, in order. */
  function Trace(spans: seq<Span>): seq<DrawCmd>
    requires Drawable(spans)
  {
    if |spans| == 0 then []
    else
      var sp := spans[|spans| - 1];
      Trace(spans[..|spans| - 1]) + Polyline(Samples(sp.lx, sp.ly, sp.rx, sp.ry))
  }

  /** The curves form one chain from the first anchor: each starts where
      the one before ended, the inner ones end at the anchors, and there is
      one per pair of anchors plus possibly the tail. */
  lemma SpansChain(v: View, pts: seq<Anchor>)
    requires NonDegenerate(v) && |pts| >= 1
    ensures var r := Spans(v, pts);
      |r| == |pts| - 1 || |r| == |pts|
    ensures var r := Spans(v, pts);
      |r| > 0 ==> (r[0].lx, r[0].ly) == AnchorPixels(v, pts)[0]
    ensures var r := Spans(v, pts);
      forall i :: 0 <= i < |r| - 1 ==> (r[i].rx, r[i].ry) == (r[i + 1].lx, r[i + 1].ly)
    ensures var r := Spans(v, pts);
      forall i :: 0 <= i < |pts| - 1 ==> (r[i].rx, r[i].ry) == AnchorPixels(v, pts)[i + 1]
  {
  }

  /** The tail, when there is one, runs level from the last anchor to the
      right border, so every sample of it lies on that anchor's row. */
  lemma TailIsLevel(v: View, pts: seq<Anchor>, ix: int)
    requires NonDegenerate(v) && |pts| >= 1
    requires |Spans(v, pts)| == |pts|
    ensures var t := Spans(v, pts)[|pts| - 1];
      t.ly == t.ry == PixelY(v, pts[|pts| - 1].y) && t.lx == PixelX(v, pts[|pts| - 1].x) && t.rx == v.width
    ensures var t := Spans(v, pts)[|pts| - 1];
      HalfDist(t.lx, t.rx) != 0 ==> CurveY(t.lx, t.ly, t.rx, t.ry, ix) == Trunc(t.ly as real + 0.5)
  {
    var t := Spans(v, pts)[|pts| - 1];
    if HalfDist(t.lx, t.rx) != 0 {
      CurveFlat(t.lx, t.ly, t.rx, ix);
    }
  }

  /** The trace of the first `k + 1` curves extends that of the first `k`
      by the curve `k`. */
  lemma TraceStep(spans: seq<Span>, k: int)
    requires Drawable(spans) && 0 <= k < |spans|
    ensures Drawable(spans[..k]) && Drawable(spans[..k + 1])
    ensures Trace(spans[..k + 1])
      == Trace(spans[..k]) + Polyline(Samples(spans[k].lx, spans[k].ly, spans[k].rx, spans[k].ry))
  {
    assert spans[..k + 1][..k] == spans[..k];
  }

  /** Cubic-mode drawing: walk the anchors left to right, drawing an
      S-curve from each to the next, then the level tail if the last curve
      stopped short of the mirror edge. */
  method CubicChain(v: View, pts: seq<Anchor>) returns (cmds: seq<DrawCmd>)
    requires NonDegenerate(v) && |pts| >= 1 && Drawable(Spans(v, pts))
    ensures cmds == Trace(Spans(v, pts))
  {
    ghost var spans := Spans(v, pts);
    ghost var p := AnchorPixels(v, pts);
    var leftX := PixelX(v, pts[0].x);
    var leftY := PixelY(v, pts[0].y);
    var rightX, rightY := 0, 0;
    cmds := [];
    var i := 1;
    while i < |pts|
      invariant 1 <= i <= |pts|
      invariant (leftX, leftY) == p[i - 1]
      invariant rightX == if i == 1 then 0 else leftX
      invariant cmds == Trace(spans[..i - 1])
    {
      rightX := PixelX(v, pts[i].x);
      rightY := PixelY(v, pts[i].y);
      assert spans[i - 1] == Span(leftX, leftY, rightX, rightY);
      TraceStep(spans, i - 1);
      var c := DoCurve(leftX, leftY, rightX, rightY);
      cmds := cmds + c;
      leftX, leftY := rightX, rightY;
      i := i + 1;
    }
    if rightX < PixelX(v, v.mirrorRadius) {
      assert spans[|pts| - 1] == Span(leftX, leftY, v.width, leftY);
      TraceStep(spans, |pts| - 1);
      var c := DoCurve(leftX, leftY, v.width, leftY);
      cmds := cmds + c;
      assert spans[..|pts|] == spans;
    } else {
      assert spans[..|pts| - 1] == spans;
    }
  }

  // Bezier mode: the four control points of each segment.

  /** A cubic Bezier segment: from `p1`, pulled toward `p2` and `p3`, to `p4`. */
  datatype Controls = Controls(p1: (real, real), p2: (real, real), p3: (real, real), p4: (real, real))

  /** The segment between anchors `i - 1` and `i`: from the first anchor
      along its right handle, and into the second along its left handle. */
  function SegmentControls(a: Anchor, b: Anchor): (c: Controls)
    ensures c.p1 == (a.x, a.y) && c.p4 == (b.x, b.y)
    ensures c.p2 == (a.rx, a.ry) && c.p3 == (b.lx, b.ly)
  {
    Controls((a.x, a.y), (a.rx, a.ry), (b.lx, b.ly), (b.x, b.y))
  }

  /** The segments of the whole curve, one per pair of neighbouring anchors. */
  function BezierSegments(pts: seq<Anchor>): (r: seq<Controls>)
    ensures |r| == if |pts| == 0 then 0 else |pts| - 1
  {
    if |pts| <= 1 then []
    else seq(|pts| - 1, i requires 0 <= i < |pts| - 1 => SegmentControls(pts[i], pts[i + 1]))
  }

  /** Three points on one line. */
  predicate OnOneLine(a: (real, real), b: (real, real), c: (real, real))
  {
    (c.1 - b.1) * (b.0 - a.0) == (b.1 - a.1) * (c.0 - b.0)
  }

  /** Neighbouring segments meet at their shared anchor, and each runs
      between two neighbouring anchors; the left handle of the first anchor
      and the right handle of the last are not used. */
  lemma BezierJoins(pts: seq<Anchor>)
    ensures var r := BezierSegments(pts);
      forall i :: 0 <= i < |r| - 1 ==> r[i].p4 == r[i + 1].p1
    ensures var r := BezierSegments(pts);
      forall i :: 0 <= i < |r| ==> r[i].p1 == (pts[i].x, pts[i].y) && r[i].p4 == (pts[i + 1].x, pts[i + 1].y)
  {
  }

  /** Where an inner anchor's handles are collinear with it (as `setLeft`
      and `setRight` leave them) the curve passes through it without a
      corner: the incoming and outgoing control points lie on one line with
      it. */
  lemma BezierSmooth(pts: seq<Anchor>, i: int)
    requires 0 <= i < |pts| - 2 && Collinear(pts[i + 1])
    ensures var r := BezierSegments(pts);
      OnOneLine(r[i].p3, r[i].p4, r[i + 1].p2)
  {
    var r := BezierSegments(pts);
    var a := pts[i + 1];
    assert r[i].p3 == (a.lx, a.ly) && r[i].p4 == (a.x, a.y) && r[i + 1].p2 == (a.rx, a.ry);
  }

  /** Bezier-mode drawing, up to the evaluation of each segment: the loop
      that picks the four control points of every segment. */
  method BezierChain(pts: seq<Anchor>) returns (segs: seq<Controls>)
    ensures segs == BezierSegments(pts)
  {
    segs := [];
    var i := 1;
    while i < |pts|
      invariant 1 <= i <= |pts| || (|pts| == 0 && i == 1)
      invariant |segs| == i - 1
      invariant forall k :: 0 <= k < i - 1 ==> segs[k] == SegmentControls(pts[k], pts[k + 1])
    {
      var p1 := pts[i - 1];
      var p4 := pts[i];
      segs := segs + [Controls((p1.x, p1.y), (p1.rx, p1.ry), (p4.lx, p4.ly), (p4.x, p4.y))];
      i := i + 1;
    }
  }

  // The grid.

  /** Heights between horizontal grid lines: an eighth of a wave, a
      quarter once the scale exceeds 6 eighths, a whole wave once it exceeds
      12 eighths. */
  function VerticalSpacing(waveHeight: real): real
  {
    if waveHeight / 0.125 > 12.0 then 1.0
    else if waveHeight / 0.125 > 6.0 then 0.25
    else 0.125
  }

  /** A taller scale never gets denser lines, and up to 1.5 waves there are
      at most six lines above the axis (and six below). */
  lemma VerticalSpacingBounds(w1: real, w2: real)
    requires w1 <= w2
    ensures VerticalSpacing(w1) <= VerticalSpacing(w2)
    ensures 0.125 <= VerticalSpacing(w1) <= 1.0
    ensures w1 <= 1.5 ==> w1 <= 6.0 * VerticalSpacing(w1)
    ensures w1 > 1.5 <==> VerticalSpacing(w1) == 1.0
  {
  }

  /** The length units the editor labels its radius axis in. */
  datatype LengthUnit = Inches | Centimetres | Millimetres

  /** The base distance in mm between vertical grid lines: an inch, or a
      centimetre for both metric units. */
  function UnitSpacing(u: LengthUnit): (r: real)
    ensures r > 0.0
    ensures u == Inches <==> r == 25.4
  {
    match u
    case Inches => 25.4
    case Centimetres => 10.0
    case Millimetres => 10.0
  }

  /** The pixels the code asks for between vertical grid lines. */
  const MinGridGap: int := 150

  /** The pixel column of the `c`-th multiple of the spacing `sp`. */
  function GridColumn(v: View, sp: real, c: int): int
    requires NonDegenerate(v)
  {
    PixelX(v, sp * c as real)
  }

  /** The loop that thins the vertical lines stops at multiple `count` of
      the base spacing `sp` with this test: the pixel column of `sp * count`
      (counted from the widget's left border) reaches 150. */
  predicate StopsAsWritten(v: View, sp: real, count: int)
    requires NonDegenerate(v)
  {
    count >= 1 && GridColumn(v, sp, count) >= MinGridGap &&
    forall c :: 1 <= c < count ==> GridColumn(v, sp, c) < MinGridGap
  }

  /** The test the loop's comment describes: `sp * count` lies 150 pixels
      or more right of radius 0, i.e. of the previous grid line. */
  predicate StopsAtGap(v: View, sp: real, count: int)
    requires NonDegenerate(v)
  {
    count >= 1 && GridColumn(v, sp, count) - v.graphLeft >= MinGridGap &&
    forall c :: 1 <= c < count ==> GridColumn(v, sp, c) - v.graphLeft < MinGridGap
  }

  /** The layouts where the loop terminates: radius and graph width positive
      and the graph right of column 0. */
  predicate GridLayout(v: View, sp: real)
  {
    NonDegenerate(v) && v.mirrorRadius > 0.0 && v.posEdge > v.graphLeft >= 0 && sp > 0.0
  }

  /** A multiple of the spacing beyond which the column is always 150
      pixels or more right of radius 0. */
  function GridBound(v: View, sp: real): (n: int)
    requires GridLayout(v, sp)
    ensures n >= 1
  {
    GridQuotient(v, sp).Floor + 1
  }

  /** How many spacings fit in 150 pixels, as a real number. */
  function GridQuotient(v: View, sp: real): (q: real)
    requires GridLayout(v, sp)
    ensures q > 0.0
  {
    PositiveSpacing(sp, v.posEdge - v.graphLeft);
    MinGridGap as real * v.mirrorRadius / (sp * (v.posEdge - v.graphLeft) as real)
  }

  /** A number above `n / k` (for positive `k`) times `k` is above `n`. */
  lemma AboveQuotient(c: real, n: real, k: real)
    requires k > 0.0 && c > n / k
    ensures c * k > n
  {
    assert (n / k) * k == n;
    Scale(k, n / k, c);
  }

  /** A number above `n * r` (for positive `r`) divided by `r` is above `n`. */
  lemma QuotientAbove(m: real, n: real, r: real)
    requires r > 0.0 && m > n * r
    ensures m / r > n
  {
    assert (m / r) * r == m;
    if m / r <= n {
      Scale(r, m / r, n);
    }
  }

  /** The offset from radius 0 of the column of `sp * c` mm, before
      truncation. */
  lemma ScaledColumn(sp: real, c: real, radius: real, span: real)
    requires radius != 0.0
    ensures ((sp * c) / radius) * span == c * (sp * span) / radius
  {
  }

  /** From `GridBound` on, the column offset of `sp * c` mm is 150 pixels
      or more, before truncation. */
  lemma OffsetBeyondBound(sp: real, c: int, radius: real, span: real)
    requires sp > 0.0 && radius > 0.0 && span > 0.0
    requires c as real > MinGridGap as real * radius / (sp * span)
    ensures ((sp * c as real) / radius) * span >= MinGridGap as real
  {
    var k := sp * span;
    assert k > 0.0;
    var n := MinGridGap as real * radius;
    AboveQuotient(c as real, n, k);
    QuotientAbove(c as real * k, MinGridGap as real, radius);
    ScaledColumn(sp, c as real, radius, span);
  }

  /** An offset of 150 pixels or more, added to the whole column `gl`,
      truncates to a column 150 or more right of `gl`. */
  lemma TruncAtLeast(x: real, gl: int)
    requires x >= MinGridGap as real && gl >= 0
    ensures Trunc(x + gl as real) - gl >= MinGridGap
  {
    TruncMonotone((MinGridGap + gl) as real, x + gl as real);
    TruncOfInt(MinGridGap + gl);
  }

  /** From `GridBound` on, the gap from radius 0 is at least 150 pixels. */
  lemma BeyondGridBound(v: View, sp: real, c: int)
    requires GridLayout(v, sp) && c >= GridBound(v, sp)
    ensures GridColumn(v, sp, c) - v.graphLeft >= MinGridGap
  {
    var span := (v.posEdge - v.graphLeft) as real;
    var q := GridQuotient(v, sp);
    assert c as real > q;
    OffsetBeyondBound(sp, c, v.mirrorRadius, span);
    TruncAtLeast(((sp * c as real) / v.mirrorRadius) * span, v.graphLeft);
  }

  /** The spacing loop as the source writes it: count up from 1 until the
      column of `spacing * count` reaches 150. */
  method GridCountAsWritten(v: View, spacing: real) returns (count: int)
    requires GridLayout(v, spacing)
    ensures StopsAsWritten(v, spacing, count)
  {
    ghost var bound := GridBound(v, spacing);
    var pixDist := PixelX(v, spacing);
    assert spacing * 1 as real == spacing;
    count := 1;
    while pixDist < MinGridGap
      invariant 1 <= count <= bound
      invariant pixDist == GridColumn(v, spacing, count)
      invariant forall c :: 1 <= c < count ==> GridColumn(v, spacing, c) < MinGridGap
      decreases bound - count
    {
      if count == bound {
        BeyondGridBound(v, spacing, count);
        assert false;
      }
      count := count + 1;
      pixDist := PixelX(v, spacing * count as real);
    }
  }

  /** The spacing loop with the test its comment describes: count up from 1
      until `spacing * count` lies 150 pixels right of radius 0. */
  method GridCount(v: View, spacing: real) returns (count: int)
    requires GridLayout(v, spacing)
    ensures StopsAtGap(v, spacing, count)
  {
    ghost var bound := GridBound(v, spacing);
    var pixDist := PixelX(v, spacing) - v.graphLeft;
    assert spacing * 1 as real == spacing;
    count := 1;
    while pixDist < MinGridGap
      invariant 1 <= count <= bound
      invariant pixDist == GridColumn(v, spacing, count) - v.graphLeft
      invariant forall c :: 1 <= c < count ==> GridColumn(v, spacing, c) - v.graphLeft < MinGridGap
      decreases bound - count
    {
      if count == bound {
        BeyondGridBound(v, spacing, count);
        assert false;
      }
      count := count + 1;
      pixDist := PixelX(v, spacing * count as real) - v.graphLeft;
    }
  }

  /** Truncating a non-negative value after adding a whole number of pixels
      moves the result by that number. */
  lemma TruncShift(x: real, n: int)
    requires x >= 0.0 && n >= 0
    ensures Trunc(x + n as real) == Trunc(x) + n
  {
  }

  /** The column offsets, before truncation, of the grid lines `j` and
      `j + 1` for the spacing `s`: both non-negative, and they differ by the
      positive offset of one spacing. */
  lemma ColumnOffsets(j: nat, s: real, radius: real, span: real)
    requires radius > 0.0 && span > 0.0 && s > 0.0
    ensures (s / radius) * span > 0.0
    ensures ((j as real * s) / radius) * span >= 0.0
    ensures (((j + 1) as real * s) / radius) * span == ((j as real * s) / radius) * span + (s / radius) * span
  {
    assert s / radius > 0.0;
    assert j as real * s >= 0.0;
    assert (j as real * s) / radius >= 0.0;
    assert (j + 1) as real * s == j as real * s + s;
    assert ((j + 1) as real * s) / radius == (j as real * s) / radius + s / radius;
  }

  /** The column of vertical grid line `j` when the lines are `s` mm apart. */
  function GridLine(v: View, s: real, j: int): int
    requires NonDegenerate(v)
  {
    PixelX(v, j as real * s)
  }

  /** A positive multiple of a positive spacing is positive. */
  lemma PositiveSpacing(sp: real, count: int)
    requires sp > 0.0 && count >= 1
    ensures sp * count as real > 0.0
  {
  }

  /** Lines `j` and `j + 1` of a grid with spacing `s` are at least 150
      pixels apart once the first line is 150 pixels right of radius 0. */
  lemma LinesApart(v: View, s: real, j: nat)
    requires NonDegenerate(v) && v.mirrorRadius > 0.0 && v.posEdge > v.graphLeft >= 0 && s > 0.0
    requires PixelX(v, s) - v.graphLeft >= MinGridGap
    ensures GridLine(v, s, j + 1) - GridLine(v, s, j) >= MinGridGap
  {
    var span := (v.posEdge - v.graphLeft) as real;
    var gl := v.graphLeft;
    var a := ((j as real * s) / v.mirrorRadius) * span;
    var b := (s / v.mirrorRadius) * span;
    var next := (((j + 1) as real * s) / v.mirrorRadius) * span;
    ColumnOffsets(j, s, v.mirrorRadius, span);
    assert PixelX(v, s) == Trunc(b + gl as real);
    GapColumns(a, b, next, gl);
    assert GridLine(v, s, j) == Trunc(a + gl as real);
    assert GridLine(v, s, j + 1) == Trunc(next + gl as real);
  }

  /** The vertical grid lines are drawn at `0, S, 2S, ...` with `S` the
      thinned spacing. With the intended test every two neighbouring lines
      are at least 150 pixels apart. */
  lemma GridLinesApart(v: View, sp: real, count: int, j: nat)
    requires GridLayout(v, sp) && count >= 1 && GridColumn(v, sp, count) - v.graphLeft >= MinGridGap
    ensures GridLine(v, sp * count as real, j + 1) - GridLine(v, sp * count as real, j) >= MinGridGap
  {
    var s := sp * count as real;
    PositiveSpacing(sp, count);
    assert PixelX(v, s) == GridColumn(v, sp, count);
    LinesApart(v, s, j);
  }

  /** The truncation arithmetic of `GridLinesApart`: if the first gap `b`
      truncates to at least 150 pixels, adding it to any non-negative offset
      `a` moves the truncated column by at least 150. */
  lemma GapColumns(a: real, b: real, c: real, gl: int)
    requires a >= 0.0 && b > 0.0 && c == a + b && gl >= 0
    requires Trunc(b + gl as real) - gl >= MinGridGap
    ensures Trunc(c + gl as real) - Trunc(a + gl as real) >= MinGridGap
  {
    TruncShift(b, gl);
    assert b >= MinGridGap as real;
    TruncShift(a, gl);
    TruncShift(c, gl);
    TruncMonotone(a + MinGridGap as real, c);
    TruncShift(a, MinGridGap);
  }

  /** A widget 1414 pixels wide (graph from column 45 to 1345) showing a
      300 mm radius in inches. */
  function InchView(): (v: View)
    ensures NonDegenerate(v)
  {
    View(45, 378, 189, 1345, 1414, 300.0, 0.3)
  }

  /** The columns of radius 0, one inch and two inches in that widget. */
  lemma InchColumns()
    ensures PixelX(InchView(), 0.0) == 45
    ensures GridColumn(InchView(), 25.4, 1) == 155
    ensures GridColumn(InchView(), 25.4, 2) == 265
  {
    assert (25.4 / 300.0) * 1300.0 + 45.0 == 33020.0 / 300.0 + 45.0;
    assert (50.8 / 300.0) * 1300.0 + 45.0 == 66040.0 / 300.0 + 45.0;
  }

  /** With the test as written, that widget keeps one line per inch: the
      loop stops at once because the inch line's column is 155, yet that
      line is only 110 pixels right of the one at radius 0. */
  lemma GridAsWrittenTooDense(count: int)
    requires StopsAsWritten(InchView(), 25.4, count)
    ensures count == 1
    ensures GridColumn(InchView(), 25.4, count) - PixelX(InchView(), 0.0) == 110
  {
    InchColumns();
  }

  /** With the intended test the same widget spaces the lines two inches
      apart. */
  lemma GridAtGapExample(count: int)
    requires StopsAtGap(InchView(), 25.4, count)
    ensures count == 2
  {
    InchColumns();
  }
}
