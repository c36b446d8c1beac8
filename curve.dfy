// The drawing arithmetic of the curve editor (arbitrarywavwidget.cpp):
// the zero-slope cubic S-curve between two pixels (`doCurve`), its chaining
// through the anchors in cubic mode, the control points of the Bezier
// segments, and the spacing of the grid lines.

module Curve {
  import opened Numerics
  import opened CPoints
  import opened Mapper

  /** The painter calls `doCurve` makes. */
  datatype DrawCmd = Point(x: int, y: int) | Line(x1: int, y1: int, x2: int, y2: int)

  function Cube(t: real): real
  {
    t * t * t
  }

  /** The number of pixel columns of one half of the S-curve: C++ int
      division of the width by 2. */
  function HalfDist(lx: int, rx: int): int
  {
    HalfTrunc(rx - lx)
  }

  /** `jerk`: the cubic coefficient that makes each half climb half the
      height, `half_height / half_dist^3`. */
  function Jerk(lx: int, ly: int, rx: int, ry: int): real
    requires HalfDist(lx, rx) != 0
  {
    HalfTrunc(ry - ly) as real / Cube(HalfDist(lx, rx) as real)
  }

  /** The cubic part of the row, `jerk * t^3`, `t` columns away from the
      end it starts or arrives at. */
  function CubicTerm(lx: int, ly: int, rx: int, ry: int, t: real): real
    requires HalfDist(lx, rx) != 0
  {
    Jerk(lx, ly, rx, ry) * Cube(t)
  }

  /** The row `doCurve` draws at column `ix`: the left half rises from
      (`lx`, `ly`) as a cubic with zero slope there, the right half arrives
      at (`rx`, `ry`) the same way; `+ 0.5` and truncation make the int. */
  function CurveY(lx: int, ly: int, rx: int, ry: int, ix: int): int
    requires HalfDist(lx, rx) != 0
  {
    if ix <= lx + HalfDist(lx, rx) then RiseFrom(ly, CubicTerm(lx, ly, rx, ry, (ix - lx) as real))
    else ArriveAt(ry, CubicTerm(lx, ly, rx, ry, (rx - ix) as real))
  }

  /** A row of the left half: the start row `ly` moved by the cubic term
      `d`, rounded. */
  function RiseFrom(ly: int, d: real): int
  {
    Trunc(d + ly as real + 0.5)
  }

  /** A row of the right half: the end row `ry` moved back by the cubic
      term `d`, rounded. */
  function ArriveAt(ry: int, d: real): int
  {
    Trunc(ry as real - d + 0.5)
  }

  /** One sample per column from `lx` to `rx`, left to right (none when
      `rx < lx`). */
  function Samples(lx: int, ly: int, rx: int, ry: int): (s: seq<(int, int)>)
    requires HalfDist(lx, rx) != 0
    ensures |s| == if rx >= lx then rx - lx + 1 else 0
    ensures forall j :: 0 <= j < |s| ==> s[j].0 == lx + j
  {
    if rx < lx then []
    else seq(rx - lx + 1, j requires 0 <= j <= rx - lx => (lx + j, CurveY(lx, ly, rx, ry, lx + j)))
  }

  /** Sample `ix - lx` is column `ix` at its `CurveY` row. */
  lemma SampleAt(lx: int, ly: int, rx: int, ry: int, ix: int)
    requires HalfDist(lx, rx) != 0 && lx <= ix <= rx
    ensures Samples(lx, ly, rx, ry)[ix - lx] == (ix, CurveY(lx, ly, rx, ry, ix))
  {
  }

  /** The coefficient as `doCurve` computes it from `half_height` and
      `half_dist` in double. */
  method JerkOf(lx: int, ly: int, rx: int, ry: int) returns (jerk: real)
    requires HalfDist(lx, rx) != 0
    ensures jerk == Jerk(lx, ly, rx, ry)
  {
    var halfDist := HalfTrunc(rx - lx);
    var halfHeight := HalfTrunc(ry - ly);
    var cubed := halfDist as real * halfDist as real * halfDist as real;
    jerk := halfHeight as real / cubed;
  }

  /** The row of column `ix` in the left half, as the loop body of
      `doCurve` computes it: the cube in double, then `+ 0.5` and truncation. */
  method LeftHalfRow(lx: int, ly: int, rx: int, ry: int, jerk: real, ix: int) returns (iy: int)
    requires HalfDist(lx, rx) != 0 && jerk == Jerk(lx, ly, rx, ry) && ix <= lx + HalfDist(lx, rx)
    ensures iy == CurveY(lx, ly, rx, ry, ix)
  {
    var cubed := (ix - lx) as real;
    cubed := cubed * cubed * cubed;
    assert jerk * cubed == CubicTerm(lx, ly, rx, ry, (ix - lx) as real);
    iy := Trunc(jerk * cubed + ly as real + 0.5);
    assert iy == RiseFrom(ly, jerk * cubed);
  }

  /** The row of column `ix` in the right half of `doCurve`. */
  method RightHalfRow(lx: int, ly: int, rx: int, ry: int, jerk: real, ix: int) returns (iy: int)
    requires HalfDist(lx, rx) != 0 && jerk == Jerk(lx, ly, rx, ry) && ix > lx + HalfDist(lx, rx)
    ensures iy == CurveY(lx, ly, rx, ry, ix)
  {
    var cubed := (rx - ix) as real;
    cubed := cubed * cubed * cubed;
    assert jerk * cubed == CubicTerm(lx, ly, rx, ry, (rx - ix) as real);
    iy := Trunc(ry as real - jerk * cubed + 0.5);
    assert iy == ArriveAt(ry, jerk * cubed);
  }

  /** The command that draws sample `j`: a point for the first, otherwise a
      line from the sample before. */
  function Stroke(s: seq<(int, int)>, j: int): DrawCmd
    requires 0 <= j < |s|
  {
    if j == 0 then Point(s[0].0, s[0].1) else Line(s[j - 1].0, s[j - 1].1, s[j].0, s[j].1)
  }

  /** Where a command leaves the pen. */
  function End(c: DrawCmd): (int, int)
  {
    match c
    case Point(x, y) => (x, y)
    case Line(_, _, x2, y2) => (x2, y2)
  }

  /** The polyline through the samples: a point at the first, then each
      line starts where the previous command ended. */
  function Polyline(s: seq<(int, int)>): (r: seq<DrawCmd>)
    ensures |r| == |s|
    ensures |s| > 0 ==> r[0].Point?
    ensures forall j :: 0 <= j < |r| ==> End(r[j]) == s[j]
    ensures forall j :: 0 < j < |r| ==> r[j].Line? && (r[j].x1, r[j].y1) == End(r[j - 1])
  {
    seq(|s|, j requires 0 <= j < |s| => Stroke(s, j))
  }

  /** `doCurve`: draw the S-curve from (`lx`, `ly`) to (`rx`, `ry`) column by
      column, the left half from `lx` up to `lx + half_dist`, the right half
      from there to `rx`. The width must not halve to 0 columns (the cubic's
      coefficient divides by it). */
  method DoCurve(lx: int, ly: int, rx: int, ry: int) returns (cmds: seq<DrawCmd>)
    requires HalfDist(lx, rx) != 0
    ensures cmds == Polyline(Samples(lx, ly, rx, ry))
  {
    var halfDist := HalfTrunc(rx - lx);
    var jerk := JerkOf(lx, ly, rx, ry);
    ghost var s := Samples(lx, ly, rx, ry);
    var ixPrev, iyPrev := 0, 0;
    var first := true;
    cmds := [];
    // left half of the curve
    var ix := lx;
    while ix <= lx + halfDist
      invariant rx >= lx ==> lx <= ix <= lx + halfDist + 1
      invariant rx < lx ==> ix == lx
      invariant |cmds| == ix - lx
      invariant first <==> ix == lx
      invariant ix > lx ==> (ixPrev, iyPrev) == s[ix - lx - 1]
      invariant forall j :: 0 <= j < |cmds| ==> cmds[j] == Stroke(s, j)
    {
      var iy := LeftHalfRow(lx, ly, rx, ry, jerk, ix);
      SampleAt(lx, ly, rx, ry, ix);
      if first {
        first := false;
        cmds := cmds + [Point(ix, iy)];
      } else {
        cmds := cmds + [Line(ixPrev, iyPrev, ix, iy)];
      }
      ixPrev, iyPrev := ix, iy;
      ix := ix + 1;
    }
    // right half of the curve
    ix := lx + halfDist + 1;
    while ix <= rx
      invariant rx >= lx ==> lx + halfDist + 1 <= ix <= rx + 1 && |cmds| == ix - lx
      invariant rx < lx ==> cmds == [] && ix > rx
      invariant first <==> |cmds| == 0
      invariant |cmds| > 0 ==> (ixPrev, iyPrev) == s[|cmds| - 1]
      invariant forall j :: 0 <= j < |cmds| ==> cmds[j] == Stroke(s, j)
    {
      var iy := RightHalfRow(lx, ly, rx, ry, jerk, ix);
      SampleAt(lx, ly, rx, ry, ix);
      if first {
        first := false;
        cmds := cmds + [Point(ix, iy)];
      } else {
        cmds := cmds + [Line(ixPrev, iyPrev, ix, iy)];
      }
      ixPrev, iyPrev := ix, iy;
      ix := ix + 1;
    }
  }

  // Properties of the S-curve.

  /** The cube grows with its (non-negative) argument. */
  lemma CubeMonotone(a: real, b: real)
    requires 0.0 <= a <= b
    ensures 0.0 <= Cube(a) <= Cube(b)
  {
    assert a * a <= b * b by {
      assert a * a <= a * b <= b * b;
    }
    assert a * a * a <= b * b * b by {
      assert a * a * a <= a * a * b <= b * b * b;
    }
  }

  /** Multiplying by a fixed coefficient keeps or reverses an order, by the
      coefficient's sign. */
  lemma Scale(j: real, a: real, b: real)
    requires a <= b
    ensures j >= 0.0 ==> j * a <= j * b
    ensures j <= 0.0 ==> j * b <= j * a
  {
    assert j * b - j * a == j * (b - a);
  }

  /** The coefficient has the sign of the rise, and the cubic part covers
      exactly `half_height` over `half_dist` columns (none over none). */
  lemma TermFacts(lx: int, ly: int, rx: int, ry: int)
    requires HalfDist(lx, rx) != 0
    ensures CubicTerm(lx, ly, rx, ry, HalfDist(lx, rx) as real) == HalfTrunc(ry - ly) as real
    ensures CubicTerm(lx, ly, rx, ry, 0.0) == 0.0
    ensures rx > lx && ly <= ry ==> Jerk(lx, ly, rx, ry) >= 0.0
    ensures rx > lx && ly >= ry ==> Jerk(lx, ly, rx, ry) <= 0.0
  {
    var h := HalfDist(lx, rx) as real;
    var c := Cube(h);
    assert c != 0.0 by {
      assert h * h != 0.0;
    }
    assert Cube(0.0) == 0.0;
    if rx > lx {
      CubeMonotone(0.0, h);
      assert c > 0.0;
    }
  }

  /** Further from its end, the cubic part is larger on a rising curve and
      smaller on a falling one. */
  lemma TermMonotone(lx: int, ly: int, rx: int, ry: int, t1: real, t2: real)
    requires HalfDist(lx, rx) != 0 && rx > lx && 0.0 <= t1 <= t2
    ensures ly <= ry ==> CubicTerm(lx, ly, rx, ry, t1) <= CubicTerm(lx, ly, rx, ry, t2)
    ensures ly >= ry ==> CubicTerm(lx, ly, rx, ry, t2) <= CubicTerm(lx, ly, rx, ry, t1)
  {
    TermFacts(lx, ly, rx, ry);
    CubeMonotone(t1, t2);
    Scale(Jerk(lx, ly, rx, ry), Cube(t1), Cube(t2));
  }

  /** A larger cubic part gives a larger row in the left half and a smaller
      one in the right half (or the same, after truncation). */
  lemma RowsOrdered(y: int, d1: real, d2: real)
    requires d1 <= d2
    ensures RiseFrom(y, d1) <= RiseFrom(y, d2)
    ensures ArriveAt(y, d2) <= ArriveAt(y, d1)
  {
    TruncMonotone(d1 + y as real + 0.5, d2 + y as real + 0.5);
    TruncMonotone(y as real - d2 + 0.5, y as real - d1 + 0.5);
  }

  /** Where the cubic part is a whole number `h` of rows, the row is the end
      row moved by `h`, rounded. */
  lemma RowsAtWhole(y: int, h: int)
    ensures RiseFrom(y, h as real) == Trunc((y + h) as real + 0.5)
    ensures ArriveAt(y, h as real) == Trunc((y - h) as real + 0.5)
  {
  }

  /** Adding one half and truncating leaves a non-negative whole number
      unchanged. */
  lemma RoundWhole(n: int)
    requires n >= 0
    ensures Trunc(n as real + 0.5) == n
  {
  }

  /** `CurveY` in the left half, `t` columns after `lx`. */
  lemma CurveYLeft(lx: int, ly: int, rx: int, ry: int, ix: int, t: real)
    requires HalfDist(lx, rx) != 0 && ix <= lx + HalfDist(lx, rx) && t == (ix - lx) as real
    ensures CurveY(lx, ly, rx, ry, ix) == RiseFrom(ly, CubicTerm(lx, ly, rx, ry, t))
  {
  }

  /** `CurveY` in the right half, `t` columns before `rx`. */
  lemma CurveYRight(lx: int, ly: int, rx: int, ry: int, ix: int, t: real)
    requires HalfDist(lx, rx) != 0 && ix > lx + HalfDist(lx, rx) && t == (rx - ix) as real
    ensures CurveY(lx, ly, rx, ry, ix) == ArriveAt(ry, CubicTerm(lx, ly, rx, ry, t))
  {
  }

  /** The last column of the left half sits at the midpoint height
      `ly + half_height`. */
  lemma CurveMidpoint(lx: int, ly: int, rx: int, ry: int)
    requires HalfDist(lx, rx) != 0
    ensures CurveY(lx, ly, rx, ry, lx + HalfDist(lx, rx)) == Trunc((ly + HalfTrunc(ry - ly)) as real + 0.5)
  {
    var hd := HalfDist(lx, rx);
    TermFacts(lx, ly, rx, ry);
    CurveYLeft(lx, ly, rx, ry, lx + hd, hd as real);
    RowsAtWhole(ly, HalfTrunc(ry - ly));
  }

  /** From (0, 100) to (200, 0) the sample at column 100 is row 50. */
  lemma CurveExample()
    ensures HalfDist(0, 200) != 0
    ensures Samples(0, 100, 200, 0)[100] == (100, 50)
  {
    CurveMidpoint(0, 100, 200, 0);
    SampleAt(0, 100, 200, 0, 100);
    RoundWhole(50);
  }

  /** With at least two columns of width the curve starts at `(lx, ly)` and
      ends at `(rx, ry)` (for rows at or below the top edge, where adding one
      half and truncating is exact). */
  lemma CurveEnds(lx: int, ly: int, rx: int, ry: int)
    requires rx - lx >= 2
    ensures HalfDist(lx, rx) != 0
    ensures ly >= 0 ==> Samples(lx, ly, rx, ry)[0] == (lx, ly)
    ensures ry >= 0 ==> Samples(lx, ly, rx, ry)[rx - lx] == (rx, ry)
  {
    SampleAt(lx, ly, rx, ry, lx);
    SampleAt(lx, ly, rx, ry, rx);
    TermFacts(lx, ly, rx, ry);
    CurveYLeft(lx, ly, rx, ry, lx, 0.0);
    CurveYRight(lx, ly, rx, ry, rx, 0.0);
    RowsAtWhole(ly, 0);
    RowsAtWhole(ry, 0);
    if ly >= 0 {
      RoundWhole(ly);
    }
    if ry >= 0 {
      RoundWhole(ry);
    }
  }

  /** A level curve stays level: every row is `y` rounded. */
  lemma CurveFlat(lx: int, y: int, rx: int, ix: int)
    requires HalfDist(lx, rx) != 0
    ensures CurveY(lx, y, rx, y, ix) == Trunc(y as real + 0.5)
  {
    assert Jerk(lx, y, rx, y) == 0.0;
  }

  /** Adjacent columns inside the left half. */
  lemma LeftHalfStep(lx: int, ly: int, rx: int, ry: int, ix: int)
    requires HalfDist(lx, rx) != 0 && rx > lx && lx <= ix && ix + 1 <= lx + HalfDist(lx, rx)
    ensures ly <= ry ==> CurveY(lx, ly, rx, ry, ix) <= CurveY(lx, ly, rx, ry, ix + 1)
    ensures ly >= ry ==> CurveY(lx, ly, rx, ry, ix + 1) <= CurveY(lx, ly, rx, ry, ix)
  {
    var t1, t2 := (ix - lx) as real, (ix + 1 - lx) as real;
    var d1, d2 := CubicTerm(lx, ly, rx, ry, t1), CubicTerm(lx, ly, rx, ry, t2);
    CurveYLeft(lx, ly, rx, ry, ix, t1);
    CurveYLeft(lx, ly, rx, ry, ix + 1, t2);
    TermMonotone(lx, ly, rx, ry, t1, t2);
    if ly <= ry {
      RowsOrdered(ly, d1, d2);
    }
    if ly >= ry {
      RowsOrdered(ly, d2, d1);
    }
  }

  /** Adjacent columns inside the right half. */
  lemma RightHalfStep(lx: int, ly: int, rx: int, ry: int, ix: int)
    requires HalfDist(lx, rx) != 0 && rx > lx && lx + HalfDist(lx, rx) < ix < rx
    ensures ly <= ry ==> CurveY(lx, ly, rx, ry, ix) <= CurveY(lx, ly, rx, ry, ix + 1)
    ensures ly >= ry ==> CurveY(lx, ly, rx, ry, ix + 1) <= CurveY(lx, ly, rx, ry, ix)
  {
    var t1, t2 := (rx - (ix + 1)) as real, (rx - ix) as real;
    var d1, d2 := CubicTerm(lx, ly, rx, ry, t1), CubicTerm(lx, ly, rx, ry, t2);
    CurveYRight(lx, ly, rx, ry, ix, t2);
    CurveYRight(lx, ly, rx, ry, ix + 1, t1);
    TermMonotone(lx, ly, rx, ry, t1, t2);
    if ly <= ry {
      RowsOrdered(ry, d1, d2);
    }
    if ly >= ry {
      RowsOrdered(ry, d2, d1);
    }
  }

  /** The last column of the left half and the first of the right: the
      right half restarts no further from its end than the left half has
      come from its start, and each half covers half the rise. */
  lemma JunctionStep(lx: int, ly: int, rx: int, ry: int)
    requires rx - lx >= 2
    ensures HalfDist(lx, rx) != 0
    ensures var m := lx + HalfDist(lx, rx);
      ly <= ry ==> CurveY(lx, ly, rx, ry, m) <= CurveY(lx, ly, rx, ry, m + 1)
    ensures var m := lx + HalfDist(lx, rx);
      ly >= ry ==> CurveY(lx, ly, rx, ry, m + 1) <= CurveY(lx, ly, rx, ry, m)
  {
    var hd := HalfDist(lx, rx);
    var m := lx + hd;
    var hh := HalfTrunc(ry - ly);
    TermFacts(lx, ly, rx, ry);
    var t := (rx - (m + 1)) as real;
    assert 0.0 <= t <= hd as real;
    var dt, dm := CubicTerm(lx, ly, rx, ry, t), CubicTerm(lx, ly, rx, ry, hd as real);
    CurveYLeft(lx, ly, rx, ry, m, hd as real);
    CurveYRight(lx, ly, rx, ry, m + 1, t);
    TermMonotone(lx, ly, rx, ry, t, hd as real);
    RowsAtWhole(ly, hh);
    RowsAtWhole(ry, hh);
    if ly <= ry {
      RowsOrdered(ry, dt, dm);
      TruncMonotone((ly + hh) as real + 0.5, (ry - hh) as real + 0.5);
    }
    if ly >= ry {
      RowsOrdered(ry, dm, dt);
      TruncMonotone((ry - hh) as real + 0.5, (ly + hh) as real + 0.5);
    }
  }

  /** Between two adjacent columns the curve moves toward `ry`: it never
      falls on a rising curve and never rises on a falling one, including
      across the junction of the two halves. */
  lemma CurveStep(lx: int, ly: int, rx: int, ry: int, ix: int)
    requires rx - lx >= 2 && lx <= ix < rx
    ensures HalfDist(lx, rx) != 0
    ensures ly <= ry ==> CurveY(lx, ly, rx, ry, ix) <= CurveY(lx, ly, rx, ry, ix + 1)
    ensures ly >= ry ==> CurveY(lx, ly, rx, ry, ix + 1) <= CurveY(lx, ly, rx, ry, ix)
  {
    var hd := HalfDist(lx, rx);
    if ix + 1 <= lx + hd {
      LeftHalfStep(lx, ly, rx, ry, ix);
    } else if ix > lx + hd {
      RightHalfStep(lx, ly, rx, ry, ix);
    } else {
      JunctionStep(lx, ly, rx, ry);
    }
  }

  /** A rising curve whose ends lie at or below the top edge never drops
      below its start. */
  lemma {:induction false} CurveFromStart(lx: int, ly: int, rx: int, ry: int, ix: int)
    requires rx - lx >= 2 && lx <= ix <= rx && 0 <= ly <= ry
    ensures HalfDist(lx, rx) != 0
    ensures ly <= CurveY(lx, ly, rx, ry, ix)
    decreases ix - lx
  {
    CurveEnds(lx, ly, rx, ry);
    SampleAt(lx, ly, rx, ry, lx);
    if ix > lx {
      CurveFromStart(lx, ly, rx, ry, ix - 1);
      CurveStep(lx, ly, rx, ry, ix - 1);
    }
  }

  /** ... and never climbs past its end. */
  lemma {:induction false} CurveToEnd(lx: int, ly: int, rx: int, ry: int, ix: int)
    requires rx - lx >= 2 && lx <= ix <= rx && 0 <= ly <= ry
    ensures HalfDist(lx, rx) != 0
    ensures CurveY(lx, ly, rx, ry, ix) <= ry
    decreases rx - ix
  {
    CurveEnds(lx, ly, rx, ry);
    SampleAt(lx, ly, rx, ry, rx);
    if ix < rx {
      CurveToEnd(lx, ly, rx, ry, ix + 1);
      CurveStep(lx, ly, rx, ry, ix);
    }
  }
}
