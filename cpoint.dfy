// An anchor point of the correction curve with its two Bezier handles
// (cpoint.cpp).

module CPoints {
  import opened Numerics

  /** The six values an anchor holds: its position and the positions of its
      left and right handles, all in physical units (x in mm, y in waves). */
  datatype Anchor = Anchor(x: real, y: real, lx: real, ly: real, rx: real, ry: real)

  /** The minimum horizontal distance, in mm, between an anchor and the
      handle being edited. */
  const MinHandleGap: real := 0.1

  /** Default handle distance of the two-argument constructor. */
  const DefaultBezDist: real := 10.0

  /** Constructor `CPoint(x, y, bez_dist)`: flat handles `bez_dist` either side. */
  function NewAnchor(x: real, y: real, bezDist: real): (a: Anchor)
    ensures a.x == x && a.y == y
    ensures x - a.lx == bezDist && a.rx - x == bezDist
    ensures a.ly == y && a.ry == y
  {
    Anchor(x, y, x - bezDist, y, x + bezDist, y)
  }

  /** Constructor `CPoint(x, y)`: a control point with handles 10 mm out. */
  function NewControlPoint(x: real, y: real): (a: Anchor)
    ensures a == NewAnchor(x, y, DefaultBezDist)
    ensures a.lx == x - 10.0 && a.rx == x + 10.0 && a.ly == y == a.ry
  {
    NewAnchor(x, y, DefaultBezDist)
  }

  // ---------------------------------------------------------------------------
  // JSON record: a JSON object is a map from key to number.

  /** `toJson` writes the six fields into an existing object, keeping its
      other keys. */
  function WriteJson(a: Anchor, obj: map<string, real>): (r: map<string, real>)
    ensures r.Keys == obj.Keys + {"x", "y", "lx", "ly", "rx", "ry"}
    ensures forall k :: k in obj && k !in {"x", "y", "lx", "ly", "rx", "ry"} ==> r[k] == obj[k]
    ensures ReadJson(r) == a
  {
    obj["x" := a.x]["y" := a.y]["lx" := a.lx]["ly" := a.ly]["rx" := a.rx]["ry" := a.ry]
  }

  /** The value `obj[key].toDouble()` yields: a missing key reads as 0. */
  function JsonNumber(obj: map<string, real>, key: string): real
  {
    if key in obj then obj[key] else 0.0
  }

  /** The JSON constructor `CPoint(QJsonObject &)`. */
  function ReadJson(obj: map<string, real>): (a: Anchor)
    ensures a.x == (if "x" in obj then obj["x"] else 0.0)
    ensures a.y == (if "y" in obj then obj["y"] else 0.0)
    ensures a.lx == (if "lx" in obj then obj["lx"] else 0.0)
    ensures a.ly == (if "ly" in obj then obj["ly"] else 0.0)
    ensures a.rx == (if "rx" in obj then obj["rx"] else 0.0)
    ensures a.ry == (if "ry" in obj then obj["ry"] else 0.0)
  {
    Anchor(JsonNumber(obj, "x"), JsonNumber(obj, "y"),
           JsonNumber(obj, "lx"), JsonNumber(obj, "ly"),
           JsonNumber(obj, "rx"), JsonNumber(obj, "ry"))
  }

  /** Reading an object back and writing it into the same object changes
      nothing when all six keys were already there. */
  lemma {:induction false} ReadWriteJson(obj: map<string, real>)
    requires {"x", "y", "lx", "ly", "rx", "ry"} <= obj.Keys
    ensures WriteJson(ReadJson(obj), obj) == obj
  {
    var r := WriteJson(ReadJson(obj), obj);
    assert r.Keys == obj.Keys;
    forall k | k in obj ensures r[k] == obj[k] {
      if k in {"x", "y", "lx", "ly", "rx", "ry"} {
        assert k == "x" || k == "y" || k == "lx" || k == "ly" || k == "rx" || k == "ry";
      }
    }
  }

  // ---------------------------------------------------------------------------
  // Moving the anchor: the handles follow it.

  /** `setX`: the anchor moves horizontally and both handles move with it. */
  function WithX(a: Anchor, nx: real): (r: Anchor)
    ensures r.x == nx && r.y == a.y && r.ly == a.ly && r.ry == a.ry
    ensures r.lx - r.x == a.lx - a.x && r.rx - r.x == a.rx - a.x
  {
    var dx := nx - a.x;
    a.(x := nx, lx := a.lx + dx, rx := a.rx + dx)
  }

  /** `setY`: the anchor moves vertically and both handles move with it. */
  function WithY(a: Anchor, ny: real): (r: Anchor)
    ensures r.y == ny && r.x == a.x && r.lx == a.lx && r.rx == a.rx
    ensures r.ly - r.y == a.ly - a.y && r.ry - r.y == a.ry - a.y
  {
    var dy := ny - a.y;
    a.(y := ny, ly := a.ly + dy, ry := a.ry + dy)
  }

  // ---------------------------------------------------------------------------
  // Editing one handle: the opposite handle is re-aimed along the new tangent.

  /** The two handles and the anchor lie on one straight line: the tangent. */
  predicate Collinear(a: Anchor)
  {
    (a.ry - a.y) * (a.x - a.lx) == (a.y - a.ly) * (a.rx - a.x)
  }

  /** Squared length of the vector `(dx, dy)` once its y component is
      divided by `ratio`, which puts both axes in comparable units. */
  function Dist2(dx: real, dy: real, ratio: real): (d: real)
    requires ratio != 0.0
    ensures d >= 0.0
  {
    assert dx * dx >= 0.0 && (dy / ratio) * (dy / ratio) >= 0.0;
    dx * dx + (dy / ratio) * (dy / ratio)
  }

  /** Squared ratio-corrected distance from the anchor to its right handle. */
  function RightDist2(a: Anchor, ratio: real): real
    requires ratio != 0.0
  {
    Dist2(a.x - a.rx, a.y - a.ry, ratio)
  }

  /** Squared ratio-corrected distance from the anchor to its left handle. */
  function LeftDist2(a: Anchor, ratio: real): real
    requires ratio != 0.0
  {
    Dist2(a.x - a.lx, a.y - a.ly, ratio)
  }

  lemma Dist2Negated(dx: real, dy: real, ratio: real)
    requires ratio != 0.0
    ensures Dist2(-dx, -dy, ratio) == Dist2(dx, dy, ratio)
  {
    assert (-dy) / ratio == -(dy / ratio);
  }

  /** The offset from the anchor at which a re-aimed handle is placed:
      `(dist * cos, dist * cos * slope * ratio)` with `cos = 1 / sqrt(1 +
      slope * slope)`. */
  function TangentOffset(dist: real, slope: real, ratio: real, sqrt: real -> real): (o: (real, real))
    requires dist >= 0.0 && ratio > 0.0 && IsSqrt(sqrt)
  {
    SqrtPositive(sqrt, 1.0 + slope * slope);
    var cos := 1.0 / sqrt(1.0 + slope * slope);
    (dist * cos, dist * cos * slope * ratio)
  }

  /** The tangent offset points to the right along `slope` (in
      ratio-corrected units) and has ratio-corrected length `dist`. */
  lemma TangentOffsetFacts(dist: real, slope: real, ratio: real, sqrt: real -> real)
    requires dist >= 0.0 && ratio > 0.0 && IsSqrt(sqrt)
    ensures var o := TangentOffset(dist, slope, ratio, sqrt);
      o.0 >= 0.0 && o.1 == o.0 * slope * ratio && Dist2(o.0, o.1, ratio) == dist * dist
  {
    SqrtPositive(sqrt, 1.0 + slope * slope);
    var q := sqrt(1.0 + slope * slope);
    var o := TangentOffset(dist, slope, ratio, sqrt);
    TangentLength(dist, q, slope, ratio, o.0, o.1);
  }

  lemma TangentLength(dist: real, q: real, slope: real, ratio: real, ox: real, oy: real)
    requires dist >= 0.0 && q > 0.0 && q * q == 1.0 + slope * slope && ratio > 0.0
    requires ox == dist * (1.0 / q) && oy == dist * (1.0 / q) * slope * ratio
    ensures ox >= 0.0
    ensures Dist2(ox, oy, ratio) == dist * dist
  {
    var c := 1.0 / q;
    assert c > 0.0;
    assert oy / ratio == dist * c * slope;
    assert c * q == 1.0;
    calc {
      Dist2(ox, oy, ratio);
      (dist * c) * (dist * c) + (dist * c * slope) * (dist * c * slope);
      (dist * dist) * ((c * c) * (1.0 + slope * slope));
      (dist * dist) * ((c * c) * (q * q));
      (dist * dist) * ((c * q) * (c * q));
      { assert (c * q) * (c * q) == 1.0 * 1.0; }
      (dist * dist) * (1.0 * 1.0);
      dist * dist;
    }
  }

  /** The slope of the vector `(dx, dy)` once y is divided by `ratio`. */
  function Slope(dy: real, dx: real, ratio: real): real
    requires ratio != 0.0 && dx != 0.0
  {
    (dy / ratio) / dx
  }

  /** An offset of rise `ox * slope * ratio` along the slope of `(dx, dy)`
      is proportional to `(dx, dy)`. */
  lemma SlopeRise(ox: real, oy: real, slope: real, dx: real, dy: real, ratio: real)
    requires dx != 0.0 && ratio != 0.0 && slope == Slope(dy, dx, ratio) && oy == ox * slope * ratio
    ensures oy * dx == dy * ox
  {
    assert ((dy / ratio) / dx) * ratio * dx == dy;
    assert oy * dx == ox * (((dy / ratio) / dx) * ratio * dx);
  }

  lemma CollinearFromOffsets(r: Anchor, u: real, v: real, p: real, q: real)
    requires r.ry - r.y == u && r.x - r.lx == v && r.y - r.ly == p && r.rx - r.x == q
    requires u * v == p * q
    ensures Collinear(r)
  {
  }

  /** The distance from the anchor to a handle, as `sqrt` of its squared
      ratio-corrected length. */
  function HandleDist(dx: real, dy: real, ratio: real, sqrt: real -> real): (d: real)
    requires ratio != 0.0 && IsSqrt(sqrt)
    ensures d >= 0.0
  {
    SqrtOfSumOfSquares(sqrt, dx, dy / ratio);
    sqrt(dx * dx + (dy / ratio) * (dy / ratio))
  }

  lemma HandleDistSquared(dx: real, dy: real, ratio: real, sqrt: real -> real)
    requires ratio != 0.0 && IsSqrt(sqrt)
    ensures HandleDist(dx, dy, ratio, sqrt) * HandleDist(dx, dy, ratio, sqrt) == Dist2(dx, dy, ratio)
  {
    SqrtOfSumOfSquares(sqrt, dx, dy / ratio);
  }

  /** The right handle re-aimed after the left handle of `a` was moved:
      along the slope from the left handle through the anchor (y divided by
      `ratio`), at the right handle's old distance. */
  function ReAimedRight(a: Anchor, ratio: real, sqrt: real -> real): (h: (real, real))
    requires ratio > 0.0 && IsSqrt(sqrt)
  {
    var dx0 := a.x - a.lx;
    var dx := if dx0 == 0.0 then 1.0 else dx0;
    var slope := Slope(a.y - a.ly, dx, ratio);
    var o := TangentOffset(HandleDist(a.x - a.rx, a.y - a.ry, ratio, sqrt), slope, ratio, sqrt);
    (a.x + o.0, a.y + o.1)
  }

  /** The left handle re-aimed after the right handle of `a` was moved. */
  function ReAimedLeft(a: Anchor, ratio: real, sqrt: real -> real): (h: (real, real))
    requires ratio > 0.0 && IsSqrt(sqrt)
  {
    var dx0 := a.x - a.rx;
    var dx := if dx0 == 0.0 then -1.0 else dx0;
    var slope := Slope(a.y - a.ry, dx, ratio);
    var o := TangentOffset(HandleDist(a.x - a.lx, a.y - a.ly, ratio, sqrt), slope, ratio, sqrt);
    (a.x - o.0, a.y - o.1)
  }

  /** `setLeft(nx, ny, ratio)`: the left handle moves to `(nx, ny)`, kept at
      least 0.1 mm left of the anchor; the right handle is re-aimed along the
      new tangent (measured with y divided by `ratio`) and keeps its distance. */
  function WithLeft(a: Anchor, nx: real, ny: real, ratio: real, sqrt: real -> real): (r: Anchor)
    requires ratio > 0.0 && IsSqrt(sqrt)
    ensures r.x == a.x && r.y == a.y
    ensures r.lx == MinR(nx, a.x - MinHandleGap) && r.ly == ny
  {
    var b := a.(lx := if nx > a.x - MinHandleGap then a.x - MinHandleGap else nx, ly := ny);
    var h := ReAimedRight(b, ratio, sqrt);
    b.(rx := h.0, ry := h.1)
  }

  /** `setRight(nx, ny, ratio)`: the mirror image of `setLeft`; the right
      handle is kept at least 0.1 mm right of the anchor. */
  function WithRight(a: Anchor, nx: real, ny: real, ratio: real, sqrt: real -> real): (r: Anchor)
    requires ratio > 0.0 && IsSqrt(sqrt)
    ensures r.x == a.x && r.y == a.y
    ensures r.rx == MaxR(nx, a.x + MinHandleGap) && r.ry == ny
  {
    var b := a.(rx := if nx < a.x + MinHandleGap then a.x + MinHandleGap else nx, ry := ny);
    var h := ReAimedLeft(b, ratio, sqrt);
    b.(lx := h.0, ly := h.1)
  }
}

module CPointLemmas {
  import opened Numerics
  import opened CPoints

  /** The offset of the re-aimed right handle after `setLeft`, and the
      facts it satisfies. */
  lemma WithLeftOffset(a: Anchor, nx: real, ny: real, ratio: real, sqrt: real -> real)
      returns (o: (real, real), dx: real)
    requires ratio > 0.0 && IsSqrt(sqrt)
    ensures var r := WithLeft(a, nx, ny, ratio, sqrt);
      dx == r.x - r.lx && dx > 0.0 && r.rx == a.x + o.0 && r.ry == a.y + o.1 &&
      o.0 >= 0.0 && o.1 * dx == (a.y - ny) * o.0 &&
      Dist2(o.0, o.1, ratio) == RightDist2(a, ratio)
  {
    var r := WithLeft(a, nx, ny, ratio, sqrt);
    dx := a.x - r.lx;
    var slope := Slope(a.y - ny, dx, ratio);
    var dist := HandleDist(a.x - a.rx, a.y - a.ry, ratio, sqrt);
    o := TangentOffset(dist, slope, ratio, sqrt);
    assert r.rx == a.x + o.0 && r.ry == a.y + o.1;
    TangentOffsetFacts(dist, slope, ratio, sqrt);
    HandleDistSquared(a.x - a.rx, a.y - a.ry, ratio, sqrt);
    SlopeRise(o.0, o.1, slope, dx, a.y - ny, ratio);
  }

  /** After `setLeft` the right handle lies on the line through the left
      handle and the anchor, on the anchor's right. */
  lemma WithLeftCollinear(a: Anchor, nx: real, ny: real, ratio: real, sqrt: real -> real)
    requires ratio > 0.0 && IsSqrt(sqrt)
    ensures var r := WithLeft(a, nx, ny, ratio, sqrt);
      Collinear(r) && r.rx >= r.x
  {
    var r := WithLeft(a, nx, ny, ratio, sqrt);
    var o, dx := WithLeftOffset(a, nx, ny, ratio, sqrt);
    CollinearFromOffsets(r, o.1, dx, a.y - ny, o.0);
  }

  /** `setLeft` keeps the ratio-corrected distance from the anchor to the
      right handle. */
  lemma WithLeftKeepsRightDistance(a: Anchor, nx: real, ny: real, ratio: real, sqrt: real -> real)
    requires ratio > 0.0 && IsSqrt(sqrt)
    ensures RightDist2(WithLeft(a, nx, ny, ratio, sqrt), ratio) == RightDist2(a, ratio)
  {
    var r := WithLeft(a, nx, ny, ratio, sqrt);
    var o, dx := WithLeftOffset(a, nx, ny, ratio, sqrt);
    Dist2Negated(o.0, o.1, ratio);
    assert a.x - r.rx == -o.0 && a.y - r.ry == -o.1;
  }

  /** The offset of the re-aimed left handle after `setRight`. */
  lemma WithRightOffset(a: Anchor, nx: real, ny: real, ratio: real, sqrt: real -> real)
      returns (o: (real, real), dx: real)
    requires ratio > 0.0 && IsSqrt(sqrt)
    ensures var r := WithRight(a, nx, ny, ratio, sqrt);
      dx == r.x - r.rx && dx < 0.0 && r.lx == a.x - o.0 && r.ly == a.y - o.1 &&
      o.0 >= 0.0 && o.1 * dx == (a.y - ny) * o.0 &&
      Dist2(o.0, o.1, ratio) == LeftDist2(a, ratio)
  {
    var r := WithRight(a, nx, ny, ratio, sqrt);
    dx := a.x - r.rx;
    var slope := Slope(a.y - ny, dx, ratio);
    var dist := HandleDist(a.x - a.lx, a.y - a.ly, ratio, sqrt);
    o := TangentOffset(dist, slope, ratio, sqrt);
    assert r.lx == a.x - o.0 && r.ly == a.y - o.1;
    TangentOffsetFacts(dist, slope, ratio, sqrt);
    HandleDistSquared(a.x - a.lx, a.y - a.ly, ratio, sqrt);
    SlopeRise(o.0, o.1, slope, dx, a.y - ny, ratio);
  }

  /** After `setRight` the left handle lies on the line through the right
      handle and the anchor, on the anchor's left. */
  lemma WithRightCollinear(a: Anchor, nx: real, ny: real, ratio: real, sqrt: real -> real)
    requires ratio > 0.0 && IsSqrt(sqrt)
    ensures var r := WithRight(a, nx, ny, ratio, sqrt);
      Collinear(r) && r.lx <= r.x
  {
    var r := WithRight(a, nx, ny, ratio, sqrt);
    var o, dx := WithRightOffset(a, nx, ny, ratio, sqrt);
    assert (ny - a.y) * o.0 == o.1 * (-dx);
    CollinearFromOffsets(r, ny - a.y, o.0, o.1, -dx);
  }

  /** `setRight` keeps the ratio-corrected distance from the anchor to the
      left handle. */
  lemma WithRightKeepsLeftDistance(a: Anchor, nx: real, ny: real, ratio: real, sqrt: real -> real)
    requires ratio > 0.0 && IsSqrt(sqrt)
    ensures LeftDist2(WithRight(a, nx, ny, ratio, sqrt), ratio) == LeftDist2(a, ratio)
  {
    var r := WithRight(a, nx, ny, ratio, sqrt);
    var o, dx := WithRightOffset(a, nx, ny, ratio, sqrt);
    assert a.x - r.lx == o.0 && a.y - r.ly == o.1;
  }

  /** Repeating the same `setLeft` changes nothing more: the right handle's
      distance is preserved, so it is re-aimed to the same place. */
  lemma WithLeftIdempotent(a: Anchor, nx: real, ny: real, ratio: real, sqrt: real -> real)
    requires ratio > 0.0 && IsSqrt(sqrt)
    ensures WithLeft(WithLeft(a, nx, ny, ratio, sqrt), nx, ny, ratio, sqrt) == WithLeft(a, nx, ny, ratio, sqrt)
  {
    var r1 := WithLeft(a, nx, ny, ratio, sqrt);
    WithLeftKeepsRightDistance(a, nx, ny, ratio, sqrt);
    HandleDistSquared(r1.x - r1.rx, r1.y - r1.ry, ratio, sqrt);
    HandleDistSquared(a.x - a.rx, a.y - a.ry, ratio, sqrt);
    assert HandleDist(r1.x - r1.rx, r1.y - r1.ry, ratio, sqrt) == HandleDist(a.x - a.rx, a.y - a.ry, ratio, sqrt);
  }

  /** A right handle edit followed by the same edit again is also stable. */
  lemma WithRightIdempotent(a: Anchor, nx: real, ny: real, ratio: real, sqrt: real -> real)
    requires ratio > 0.0 && IsSqrt(sqrt)
    ensures WithRight(WithRight(a, nx, ny, ratio, sqrt), nx, ny, ratio, sqrt) == WithRight(a, nx, ny, ratio, sqrt)
  {
    var r1 := WithRight(a, nx, ny, ratio, sqrt);
    WithRightKeepsLeftDistance(a, nx, ny, ratio, sqrt);
    HandleDistSquared(r1.x - r1.lx, r1.y - r1.ly, ratio, sqrt);
    HandleDistSquared(a.x - a.lx, a.y - a.ly, ratio, sqrt);
    assert HandleDist(r1.x - r1.lx, r1.y - r1.ly, ratio, sqrt) == HandleDist(a.x - a.lx, a.y - a.ly, ratio, sqrt);
  }
}

/** The `CPoint` object: an anchor whose methods update its fields in place,
    with one snapshot slot (`x1, y1` for the anchor, `x2, y2` for the left
    handle, `x3, y3` for the right handle). */
module CPointObject {
  import opened Numerics
  import opened CPoints

  class CPoint {
    var x: real
    var y: real
    var lx: real
    var ly: real
    var rx: real
    var ry: real
    var x1: real
    var y1: real
    var x2: real
    var y2: real
    var x3: real
    var y3: real

    /** The six current values. */
    function Value(): Anchor
      reads this
    {
      Anchor(x, y, lx, ly, rx, ry)
    }

    /** The six values held by the snapshot. */
    function Saved(): Anchor
      reads this
    {
      Anchor(x1, y1, x2, y2, x3, y3)
    }

    constructor Make(x0: real, y0: real, bezDist: real)
      ensures Value() == NewAnchor(x0, y0, bezDist)
    {
      x, y := x0, y0;
      lx := x0 - bezDist;
      ly := y0;
      rx := x0 + bezDist;
      ry := y0;
    }

    constructor Control(x0: real, y0: real)
      ensures Value() == NewControlPoint(x0, y0)
    {
      x, y := x0, y0;
      lx := x0 - DefaultBezDist;
      ly := y0;
      rx := x0 + DefaultBezDist;
      ry := y0;
    }

    constructor FromJson(obj: map<string, real>)
      ensures Value() == ReadJson(obj)
    {
      x := JsonNumber(obj, "x");
      y := JsonNumber(obj, "y");
      lx := JsonNumber(obj, "lx");
      ly := JsonNumber(obj, "ly");
      rx := JsonNumber(obj, "rx");
      ry := JsonNumber(obj, "ry");
    }

    method ToJson(obj: map<string, real>) returns (r: map<string, real>)
      ensures r == WriteJson(Value(), obj)
    {
      r := obj;
      r := r["x" := x];
      r := r["y" := y];
      r := r["lx" := lx];
      r := r["ly" := ly];
      r := r["rx" := rx];
      r := r["ry" := ry];
    }

    function GetLeft(): (p: (real, real))
      reads this
      ensures p == (Value().lx, Value().ly)
    {
      (lx, ly)
    }

    function GetRight(): (p: (real, real))
      reads this
      ensures p == (Value().rx, Value().ry)
    {
      (rx, ry)
    }

    method SetX(nx: real)
      modifies this
      ensures Value() == WithX(old(Value()), nx)
      ensures Saved() == old(Saved())
    {
      var dx := nx - x;
      x := nx;
      lx := lx + dx;
      rx := rx + dx;
    }

    method SetY(ny: real)
      modifies this
      ensures Value() == WithY(old(Value()), ny)
      ensures Saved() == old(Saved())
    {
      var dy := ny - y;
      y := ny;
      ly := ly + dy;
      ry := ry + dy;
    }

    method SetLeft(nx: real, ny: real, graphRatio: real, sqrt: real -> real)
      requires graphRatio > 0.0 && IsSqrt(sqrt)
      modifies this
      ensures Value() == WithLeft(old(Value()), nx, ny, graphRatio, sqrt)
      ensures Saved() == old(Saved())
    {
      var px := nx;
      if px > x - MinHandleGap {
        px := x - MinHandleGap;   // at least 0.1 mm left of the anchor
      }
      lx := px;
      ly := ny;
      var h := ReAimedRight(Value(), graphRatio, sqrt);
      rx := h.0;
      ry := h.1;
    }

    method SetRight(nx: real, ny: real, graphRatio: real, sqrt: real -> real)
      requires graphRatio > 0.0 && IsSqrt(sqrt)
      modifies this
      ensures Value() == WithRight(old(Value()), nx, ny, graphRatio, sqrt)
      ensures Saved() == old(Saved())
    {
      var px := nx;
      if px < x + MinHandleGap {
        px := x + MinHandleGap;   // at least 0.1 mm right of the anchor
      }
      rx := px;
      ry := ny;
      var h := ReAimedLeft(Value(), graphRatio, sqrt);
      lx := h.0;
      ly := h.1;
    }

    method Save()
      modifies this
      ensures Saved() == old(Value()) && Value() == old(Value())
    {
      x1 := x;
      y1 := y;
      x2 := lx;
      y2 := ly;
      x3 := rx;
      y3 := ry;
    }

    method Restore()
      modifies this
      ensures Value() == old(Saved()) && Saved() == old(Saved())
    {
      SetX(x1);
      SetY(y1);
      lx := x2;
      ly := y2;
      rx := x3;
      ry := y3;
    }
  }

  /** One edit a caller may make between `save` and `restore`. */
  datatype Edit = EditX(nx: real) | EditY(ny: real) | EditLeft(lx: real, ly: real) | EditRight(rx: real, ry: real)

  /** A snapshot taken by `save` survives any sequence of anchor and handle
      edits, and `restore` brings back all six values. */
  method SaveEditRestore(p: CPoint, edits: seq<Edit>, ratio: real, sqrt: real -> real)
    requires ratio > 0.0 && IsSqrt(sqrt)
    modifies p
    ensures p.Value() == old(p.Value())
  {
    p.Save();
    for i := 0 to |edits|
      invariant p.Saved() == old(p.Value())
    {
      match edits[i]
      case EditX(nx) => p.SetX(nx);
      case EditY(ny) => p.SetY(ny);
      case EditLeft(lx, ly) => p.SetLeft(lx, ly, ratio, sqrt);
      case EditRight(rx, ry) => p.SetRight(rx, ry, ratio, sqrt);
    }
    p.Restore();
  }
}
