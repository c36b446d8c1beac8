// The curve editor itself (arbitrarywavwidget.cpp): the object that owns
// the anchor list, the layout and scales, and the drag state, and that
// reacts to mouse presses, moves, releases and wheel turns.

module Widget {
  import opened Numerics
  import opened CPoints
  import opened Mapper
  import opened AnchorList

  /** The button a press reports. */
  datatype Button = LeftButton | RightButton | OtherButton

  /** Pixel column of radius 0; the columns to its left hold the y-axis labels. */
  const GraphLeft: int := 45

  /** Pixel rows below the graph kept for the x-axis labels. */
  const BottomMargin: int := 22

  /** `resizeEvent`: the layout of a widget `w` pixels wide and `h` high,
      as (graphLeft, graphHeight, posY0, posEdge). Five percent of the
      graph width is kept beyond the mirror edge. */
  function LayoutFor(w: int, h: int): (r: (int, int, int, int))
    ensures r.0 == GraphLeft && r.1 == h - BottomMargin
    ensures r.1 >= 0 ==> 0 <= r.2 && 2 * r.2 <= r.1 <= 2 * r.2 + 1
    ensures w >= GraphLeft ==> r.3 <= w && (w - GraphLeft) as real * 0.95 + GraphLeft as real < r.3 as real + 1.0
    ensures w >= GraphLeft ==> r.3 as real <= (w - GraphLeft) as real * 0.95 + GraphLeft as real
  {
    var gh := h - BottomMargin;
    (GraphLeft, gh, HalfTrunc(gh), Trunc(w as real - (w - GraphLeft) as real * 0.05))
  }

  /** A widget at least as large as its minimum size hint (200 by 100)
      has a layout the coordinate maps can divide by. */
  lemma MinimumSizeLayout(w: int, h: int, radius: real, wh: real)
    requires w >= 200 && h >= 100 && radius != 0.0 && wh != 0.0
    ensures var (gl, gh, py0, pe) := LayoutFor(w, h);
      NonDegenerate(View(gl, gh, py0, pe, w, radius, wh)) && gl < pe <= w && 0 <= py0 < gh
  {
    var (gl, gh, py0, pe) := LayoutFor(w, h);
    assert (w - GraphLeft) as real * 0.95 + GraphLeft as real >= 155.0 * 0.95 + 45.0;
  }

  /** `wheelEvent`: turning up zooms in (the vertical scale shrinks by
      1.1), turning down zooms out, no turn changes nothing. */
  function Zoomed(wh: real, delta: int): (r: real)
    ensures delta > 0 ==> r < wh || wh <= 0.0
    ensures delta < 0 ==> r > wh || wh <= 0.0
    ensures delta == 0 ==> r == wh
    ensures wh > 0.0 <==> r > 0.0
  {
    if delta > 0 then wh / 1.1 else if delta < 0 then wh * 1.1 else wh
  }

  /** A turn down undoes a turn up and the other way round. */
  lemma ZoomRoundTrip(wh: real, delta: int)
    ensures Zoomed(Zoomed(wh, delta), -delta) == wh
  {
    if delta > 0 {
      assert wh / 1.1 * 1.1 == wh;
    } else if delta < 0 {
      assert wh * 1.1 / 1.1 == wh;
    }
  }

  /** What a mouse move does to the anchor list and the dragged index:
      nothing unless a drag is on and the left button is held; otherwise
      the anchor drag, then the handle drag, each when its flag is set. */
  function Moved(v: View, s: seq<Anchor>, k: int, dragging: bool, bez: bool, left: bool,
                 leftHeld: bool, p: Pos, enabled: bool, ratio: real, sqrt: real -> real)
    : (r: (seq<Anchor>, int))
    requires NonDegenerate(v) && ratio > 0.0 && IsSqrt(sqrt)
    requires (dragging || bez) && leftHeld ==> 0 <= k < |s|
    ensures (dragging || bez) && leftHeld ==> 0 <= r.1 < |r.0|
  {
    if !(dragging || bez) || !leftHeld then (s, k)
    else
      var t := if dragging then DragAnchor(v, s, k, p, enabled, ratio, sqrt) else (s, k);
      (if bez then DragHandle(v, t.0, t.1, left, p, enabled, ratio, sqrt) else t.0, t.1)
  }

  /** A move keeps the list's length and its order by radius. */
  lemma MovedKeepsOrder(v: View, s: seq<Anchor>, k: int, dragging: bool, bez: bool, left: bool,
                        leftHeld: bool, p: Pos, enabled: bool, ratio: real, sqrt: real -> real)
    requires NonDegenerate(v) && ratio > 0.0 && IsSqrt(sqrt) && SortedByX(s)
    requires (dragging || bez) && leftHeld ==> 0 <= k < |s|
    ensures var r := Moved(v, s, k, dragging, bez, left, leftHeld, p, enabled, ratio, sqrt);
      |r.0| == |s| && SortedByX(r.0)
  {
    if (dragging || bez) && leftHeld {
      var t := if dragging then DragAnchor(v, s, k, p, enabled, ratio, sqrt) else (s, k);
      if dragging {
        DragAnchorFacts(v, s, k, p, enabled, ratio, sqrt);
      }
      if bez {
        var u := DragHandle(v, t.0, t.1, left, p, enabled, ratio, sqrt);
        SortedPointwise(u, t.0);
      }
    }
  }

  /** The edits an anchor drag makes to the dragged anchor `a` (index
      `k`): `setX` and `setY` to the pointer, which carry the handles
      along, then the three x clamps. */
  method DragSteps(v: View, a: Anchor, k: int, ip: Pos) returns (b: Anchor)
    requires NonDegenerate(v)
    ensures b == Dragged(v, a, k, ip)
  {
    b := WithX(a, MmX(v, ip.x));
    b := WithY(b, WaveY(v, ip.y));
    if k == 0 {
      b := WithX(b, 0.0);  // anchor 0 stays at the centre
    }
    if ip.x > v.width {
      b := WithX(b, MmX(v, v.width));
    }
    if ip.x < v.graphLeft {
      b := WithX(b, 0.0);
    }
  }

  /** One pass of `fixOverhangs` over the neighbours `j` and `j + 1`:
      when the right handle of `j` and the left handle of `j + 1` reach
      together more than twice across the gap, scale both back by one
      factor, each through the setter that re-aims its opposite handle. */
  method LimitPair(ps: seq<Anchor>, j: int, ratio: real, sqrt: real -> real) returns (r: seq<Anchor>)
    requires 0 <= j < |ps| - 1 && ratio > 0.0 && IsSqrt(sqrt)
    ensures r == FixPair(ps, j, ratio, sqrt)
  {
    r := ps;
    var leftPoint := ps[j];
    var rightPoint := ps[j + 1];
    var maxCombinedLength := AbsR(rightPoint.x - leftPoint.x) * 2.0;
    var combinedLength := (rightPoint.x - rightPoint.lx) + (leftPoint.rx - leftPoint.x);
    if combinedLength > maxCombinedLength {
      var scaleback := maxCombinedLength / combinedLength;
      var newLeft := ShrunkRight(leftPoint, scaleback, ratio, sqrt);
      var newRight := ShrunkLeft(rightPoint, scaleback, ratio, sqrt);
      r := r[j := newLeft];
      r := r[j + 1 := newRight];
    }
  }

  /** The seeding of insert-on-click around the new anchor `k` of the
      sorted list `ps`: half the gap to each neighbour for its own handles
      (10 mm to the right when it is last), and the neighbours' inward
      handles re-aimed half the gap out. */
  method SeedHandles(ps: seq<Anchor>, k: int, ratio: real, sqrt: real -> real) returns (r: seq<Anchor>)
    requires 0 <= k < |ps| && ratio > 0.0 && IsSqrt(sqrt)
    ensures r == SeedRight(SeedLeft(ps, k, ratio, sqrt), k, ratio, sqrt)
  {
    r := ps;
    if k > 0 {
      // left handle of the new anchor, right handle of the one before
      var myPoint := r[k];
      var leftPoint := r[k - 1];
      var desiredLength := AbsR(myPoint.x - leftPoint.x) / 2.0;
      r := r[k := myPoint.(lx := myPoint.x - desiredLength)];
      r := r[k - 1 := WithRight(leftPoint, leftPoint.x + desiredLength, leftPoint.ry, ratio, sqrt)];
    }
    assert r == SeedLeft(ps, k, ratio, sqrt);
    if k == |r| - 1 {
      // the new anchor is last: its right handle goes 10 mm out
      r := r[k := r[k].(rx := r[k].x + 10.0)];
    } else {
      var myPoint := r[k];
      var nextPoint := r[k + 1];
      var desiredLength := AbsR(myPoint.x - nextPoint.x) / 2.0;
      r := r[k := myPoint.(rx := myPoint.x + desiredLength)];
      r := r[k + 1 := WithLeft(nextPoint, nextPoint.x - desiredLength, nextPoint.ly, ratio, sqrt)];
    }
  }

  class ArbitraryWavWidget {
    var pts: seq<Anchor>
    var width: int
    var height: int
    var graphLeft: int
    var graphHeight: int
    var posY0: int
    var posEdge: int
    const mirrorRadius: real
    var waveHeight: real
    var mode: int
    var dissuadeOverhangs: bool
    const bezDistanceRatio: real
    var dragging: bool
    var draggingBezierPoint: bool
    var draggingBevLeft: bool
    var draggingPointIndex: int
    const sqrt: real -> real

    /** The layout and scales the coordinate maps use. */
    function View(): View
      reads this
    {
      Mapper.View(graphLeft, graphHeight, posY0, posEdge, width, mirrorRadius, waveHeight)
    }

    /** What every handler keeps: a layout the maps can divide by, a
        positive vertical scale, at least the permanent anchor 0, and the
        anchors ordered by radius. */
    ghost predicate Valid()
      reads this
    {
      NonDegenerate(View()) && waveHeight > 0.0 && |pts| >= 1 && SortedByX(pts) &&
      IsSqrt(sqrt) && bezDistanceRatio != 0.0
    }

    /** The constructor followed by the first `resizeEvent` of a `w` by `h`
        widget: a 300 mm radius, a scale of 0.3 waves, and two anchors, at
        the centre and at 25.4 mm, 0.125 waves. */
    constructor (w: int, h: int, mode: int, dissuade: bool, bezDistanceRatio: real, sqrt: real -> real)
      requires w >= 200 && h >= 100 && bezDistanceRatio != 0.0 && IsSqrt(sqrt)
      ensures Valid()
      ensures mirrorRadius == 300.0 && waveHeight == 0.3
      ensures pts == [NewAnchor(0.0, 0.0, 300.0 / bezDistanceRatio), NewAnchor(25.4, 0.125, 300.0 / bezDistanceRatio)]
      ensures width == w && height == h && (graphLeft, graphHeight, posY0, posEdge) == LayoutFor(w, h)
      ensures this.mode == mode && dissuadeOverhangs == dissuade && this.bezDistanceRatio == bezDistanceRatio
      ensures !dragging && !draggingBezierPoint
    {
      mirrorRadius := 300.0;
      waveHeight := 0.3;
      this.bezDistanceRatio := bezDistanceRatio;
      var bezDist := 300.0 / bezDistanceRatio;
      pts := [NewAnchor(0.0, 0.0, bezDist), NewAnchor(25.4, 0.125, bezDist)];
      dragging := false;
      draggingBezierPoint := false;
      draggingBevLeft := false;
      draggingPointIndex := -1;
      this.mode := mode;
      dissuadeOverhangs := dissuade;
      this.sqrt := sqrt;
      width := w;
      height := h;
      var layout := LayoutFor(w, h);
      graphLeft, graphHeight, posY0, posEdge := layout.0, layout.1, layout.2, layout.3;
      MinimumSizeLayout(w, h, 300.0, 0.3);
    }

    /** `setMode`: 0 draws Bezier segments, 1 zero-slope cubics. */
    method SetMode(m: int)
      modifies this
      ensures mode == m
      ensures pts == old(pts) && View() == old(View()) && dissuadeOverhangs == old(dissuadeOverhangs)
      ensures dragging == old(dragging) && draggingBezierPoint == old(draggingBezierPoint)
      ensures draggingBevLeft == old(draggingBevLeft) && draggingPointIndex == old(draggingPointIndex)
    {
      mode := m;
    }

    /** `resizeEvent`: a new widget size recomputes the layout. */
    method Resize(w: int, h: int)
      requires Valid() && w >= 200 && h >= 100
      modifies this
      ensures Valid()
      ensures width == w && height == h && (graphLeft, graphHeight, posY0, posEdge) == LayoutFor(w, h)
      ensures pts == old(pts) && waveHeight == old(waveHeight) && mode == old(mode)
      ensures dissuadeOverhangs == old(dissuadeOverhangs)
      ensures dragging == old(dragging) && draggingBezierPoint == old(draggingBezierPoint)
      ensures draggingBevLeft == old(draggingBevLeft) && draggingPointIndex == old(draggingPointIndex)
    {
      width := w;
      height := h;
      var layout := LayoutFor(w, h);
      graphLeft, graphHeight, posY0, posEdge := layout.0, layout.1, layout.2, layout.3;
      MinimumSizeLayout(w, h, mirrorRadius, waveHeight);
    }

    /** `findPoint`: the first anchor within 8 pixels of `ip` on both
        axes, or -1. */
    method FindPoint(ip: Pos) returns (r: int)
      requires Valid()
      ensures r == FirstHit(View(), pts, ip)
    {
      var i := 0;
      while i < |pts|
        invariant 0 <= i <= |pts|
        invariant forall j :: 0 <= j < i ==> !Near(View(), ip, pts[j].x, pts[j].y)
      {
        var p2 := pts[i];
        if Abs(ip.x - PixelX(View(), p2.x)) < 8 && Abs(ip.y - PixelY(View(), p2.y)) < 8 {
          return i;
        }
        i := i + 1;
      }
      return -1;
    }

    /** The handle search of a Bezier-mode press: by index, the left handle
        before the right one. */
    method FindHandle(ip: Pos) returns (h: HandleHit)
      requires Valid()
      ensures h == FirstHandle(View(), pts, ip)
    {
      var i := 0;
      while i < |pts|
        invariant 0 <= i <= |pts|
        invariant forall j :: 0 <= j < i ==> HandlesMissed(View(), ip, pts[j])
      {
        var mainPoint := pts[i];
        if Near(View(), ip, mainPoint.lx, mainPoint.ly) {
          return LeftHandle(i);
        }
        if Near(View(), ip, mainPoint.rx, mainPoint.ry) {
          return RightHandle(i);
        }
        i := i + 1;
      }
      return NoHandle;
    }

    /** `sortPoints`: order the anchors by radius. */
    method SortPoints()
      requires |pts| >= 1
      modifies this
      ensures pts == SortByX(old(pts))
      ensures SortedByX(pts) && multiset(pts) == multiset(old(pts))
      ensures View() == old(View()) && dissuadeOverhangs == old(dissuadeOverhangs)
      ensures mode == old(mode) && height == old(height)
      ensures dragging == old(dragging) && draggingBezierPoint == old(draggingBezierPoint)
      ensures draggingBevLeft == old(draggingBevLeft) && draggingPointIndex == old(draggingPointIndex)
    {
      SortByXPermutes(pts);
      pts := SortByX(pts);
    }

    /** `fixOverhangs(index)`: limit the handles reaching into the gaps on
        either side of anchor `index`, editing the neighbours in place. */
    method FixOverhangs(index: int)
      requires Valid()
      modifies this
      ensures Valid()
      ensures pts == OverhangsFixed(old(pts), index, dissuadeOverhangs, TransRatio(View()), sqrt)
      ensures View() == old(View()) && dissuadeOverhangs == old(dissuadeOverhangs)
      ensures mode == old(mode) && height == old(height)
      ensures dragging == old(dragging) && draggingBezierPoint == old(draggingBezierPoint)
      ensures draggingBevLeft == old(draggingBevLeft) && draggingPointIndex == old(draggingPointIndex)
    {
      if !dissuadeOverhangs {
        return;
      }
      if index < 0 || index >= |pts| {
        return;
      }
      var ratio := TransRatio(View());
      var ps := pts;
      if index > 0 {
        // the handles reaching into the gap on the left of `index`
        ps := LimitPair(ps, index - 1, ratio, sqrt);
      }
      if index == |ps| - 1 {
        // the last anchor: its right handle is left alone
      } else {
        ps := LimitPair(ps, index, ratio, sqrt);
      }
      SortedPointwise(ps, pts);
      pts := ps;
    }

    /** The block of a left press that hit nothing: create an anchor at the
        pointer, sort, find it again and seed its handles and its
        neighbours' from the gaps on either side. */
    method InsertAt(ip: Pos)
      requires Valid() && FirstHit(View(), pts, ip) == -1
      modifies this
      ensures Valid()
      ensures (pts, draggingPointIndex) ==
        ClickInsert(old(View()), old(pts), ip, mirrorRadius / bezDistanceRatio, TransRatio(old(View())), sqrt)
      ensures dragging
      ensures View() == old(View()) && dissuadeOverhangs == old(dissuadeOverhangs)
      ensures mode == old(mode) && height == old(height)
      ensures draggingBezierPoint == old(draggingBezierPoint) && draggingBevLeft == old(draggingBevLeft)
    {
      var ratio := TransRatio(View());
      var bezDist := mirrorRadius / bezDistanceRatio;
      var newp := NewAnchor(MmX(View(), ip.x), WaveY(View(), ip.y), bezDist);
      ghost var t, k0 := ClickInsertUnfolded(View(), pts, ip, bezDist, ratio, sqrt);
      pts := pts + [newp];
      SortPoints();
      var k := FindPoint(ip);
      draggingPointIndex := k;
      var ps := SeedHandles(pts, k, ratio, sqrt);
      SortedPointwise(ps, t);
      pts := ps;
      if k >= 0 {
        dragging := true;
      }
    }

    /** `mousePressEvent`. Left: pick up the anchor under the pointer; in
        Bezier mode (0) failing that, the first handle under it; failing
        that, insert an anchor there and drag it. Right: delete the anchor
        under the pointer unless it is anchor 0. */
    method MousePress(button: Button, ip: Pos)
      requires Valid()
      modifies this
      ensures Valid()
      ensures View() == old(View()) && dissuadeOverhangs == old(dissuadeOverhangs)
      ensures mode == old(mode) && height == old(height)
      ensures button == OtherButton ==>
        pts == old(pts) && draggingPointIndex == old(draggingPointIndex) &&
        dragging == old(dragging) && draggingBezierPoint == old(draggingBezierPoint) &&
        draggingBevLeft == old(draggingBevLeft)
      ensures button == RightButton ==>
        pts == RightClickDelete(old(pts), FirstHit(old(View()), old(pts), ip)) &&
        draggingPointIndex == old(draggingPointIndex) &&
        dragging == old(dragging) && draggingBezierPoint == old(draggingBezierPoint) &&
        draggingBevLeft == old(draggingBevLeft)
      ensures button == LeftButton && FirstHit(old(View()), old(pts), ip) >= 0 ==>
        pts == old(pts) && draggingPointIndex == FirstHit(old(View()), old(pts), ip) && dragging &&
        draggingBezierPoint == old(draggingBezierPoint) && draggingBevLeft == old(draggingBevLeft)
      ensures button == LeftButton && FirstHit(old(View()), old(pts), ip) == -1 &&
              old(mode) == 0 && !FirstHandle(old(View()), old(pts), ip).NoHandle? ==>
        var h := FirstHandle(old(View()), old(pts), ip);
        pts == old(pts) && draggingPointIndex == h.i && draggingBezierPoint &&
        draggingBevLeft == h.LeftHandle? && dragging == old(dragging)
      ensures button == LeftButton && FirstHit(old(View()), old(pts), ip) == -1 &&
              (old(mode) != 0 || FirstHandle(old(View()), old(pts), ip).NoHandle?) ==>
        (pts, draggingPointIndex) ==
          ClickInsert(old(View()), old(pts), ip, mirrorRadius / bezDistanceRatio, TransRatio(old(View())), sqrt) &&
        dragging && draggingBezierPoint == old(draggingBezierPoint) &&
        draggingBevLeft == old(draggingBevLeft)
    {
      if button == LeftButton {
        draggingPointIndex := FindPoint(ip);
        if draggingPointIndex >= 0 {
          dragging := true;
          return;
        }
        if mode == 0 {
          var h := FindHandle(ip);
          if !h.NoHandle? {
            draggingPointIndex := h.i;
            draggingBevLeft := h.LeftHandle?;
            draggingBezierPoint := true;
            return;
          }
        }
        InsertAt(ip);
      } else if button == RightButton {
        var i := FindPoint(ip);
        if i > 0 {
          RightClickDeleteSorted(pts, i);
        }
        pts := RightClickDelete(pts, i);
      }
    }

    /** `mouseMoveEvent`: nothing unless a drag is on and the left button is
        held. An anchor drag sets the anchor's x and y (handles following),
        applies the three x clamps, re-sorts, finds the anchor under the
        pointer again and limits overhangs around it. A handle drag sets the
        handle (level with anchor 0 when that is the one) and limits
        overhangs around its anchor. */
    method MouseMove(ip: Pos, leftHeld: bool)
      requires Valid()
      requires (dragging || draggingBezierPoint) && leftHeld ==> 0 <= draggingPointIndex < |pts|
      modifies this
      ensures Valid()
      ensures (pts, draggingPointIndex) ==
        Moved(old(View()), old(pts), old(draggingPointIndex), old(dragging), old(draggingBezierPoint),
              old(draggingBevLeft), leftHeld, ip, old(dissuadeOverhangs), TransRatio(old(View())), sqrt)
      ensures View() == old(View()) && dissuadeOverhangs == old(dissuadeOverhangs)
      ensures mode == old(mode) && height == old(height)
      ensures dragging == old(dragging) && draggingBezierPoint == old(draggingBezierPoint)
      ensures draggingBevLeft == old(draggingBevLeft)
    {
      if !dragging && !draggingBezierPoint {
        return;
      }
      if !leftHeld {
        return;
      }
      if dragging {
        MoveAnchor(ip);
      }
      if draggingBezierPoint {
        MoveHandle(ip);
      }
    }

    /** The anchor drag of a move: set the dragged anchor's x and y
        (handles following) and clamp x, re-sort, find the anchor under the
        pointer again and limit overhangs around it. */
    method MoveAnchor(ip: Pos)
      requires Valid() && 0 <= draggingPointIndex < |pts|
      modifies this
      ensures Valid()
      ensures (pts, draggingPointIndex) ==
        DragAnchor(old(View()), old(pts), old(draggingPointIndex), ip, old(dissuadeOverhangs), TransRatio(old(View())), sqrt)
      ensures View() == old(View()) && dissuadeOverhangs == old(dissuadeOverhangs)
      ensures mode == old(mode) && height == old(height)
      ensures dragging == old(dragging) && draggingBezierPoint == old(draggingBezierPoint)
      ensures draggingBevLeft == old(draggingBevLeft)
    {
      var k := draggingPointIndex;
      var a := DragSteps(View(), pts[k], k, ip);
      pts := pts[k := a];
      SortPoints();
      var i := FindPoint(ip);
      if i >= 0 {
        draggingPointIndex := i;
        FixOverhangs(i);
      }
    }

    /** The handle drag of a move: set the dragged handle to the pointer
        (at anchor 0's own height when it belongs to anchor 0) and limit
        overhangs around its anchor. */
    method MoveHandle(ip: Pos)
      requires Valid() && 0 <= draggingPointIndex < |pts|
      modifies this
      ensures Valid()
      ensures pts == DragHandle(old(View()), old(pts), old(draggingPointIndex), old(draggingBevLeft), ip,
                                old(dissuadeOverhangs), TransRatio(old(View())), sqrt)
      ensures View() == old(View()) && dissuadeOverhangs == old(dissuadeOverhangs)
      ensures mode == old(mode) && height == old(height)
      ensures dragging == old(dragging) && draggingBezierPoint == old(draggingBezierPoint)
      ensures draggingBevLeft == old(draggingBevLeft) && draggingPointIndex == old(draggingPointIndex)
    {
      var k := draggingPointIndex;
      var x := MmX(View(), ip.x);
      var y := WaveY(View(), ip.y);
      if k == 0 {
        y := pts[0].y;  // the handles of anchor 0 stay level
      }
      var ps := pts;
      if draggingBevLeft {
        ps := ps[k := WithLeft(ps[k], x, y, TransRatio(View()), sqrt)];
      } else {
        ps := ps[k := WithRight(ps[k], x, y, TransRatio(View()), sqrt)];
      }
      SortedPointwise(ps, pts);
      pts := ps;
      FixOverhangs(k);
    }

    /** `mouseReleaseEvent`: end any drag and limit overhangs around the
        anchor under the pointer, if any. */
    method MouseRelease(ip: Pos)
      requires Valid()
      modifies this
      ensures Valid()
      ensures !dragging && !draggingBezierPoint
      ensures pts == OverhangsFixed(old(pts), FirstHit(old(View()), old(pts), ip), old(dissuadeOverhangs), TransRatio(old(View())), sqrt)
      ensures View() == old(View()) && dissuadeOverhangs == old(dissuadeOverhangs)
      ensures mode == old(mode) && height == old(height)
      ensures draggingBevLeft == old(draggingBevLeft) && draggingPointIndex == old(draggingPointIndex)
    {
      dragging := false;
      draggingBezierPoint := false;
      var index := FindPoint(ip);
      FixOverhangs(index);
    }

    /** `wheelEvent`: zoom the vertical scale; the anchors stay. */
    method Wheel(delta: int)
      requires Valid()
      modifies this
      ensures Valid()
      ensures waveHeight == Zoomed(old(waveHeight), delta)
      ensures pts == old(pts) && dissuadeOverhangs == old(dissuadeOverhangs)
      ensures graphLeft == old(graphLeft) && graphHeight == old(graphHeight) && posY0 == old(posY0)
      ensures posEdge == old(posEdge) && width == old(width) && height == old(height) && mode == old(mode)
      ensures dragging == old(dragging) && draggingBezierPoint == old(draggingBezierPoint)
      ensures draggingBevLeft == old(draggingBevLeft) && draggingPointIndex == old(draggingPointIndex)
    {
      if delta > 0 {
        waveHeight := waveHeight / 1.1;  // turn up: zoom in
      }
      if delta < 0 {
        waveHeight := waveHeight * 1.1;  // turn down: zoom out
      }
    }
  }

  /** A right press on the anchor being dragged, when that anchor is the
      last one, deletes it but leaves the drag on: the held index then
      points one past the end of the list, and the next move with the left
      button held would read outside it. */
  method RightPressOnDraggedLast(w: ArbitraryWavWidget, ip: Pos)
    requires w.Valid() && w.dragging && |w.pts| >= 2
    requires w.draggingPointIndex == |w.pts| - 1 && FirstHit(w.View(), w.pts, ip) == |w.pts| - 1
    modifies w
    ensures w.Valid() && w.dragging && w.draggingPointIndex == |w.pts|
  {
    RightClickDeleteLast(w.View(), w.pts, ip);
    w.MousePress(RightButton, ip);
  }
}
