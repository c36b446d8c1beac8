// The ordered anchor list of the curve editor (arbitrarywavwidget.cpp) as
// values: sorting by radius, the 8-pixel hit test, insert-on-click with its
// handle seeding, delete-on-right-click, the two kinds of drag and the
// overhang limiter. The editor object in widget.dfy applies these to its
// own list.

module AnchorList {
  import opened Numerics
  import opened CPoints
  import opened CPointLemmas
  import opened Mapper

  /** A mouse position in widget pixels. */
  datatype Pos = Pos(x: int, y: int)

  /** `comparePoints` orders anchors by radius; `sortPoints` leaves the list
      ordered by it. */
  predicate SortedByX(s: seq<Anchor>)
  {
    forall i, j :: 0 <= i < j < |s| ==> s[i].x <= s[j].x
  }

  /** The anchor positions of a list, in list order. */
  function Positions(s: seq<Anchor>): (r: seq<(real, real)>)
    ensures |r| == |s|
  {
    seq(|s|, i requires 0 <= i < |s| => (s[i].x, s[i].y))
  }

  /** Where the anchors of a list are, ignoring order and handles. */
  function Spots(s: seq<Anchor>): multiset<(real, real)>
  {
    multiset(Positions(s))
  }

  lemma PositionsAppend(a: seq<Anchor>, b: seq<Anchor>)
    ensures Positions(a + b) == Positions(a) + Positions(b)
  {
    var l, r := Positions(a + b), Positions(a) + Positions(b);
    forall i | 0 <= i < |a| + |b| ensures l[i] == r[i] {
      if i < |a| {
        assert (a + b)[i] == a[i];
      } else {
        assert (a + b)[i] == b[i - |a|];
      }
    }
  }

  lemma SpotsAppend(a: seq<Anchor>, b: seq<Anchor>)
    ensures Spots(a + b) == Spots(a) + Spots(b)
  {
    PositionsAppend(a, b);
  }

  lemma SpotsOne(a: Anchor)
    ensures Spots([a]) == multiset{(a.x, a.y)}
  {
    assert Positions([a]) == [(a.x, a.y)];
  }

  /** Lists whose anchors sit at the same places index by index have the
      same spots. */
  lemma SpotsPointwise(a: seq<Anchor>, b: seq<Anchor>)
    requires |a| == |b|
    requires forall j :: 0 <= j < |a| ==> a[j].x == b[j].x && a[j].y == b[j].y
    ensures Spots(a) == Spots(b)
  {
    assert Positions(a) == Positions(b);
  }

  /** The spots of a list are those before `k`, the spot of `k`, and those
      after it. */
  lemma SpotsSplit(s: seq<Anchor>, k: int)
    requires 0 <= k < |s|
    ensures Spots(s) == Spots(s[..k]) + multiset{(s[k].x, s[k].y)} + Spots(s[k + 1..])
  {
    assert s == (s[..k] + [s[k]]) + s[k + 1..];
    PositionsAppend(s[..k] + [s[k]], s[k + 1..]);
    PositionsAppend(s[..k], [s[k]]);
    assert Positions([s[k]]) == [(s[k].x, s[k].y)];
  }

  /** Replacing one anchor replaces one spot. */
  lemma SpotsUpdate(s: seq<Anchor>, k: int, b: Anchor)
    requires 0 <= k < |s|
    ensures Spots(s[k := b]) + multiset{(s[k].x, s[k].y)} == Spots(s) + multiset{(b.x, b.y)}
  {
    var u := s[k := b];
    SpotsSplit(s, k);
    SpotsSplit(u, k);
    assert u[..k] == s[..k] && u[k + 1..] == s[k + 1..];
  }

  /** One step of the sort: `a` goes before the first anchor not to its
      left, so that anchors of equal radius keep their order. */
  function InsertByX(a: Anchor, s: seq<Anchor>): (r: seq<Anchor>)
    ensures |r| == |s| + 1
  {
    if s == [] then [a]
    else if a.x <= s[0].x then [a] + s
    else [s[0]] + InsertByX(a, s[1..])
  }

  /** Inserting adds exactly `a`. */
  lemma {:induction false} InsertByXPermutes(a: Anchor, s: seq<Anchor>)
    ensures multiset(InsertByX(a, s)) == multiset(s) + multiset{a}
    decreases |s|
  {
    if s != [] && a.x > s[0].x {
      InsertByXPermutes(a, s[1..]);
      assert s == [s[0]] + s[1..];
    }
  }

  /** Inserting adds exactly the spot of `a`. */
  lemma {:induction false} InsertByXSpots(a: Anchor, s: seq<Anchor>)
    ensures Spots(InsertByX(a, s)) == Spots(s) + multiset{(a.x, a.y)}
    decreases |s|
  {
    if s == [] || a.x <= s[0].x {
      assert InsertByX(a, s) == [a] + s;
      SpotsAppend([a], s);
    } else {
      var t := InsertByX(a, s[1..]);
      InsertByXSpots(a, s[1..]);
      assert InsertByX(a, s) == [s[0]] + t;
      SpotsAppend([s[0]], t);
      assert s == [s[0]] + s[1..];
      SpotsAppend([s[0]], s[1..]);
    }
  }

  predicate AllAtLeast(s: seq<Anchor>, m: real)
  {
    forall i :: 0 <= i < |s| ==> s[i].x >= m
  }

  lemma {:induction false} InsertByXBound(a: Anchor, s: seq<Anchor>, m: real)
    requires AllAtLeast(s, m) && a.x >= m
    ensures AllAtLeast(InsertByX(a, s), m)
    decreases |s|
  {
    if s != [] && a.x > s[0].x {
      InsertByXBound(a, s[1..], m);
    }
  }

  /** Inserting into an ordered list keeps it ordered. */
  lemma {:induction false} InsertByXSorted(a: Anchor, s: seq<Anchor>)
    requires SortedByX(s)
    ensures SortedByX(InsertByX(a, s))
    decreases |s|
  {
    if s == [] {
    } else if a.x <= s[0].x {
      assert AllAtLeast(s, a.x) by {
        forall i | 0 <= i < |s| ensures s[i].x >= a.x {
          if i > 0 { assert s[0].x <= s[i].x; }
        }
      }
      ConsSorted(a, s);
    } else {
      InsertByXSorted(a, s[1..]);
      assert AllAtLeast(s[1..], s[0].x) by {
        forall i | 0 <= i < |s[1..]| ensures s[1..][i].x >= s[0].x {
          assert s[1..][i] == s[i + 1];
        }
      }
      InsertByXBound(a, s[1..], s[0].x);
      ConsSorted(s[0], InsertByX(a, s[1..]));
    }
  }

  /** An anchor no further out than any of an ordered list goes in front. */
  lemma ConsSorted(a: Anchor, s: seq<Anchor>)
    requires SortedByX(s) && AllAtLeast(s, a.x)
    ensures SortedByX([a] + s)
  {
    var r := [a] + s;
    forall i, j | 0 <= i < j < |r| ensures r[i].x <= r[j].x {
      assert r[j] == s[j - 1];
      if i > 0 {
        assert r[i] == s[i - 1];
      }
    }
  }

  /** `sortPoints`: the anchors ordered by radius. */
  function SortByX(s: seq<Anchor>): (r: seq<Anchor>)
    ensures |r| == |s| && SortedByX(r)
  {
    if s == [] then []
    else
      var t := SortByX(s[1..]);
      InsertByXSorted(s[0], t);
      InsertByX(s[0], t)
  }

  /** Sorting only reorders: the same anchors. */
  lemma {:induction false} SortByXPermutes(s: seq<Anchor>)
    ensures multiset(SortByX(s)) == multiset(s)
    decreases |s|
  {
    if s != [] {
      assert s == [s[0]] + s[1..];
      SortByXPermutes(s[1..]);
      InsertByXPermutes(s[0], SortByX(s[1..]));
    }
  }

  /** Sorting keeps the spots. */
  lemma {:induction false} SortByXSpots(s: seq<Anchor>)
    ensures Spots(SortByX(s)) == Spots(s)
    decreases |s|
  {
    if s != [] {
      SortByXSpots(s[1..]);
      InsertByXSpots(s[0], SortByX(s[1..]));
      assert s == [s[0]] + s[1..];
      PositionsAppend([s[0]], s[1..]);
    }
  }

  /** Sorting a list that is already in order changes nothing. */
  lemma {:induction false} SortByXOfSorted(s: seq<Anchor>)
    requires SortedByX(s)
    ensures SortByX(s) == s
  {
    if s != [] {
      SortByXOfSorted(s[1..]);
      assert s == [s[0]] + s[1..];
    }
  }

  /** The hit test of `findPoint`: the pixel position of (`x`, `y`) lies
      strictly within 8 pixels of `p` on both axes. */
  predicate Near(v: View, p: Pos, x: real, y: real)
    requires NonDegenerate(v)
  {
    Abs(p.x - PixelX(v, x)) < 8 && Abs(p.y - PixelY(v, y)) < 8
  }

  function FirstHitFrom(v: View, s: seq<Anchor>, p: Pos, i: nat): (r: int)
    requires NonDegenerate(v) && i <= |s|
    ensures r == -1 || i <= r < |s|
    ensures r == -1 ==> forall j :: i <= j < |s| ==> !Near(v, p, s[j].x, s[j].y)
    ensures r >= 0 ==> Near(v, p, s[r].x, s[r].y)
    ensures r >= 0 ==> forall j :: i <= j < r ==> !Near(v, p, s[j].x, s[j].y)
    decreases |s| - i
  {
    if i == |s| then -1
    else if Near(v, p, s[i].x, s[i].y) then i
    else FirstHitFrom(v, s, p, i + 1)
  }

  /** `findPoint`: -1 when no anchor is under `p`, otherwise the smallest
      index of one that is. */
  function FirstHit(v: View, s: seq<Anchor>, p: Pos): (r: int)
    requires NonDegenerate(v)
    ensures -1 <= r < |s|
    ensures r == -1 <==> forall j :: 0 <= j < |s| ==> !Near(v, p, s[j].x, s[j].y)
    ensures r >= 0 ==> Near(v, p, s[r].x, s[r].y)
    ensures r >= 0 ==> forall j :: 0 <= j < r ==> !Near(v, p, s[j].x, s[j].y)
  {
    FirstHitFrom(v, s, p, 0)
  }

  /** Which handle a press picks up in Bezier mode. */
  datatype HandleHit = NoHandle | LeftHandle(i: nat) | RightHandle(i: nat)

  predicate HandlesMissed(v: View, p: Pos, a: Anchor)
    requires NonDegenerate(v)
  {
    !Near(v, p, a.lx, a.ly) && !Near(v, p, a.rx, a.ry)
  }

  function FirstHandleFrom(v: View, s: seq<Anchor>, p: Pos, i: nat): (h: HandleHit)
    requires NonDegenerate(v) && i <= |s|
    ensures h.NoHandle? ==> forall j :: i <= j < |s| ==> HandlesMissed(v, p, s[j])
    ensures h.LeftHandle? ==> i <= h.i < |s| && Near(v, p, s[h.i].lx, s[h.i].ly)
    ensures h.RightHandle? ==>
      i <= h.i < |s| && Near(v, p, s[h.i].rx, s[h.i].ry) && !Near(v, p, s[h.i].lx, s[h.i].ly)
    ensures !h.NoHandle? ==> forall j :: i <= j < h.i ==> HandlesMissed(v, p, s[j])
    decreases |s| - i
  {
    if i == |s| then NoHandle
    else if Near(v, p, s[i].lx, s[i].ly) then LeftHandle(i)
    else if Near(v, p, s[i].rx, s[i].ry) then RightHandle(i)
    else FirstHandleFrom(v, s, p, i + 1)
  }

  /** The handle search of a Bezier-mode press: the first anchor, by index,
      with a handle under `p`; its left handle before its right one. */
  function FirstHandle(v: View, s: seq<Anchor>, p: Pos): (h: HandleHit)
    requires NonDegenerate(v)
    ensures h.NoHandle? <==> forall j :: 0 <= j < |s| ==> HandlesMissed(v, p, s[j])
    ensures h.LeftHandle? ==> h.i < |s| && Near(v, p, s[h.i].lx, s[h.i].ly)
    ensures h.RightHandle? ==>
      h.i < |s| && Near(v, p, s[h.i].rx, s[h.i].ry) && !Near(v, p, s[h.i].lx, s[h.i].ly)
    ensures !h.NoHandle? ==> forall j :: 0 <= j < h.i ==> HandlesMissed(v, p, s[j])
  {
    FirstHandleFrom(v, s, p, 0)
  }

  /** A right click on anchor `i` (-1 when it hit none). Anchor 0 is
      permanent. */
  function RightClickDelete(s: seq<Anchor>, i: int): (r: seq<Anchor>)
    requires -1 <= i < |s|
    ensures i <= 0 ==> r == s
    ensures i > 0 ==> |r| == |s| - 1
    ensures i > 0 ==> forall j :: 0 <= j < i ==> r[j] == s[j]
    ensures i > 0 ==> forall j :: i <= j < |r| ==> r[j] == s[j + 1]
  {
    if i > 0 then s[..i] + s[i + 1..] else s
  }

  /** Deleting keeps the list ordered and keeps anchor 0. */
  lemma RightClickDeleteSorted(s: seq<Anchor>, i: int)
    requires 0 < i < |s| && SortedByX(s)
    ensures var r := RightClickDelete(s, i); SortedByX(r) && r[0] == s[0]
  {
    var r := RightClickDelete(s, i);
    forall a, b | 0 <= a < b < |r| ensures r[a].x <= r[b].x {
      var a' := if a < i then a else a + 1;
      var b' := if b < i then b else b + 1;
      assert r[a] == s[a'] && r[b] == s[b'];
    }
  }

  /** Deleting removes exactly the spot of the deleted anchor. */
  lemma RightClickDeleteSpots(s: seq<Anchor>, i: int)
    requires 0 < i < |s|
    ensures Spots(RightClickDelete(s, i)) + multiset{(s[i].x, s[i].y)} == Spots(s)
  {
    SpotsSplit(s, i);
    assert Spots(RightClickDelete(s, i)) == Spots(s[..i]) + Spots(s[i + 1..]) by {
      SpotsAppend(s[..i], s[i + 1..]);
    }
  }

  /** A right click on the last anchor deletes it, so an index that held
      that anchor (a drag in progress) now points one past the end. */
  lemma RightClickDeleteLast(v: View, s: seq<Anchor>, p: Pos)
    requires NonDegenerate(v) && |s| >= 2 && FirstHit(v, s, p) == |s| - 1
    ensures |RightClickDelete(s, FirstHit(v, s, p))| == FirstHit(v, s, p)
  {
  }

  /** The anchor a left click on empty space creates: at the inverse-mapped
      pointer, with handles `bezDist` out. */
  function ClickedAnchor(v: View, p: Pos, bezDist: real): (a: Anchor)
    requires NonDegenerate(v)
    ensures a.x == MmX(v, p.x) && a.y == WaveY(v, p.y)
    ensures a.lx == a.x - bezDist && a.rx == a.x + bezDist && a.ly == a.y && a.ry == a.y
  {
    NewAnchor(MmX(v, p.x), WaveY(v, p.y), bezDist)
  }

  /** The clicked anchor lies under the pointer. */
  lemma ClickedAnchorNear(v: View, p: Pos, bezDist: real)
    requires NonDegenerate(v)
    ensures var a := ClickedAnchor(v, p, bezDist); Near(v, p, a.x, a.y)
  {
    PixelXOfMmX(v, p.x);
    PixelYOfWaveY(v, p.y);
  }

  /** The left half of the seeding: a new anchor `k` with a left
      neighbour gets its left handle half the gap out, and the neighbour's
      right handle is aimed half the gap out as well. */
  function SeedLeft(s: seq<Anchor>, k: int, ratio: real, sqrt: real -> real): (r: seq<Anchor>)
    requires 0 <= k < |s| && ratio > 0.0 && IsSqrt(sqrt)
    ensures |r| == |s|
    ensures forall j :: 0 <= j < |s| ==> r[j].x == s[j].x && r[j].y == s[j].y
  {
    if k > 0 then
      var d := AbsR(s[k].x - s[k - 1].x) / 2.0;
      s[k := s[k].(lx := s[k].x - d)]
       [k - 1 := WithRight(s[k - 1], s[k - 1].x + d, s[k - 1].ry, ratio, sqrt)]
    else s
  }

  /** The right half of the seeding: the last anchor's right handle goes
      10 mm out; otherwise it goes half the gap to the next anchor, whose
      left handle is aimed half the gap back. */
  function SeedRight(s: seq<Anchor>, k: int, ratio: real, sqrt: real -> real): (r: seq<Anchor>)
    requires 0 <= k < |s| && ratio > 0.0 && IsSqrt(sqrt)
    ensures |r| == |s|
    ensures forall j :: 0 <= j < |s| ==> r[j].x == s[j].x && r[j].y == s[j].y
  {
    if k == |s| - 1 then s[k := s[k].(rx := s[k].x + 10.0)]
    else
      var d := AbsR(s[k].x - s[k + 1].x) / 2.0;
      s[k := s[k].(rx := s[k].x + d)]
       [k + 1 := WithLeft(s[k + 1], s[k + 1].x - d, s[k + 1].ly, ratio, sqrt)]
  }

  /** Insert-on-click, for a press that hit no anchor (and, in Bezier mode,
      no handle): append the clicked anchor, sort, find it again by the hit
      test and seed its handles. Returns the list and the dragged index. */
  function ClickInsert(v: View, s: seq<Anchor>, p: Pos, bezDist: real, ratio: real, sqrt: real -> real)
    : (r: (seq<Anchor>, int))
    requires NonDegenerate(v) && ratio > 0.0 && IsSqrt(sqrt)
    requires FirstHit(v, s, p) == -1
    ensures 0 <= r.1 < |r.0|
  {
    var a := ClickedAnchor(v, p, bezDist);
    var t := SortByX(s + [a]);
    ClickedAnchorNear(v, p, bezDist);
    SortByXPermutes(s + [a]);
    assert a in multiset(t);
    var k := FirstHit(v, t, p);
    (SeedRight(SeedLeft(t, k, ratio, sqrt), k, ratio, sqrt), k)
  }

  /** After sorting, the anchor found under the pointer is the clicked one:
      no anchor of the old list was under it. */
  lemma ClickFindsNewAnchor(v: View, s: seq<Anchor>, p: Pos, bezDist: real)
    requires NonDegenerate(v) && FirstHit(v, s, p) == -1
    ensures var a := ClickedAnchor(v, p, bezDist);
      var t := SortByX(s + [a]);
      var k := FirstHit(v, t, p);
      0 <= k < |t| && t[k] == a
  {
    var a := ClickedAnchor(v, p, bezDist);
    var t := SortByX(s + [a]);
    ClickedAnchorNear(v, p, bezDist);
    SortByXPermutes(s + [a]);
    assert a in multiset(t);
    var k := FirstHit(v, t, p);
    assert t[k] in multiset(s) + multiset{a} by { assert t[k] in multiset(t); }
    assert Near(v, p, t[k].x, t[k].y);
    assert t[k] !in s;
    assert t[k] !in multiset(s);
    assert t[k] in multiset{a};
  }

  /** A list with the same radii index by index as an ordered list is
      ordered. */
  lemma SortedPointwise(a: seq<Anchor>, b: seq<Anchor>)
    requires |a| == |b| && SortedByX(b)
    requires forall j :: 0 <= j < |a| ==> a[j].x == b[j].x
    ensures SortedByX(a)
  {
    forall i, j | 0 <= i < j < |a| ensures a[i].x <= a[j].x {
      assert a[i].x == b[i].x && a[j].x == b[j].x;
    }
  }

  /** Seeding around anchor `k`: what happens to it and its neighbours. */
  lemma SeedFacts(t: seq<Anchor>, k: int, ratio: real, sqrt: real -> real)
    requires 0 <= k < |t| && ratio > 0.0 && IsSqrt(sqrt)
    ensures var r := SeedRight(SeedLeft(t, k, ratio, sqrt), k, ratio, sqrt);
      var a := t[k];
      |r| == |t| && r[k].x == a.x && r[k].y == a.y && r[k].ly == a.ly && r[k].ry == a.ry &&
      (k == 0 ==> r[k].lx == a.lx) &&
      (k > 0 ==> r[k].lx == a.x - AbsR(a.x - r[k - 1].x) / 2.0 &&
                 r[k - 1].rx == MaxR(r[k - 1].x + AbsR(a.x - r[k - 1].x) / 2.0, r[k - 1].x + MinHandleGap)) &&
      (k == |t| - 1 ==> r[k].rx == a.x + 10.0) &&
      (k < |t| - 1 ==> r[k].rx == a.x + AbsR(a.x - r[k + 1].x) / 2.0 &&
                       r[k + 1].lx == MinR(r[k + 1].x - AbsR(a.x - r[k + 1].x) / 2.0, r[k + 1].x - MinHandleGap))
  {
    var t1 := SeedLeft(t, k, ratio, sqrt);
    var r := SeedRight(t1, k, ratio, sqrt);
    assert t1[k].x == t[k].x && t1[k].rx == t[k].rx && t1[k].ly == t[k].ly && t1[k].ry == t[k].ry;
    if k > 0 {
      assert t1[k].lx == t[k].x - AbsR(t[k].x - t[k - 1].x) / 2.0;
      assert r[k - 1] == t1[k - 1] && t1[k - 1].x == t[k - 1].x;
    }
    if k < |t| - 1 {
      assert t1[k + 1] == t[k + 1] && r[k + 1].x == t[k + 1].x;
    }
  }

  /** Insert-on-click adds exactly the clicked spot, keeps the list ordered,
      and the returned index is the new anchor, with level handles. */
  lemma ClickInsertPlaces(v: View, s: seq<Anchor>, p: Pos, bezDist: real, ratio: real, sqrt: real -> real)
    requires NonDegenerate(v) && ratio > 0.0 && IsSqrt(sqrt)
    requires FirstHit(v, s, p) == -1
    ensures var rk := ClickInsert(v, s, p, bezDist, ratio, sqrt);
      var r, k := rk.0, rk.1;
      var a := ClickedAnchor(v, p, bezDist);
      |r| == |s| + 1 && SortedByX(r) &&
      Spots(r) == Spots(s) + multiset{(a.x, a.y)} &&
      r[k].x == a.x && r[k].y == a.y && r[k].ly == a.y && r[k].ry == a.y
  {
    var a := ClickedAnchor(v, p, bezDist);
    var t, k := ClickInsertUnfolded(v, s, p, bezDist, ratio, sqrt);
    var t1 := SeedLeft(t, k, ratio, sqrt);
    var r := SeedRight(t1, k, ratio, sqrt);
    SeedFacts(t, k, ratio, sqrt);
    assert Spots(t) == Spots(s) + multiset{(a.x, a.y)} by {
      SortByXSpots(s + [a]);
      SpotsAppend(s, [a]);
      SpotsOne(a);
    }
    assert Spots(r) == Spots(t) by {
      SpotsPointwise(t1, t);
      SpotsPointwise(r, t1);
    }
    assert SortedByX(r) by {
      SortedPointwise(t1, t);
      SortedPointwise(r, t1);
    }
  }

  /** The handle seeding of insert-on-click: the new anchor's left handle
      goes half the gap to its left neighbour (or keeps `bezDist` when it is
      first), its right handle half the gap to its right neighbour (or 10 mm
      when it is last), and each neighbour's facing handle is aimed half the
      gap towards it. */
  lemma ClickInsertSeeds(v: View, s: seq<Anchor>, p: Pos, bezDist: real, ratio: real, sqrt: real -> real)
    requires NonDegenerate(v) && ratio > 0.0 && IsSqrt(sqrt)
    requires FirstHit(v, s, p) == -1
    ensures var rk := ClickInsert(v, s, p, bezDist, ratio, sqrt);
      var r, k := rk.0, rk.1;
      var a := ClickedAnchor(v, p, bezDist);
      (k == 0 ==> r[k].lx == a.x - bezDist) &&
      (k > 0 ==> r[k].lx == a.x - AbsR(a.x - r[k - 1].x) / 2.0 &&
                 r[k - 1].rx == MaxR(r[k - 1].x + AbsR(a.x - r[k - 1].x) / 2.0, r[k - 1].x + MinHandleGap)) &&
      (k == |r| - 1 ==> r[k].rx == a.x + 10.0) &&
      (k < |r| - 1 ==> r[k].rx == a.x + AbsR(a.x - r[k + 1].x) / 2.0 &&
                       r[k + 1].lx == MinR(r[k + 1].x - AbsR(a.x - r[k + 1].x) / 2.0, r[k + 1].x - MinHandleGap))
  {
    var t, k := ClickInsertUnfolded(v, s, p, bezDist, ratio, sqrt);
    SeedFacts(t, k, ratio, sqrt);
  }

  /** Insert-on-click as the seeding of the sorted list around the clicked
      anchor. */
  lemma ClickInsertUnfolded(v: View, s: seq<Anchor>, p: Pos, bezDist: real, ratio: real, sqrt: real -> real)
      returns (t: seq<Anchor>, k: int)
    requires NonDegenerate(v) && ratio > 0.0 && IsSqrt(sqrt)
    requires FirstHit(v, s, p) == -1
    ensures t == SortByX(s + [ClickedAnchor(v, p, bezDist)])
    ensures 0 <= k < |t| && t[k] == ClickedAnchor(v, p, bezDist)
    ensures ClickInsert(v, s, p, bezDist, ratio, sqrt) == (SeedRight(SeedLeft(t, k, ratio, sqrt), k, ratio, sqrt), k)
  {
    t := SortByX(s + [ClickedAnchor(v, p, bezDist)]);
    k := FirstHit(v, t, p);
    ClickFindsNewAnchor(v, s, p, bezDist);
  }

  /** Where a dragged anchor goes along the radius: the pointer's radius,
      except that anchor 0 is pinned at the centre, a pointer past the
      widget's right edge gives that edge's radius (even for anchor 0), and
      a pointer left of the graph gives the centre. */
  function DraggedX(v: View, k: int, p: Pos): real
    requires NonDegenerate(v)
  {
    if p.x < v.graphLeft then 0.0
    else if p.x > v.width then MmX(v, v.width)
    else if k == 0 then 0.0
    else MmX(v, p.x)
  }

  /** Anchor `k` dragged to `p`: it moves with its handles. */
  function Dragged(v: View, a: Anchor, k: int, p: Pos): (b: Anchor)
    requires NonDegenerate(v)
    ensures b.x == DraggedX(v, k, p) && b.y == WaveY(v, p.y)
    ensures b.lx - b.x == a.lx - a.x && b.rx - b.x == a.rx - a.x
    ensures b.ly - b.y == a.ly - a.y && b.ry - b.y == a.ry - a.y
  {
    WithX(WithY(a, WaveY(v, p.y)), DraggedX(v, k, p))
  }

  /** The pair `l`, `n` overhangs when the handles between them are
      together longer than twice the gap between the anchors. */
  predicate Overhangs(l: Anchor, n: Anchor)
  {
    (n.x - n.lx) + (l.rx - l.x) > AbsR(n.x - l.x) * 2.0
  }

  /** The factor both handles between an overhanging pair shrink by. */
  function ScaleBack(l: Anchor, n: Anchor): (sb: real)
    requires Overhangs(l, n)
    ensures 0.0 <= sb < 1.0
  {
    ScaleBackFraction(AbsR(n.x - l.x) * 2.0, (n.x - n.lx) + (l.rx - l.x));
    AbsR(n.x - l.x) * 2.0 / ((n.x - n.lx) + (l.rx - l.x))
  }

  /** `l` with its right handle shrunk by `sb`. */
  function ShrunkRight(l: Anchor, sb: real, ratio: real, sqrt: real -> real): (r: Anchor)
    requires ratio > 0.0 && IsSqrt(sqrt)
    ensures r.x == l.x && r.y == l.y && r.ry == l.ry
    ensures r.rx - r.x == MaxR((l.rx - l.x) * sb, MinHandleGap)
  {
    WithRight(l, l.x + (l.rx - l.x) * sb, l.ry, ratio, sqrt)
  }

  /** `n` with its left handle shrunk by `sb`. */
  function ShrunkLeft(n: Anchor, sb: real, ratio: real, sqrt: real -> real): (r: Anchor)
    requires ratio > 0.0 && IsSqrt(sqrt)
    ensures r.x == n.x && r.y == n.y && r.ly == n.ly
    ensures r.x - r.lx == MaxR((n.x - n.lx) * sb, MinHandleGap)
  {
    WithLeft(n, n.x - (n.x - n.lx) * sb, n.ly, ratio, sqrt)
  }

  /** One pair of neighbours `j`, `j + 1` of the overhang limiter: when the
      two handles reaching into the gap are together longer than twice the
      gap, both are scaled back in x by one factor. */
  function FixPair(s: seq<Anchor>, j: int, ratio: real, sqrt: real -> real): (r: seq<Anchor>)
    requires 0 <= j < |s| - 1 && ratio > 0.0 && IsSqrt(sqrt)
    ensures |r| == |s|
    ensures forall i :: 0 <= i < |s| ==> r[i].x == s[i].x && r[i].y == s[i].y
    ensures forall i :: 0 <= i < |s| && i != j && i != j + 1 ==> r[i] == s[i]
    ensures Overhangs(s[j], s[j + 1]) ==>
      var sb := ScaleBack(s[j], s[j + 1]);
      r[j] == ShrunkRight(s[j], sb, ratio, sqrt) && r[j + 1] == ShrunkLeft(s[j + 1], sb, ratio, sqrt)
    ensures !Overhangs(s[j], s[j + 1]) ==> r == s
  {
    var l := s[j];
    var n := s[j + 1];
    if Overhangs(l, n) then
      var sb := ScaleBack(l, n);
      s[j := ShrunkRight(l, sb, ratio, sqrt)][j + 1 := ShrunkLeft(n, sb, ratio, sqrt)]
    else s
  }

  /** `fixOverhangs(index)`: off unless enabled and `index` is in range;
      then the pair to the left of `index` and, unless `index` is last, the
      pair to its right. */
  function OverhangsFixed(s: seq<Anchor>, index: int, enabled: bool, ratio: real, sqrt: real -> real)
    : (r: seq<Anchor>)
    requires ratio > 0.0 && IsSqrt(sqrt)
    ensures !enabled || index < 0 || index >= |s| ==> r == s
    ensures |r| == |s|
    ensures forall i :: 0 <= i < |s| ==> r[i].x == s[i].x && r[i].y == s[i].y
    ensures forall i :: 0 <= i < |s| && (i < index - 1 || i > index + 1) ==> r[i] == s[i]
  {
    if !enabled || index < 0 || index >= |s| then s
    else
      var t := if index > 0 then FixPair(s, index - 1, ratio, sqrt) else s;
      if index == |t| - 1 then t else FixPair(t, index, ratio, sqrt)
  }

  /** For the last anchor only the pair to its left is limited. */
  lemma OverhangsFixedLast(s: seq<Anchor>, ratio: real, sqrt: real -> real)
    requires ratio > 0.0 && IsSqrt(sqrt) && |s| >= 2
    ensures OverhangsFixed(s, |s| - 1, true, ratio, sqrt) == FixPair(s, |s| - 2, ratio, sqrt)
  {
  }

  /** The scale factor of `fixOverhangs`: in [0, 1) whenever it is used. */
  lemma ScaleBackFraction(limit: real, combined: real)
    requires limit >= 0.0 && combined > limit
    ensures 0.0 <= limit / combined < 1.0
    ensures combined * (limit / combined) == limit
  {
  }

  /** The two inward handle lengths of an overhanging pair, scaled by
      `ScaleBack`, add up to exactly twice the gap. */
  lemma ScaledHandlesFill(l: Anchor, n: Anchor)
    requires Overhangs(l, n)
    ensures (n.x - n.lx) * ScaleBack(l, n) + (l.rx - l.x) * ScaleBack(l, n) == AbsR(n.x - l.x) * 2.0
  {
    var limit := AbsR(n.x - l.x) * 2.0;
    var combined := (n.x - n.lx) + (l.rx - l.x);
    var sb := ScaleBack(l, n);
    ScaleBackFraction(limit, combined);
    assert (n.x - n.lx) * sb + (l.rx - l.x) * sb == combined * sb;
  }

  /** Re-aiming through a handle at the anchor's own height levels the
      opposite handle too. */
  lemma WithLeftLevel(a: Anchor, nx: real, ratio: real, sqrt: real -> real)
    requires ratio > 0.0 && IsSqrt(sqrt)
    ensures var r := WithLeft(a, nx, a.y, ratio, sqrt); r.ly == r.y && r.ry == r.y
  {
    var o, dx := WithLeftOffset(a, nx, a.y, ratio, sqrt);
    assert o.1 * dx == 0.0;
  }

  lemma WithRightLevel(a: Anchor, nx: real, ratio: real, sqrt: real -> real)
    requires ratio > 0.0 && IsSqrt(sqrt)
    ensures var r := WithRight(a, nx, a.y, ratio, sqrt); r.ly == r.y && r.ry == r.y
  {
    var o, dx := WithRightOffset(a, nx, a.y, ratio, sqrt);
    assert o.1 * dx == 0.0;
  }

  /** Dragging anchor `k` to `p`: move it, sort, find the anchor under the
      pointer again and limit overhangs around it. When nothing is under
      the pointer any more the dragged index stays. */
  function DragAnchor(v: View, s: seq<Anchor>, k: int, p: Pos, enabled: bool, ratio: real, sqrt: real -> real)
    : (r: (seq<Anchor>, int))
    requires NonDegenerate(v) && 0 <= k < |s| && ratio > 0.0 && IsSqrt(sqrt)
    ensures 0 <= r.1 < |r.0|
  {
    var t := SortByX(s[k := Dragged(v, s[k], k, p)]);
    var i := FirstHit(v, t, p);
    if i >= 0 then (OverhangsFixed(t, i, enabled, ratio, sqrt), i) else (t, k)
  }

  /** Dragging an anchor keeps the list's length and order and moves
      exactly one spot; inside the graph an anchor other than 0 lands under
      the pointer and is the one tracked afterwards (or one stacked before it). */
  lemma DragAnchorFacts(v: View, s: seq<Anchor>, k: int, p: Pos, enabled: bool, ratio: real, sqrt: real -> real)
    requires NonDegenerate(v) && 0 <= k < |s| && ratio > 0.0 && IsSqrt(sqrt)
    ensures var (r, i) := DragAnchor(v, s, k, p, enabled, ratio, sqrt);
      var b := Dragged(v, s[k], k, p);
      |r| == |s| && SortedByX(r) &&
      Spots(r) + multiset{(s[k].x, s[k].y)} == Spots(s) + multiset{(b.x, b.y)} &&
      (v.graphLeft <= p.x <= v.width && k != 0 ==> Near(v, p, r[i].x, r[i].y))
  {
    var b := Dragged(v, s[k], k, p);
    var u := s[k := b];
    var t := SortByX(u);
    SortByXPermutes(u);
    SortByXSpots(u);
    SpotsUpdate(s, k, b);
    var i := FirstHit(v, t, p);
    if i >= 0 {
      SpotsPointwise(OverhangsFixed(t, i, enabled, ratio, sqrt), t);
    }
    if v.graphLeft <= p.x <= v.width && k != 0 {
      PixelXOfMmX(v, p.x);
      PixelYOfWaveY(v, p.y);
      assert b in multiset(t) by { assert u[k] == b; assert b in multiset(u); }
    }
  }

  /** Dragging handle `left`/right of anchor `k` to `p`: on anchor 0 the
      handle height is forced to the anchor's own, then overhangs around
      `k` are limited. */
  function DragHandle(v: View, s: seq<Anchor>, k: int, left: bool, p: Pos, enabled: bool,
                      ratio: real, sqrt: real -> real): (r: seq<Anchor>)
    requires NonDegenerate(v) && 0 <= k < |s| && ratio > 0.0 && IsSqrt(sqrt)
    ensures |r| == |s|
    ensures forall i :: 0 <= i < |s| ==> r[i].x == s[i].x && r[i].y == s[i].y
  {
    var x := MmX(v, p.x);
    var y := if k == 0 then s[0].y else WaveY(v, p.y);
    var a := if left then WithLeft(s[k], x, y, ratio, sqrt) else WithRight(s[k], x, y, ratio, sqrt);
    OverhangsFixed(s[k := a], k, enabled, ratio, sqrt)
  }

  /** Limiting overhangs around anchor 0 keeps its handles level when they
      are: the only handle it may change is re-aimed at the anchor's height. */
  lemma FixAtZeroKeepsLevel(t: seq<Anchor>, enabled: bool, ratio: real, sqrt: real -> real)
    requires 0 < |t| && ratio > 0.0 && IsSqrt(sqrt)
    requires t[0].ly == t[0].y && t[0].ry == t[0].y
    ensures var r := OverhangsFixed(t, 0, enabled, ratio, sqrt);
      r[0].ly == r[0].y && r[0].ry == r[0].y
  {
    if enabled && |t| > 1 {
      assert OverhangsFixed(t, 0, enabled, ratio, sqrt) == FixPair(t, 0, ratio, sqrt);
      var l, n := t[0], t[1];
      var limit := AbsR(n.x - l.x) * 2.0;
      var combined := (n.x - n.lx) + (l.rx - l.x);
      if combined > limit {
        WithRightLevel(l, l.x + (l.rx - l.x) * (limit / combined), ratio, sqrt);
      }
    }
  }

  /** Dragging a handle of anchor 0 leaves both its handles level with
      it, whether or not overhangs are limited afterwards. */
  lemma DragHandleLevelsAnchorZero(v: View, s: seq<Anchor>, left: bool, p: Pos, enabled: bool,
                                   ratio: real, sqrt: real -> real)
    requires NonDegenerate(v) && 0 < |s| && ratio > 0.0 && IsSqrt(sqrt)
    ensures var r := DragHandle(v, s, 0, left, p, enabled, ratio, sqrt);
      r[0].ly == r[0].y && r[0].ry == r[0].y
  {
    var x := MmX(v, p.x);
    var a := if left then WithLeft(s[0], x, s[0].y, ratio, sqrt) else WithRight(s[0], x, s[0].y, ratio, sqrt);
    if left { WithLeftLevel(s[0], x, ratio, sqrt); } else { WithRightLevel(s[0], x, ratio, sqrt); }
    var t := s[0 := a];
    assert DragHandle(v, s, 0, left, p, enabled, ratio, sqrt) == OverhangsFixed(t, 0, enabled, ratio, sqrt);
    FixAtZeroKeepsLevel(t, enabled, ratio, sqrt);
  }
}
