/**
 * `TyGL::ClipRect` (ClipRectTyGL.h and ClipRectTyGL.cpp): a clip rectangle
 * kept twice, as integer edges and as float edges, in the order left,
 * bottom, right, top. Every mutator rewrites both arrays so that the float
 * edges mirror the integer ones.
 *
 * Floats are modelled as `real`; the int-to-float conversion is taken to be
 * exact.
 */
module ClipRectTyGL {
  import opened TyGLDefs
  import opened Geometry

  class ClipRect {
    const intPoints: array<int>
    const floatPoints: array<real>

    /** Both edge arrays hold four entries. */
    ghost predicate Valid()
      reads this
    {
      intPoints.Length == 4 && floatPoints.Length == 4
    }

    /** The float edges equal the integer edges. */
    ghost predicate Mirrors()
      reads this, intPoints, floatPoints
      requires Valid()
    {
      forall k :: 0 <= k < 4 ==> floatPoints[k] == intPoints[k] as real
    }

    /** left <= right and bottom <= top. */
    ghost predicate Ordered()
      reads this, intPoints
      requires Valid()
    {
      intPoints[0] <= intPoints[2] && intPoints[1] <= intPoints[3]
    }

    /** The four integer edges, left, bottom, right, top. */
    function Edges(): (r: (int, int, int, int))
      reads this, intPoints
      requires Valid()
      ensures r.0 == intPoints[0] && r.1 == intPoints[1] && r.2 == intPoints[2] && r.3 == intPoints[3]
    {
      (intPoints[0], intPoints[1], intPoints[2], intPoints[3])
    }

    function LeftInteger(): int reads this, intPoints requires Valid() { intPoints[0] }
    function BottomInteger(): int reads this, intPoints requires Valid() { intPoints[1] }
    function RightInteger(): int reads this, intPoints requires Valid() { intPoints[2] }
    function TopInteger(): int reads this, intPoints requires Valid() { intPoints[3] }

    function Left(): real reads this, floatPoints requires Valid() { floatPoints[0] }
    function Bottom(): real reads this, floatPoints requires Valid() { floatPoints[1] }
    function Right(): real reads this, floatPoints requires Valid() { floatPoints[2] }
    function Top(): real reads this, floatPoints requires Valid() { floatPoints[3] }

    /** The default constructor: every edge 0. */
    constructor ()
      ensures Valid() && Mirrors() && Ordered()
      ensures Edges() == (0, 0, 0, 0)
      ensures fresh(intPoints) && fresh(floatPoints)
    {
      intPoints := new int[4](_ => 0);
      floatPoints := new real[4](_ => 0.0);
    }

    /** The edge constructor, whose callers pass ordered edges. */
    constructor FromEdges(left: int, bottom: int, right: int, top: int)
      requires left <= right && bottom <= top
      ensures Valid() && Mirrors() && Ordered()
      ensures Edges() == (left, bottom, right, top)
      ensures fresh(intPoints) && fresh(floatPoints)
    {
      var ints := new int[4];
      ints[0], ints[1], ints[2], ints[3] := left, bottom, right, top;
      var floats := new real[4];
      floats[0], floats[1], floats[2], floats[3] := left as real, bottom as real, right as real, top as real;
      intPoints, floatPoints := ints, floats;
    }

    /** `createRect`: the rectangle `(x, y, maxX, maxY)` of an IntRect. */
    static method CreateRect(rect: IntRect) returns (c: ClipRect)
      requires rect.width >= 0 && rect.height >= 0
      ensures c.Valid() && c.Mirrors() && c.Ordered()
      ensures c.Edges() == (rect.x, rect.y, rect.MaxX(), rect.MaxY())
      ensures fresh(c) && fresh(c.intPoints) && fresh(c.floatPoints)
    {
      c := new ClipRect.FromEdges(rect.x, rect.y, rect.MaxX(), rect.MaxY());
    }

    /** Copies the integer edges into the float edges. */
    method MirrorEdges()
      requires Valid()
      modifies floatPoints
      ensures Mirrors()
    {
      floatPoints[0] := intPoints[0] as real;
      floatPoints[1] := intPoints[1] as real;
      floatPoints[2] := intPoints[2] as real;
      floatPoints[3] := intPoints[3] as real;
    }

    /** `intersect(left, bottom, right, top)`: each new edge is clamped into
        the current rectangle, the right edge into the range that starts at
        the already updated left edge, and the top edge likewise. */
    method Intersect(left: int, bottom: int, right: int, top: int)
      requires Valid()
      requires left <= right && bottom <= top
      modifies intPoints, floatPoints
      ensures Valid() && Mirrors()
      ensures old(Ordered()) ==> Ordered()
      ensures Edges() == IntersectEdges(old(Edges()), (left, bottom, right, top))
    {
      intPoints[0] := Clamp(left, intPoints[0], intPoints[2]);
      intPoints[1] := Clamp(bottom, intPoints[1], intPoints[3]);
      intPoints[2] := Clamp(right, intPoints[0], intPoints[2]);
      intPoints[3] := Clamp(top, intPoints[1], intPoints[3]);
      MirrorEdges();
    }

    /** `intersect(IntRect)`. */
    method IntersectRect(rect: IntRect)
      requires Valid()
      requires rect.width >= 0 && rect.height >= 0
      modifies intPoints, floatPoints
      ensures Valid() && Mirrors()
      ensures old(Ordered()) ==> Ordered()
      ensures Edges() == IntersectEdges(old(Edges()), (rect.x, rect.y, rect.MaxX(), rect.MaxY()))
    {
      Intersect(rect.x, rect.y, rect.MaxX(), rect.MaxY());
    }

    /** `operator=(const IntRect&)`: stores `x, y, maxX, maxY` with no ordering check. */
    method Assign(rect: IntRect)
      requires Valid()
      modifies intPoints, floatPoints
      ensures Valid() && Mirrors()
      ensures Edges() == (rect.x, rect.y, rect.MaxX(), rect.MaxY())
    {
      intPoints[0], intPoints[1], intPoints[2], intPoints[3] := rect.x, rect.y, rect.MaxX(), rect.MaxY();
      MirrorEdges();
    }

    /** `setDimension(width, height)`: the rectangle `(0, 0, width, height)`. */
    method SetDimension(width: int, height: int)
      requires Valid()
      requires width >= 0 && height >= 0
      modifies intPoints, floatPoints
      ensures Valid() && Mirrors() && Ordered()
      ensures Edges() == (0, 0, width, height)
    {
      intPoints[0], intPoints[1], intPoints[2], intPoints[3] := 0, 0, width, height;
      MirrorEdges();
    }

    /** `intersects(l, b, r, t)`: the open rectangles overlap. */
    function Intersects(l: real, b: real, r: real, t: real): (res: bool)
      reads this, floatPoints
      requires Valid()
      ensures res ==> l < Right() && Left() < r && b < Top() && Bottom() < t
      ensures l < r && Left() < Right() && b < t && Bottom() < Top() ==>
        (res <==> Overlap(l, r, Left(), Right()) && Overlap(b, t, Bottom(), Top()))
    {
      l < Right() && r > Left() && b < Top() && t > Bottom()
    }

    /** `intersects(FloatRect)`: the rectangle `(x, y, maxX, maxY)`. */
    function IntersectsRect(rect: FloatRect): (res: bool)
      reads this, floatPoints
      requires Valid()
      ensures res <==> Intersects(rect.fx, rect.fy, rect.MaxX(), rect.MaxY())
    {
      Intersects(rect.fx, rect.fy, rect.fx + rect.fwidth, rect.fy + rect.fheight)
    }

    /** `size()`: `IntSize(right - left, top - bottom)` from the float edges. */
    function Size(): (r: (int, int))
      reads this, intPoints, floatPoints
      requires Valid() && Mirrors()
      ensures r == (RightInteger() - LeftInteger(), TopInteger() - BottomInteger())
      ensures Ordered() ==> r.0 >= 0 && r.1 >= 0
    {
      assert floatPoints[0] == intPoints[0] as real && floatPoints[2] == intPoints[2] as real;
      assert floatPoints[1] == intPoints[1] as real && floatPoints[3] == intPoints[3] as real;
      TruncateExact(intPoints[2] - intPoints[0]);
      TruncateExact(intPoints[3] - intPoints[1]);
      (TruncateToInt(Right() - Left()), TruncateToInt(Top() - Bottom()))
    }
  }

  /** The open intervals `(lo1, hi1)` and `(lo2, hi2)` share a point. */
  predicate Overlap(lo1: real, hi1: real, lo2: real, hi2: real)
  {
    MaxReal(lo1, lo2) < MinReal(hi1, hi2)
  }

  /** The edges `intersect` produces from the current and the requested edges. */
  function IntersectEdges(cur: (int, int, int, int), req: (int, int, int, int)): (r: (int, int, int, int))
    ensures cur.0 <= cur.2 && cur.1 <= cur.3 ==>
      cur.0 <= r.0 <= r.2 <= cur.2 && cur.1 <= r.1 <= r.3 <= cur.3
  {
    var left := Clamp(req.0, cur.0, cur.2);
    var bottom := Clamp(req.1, cur.1, cur.3);
    (left, bottom, Clamp(req.2, left, cur.2), Clamp(req.3, bottom, cur.3))
  }

  /** When the requested rectangle overlaps the current one, `intersect`
      yields exactly their intersection. */
  lemma IntersectIsIntersection(cur: (int, int, int, int), req: (int, int, int, int))
    requires cur.0 <= cur.2 && cur.1 <= cur.3
    requires req.0 <= req.2 && req.1 <= req.3
    requires req.0 <= cur.2 && cur.0 <= req.2 && req.1 <= cur.3 && cur.1 <= req.3
    ensures IntersectEdges(cur, req)
         == (Max(cur.0, req.0), Max(cur.1, req.1), Min(cur.2, req.2), Min(cur.3, req.3))
  {
  }

  /** Intersecting a rectangle with a rectangle containing it changes nothing. */
  lemma IntersectWithContaining(cur: (int, int, int, int), req: (int, int, int, int))
    requires cur.0 <= cur.2 && cur.1 <= cur.3
    requires req.0 <= cur.0 && cur.2 <= req.2 && req.1 <= cur.1 && cur.3 <= req.3
    ensures IntersectEdges(cur, req) == cur
  {
  }

  /** Overlap of open intervals means a common interior point, both ways. */
  lemma OverlapMeansCommonPoint(lo1: real, hi1: real, lo2: real, hi2: real)
    ensures Overlap(lo1, hi1, lo2, hi2) <==> exists p: real :: InBoth(p, lo1, hi1, lo2, hi2)
  {
    if Overlap(lo1, hi1, lo2, hi2) {
      var p := (MaxReal(lo1, lo2) + MinReal(hi1, hi2)) / 2.0;
      assert InBoth(p, lo1, hi1, lo2, hi2);
    }
  }

  /** `p` lies inside both open intervals. */
  predicate InBoth(p: real, lo1: real, hi1: real, lo2: real, hi2: real)
  {
    lo1 < p < hi1 && lo2 < p < hi2
  }

  /** Rectangles that only share an edge do not intersect. */
  lemma TouchingDoesNotIntersect(c: ClipRect, b: real, w: real, t: real)
    requires c.Valid()
    ensures !c.Intersects(c.Right(), b, c.Right() + w, t)
    ensures !c.Intersects(c.Left() - w, b, c.Left(), t)
  {
  }
}
