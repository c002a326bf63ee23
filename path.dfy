/**
 * `TyGL::PathData` (PathTyGL.h, PathTyGL.cpp): a path is a list of
 * elements (MoveTo, LineTo, QuadCurveTo, CurveTo, ArcTo, CloseSubpath)
 * allocated from an arena and chained through `next`. `m_shapeFirstElement`
 * is the element the current subpath starts at, and `m_isEmpty` stays true
 * until something that draws is added.
 *
 * The element chain is modelled as a sequence and the subpath start as an
 * index into it. `cos`/`sin` are the `circle` function of the path: the
 * point `(cos a, sin a)` as the platform's math library computes it.
 * Floating point is modelled as `real`.
 */
module PathTyGL {
  import opened Geometry
  import opened Wrappers
  import T = TransformTyGL

  /** `WebCore::FloatSize`. */
  datatype FloatSize = FloatSize(width: real, height: real)

  /** `PathElement` and its subclasses. An ArcTo keeps its centre, radii,
      angles and direction, the matrix of its `m_transform`, and the end
      point its constructor computes. */
  datatype Element =
    | MoveTo(end: FloatPoint)
    | LineTo(end: FloatPoint)
    | QuadCurveTo(control: FloatPoint, end: FloatPoint)
    | CurveTo(control1: FloatPoint, control2: FloatPoint, end: FloatPoint)
    | ArcTo(center: FloatPoint, radius: FloatSize, startAngle: real, endAngle: real,
            anticlockwise: bool, transform: T.Matrix, end: FloatPoint)
    | CloseSubpath(end: FloatPoint)

  /** The element types `m_shapeFirstElement` can point at. */
  predicate StartsSubpath(e: Element)
  {
    e.MoveTo? || e.CloseSubpath?
  }

  /** Two elements of the same type. */
  predicate SameKind(e: Element, f: Element)
  {
    (e.MoveTo? <==> f.MoveTo?) && (e.LineTo? <==> f.LineTo?)
    && (e.QuadCurveTo? <==> f.QuadCurveTo?) && (e.CurveTo? <==> f.CurveTo?)
    && (e.ArcTo? <==> f.ArcTo?) && (e.CloseSubpath? <==> f.CloseSubpath?)
  }

  function Last(es: seq<Element>): Element
    requires |es| > 0
  {
    es[|es| - 1]
  }

  /** The last element exists and is a MoveTo. */
  predicate EndsWithMove(es: seq<Element>)
  {
    |es| > 0 && Last(es).MoveTo?
  }

  /** The elements before the last. */
  function Init(es: seq<Element>): (r: seq<Element>)
    requires |es| > 0
    ensures |r| == |es| - 1
  {
    es[..|es| - 1]
  }

  /** The index of the last MoveTo or CloseSubpath, if any. */
  function LastStart(es: seq<Element>): (r: Option<nat>)
    ensures r.Some? ==> r.value < |es| && StartsSubpath(es[r.value])
  {
    if |es| == 0 then None
    else if StartsSubpath(Last(es)) then Some(|es| - 1)
    else LastStart(Init(es))
  }

  /** `LastStart` finds the last start: no later element starts a subpath,
      and when it finds none, no element does. */
  lemma {:induction false} LastStartIsLast(es: seq<Element>)
    ensures LastStart(es).Some? ==> forall j :: LastStart(es).value < j < |es| ==> !StartsSubpath(es[j])
    ensures LastStart(es).None? ==> forall j :: 0 <= j < |es| ==> !StartsSubpath(es[j])
  {
    if |es| > 0 && !StartsSubpath(Last(es)) {
      LastStartIsLast(Init(es));
      assert forall j :: 0 <= j < |es| - 1 ==> Init(es)[j] == es[j];
    }
  }

  /** `e` may follow the elements `pre`: the first element is a MoveTo, a
      MoveTo never follows a MoveTo, and a CloseSubpath returns to the
      start of its subpath. */
  predicate Fits(pre: seq<Element>, e: Element)
  {
    (|pre| == 0 ==> e.MoveTo?)
    && (e.MoveTo? ==> !EndsWithMove(pre))
    && (e.CloseSubpath? ==> LastStart(pre).Some? && e.end == pre[LastStart(pre).value].end)
  }

  /** The shape the builders give the element list, built element by
      element: each one fits the elements before it. */
  predicate WellFormed(es: seq<Element>)
  {
    |es| == 0 || (WellFormed(Init(es)) && Fits(Init(es), Last(es)))
  }

  /** `e` is a LineTo to the point `pre` already ends at with something
      other than a MoveTo: what `addLineTo` drops. */
  predicate RepeatsLine(pre: seq<Element>, e: Element)
  {
    e.LineTo? && |pre| > 0 && !Last(pre).MoveTo? && Last(pre).end == e.end
  }

  /** No element repeats a line in the sense of `RepeatsLine`. */
  predicate NoRepeatedLine(es: seq<Element>)
  {
    |es| == 0 || (NoRepeatedLine(Init(es)) && !RepeatsLine(Init(es), Last(es)))
  }

  /** No element draws anything. */
  predicate NoDrawing(es: seq<Element>)
  {
    |es| == 0 || (NoDrawing(Init(es)) && StartsSubpath(Last(es)))
  }

  /** Element `i` is a CloseSubpath that returns to the start of its subpath. */
  predicate ClosesAt(es: seq<Element>, i: int)
    requires 0 <= i < |es|
  {
    var k := LastStart(es[..i]);
    k.Some? && es[i].end == es[k.value].end
  }

  /** `WellFormed` element by element: the list starts with a MoveTo, no
      MoveTo follows a MoveTo, and every CloseSubpath ends where the
      subpath it closes started. */
  predicate Shaped(es: seq<Element>)
  {
    (|es| > 0 ==> es[0].MoveTo?)
    && (forall i, j :: 0 <= i < |es| && 0 <= j < |es| && j == i + 1 && es[j].MoveTo? ==> !es[i].MoveTo?)
    && (forall i {:trigger ClosesAt(es, i)} :: 0 <= i < |es| && es[i].CloseSubpath? ==> ClosesAt(es, i))
  }

  /** The fields of a `PathData`: the element chain, `m_shapeFirstElement`
      and `m_isEmpty`. */
  datatype PathState = PathState(elements: seq<Element>, shapeFirst: Option<nat>, isEmpty: bool)

  /** `PathData()`: no elements, no subpath, empty. */
  const EmptyPath: PathState := PathState([], None, true)

  /** The subpath start, when there is one, is an element. */
  predicate Indexed(s: PathState)
  {
    s.shapeFirst.Some? ==> s.shapeFirst.value < |s.elements|
  }

  /** What every builder keeps: a well-formed list, the subpath start at
      the last MoveTo or CloseSubpath, and `isEmpty` exactly when nothing
      draws. */
  predicate Consistent(s: PathState)
  {
    WellFormed(s.elements) && s.shapeFirst == LastStart(s.elements)
    && (s.isEmpty <==> NoDrawing(s.elements))
  }

  /** `new (alloc(...)) E(...)` together with the field updates the builders
      make around it: the element becomes last, a MoveTo or CloseSubpath
      becomes the subpath start, and anything else clears `isEmpty`. */
  function Appended(s: PathState, e: Element): (r: PathState)
    requires Indexed(s)
    ensures Indexed(r)
  {
    PathState(s.elements + [e], if StartsSubpath(e) then Some(|s.elements|) else s.shapeFirst,
              s.isEmpty && StartsSubpath(e))
  }

  /** `moveTo`: a MoveTo right after a MoveTo moves that element; otherwise
      a new MoveTo is appended and starts the subpath. */
  function MoveToSpec(s: PathState, p: FloatPoint): (r: PathState)
    requires Indexed(s)
    ensures Indexed(r)
  {
    if EndsWithMove(s.elements) then
      PathState(s.elements[|s.elements| - 1 := MoveTo(p)], s.shapeFirst, s.isEmpty)
    else Appended(s, MoveTo(p))
  }

  /** `addLineTo`: on an element-less path a `moveTo`; dropped when the path
      already ends at `p` with something other than a MoveTo; otherwise a
      LineTo is appended and the path is no longer empty. */
  function LineToSpec(s: PathState, p: FloatPoint): (r: PathState)
    requires Indexed(s)
    ensures Indexed(r) && |r.elements| > 0 && Last(r.elements).end == p
  {
    if |s.elements| == 0 then MoveToSpec(s, p)
    else if !Last(s.elements).MoveTo? && Last(s.elements).end == p then s
    else Appended(s, LineTo(p))
  }

  /** The `if (!m_lastElement) moveTo(first)` the curve builders start with. */
  function CurveStart(s: PathState, first: FloatPoint): (r: PathState)
    requires Indexed(s)
    ensures Indexed(r) && |r.elements| > 0
    ensures |s.elements| == 0 ==> r == PathState([MoveTo(first)], Some(0), s.isEmpty)
    ensures |s.elements| > 0 ==> r == s
  {
    if |s.elements| == 0 then MoveToSpec(s, first) else s
  }

  /** `addQuadCurveTo`: the curve is appended, after a MoveTo to the control
      point when the path has no elements, and the path is not empty. */
  function QuadSpec(s: PathState, control: FloatPoint, p: FloatPoint): (r: PathState)
    requires Indexed(s)
    ensures Indexed(r) && !r.isEmpty
    ensures |s.elements| == 0 ==> r.elements == [MoveTo(control), QuadCurveTo(control, p)] && r.shapeFirst == Some(0)
    ensures |s.elements| > 0 ==> r.elements == s.elements + [QuadCurveTo(control, p)] && r.shapeFirst == s.shapeFirst
  {
    Appended(CurveStart(s, control), QuadCurveTo(control, p))
  }

  /** `addBezierCurveTo`: as `addQuadCurveTo`, starting at the first control
      point. */
  function BezierSpec(s: PathState, control1: FloatPoint, control2: FloatPoint, p: FloatPoint): (r: PathState)
    requires Indexed(s)
    ensures Indexed(r) && !r.isEmpty
    ensures |s.elements| == 0 ==>
      r.elements == [MoveTo(control1), CurveTo(control1, control2, p)] && r.shapeFirst == Some(0)
    ensures |s.elements| > 0 ==>
      r.elements == s.elements + [CurveTo(control1, control2, p)] && r.shapeFirst == s.shapeFirst
  {
    Appended(CurveStart(s, control1), CurveTo(control1, control2, p))
  }

  /** `closeSubpath`: nothing without a subpath start; otherwise a
      CloseSubpath back to the start's end point is appended and becomes the
      new start. `isEmpty` is left alone. */
  function CloseSpec(s: PathState): (r: PathState)
    requires Indexed(s)
    ensures Indexed(r) && r.isEmpty == s.isEmpty
  {
    if s.shapeFirst.None? then s
    else Appended(s, CloseSubpath(s.elements[s.shapeFirst.value].end))
  }

  /** `2 * piFloat`, with `piFloat` the float nearest to pi. */
  const TwoPiFloat: real := 6.283185482025146484375

  /** `fmod(x, 2 * piFloat)`: the remainder has the sign of `x`, is smaller
      than a full turn, and is `x` itself when `x` is. */
  function Fmod(x: real): (r: real)
    ensures x >= 0.0 ==> 0.0 <= r < TwoPiFloat
    ensures x < 0.0 ==> -TwoPiFloat < r <= 0.0
    ensures -TwoPiFloat < x < TwoPiFloat ==> r == x
  {
    x - (TruncateToInt(x / TwoPiFloat) as real) * TwoPiFloat
  }

  /** `fmod` followed by adding a turn to a negative result. */
  function Wrap(x: real): (r: real)
    ensures 0.0 <= r < TwoPiFloat
  {
    var m := Fmod(x);
    if m < 0.0 then m + TwoPiFloat else m
  }

  /** The angle normalisation of `addArc`. The sweep never exceeds a turn
      and runs in the arc's direction; apart from a sweep of a full turn
      or more, the start angle lies in [0, 2 pi], as the code asserts. */
  function NormalizeAngles(startAngle: real, endAngle: real, anticlockwise: bool): (r: (real, real))
    ensures !anticlockwise ==> r.0 <= r.1 <= r.0 + TwoPiFloat
    ensures anticlockwise ==> r.0 - TwoPiFloat <= r.1 <= r.0
    ensures -TwoPiFloat < r.0 < TwoPiFloat
    ensures (!(anticlockwise && startAngle - endAngle >= TwoPiFloat)
             && !(!anticlockwise && endAngle - startAngle >= TwoPiFloat)) ==> 0.0 <= r.0 <= TwoPiFloat
  {
    if anticlockwise && startAngle - endAngle >= TwoPiFloat then
      (Fmod(startAngle), Fmod(startAngle) - TwoPiFloat)
    else if !anticlockwise && endAngle - startAngle >= TwoPiFloat then
      (Fmod(startAngle), Fmod(startAngle) + TwoPiFloat)
    else
      var equal := startAngle == endAngle;
      var s := Wrap(startAngle);
      var e := Wrap(endAngle);
      if !anticlockwise then
        (s, if s > e || (s == e && !equal) then e + TwoPiFloat else e)
      else
        (s, if s < e || (s == e && !equal) then e - TwoPiFloat else e)
  }

  /** Clockwise angles within the first turn, the start before the end,
      are left as they are. */
  lemma NormalizeWithinTurn(startAngle: real, endAngle: real)
    requires 0.0 <= startAngle < endAngle < TwoPiFloat
    ensures NormalizeAngles(startAngle, endAngle, false) == (startAngle, endAngle)
  {
    assert Wrap(startAngle) == startAngle && Wrap(endAngle) == endAngle;
  }

  /** The point of an ellipse at the unit-circle point `u`. */
  function ArcPoint(center: FloatPoint, radius: FloatSize, u: FloatPoint): FloatPoint
  {
    FloatPoint(center.px + radius.width * u.px, center.py + radius.height * u.py)
  }

  /** The `arcAxes` matrix of `finalTransform`: unit circle to ellipse. */
  function Axes(center: FloatPoint, radius: FloatSize): T.Matrix
  {
    T.Matrix(radius.width, 0.0, 0.0, radius.height, center.px, center.py)
  }

  /** `ArcToElement::finalTransform`: the element's transform after the axes. */
  function FinalTransform(e: Element): T.Matrix
    requires e.ArcTo?
  {
    T.Compose(e.transform, Axes(e.center, e.radius))
  }

  /** The end point an ArcTo stores is where its final transform takes the
      end angle: the arc drawn from the element ends at `end()`. */
  predicate ArcOnCircle(e: Element, circle: real -> FloatPoint)
    requires e.ArcTo?
  {
    T.Map(FinalTransform(e), circle(e.endAngle)) == e.end
  }

  predicate ArcsOnCircle(es: seq<Element>, circle: real -> FloatPoint)
  {
    forall i :: 0 <= i < |es| && es[i].ArcTo? ==> ArcOnCircle(es[i], circle)
  }

  /** An arc with the given radii that sweeps nothing. */
  predicate DegenerateArc(radius: FloatSize, startAngle: real, endAngle: real)
  {
    radius.width == 0.0 || radius.height == 0.0 || startAngle == endAngle
  }

  /** `addArc`: the start point is reached by a MoveTo on an element-less
      path, then a degenerate arc only adds `lineTo(start)`; otherwise the
      path is joined to the start point by a LineTo when it ends elsewhere,
      and an ArcTo with normalised angles and the identity transform is
      appended. The existing elements are kept. */
  function ArcSpec(s: PathState, center: FloatPoint, radius: FloatSize, startAngle: real, endAngle: real,
                   anticlockwise: bool, circle: real -> FloatPoint): (r: PathState)
    requires Indexed(s)
    ensures Indexed(r) && |s.elements| <= |r.elements| && r.elements[..|s.elements|] == s.elements
    ensures var start := ArcPoint(center, radius, circle(startAngle));
      DegenerateArc(radius, startAngle, endAngle) ==> r == LineToSpec(CurveStart(s, start), start)
    ensures !DegenerateArc(radius, startAngle, endAngle) ==>
      !r.isEmpty && |r.elements| >= 2 && Last(r.elements).ArcTo?
      && Last(r.elements).center == center && Last(r.elements).radius == radius
      && Last(r.elements).anticlockwise == anticlockwise && Last(r.elements).transform == T.Identity
      && (Last(r.elements).startAngle, Last(r.elements).endAngle) == NormalizeAngles(startAngle, endAngle, anticlockwise)
      && Last(r.elements).end == ArcPoint(center, radius, circle(Last(r.elements).endAngle))
      && r.elements[|r.elements| - 2].end == ArcPoint(center, radius, circle(startAngle))
  {
    var start := ArcPoint(center, radius, circle(startAngle));
    var b := CurveStart(s, start);
    if DegenerateArc(radius, startAngle, endAngle) then
      LineToKeepsPrefix(s, b, start);
      LineToSpec(b, start)
    else
      var arc := NewArc(center, radius, startAngle, endAngle, anticlockwise, circle);
      ArcAppends(s, b, start, arc);
      Appended(JoinStart(b, start), arc)
  }

  /** The `lineTo(start)` of a degenerate arc keeps the path's elements. */
  lemma LineToKeepsPrefix(s: PathState, b: PathState, start: FloatPoint)
    requires Indexed(s) && b == CurveStart(s, start)
    ensures var r := LineToSpec(b, start);
      |s.elements| <= |r.elements| && r.elements[..|s.elements|] == s.elements
  {
    var r := LineToSpec(b, start);
    if |s.elements| > 0 && r != b {
      assert r.elements == b.elements + [LineTo(start)];
    }
  }

  /** The elements of a non-degenerate arc: the path, the start point
      reached, then the ArcTo. */
  lemma ArcAppends(s: PathState, b: PathState, start: FloatPoint, arc: Element)
    requires Indexed(s) && b == CurveStart(s, start) && arc.ArcTo?
    ensures var r := Appended(JoinStart(b, start), arc);
      && |s.elements| <= |r.elements| && r.elements[..|s.elements|] == s.elements
      && !r.isEmpty && |r.elements| >= 2 && Last(r.elements) == arc
      && r.elements[|r.elements| - 2].end == start
  {
    var j := JoinStart(b, start);
    assert j.elements[..|s.elements|] == s.elements;
    assert Appended(j, arc).elements == j.elements + [arc];
  }

  /** The `lineTo(start)` `addArc` adds when the path ends elsewhere. */
  function JoinStart(b: PathState, start: FloatPoint): (r: PathState)
    requires Indexed(b) && |b.elements| > 0
    ensures Indexed(r) && |r.elements| > 0 && Last(r.elements).end == start
  {
    if Last(b.elements).end != start then LineToSpec(b, start) else b
  }

  /** The ArcTo `addArc` constructs: normalised angles, the identity
      transform, and the end point on the ellipse at the end angle. */
  function NewArc(center: FloatPoint, radius: FloatSize, startAngle: real, endAngle: real,
                  anticlockwise: bool, circle: real -> FloatPoint): (r: Element)
    ensures r.ArcTo? && r.transform == T.Identity
  {
    var angles := NormalizeAngles(startAngle, endAngle, anticlockwise);
    ArcTo(center, radius, angles.0, angles.1, anticlockwise, T.Identity, ArcPoint(center, radius, circle(angles.1)))
  }

  /** A freshly constructed ArcTo lies on its circle. */
  lemma NewArcOnCircle(center: FloatPoint, radius: FloatSize, startAngle: real, endAngle: real,
                       anticlockwise: bool, circle: real -> FloatPoint)
    ensures ArcOnCircle(ArcTo(center, radius, startAngle, endAngle, anticlockwise, T.Identity,
                              ArcPoint(center, radius, circle(endAngle))), circle)
  {
    var e := ArcTo(center, radius, startAngle, endAngle, anticlockwise, T.Identity,
                   ArcPoint(center, radius, circle(endAngle)));
    T.ComposeMaps(T.Identity, Axes(center, radius), circle(endAngle));
    T.IdentityMapsAlike(T.Map(Axes(center, radius), circle(endAngle)));
    AxesMap(center, radius, circle(endAngle));
  }

  /** The axes matrix scales the unit point and moves it to the centre. */
  lemma AxesMap(center: FloatPoint, radius: FloatSize, u: FloatPoint)
    ensures T.Map(Axes(center, radius), u) == ArcPoint(center, radius, u)
  {
    var m := Axes(center, radius);
    ZeroProduct(u.py);
    ZeroProduct(u.px);
    assert T.Map(m, u).px == u.px * radius.width + center.px;
    assert T.Map(m, u).py == u.py * radius.height + center.py;
  }

  lemma ZeroProduct(x: real)
    ensures x * 0.0 == 0.0
  {
  }

  /** `addRect`: a MoveTo to the origin, LineTos round the corners, and a
      close. */
  function RectSpec(s: PathState, rect: FloatRect): (r: PathState)
    requires Indexed(s)
  {
    CloseSpec(RectSidesSpec(MoveToSpec(s, FloatPoint(rect.fx, rect.fy)), rect))
  }

  /** The three sides `addRect` draws after its MoveTo. */
  function RectSidesSpec(s: PathState, rect: FloatRect): (r: PathState)
    requires Indexed(s)
    ensures Indexed(r)
  {
    LineToSpec(LineToSpec(LineToSpec(s, FloatPoint(rect.fx + rect.fwidth, rect.fy)),
                          FloatPoint(rect.fx + rect.fwidth, rect.fy + rect.fheight)),
               FloatPoint(rect.fx, rect.fy + rect.fheight))
  }

  /** The elements `addRect` adds to: a trailing MoveTo is replaced. */
  function RectBase(es: seq<Element>): seq<Element>
  {
    if EndsWithMove(es) then Init(es) else es
  }

  /** A rectangle with non-zero sides becomes a closed four-sided subpath. */
  lemma RectOutline(s: PathState, rect: FloatRect)
    requires Consistent(s) && rect.fwidth != 0.0 && rect.fheight != 0.0
    ensures var o := FloatPoint(rect.fx, rect.fy);
      RectSpec(s, rect).elements == RectBase(s.elements)
        + [MoveTo(o), LineTo(FloatPoint(rect.fx + rect.fwidth, rect.fy)),
           LineTo(FloatPoint(rect.fx + rect.fwidth, rect.fy + rect.fheight)),
           LineTo(FloatPoint(rect.fx, rect.fy + rect.fheight)), CloseSubpath(o)]
  {
    RectMoveStarts(s, rect);
    RectSidesClose(MoveToSpec(s, FloatPoint(rect.fx, rect.fy)), RectBase(s.elements), rect);
  }

  /** The sides and the close of a rectangle with non-zero sides, after its
      MoveTo. */
  lemma RectSidesClose(m: PathState, b: seq<Element>, rect: FloatRect)
    requires rect.fwidth != 0.0 && rect.fheight != 0.0
    requires Indexed(m) && m.elements == b + [MoveTo(FloatPoint(rect.fx, rect.fy))] && m.shapeFirst == Some(|b|)
    ensures CloseSpec(RectSidesSpec(m, rect)).elements == b
        + [MoveTo(FloatPoint(rect.fx, rect.fy)), LineTo(FloatPoint(rect.fx + rect.fwidth, rect.fy)),
           LineTo(FloatPoint(rect.fx + rect.fwidth, rect.fy + rect.fheight)),
           LineTo(FloatPoint(rect.fx, rect.fy + rect.fheight)), CloseSubpath(FloatPoint(rect.fx, rect.fy))]
  {
    RectCorners(rect);
    RectSides(m, b, FloatPoint(rect.fx, rect.fy), FloatPoint(rect.fx + rect.fwidth, rect.fy),
      FloatPoint(rect.fx + rect.fwidth, rect.fy + rect.fheight), FloatPoint(rect.fx, rect.fy + rect.fheight));
  }

  lemma RectCorners(rect: FloatRect)
    requires rect.fwidth != 0.0 && rect.fheight != 0.0
    ensures FloatPoint(rect.fx + rect.fwidth, rect.fy) != FloatPoint(rect.fx + rect.fwidth, rect.fy + rect.fheight)
    ensures FloatPoint(rect.fx + rect.fwidth, rect.fy + rect.fheight) != FloatPoint(rect.fx, rect.fy + rect.fheight)
  {
  }

  /** The three sides and the close after the rectangle's MoveTo. */
  lemma RectSides(m: PathState, b: seq<Element>, o: FloatPoint, p1: FloatPoint, p2: FloatPoint, p3: FloatPoint)
    requires Indexed(m) && m.elements == b + [MoveTo(o)] && m.shapeFirst == Some(|b|)
    requires p1 != p2 && p2 != p3
    ensures CloseSpec(LineToSpec(LineToSpec(LineToSpec(m, p1), p2), p3)).elements
      == b + [MoveTo(o), LineTo(p1), LineTo(p2), LineTo(p3), CloseSubpath(o)]
  {
    var t0 := [MoveTo(o)];
    RectLine(m, b, t0, p1);
    var l1, t1 := LineToSpec(m, p1), t0 + [LineTo(p1)];
    RectLine(l1, b, t1, p2);
    var l2, t2 := LineToSpec(l1, p2), t1 + [LineTo(p2)];
    RectLine(l2, b, t2, p3);
    var t3 := t2 + [LineTo(p3)];
    RectClose(LineToSpec(l2, p3), b, t3);
    assert t3 + [CloseSubpath(o)] == [MoveTo(o), LineTo(p1), LineTo(p2), LineTo(p3), CloseSubpath(o)];
  }

  /** A side of the rectangle that does not repeat the corner it starts at
      is appended. */
  lemma RectLine(t: PathState, base: seq<Element>, tail: seq<Element>, p: FloatPoint)
    requires Indexed(t) && t.elements == base + tail && |tail| > 0
    requires Last(tail).MoveTo? || Last(tail).end != p
    ensures LineToSpec(t, p).elements == base + (tail + [LineTo(p)])
    ensures LineToSpec(t, p).shapeFirst == t.shapeFirst
  {
    assert Last(t.elements) == Last(tail);
  }

  /** The rectangle's CloseSubpath returns to its MoveTo. */
  lemma RectClose(t: PathState, base: seq<Element>, tail: seq<Element>)
    requires Indexed(t) && t.elements == base + tail && |tail| > 0 && t.shapeFirst == Some(|base|)
    ensures CloseSpec(t).elements == base + (tail + [CloseSubpath(tail[0].end)])
  {
    assert t.elements[|base|] == tail[0];
  }

  /** With zero width only the side after the MoveTo survives as a
      zero-length LineTo; the repeated corner is dropped. */
  lemma RectZeroWidth(s: PathState, rect: FloatRect)
    requires Consistent(s) && rect.fwidth == 0.0 && rect.fheight != 0.0
    ensures var o := FloatPoint(rect.fx, rect.fy);
      RectSpec(s, rect).elements == RectBase(s.elements)
        + [MoveTo(o), LineTo(o), LineTo(FloatPoint(rect.fx, rect.fy + rect.fheight)), CloseSubpath(o)]
  {
    RectMoveStarts(s, rect);
  }

  /** The MoveTo of `addRect` is the element after the base, and the new
      subpath starts there. */
  lemma RectMoveStarts(s: PathState, rect: FloatRect)
    requires Consistent(s)
    ensures var m := MoveToSpec(s, FloatPoint(rect.fx, rect.fy));
      m.elements == RectBase(s.elements) + [MoveTo(FloatPoint(rect.fx, rect.fy))]
      && m.shapeFirst == Some(|RectBase(s.elements)|)
  {
    var m := MoveToSpec(s, FloatPoint(rect.fx, rect.fy));
    if EndsWithMove(s.elements) {
      assert m.elements == s.elements[..|s.elements| - 1] + [MoveTo(FloatPoint(rect.fx, rect.fy))];
    }
  }

  /** One step of the corrected `clone`: each element replayed through its
      builder, except an ArcTo, which is copied with its transform (the
      source replays it through `addArc`, CloneStepAsWritten). */
  function CloneStep(s: PathState, e: Element): (r: PathState)
    requires Indexed(s)
    ensures Indexed(r) && |r.elements| >= |s.elements|
    ensures e.MoveTo? ==> |r.elements| > 0
  {
    match e
    case MoveTo(p) => MoveToSpec(s, p)
    case LineTo(p) => LineToSpec(s, p)
    case QuadCurveTo(c, p) => QuadSpec(s, c, p)
    case CurveTo(c1, c2, p) => BezierSpec(s, c1, c2, p)
    case ArcTo(_, _, _, _, _, _, _) => Appended(s, e)
    case CloseSubpath(_) => CloseSpec(s)
  }

  /** The path `clone` builds from a list of elements. */
  function Replay(es: seq<Element>): (r: PathState)
    ensures Indexed(r)
    ensures |es| > 0 && es[0].MoveTo? ==> |r.elements| > 0
  {
    if |es| == 0 then EmptyPath else CloneStep(Replay(Init(es)), Last(es))
  }

  /** `clone` as written: an ArcTo is replayed through `addArc`, which
      rebuilds the arc from its centre and angles with the identity
      transform. */
  function CloneStepAsWritten(s: PathState, e: Element, circle: real -> FloatPoint): (r: PathState)
    requires Indexed(s)
    ensures Indexed(r)
    ensures !e.ArcTo? ==> r == CloneStep(s, e)
  {
    match e
    case ArcTo(c, radius, sa, ea, acw, _, _) => ArcSpec(s, c, radius, sa, ea, acw, circle)
    case _ => CloneStep(s, e)
  }

  function ReplayAsWritten(es: seq<Element>, circle: real -> FloatPoint): (r: PathState)
    ensures Indexed(r)
  {
    if |es| == 0 then EmptyPath
    else CloneStepAsWritten(ReplayAsWritten(Init(es), circle), Last(es), circle)
  }

  /** The corrected `transform` applied to one element: every stored point
      is mapped, and an ArcTo's transform is preceded by the map so that its
      final transform maps as the path does. */
  function Transformed(e: Element, m: T.Matrix): (r: Element)
    ensures SameKind(r, e) && r.end == T.Map(m, e.end)
    ensures e.QuadCurveTo? ==> r.control == T.Map(m, e.control)
    ensures e.CurveTo? ==> r.control1 == T.Map(m, e.control1) && r.control2 == T.Map(m, e.control2)
  {
    match e
    case MoveTo(p) => MoveTo(T.Map(m, p))
    case LineTo(p) => LineTo(T.Map(m, p))
    case QuadCurveTo(c, p) => QuadCurveTo(T.Map(m, c), T.Map(m, p))
    case CurveTo(c1, c2, p) => CurveTo(T.Map(m, c1), T.Map(m, c2), T.Map(m, p))
    case ArcTo(c, radius, sa, ea, acw, t, p) => ArcTo(c, radius, sa, ea, acw, T.Compose(m, t), T.Map(m, p))
    case CloseSubpath(p) => CloseSubpath(T.Map(m, p))
  }

  /** The final transform of a transformed arc is the old one preceded by
      the map. */
  lemma TransformedFinal(e: Element, m: T.Matrix)
    requires e.ArcTo?
    ensures Transformed(e, m).ArcTo? && FinalTransform(Transformed(e, m)) == T.Compose(m, FinalTransform(e))
  {
    ComposeAssociative(m, e.transform, Axes(e.center, e.radius));
  }

  /** The matrix product is associative. */
  lemma ComposeAssociative(m: T.Matrix, n: T.Matrix, o: T.Matrix)
    ensures T.Compose(T.Compose(m, n), o) == T.Compose(m, T.Compose(n, o))
  {
    forall p: FloatPoint
      ensures T.Map(T.Compose(T.Compose(m, n), o), p) == T.Map(T.Compose(m, T.Compose(n, o)), p)
    {
      T.ComposeMaps(T.Compose(m, n), o, p);
      T.ComposeMaps(m, n, T.Map(o, p));
      T.ComposeMaps(m, T.Compose(n, o), p);
      T.ComposeMaps(n, o, p);
    }
    T.MapDeterminesMatrix(T.Compose(T.Compose(m, n), o), T.Compose(m, T.Compose(n, o)));
  }

  /** `transform` as written: `arcToElement->multiply(transform)` puts the
      new map after the arc's earlier transform instead of before it. */
  function TransformedAsWritten(e: Element, m: T.Matrix): (r: Element)
    ensures !e.ArcTo? ==> r == Transformed(e, m)
    ensures e.ArcTo? ==> r.ArcTo? && r.transform == T.Compose(e.transform, m) && r.end == T.Map(m, e.end)
  {
    match e
    case ArcTo(c, radius, sa, ea, acw, t, p) => ArcTo(c, radius, sa, ea, acw, T.Compose(t, m), T.Map(m, p))
    case _ => Transformed(e, m)
  }

  /** Every element of a list transformed. */
  function MapElements(es: seq<Element>, m: T.Matrix): (r: seq<Element>)
    ensures |r| == |es| && forall i :: 0 <= i < |es| ==> r[i] == Transformed(es[i], m)
  {
    if |es| == 0 then [] else MapElements(Init(es), m) + [Transformed(Last(es), m)]
  }

  /** The corrected `transform`: the elements mapped, the other fields
      unchanged. */
  function TransformSpec(s: PathState, m: T.Matrix): (r: PathState)
    ensures |r.elements| == |s.elements| && r.shapeFirst == s.shapeFirst && r.isEmpty == s.isEmpty
  {
    PathState(MapElements(s.elements, m), s.shapeFirst, s.isEmpty)
  }

  // ---------------------------------------------------------------------
  // Facts about appending and replacing elements.

  /** The list one element longer has the old list before its new last
      element. */
  lemma AppendInit(es: seq<Element>, e: Element)
    ensures Init(es + [e]) == es && Last(es + [e]) == e
  {
    assert (es + [e])[..|es|] == es;
  }

  lemma LastStartAppend(es: seq<Element>, e: Element)
    ensures LastStart(es + [e]) == if StartsSubpath(e) then Some(|es|) else LastStart(es)
  {
    AppendInit(es, e);
  }

  /** Lists of the same element types have their subpath starts at the
      same places. */
  lemma {:induction false} LastStartOfKinds(es: seq<Element>, fs: seq<Element>)
    requires |es| == |fs| && forall i :: 0 <= i < |es| ==> SameKind(es[i], fs[i])
    ensures LastStart(es) == LastStart(fs)
  {
    if |es| > 0 && !StartsSubpath(Last(es)) {
      LastStartOfKinds(Init(es), Init(fs));
    }
  }

  /** The longer list is well formed exactly when the list is and the new
      element fits it. */
  lemma AppendedWellFormed(es: seq<Element>, e: Element)
    ensures WellFormed(es + [e]) <==> WellFormed(es) && Fits(es, e)
  {
    AppendInit(es, e);
  }

  lemma NoDrawingAppend(es: seq<Element>, e: Element)
    ensures NoDrawing(es + [e]) <==> NoDrawing(es) && StartsSubpath(e)
  {
    AppendInit(es, e);
  }

  lemma NoRepeatedAppend(es: seq<Element>, e: Element)
    ensures NoRepeatedLine(es + [e]) <==> NoRepeatedLine(es) && !RepeatsLine(es, e)
  {
    AppendInit(es, e);
  }

  /** `Shaped` holds of the longer list exactly when it holds of the list
      and the new element fits it. */
  lemma ShapedAppend(es: seq<Element>, e: Element)
    ensures Shaped(es + [e]) <==> Shaped(es) && Fits(es, e)
  {
    var fs, n := es + [e], |es|;
    assert fs[..n] == es;
    if Shaped(es) && Fits(es, e) {
      forall i, j | 0 <= i < |fs| && 0 <= j < |fs| && j == i + 1 && fs[j].MoveTo?
        ensures !fs[i].MoveTo?
      {
        if j < n {
          assert fs[i] == es[i] && fs[j] == es[j];
        } else {
          assert fs[i] == Last(es);
        }
      }
      forall i | 0 <= i < |fs| && fs[i].CloseSubpath?
        ensures ClosesAt(fs, i)
      {
        ClosingKept(es, e, i);
      }
      assert n > 0 ==> fs[0] == es[0];
    }
    if Shaped(fs) {
      assert n > 0 ==> fs[0] == es[0];
      forall i, j | 0 <= i < n && 0 <= j < n && j == i + 1 && es[j].MoveTo?
        ensures !es[i].MoveTo?
      {
        assert fs[i] == es[i] && fs[j] == es[j];
      }
      forall i | 0 <= i < n && es[i].CloseSubpath?
        ensures ClosesAt(es, i)
      {
        assert fs[i] == es[i] && fs[..i] == es[..i];
        assert ClosesAt(fs, i);
        assert fs[LastStart(es[..i]).value] == es[LastStart(es[..i]).value];
      }
      if n > 0 && e.MoveTo? {
        assert fs[n - 1] == Last(es) && fs[n] == e;
      }
      if e.CloseSubpath? {
        assert fs[n] == e && ClosesAt(fs, n);
        assert fs[LastStart(es).value] == es[LastStart(es).value];
      }
    }
  }

  /** A CloseSubpath of the longer list returns to its subpath start: the
      old ones because `es` is shaped, the new one because it fits. */
  lemma ClosingKept(es: seq<Element>, e: Element, i: nat)
    requires Shaped(es) && Fits(es, e) && i <= |es| && (es + [e])[i].CloseSubpath?
    ensures ClosesAt(es + [e], i)
  {
    var fs := es + [e];
    if i == |es| {
      assert fs[..i] == es;
      assert fs[LastStart(es).value] == es[LastStart(es).value];
    } else {
      assert fs[i] == es[i] && fs[..i] == es[..i];
      assert ClosesAt(es, i);
      assert fs[LastStart(es[..i]).value] == es[LastStart(es[..i]).value];
    }
  }

  /** `WellFormed`, built element by element, is `Shaped`, stated element by
      element. */
  lemma {:induction false} WellFormedIsShaped(es: seq<Element>)
    ensures WellFormed(es) <==> Shaped(es)
  {
    if |es| > 0 {
      var pre := Init(es);
      assert es == pre + [Last(es)];
      WellFormedIsShaped(pre);
      ShapedAppend(pre, Last(es));
    }
  }

  /** A well-formed list starts with a MoveTo. */
  lemma {:induction false} WellFormedStarts(es: seq<Element>)
    requires WellFormed(es) && |es| > 0
    ensures es[0].MoveTo?
  {
    if |es| > 1 {
      WellFormedStarts(Init(es));
      assert Init(es)[0] == es[0];
    }
  }

  /** `NoDrawing`: every element only starts a subpath. */
  lemma {:induction false} NoDrawingMeans(es: seq<Element>)
    ensures NoDrawing(es) <==> forall i :: 0 <= i < |es| ==> StartsSubpath(es[i])
  {
    if |es| > 0 {
      var pre := Init(es);
      NoDrawingMeans(pre);
      assert forall i :: 0 <= i < |pre| ==> es[i] == pre[i];
    }
  }

  /** `NoRepeatedLine`: no LineTo after anything but a MoveTo ends where the
      element before it does. */
  lemma {:induction false} NoRepeatedMeans(es: seq<Element>)
    ensures NoRepeatedLine(es) <==>
      forall i, j :: 0 <= i < |es| && 0 <= j < |es| && j == i + 1 && es[j].LineTo? && !es[i].MoveTo? ==>
        es[j].end != es[i].end
  {
    if |es| > 0 {
      var pre := Init(es);
      NoRepeatedMeans(pre);
      assert forall i :: 0 <= i < |pre| ==> es[i] == pre[i];
      if |pre| > 0 {
        assert es[|pre| - 1] == Last(pre);
      }
    }
  }

  /** Appending keeps the builders' invariants when the element fits, and
      a LineTo that does not repeat the end point keeps `NoRepeatedLine`. */
  lemma AppendedKeeps(s: PathState, e: Element)
    requires Consistent(s)
    requires |s.elements| == 0 ==> e.MoveTo?
    requires e.MoveTo? ==> !EndsWithMove(s.elements)
    requires e.CloseSubpath? ==> s.shapeFirst.Some? && e.end == s.elements[s.shapeFirst.value].end
    ensures Consistent(Appended(s, e))
    ensures NoRepeatedLine(s.elements) && !RepeatsLine(s.elements, e) ==> NoRepeatedLine(Appended(s, e).elements)
  {
    AppendedWellFormed(s.elements, e);
    LastStartAppend(s.elements, e);
    NoDrawingAppend(s.elements, e);
    NoRepeatedAppend(s.elements, e);
  }

  /** Appending an element that is no arc, or an arc on the circle, keeps a
      list's arcs on the circle. */
  lemma AppendedArcs(es: seq<Element>, e: Element, circle: real -> FloatPoint)
    requires ArcsOnCircle(es, circle) && (e.ArcTo? ==> ArcOnCircle(e, circle))
    ensures ArcsOnCircle(es + [e], circle)
  {
    var fs := es + [e];
    assert forall i :: 0 <= i < |es| ==> fs[i] == es[i];
  }

  /** `moveTo` keeps the invariants. */
  lemma MoveToKeeps(s: PathState, p: FloatPoint)
    requires Consistent(s)
    ensures Consistent(MoveToSpec(s, p))
    ensures NoRepeatedLine(s.elements) ==> NoRepeatedLine(MoveToSpec(s, p).elements)
  {
    if EndsWithMove(s.elements) {
      ReplaceMoveKeeps(s.elements, p);
    } else {
      AppendedKeeps(s, MoveTo(p));
    }
  }

  /** Moving the MoveTo a list ends with keeps the list's shape. */
  lemma ReplaceMoveKeeps(es: seq<Element>, p: FloatPoint)
    requires WellFormed(es) && EndsWithMove(es)
    ensures var fs := es[|es| - 1 := MoveTo(p)];
      WellFormed(fs) && LastStart(fs) == LastStart(es) && NoDrawing(fs) == NoDrawing(es)
      && (NoRepeatedLine(es) ==> NoRepeatedLine(fs))
  {
    var pre := Init(es);
    assert es[|es| - 1 := MoveTo(p)] == pre + [MoveTo(p)];
    assert es == pre + [Last(es)];
    AppendedWellFormed(pre, MoveTo(p));
    AppendedWellFormed(pre, Last(es));
    LastStartAppend(pre, MoveTo(p));
    LastStartAppend(pre, Last(es));
    NoDrawingAppend(pre, MoveTo(p));
    NoDrawingAppend(pre, Last(es));
    NoRepeatedAppend(pre, MoveTo(p));
    NoRepeatedAppend(pre, Last(es));
  }

  /** `moveTo` keeps the arcs on the circle. */
  lemma MoveToArcs(s: PathState, p: FloatPoint, circle: real -> FloatPoint)
    requires Indexed(s) && ArcsOnCircle(s.elements, circle)
    ensures ArcsOnCircle(MoveToSpec(s, p).elements, circle)
  {
    var es := s.elements;
    if EndsWithMove(es) {
      var fs := es[|es| - 1 := MoveTo(p)];
      assert forall i :: 0 <= i < |es| - 1 ==> fs[i] == es[i];
    } else {
      AppendedArcs(es, MoveTo(p), circle);
    }
  }

  /** `addLineTo` keeps the invariants. */
  lemma LineToKeeps(s: PathState, p: FloatPoint)
    requires Consistent(s)
    ensures Consistent(LineToSpec(s, p))
    ensures NoRepeatedLine(s.elements) ==> NoRepeatedLine(LineToSpec(s, p).elements)
  {
    if |s.elements| == 0 {
      MoveToKeeps(s, p);
    } else if Last(s.elements).MoveTo? || Last(s.elements).end != p {
      AppendedKeeps(s, LineTo(p));
    }
  }

  /** `addLineTo` keeps the arcs on the circle. */
  lemma LineToArcs(s: PathState, p: FloatPoint, circle: real -> FloatPoint)
    requires Indexed(s) && ArcsOnCircle(s.elements, circle)
    ensures ArcsOnCircle(LineToSpec(s, p).elements, circle)
  {
    if |s.elements| == 0 {
      MoveToArcs(s, p, circle);
    } else if Last(s.elements).MoveTo? || Last(s.elements).end != p {
      AppendedArcs(s.elements, LineTo(p), circle);
    }
  }

  /** `addQuadCurveTo` and `addBezierCurveTo` keep the invariants. */
  lemma CurveKeeps(s: PathState, first: FloatPoint, curve: Element)
    requires Consistent(s) && (curve.QuadCurveTo? || curve.CurveTo?)
    ensures Consistent(Appended(CurveStart(s, first), curve))
    ensures NoRepeatedLine(s.elements) ==> NoRepeatedLine(Appended(CurveStart(s, first), curve).elements)
  {
    MoveToKeeps(s, first);
    AppendedKeeps(CurveStart(s, first), curve);
  }

  /** The curve builders keep the arcs on the circle. */
  lemma CurveArcs(s: PathState, first: FloatPoint, curve: Element, circle: real -> FloatPoint)
    requires Indexed(s) && ArcsOnCircle(s.elements, circle) && (curve.QuadCurveTo? || curve.CurveTo?)
    ensures ArcsOnCircle(Appended(CurveStart(s, first), curve).elements, circle)
  {
    MoveToArcs(s, first, circle);
    AppendedArcs(CurveStart(s, first).elements, curve, circle);
  }

  /** `closeSubpath` keeps the invariants. */
  lemma CloseKeeps(s: PathState)
    requires Consistent(s)
    ensures Consistent(CloseSpec(s))
    ensures NoRepeatedLine(s.elements) ==> NoRepeatedLine(CloseSpec(s).elements)
  {
    if s.shapeFirst.Some? {
      AppendedKeeps(s, CloseSubpath(s.elements[s.shapeFirst.value].end));
    }
  }

  /** `closeSubpath` keeps the arcs on the circle. */
  lemma CloseArcs(s: PathState, circle: real -> FloatPoint)
    requires Indexed(s) && ArcsOnCircle(s.elements, circle)
    ensures ArcsOnCircle(CloseSpec(s).elements, circle)
  {
    if s.shapeFirst.Some? {
      AppendedArcs(s.elements, CloseSubpath(s.elements[s.shapeFirst.value].end), circle);
    }
  }

  /** `addArc` keeps the invariants. */
  lemma ArcKeeps(s: PathState, center: FloatPoint, radius: FloatSize, startAngle: real, endAngle: real,
                 anticlockwise: bool, circle: real -> FloatPoint)
    requires Consistent(s)
    ensures Consistent(ArcSpec(s, center, radius, startAngle, endAngle, anticlockwise, circle))
    ensures NoRepeatedLine(s.elements) ==>
      NoRepeatedLine(ArcSpec(s, center, radius, startAngle, endAngle, anticlockwise, circle).elements)
  {
    var start := ArcPoint(center, radius, circle(startAngle));
    var b := CurveStart(s, start);
    MoveToKeeps(s, start);
    LineToKeeps(b, start);
    if !DegenerateArc(radius, startAngle, endAngle) {
      AppendedKeeps(JoinStart(b, start), NewArc(center, radius, startAngle, endAngle, anticlockwise, circle));
    }
  }

  /** `addArc` keeps the arcs on the circle, the new one included. */
  lemma ArcArcs(s: PathState, center: FloatPoint, radius: FloatSize, startAngle: real, endAngle: real,
                anticlockwise: bool, circle: real -> FloatPoint)
    requires Indexed(s) && ArcsOnCircle(s.elements, circle)
    ensures ArcsOnCircle(ArcSpec(s, center, radius, startAngle, endAngle, anticlockwise, circle).elements, circle)
  {
    var start := ArcPoint(center, radius, circle(startAngle));
    var b := CurveStart(s, start);
    MoveToArcs(s, start, circle);
    LineToArcs(b, start, circle);
    if !DegenerateArc(radius, startAngle, endAngle) {
      var angles := NormalizeAngles(startAngle, endAngle, anticlockwise);
      NewArcOnCircle(center, radius, angles.0, angles.1, anticlockwise, circle);
      AppendedArcs(JoinStart(b, start).elements, NewArc(center, radius, startAngle, endAngle, anticlockwise, circle), circle);
    }
  }

  /** `transform` keeps the invariants, and with a non-singular matrix it
      also keeps `NoRepeatedLine`. */
  lemma TransformKeeps(s: PathState, m: T.Matrix)
    requires Consistent(s)
    ensures Consistent(TransformSpec(s, m))
    ensures T.Determinant(m) != 0.0 && NoRepeatedLine(s.elements) ==> NoRepeatedLine(TransformSpec(s, m).elements)
  {
    MapKeeps(s.elements, m);
    LastStartOfKinds(s.elements, MapElements(s.elements, m));
  }

  /** Mapping every element keeps a list well formed and what draws, and
      a non-singular matrix keeps `NoRepeatedLine`. */
  lemma {:induction false} MapKeeps(es: seq<Element>, m: T.Matrix)
    ensures WellFormed(es) ==> WellFormed(MapElements(es, m))
    ensures NoDrawing(MapElements(es, m)) == NoDrawing(es)
    ensures T.Determinant(m) != 0.0 && NoRepeatedLine(es) ==> NoRepeatedLine(MapElements(es, m))
  {
    if |es| > 0 {
      var pre, e := Init(es), Last(es);
      var gs := MapElements(pre, m);
      AppendInit(gs, Transformed(e, m));
      MapKeeps(pre, m);
      LastStartOfKinds(pre, gs);
      if |pre| > 0 {
        assert Last(gs) == Transformed(Last(pre), m);
      }
      if T.Determinant(m) != 0.0 && |pre| > 0 && Last(pre).end != e.end {
        MapInjective(m, e.end, Last(pre).end);
      }
    }
  }

  /** The corrected `transform` keeps the arcs on the circle: the arcs'
      transforms are mapped along with their end points. */
  lemma TransformArcs(s: PathState, m: T.Matrix, circle: real -> FloatPoint)
    requires ArcsOnCircle(s.elements, circle)
    ensures ArcsOnCircle(TransformSpec(s, m).elements, circle)
  {
    var es, fs := s.elements, MapElements(s.elements, m);
    forall i | 0 <= i < |fs| && fs[i].ArcTo?
      ensures ArcOnCircle(fs[i], circle)
    {
      TransformedKeepsArc(es[i], m, circle);
    }
  }

  /** A non-singular matrix maps distinct points to distinct points. */
  lemma MapInjective(m: T.Matrix, p: FloatPoint, q: FloatPoint)
    requires T.Determinant(m) != 0.0 && p != q
    ensures T.Map(m, p) != T.Map(m, q)
  {
    var inv := T.InverseMatrix(m, T.DetectType(m));
    T.InverseIsInverse(m);
    T.ComposeMaps(inv, m, p);
    T.ComposeMaps(inv, m, q);
    T.IdentityMapsAlike(p);
    T.IdentityMapsAlike(q);
  }

  // ---------------------------------------------------------------------
  // `clone`.

  /** A prefix of a list the builders produced is one too. */
  lemma {:induction false} PrefixKeeps(es: seq<Element>, k: nat)
    requires k <= |es| && WellFormed(es)
    ensures WellFormed(es[..k])
    ensures NoRepeatedLine(es) ==> NoRepeatedLine(es[..k])
    decreases |es| - k
  {
    if k < |es| {
      PrefixKeeps(es, k + 1);
      assert Init(es[..k + 1]) == es[..k];
    } else {
      assert es[..k] == es;
    }
  }

  /** Replaying a list the builders produced gives it back, with the
      subpath start and `isEmpty` the builders keep. */
  lemma {:induction false} ReplayPrefix(es: seq<Element>)
    requires WellFormed(es) && NoRepeatedLine(es)
    ensures Replay(es) == PathState(es, LastStart(es), NoDrawing(es))
  {
    if |es| > 0 {
      var pre, e := Init(es), Last(es);
      assert es == pre + [e];
      ReplayPrefix(pre);
      ReplayLast(pre, e);
    }
  }

  /** The builder of the last element's type, applied to the state the
      builders keep for the rest of the list, appends that element. */
  lemma ReplayLast(pre: seq<Element>, e: Element)
    requires WellFormed(pre + [e]) && NoRepeatedLine(pre + [e])
    ensures CloneStep(PathState(pre, LastStart(pre), NoDrawing(pre)), e)
         == PathState(pre + [e], LastStart(pre + [e]), NoDrawing(pre + [e]))
  {
    var s := PathState(pre, LastStart(pre), NoDrawing(pre));
    AppendedWellFormed(pre, e);
    NoRepeatedAppend(pre, e);
    LastStartAppend(pre, e);
    NoDrawingAppend(pre, e);
    match e
    case MoveTo(p) =>
      assert CloneStep(s, e) == Appended(s, e);
    case LineTo(p) =>
      assert CloneStep(s, e) == Appended(s, e);
    case QuadCurveTo(_, _) =>
    case CurveTo(_, _, _) =>
    case ArcTo(_, _, _, _, _, _, _) =>
    case CloseSubpath(_) =>
      assert CloneStep(s, e) == Appended(s, e);
  }

  /** Replaying one more element of a list that starts with a MoveTo: the
      builder of its type applied to the replay so far, which is empty only
      before that MoveTo. */
  lemma ReplayNext(es: seq<Element>, i: nat)
    requires i < |es| && es[0].MoveTo?
    ensures Replay(es[..i + 1]) == CloneStep(Replay(es[..i]), es[i])
    ensures |Replay(es[..i]).elements| == 0 ==> es[i].MoveTo?
  {
    assert es[..i + 1][..i] == es[..i];
    assert Last(es[..i + 1]) == es[i];
    if i > 0 {
      assert es[..i][0] == es[0];
    }
  }

  /** `clone` reproduces every path the builders and non-singular
      transforms produce. */
  lemma CloneReproduces(s: PathState)
    requires Consistent(s) && NoRepeatedLine(s.elements)
    ensures Replay(s.elements) == s
  {
    ReplayPrefix(s.elements);
  }

  /** The unit arc from angle 0 to angle 1 about the origin, added to an
      empty path: a MoveTo to its start and the arc. */
  lemma UnitArcPath(circle: real -> FloatPoint)
    ensures var o, unit := FloatPoint(0.0, 0.0), FloatSize(1.0, 1.0);
      ArcSpec(EmptyPath, o, unit, 0.0, 1.0, false, circle).elements
      == [MoveTo(ArcPoint(o, unit, circle(0.0))),
          ArcTo(o, unit, 0.0, 1.0, false, T.Identity, ArcPoint(o, unit, circle(1.0)))]
  {
    var o, unit := FloatPoint(0.0, 0.0), FloatSize(1.0, 1.0);
    var start := ArcPoint(o, unit, circle(0.0));
    NormalizeWithinTurn(0.0, 1.0);
    var b := CurveStart(EmptyPath, start);
    assert b == PathState([MoveTo(start)], Some(0), true);
    assert !DegenerateArc(unit, 0.0, 1.0);
    assert Last(b.elements).end == start;
    var arc := ArcTo(o, unit, 0.0, 1.0, false, T.Identity, ArcPoint(o, unit, circle(1.0)));
    assert ArcSpec(EmptyPath, o, unit, 0.0, 1.0, false, circle) == Appended(b, arc);
  }

  /** Replaying, as `clone` is written, a MoveTo away from the start of the
      unit arc followed by that arc adds a LineTo back and keeps no arc
      transform. */
  lemma ReplayAsWrittenUnitArc(p: FloatPoint, t: T.Matrix, end: FloatPoint, circle: real -> FloatPoint)
    requires p != ArcPoint(FloatPoint(0.0, 0.0), FloatSize(1.0, 1.0), circle(0.0))
    ensures var o, unit := FloatPoint(0.0, 0.0), FloatSize(1.0, 1.0);
      var c := ReplayAsWritten([MoveTo(p), ArcTo(o, unit, 0.0, 1.0, false, t, end)], circle);
      |c.elements| == 3 && c.elements[1].LineTo? && c.elements[2].ArcTo?
      && c.elements[2].transform == T.Identity
  {
    var o, unit := FloatPoint(0.0, 0.0), FloatSize(1.0, 1.0);
    var es := [MoveTo(p), ArcTo(o, unit, 0.0, 1.0, false, t, end)];
    assert es[..1][..0] == [];
    assert Last(es[..1]) == MoveTo(p);
    assert ReplayAsWritten(es[..1][..0], circle) == EmptyPath;
    var first := ReplayAsWritten(es[..1], circle);
    assert first == CloneStepAsWritten(EmptyPath, MoveTo(p), circle);
    assert first == PathState([MoveTo(p)], Some(0), true);
    assert es[..|es| - 1] == es[..1];
    NormalizeWithinTurn(0.0, 1.0);
  }

  /** The unit arc path translated by (10, 0): the arc carries the
      translation. */
  lemma TranslatedUnitArc(circle: real -> FloatPoint)
    ensures var o, unit, move := FloatPoint(0.0, 0.0), FloatSize(1.0, 1.0), T.Translation(10.0, 0.0);
      TransformSpec(ArcSpec(EmptyPath, o, unit, 0.0, 1.0, false, circle), move).elements
      == [MoveTo(T.Map(move, ArcPoint(o, unit, circle(0.0)))),
          ArcTo(o, unit, 0.0, 1.0, false, move, T.Map(move, ArcPoint(o, unit, circle(1.0))))]
  {
    var o, unit, move := FloatPoint(0.0, 0.0), FloatSize(1.0, 1.0), T.Translation(10.0, 0.0);
    var arc := ArcTo(o, unit, 0.0, 1.0, false, T.Identity, ArcPoint(o, unit, circle(1.0)));
    UnitArcPath(circle);
    assert T.Compose(move, T.Identity) == move;
    assert Transformed(arc, move).transform == move;
  }

  lemma TranslationMoves(p: FloatPoint)
    ensures T.Map(T.Translation(10.0, 0.0), p) != p
  {
    assert T.Map(T.Translation(10.0, 0.0), p).px == p.px + 10.0;
  }

  /** `clone` as written loses a transformed arc: after a translation the
      arc element carries the translation, but the copy rebuilds it
      untransformed and joins it with a LineTo back to the old position. */
  lemma CloneAsWrittenLosesArcTransform(circle: real -> FloatPoint)
    ensures var s := TransformSpec(ArcSpec(EmptyPath, FloatPoint(0.0, 0.0), FloatSize(1.0, 1.0), 0.0, 1.0, false, circle),
                                   T.Translation(10.0, 0.0));
      |s.elements| == 2 && s.elements[1].ArcTo? && s.elements[1].transform == T.Translation(10.0, 0.0)
      && var c := ReplayAsWritten(s.elements, circle);
         |c.elements| == 3 && c.elements[1].LineTo? && c.elements[2].ArcTo?
         && c.elements[2].transform == T.Identity
  {
    var o, unit, move := FloatPoint(0.0, 0.0), FloatSize(1.0, 1.0), T.Translation(10.0, 0.0);
    var start := ArcPoint(o, unit, circle(0.0));
    TranslatedUnitArc(circle);
    TranslationMoves(start);
    ReplayAsWrittenUnitArc(T.Map(move, start), move, T.Map(move, ArcPoint(o, unit, circle(1.0))), circle);
  }

  /** `transform` keeps an arc on its circle. */
  lemma TransformedKeepsArc(e: Element, m: T.Matrix, circle: real -> FloatPoint)
    requires e.ArcTo? && ArcOnCircle(e, circle)
    ensures ArcOnCircle(Transformed(e, m), circle)
  {
    TransformedFinal(e, m);
    T.ComposeMaps(m, FinalTransform(e), circle(e.endAngle));
  }

  /** Translating by (10, 0) and then scaling by 2, with the arc's
      transform composed on the wrong side, gives the final transform
      `(2, 0, 0, 2, 10, 0)`: it takes `u` to `2 u + (10, 0)`, while the
      arc's end point goes to `2 u + (20, 0)`. */
  lemma MisplacedUnitArcTransform()
    ensures T.Compose(T.Compose(T.Compose(T.Identity, T.Translation(10.0, 0.0)), T.Scaling(2.0, 2.0)), T.Identity)
            == T.Matrix(2.0, 0.0, 0.0, 2.0, 10.0, 0.0)
  {
    IdentityComposedTranslation();
    TranslationComposedScaling();
    ComposedIdentity(T.Matrix(2.0, 0.0, 0.0, 2.0, 10.0, 0.0));
  }

  lemma MisplacedUnitArcEnd(u: FloatPoint)
    ensures T.Map(T.Matrix(2.0, 0.0, 0.0, 2.0, 10.0, 0.0), u) != T.Map(T.Scaling(2.0, 2.0), T.Map(T.Translation(10.0, 0.0), u))
  {
    assert T.Map(T.Matrix(2.0, 0.0, 0.0, 2.0, 10.0, 0.0), u).px == 2.0 * u.px + 10.0;
    assert T.Map(T.Scaling(2.0, 2.0), T.Map(T.Translation(10.0, 0.0), u)).px == 2.0 * u.px + 20.0;
  }

  lemma IdentityComposedTranslation()
    ensures T.Compose(T.Identity, T.Translation(10.0, 0.0)) == T.Translation(10.0, 0.0)
  {
  }

  lemma TranslationComposedScaling()
    ensures T.Compose(T.Translation(10.0, 0.0), T.Scaling(2.0, 2.0)) == T.Matrix(2.0, 0.0, 0.0, 2.0, 10.0, 0.0)
  {
  }

  lemma ComposedIdentity(m: T.Matrix)
    ensures T.Compose(m, T.Identity) == m
  {
  }

  /** The unit arc about the origin from angle 0 to angle 1, as `addArc`
      builds it. */
  function UnitArc(circle: real -> FloatPoint): (r: Element)
    ensures r == ArcTo(FloatPoint(0.0, 0.0), FloatSize(1.0, 1.0), 0.0, 1.0, false, T.Identity, circle(1.0))
  {
    UnitCircle(circle(1.0));
    ArcTo(FloatPoint(0.0, 0.0), FloatSize(1.0, 1.0), 0.0, 1.0, false, T.Identity,
          ArcPoint(FloatPoint(0.0, 0.0), FloatSize(1.0, 1.0), circle(1.0)))
  }

  /** The unit circle about the origin is the circle itself. */
  lemma UnitCircle(u: FloatPoint)
    ensures ArcPoint(FloatPoint(0.0, 0.0), FloatSize(1.0, 1.0), u) == u
    ensures Axes(FloatPoint(0.0, 0.0), FloatSize(1.0, 1.0)) == T.Identity
  {
  }

  lemma UnitArcOnCircle(circle: real -> FloatPoint)
    ensures ArcOnCircle(UnitArc(circle), circle)
  {
    NewArcOnCircle(FloatPoint(0.0, 0.0), FloatSize(1.0, 1.0), 0.0, 1.0, false, circle);
  }

  /** The corrected `transform`, applied twice, keeps an arc on its circle. */
  lemma TransformedTwiceKeepsArc(e: Element, m: T.Matrix, n: T.Matrix, circle: real -> FloatPoint)
    requires e.ArcTo? && ArcOnCircle(e, circle)
    ensures ArcOnCircle(Transformed(Transformed(e, m), n), circle)
  {
    TransformedKeepsArc(e, m, circle);
    TransformedKeepsArc(Transformed(e, m), n, circle);
  }

  /** `transform` as written, translating the unit arc by (10, 0) and then
      scaling it by 2, leaves it off its circle. */
  lemma AsWrittenUnitArcOffCircle(circle: real -> FloatPoint)
    ensures var move, scale := T.Translation(10.0, 0.0), T.Scaling(2.0, 2.0);
      !ArcOnCircle(TransformedAsWritten(TransformedAsWritten(UnitArc(circle), move), scale), circle)
  {
    var o, unit := FloatPoint(0.0, 0.0), FloatSize(1.0, 1.0);
    var u := circle(1.0);
    var move, scale := T.Translation(10.0, 0.0), T.Scaling(2.0, 2.0);
    UnitCircle(u);
    var g1 := ArcTo(o, unit, 0.0, 1.0, false, T.Compose(T.Identity, move), T.Map(move, u));
    assert TransformedAsWritten(UnitArc(circle), move) == g1;
    var x := T.Compose(T.Compose(T.Identity, move), scale);
    var g := ArcTo(o, unit, 0.0, 1.0, false, x, T.Map(scale, T.Map(move, u)));
    assert TransformedAsWritten(g1, scale) == g;
    assert FinalTransform(g) == T.Compose(x, T.Identity);
    MisplacedUnitArcTransform();
    MisplacedUnitArcEnd(u);
  }

  // ---------------------------------------------------------------------
  // Curve helpers.

  function Abs(x: real): (r: real)
    ensures r >= 0.0 && (r == x || r == -x)
  {
    if x >= 0.0 then x else -x
  }

  /** The tolerance of `curveIsLineSegment`. */
  const LineTolerance: real := 1.0

  /** Twice the area of the triangle `a`, `d`, `q`: the chord's length times
      the distance of `q` from the line through `a` and `d`. */
  function ChordDistance(a: FloatPoint, d: FloatPoint, q: FloatPoint): real
  {
    Abs((d.px - a.px) * (a.py - q.py) - (a.px - q.px) * (d.py - a.py))
  }

  function MinReal(x: real, y: real): real { if x <= y then x else y }
  function MaxReal(x: real, y: real): real { if x <= y then y else x }

  /** `q` lies in the chord's bounding box widened by the tolerance. */
  predicate InChordBox(a: FloatPoint, d: FloatPoint, q: FloatPoint)
  {
    MinReal(a.px, d.px) - LineTolerance <= q.px <= MaxReal(a.px, d.px) + LineTolerance
    && MinReal(a.py, d.py) - LineTolerance <= q.py <= MaxReal(a.py, d.py) + LineTolerance
  }

  /** `CurveToElement::curveIsLineSegment`: the cubic with points `p[0..3]`
      is flat enough to draw as its chord exactly when both control points
      are within the tolerance of the chord's line and of its box. */
  function CurveIsLineSegment(p: seq<FloatPoint>): (r: bool)
    requires |p| >= 4
    ensures r <==> ChordDistance(p[0], p[3], p[1]) <= LineTolerance && ChordDistance(p[0], p[3], p[2]) <= LineTolerance
                   && InChordBox(p[0], p[3], p[1]) && InChordBox(p[0], p[3], p[2])
  {
    var x0, y0, x1, y1 := p[0].px, p[0].py, p[1].px, p[1].py;
    var x2, y2, x3, y3 := p[2].px, p[2].py, p[3].px, p[3].py;
    var dt1 := ChordDistance(p[0], p[3], p[1]);
    var dt2 := ChordDistance(p[0], p[3], p[2]);
    if dt1 > LineTolerance || dt2 > LineTolerance then false
    else
      var (minX, maxX) := if x0 < x3 then (x0 - LineTolerance, x3 + LineTolerance) else (x3 - LineTolerance, x0 + LineTolerance);
      var (minY, maxY) := if y0 < y3 then (y0 - LineTolerance, y3 + LineTolerance) else (y3 - LineTolerance, y0 + LineTolerance);
      !(x1 < minX || x1 > maxX || y1 < minY || y1 > maxY
        || x2 < minX || x2 > maxX || y2 < minY || y2 > maxY)
  }

  /** The point a fraction `t` of the way from `a` to `d`. */
  function Lerp(a: FloatPoint, d: FloatPoint, t: real): FloatPoint
  {
    FloatPoint(a.px + t * (d.px - a.px), a.py + t * (d.py - a.py))
  }

  /** A cubic whose control points lie on its chord counts as a line. */
  lemma ChordControlsAreLine(p: seq<FloatPoint>, s1: real, s2: real)
    requires |p| >= 4 && 0.0 <= s1 <= 1.0 && 0.0 <= s2 <= 1.0
    requires p[1] == Lerp(p[0], p[3], s1) && p[2] == Lerp(p[0], p[3], s2)
    ensures CurveIsLineSegment(p)
  {
    OnChord(p[0], p[3], s1);
    OnChord(p[0], p[3], s2);
  }

  /** A point between the chord's ends is on its line and in its box. */
  lemma OnChord(a: FloatPoint, d: FloatPoint, s: real)
    requires 0.0 <= s <= 1.0
    ensures ChordDistance(a, d, Lerp(a, d, s)) == 0.0 && InChordBox(a, d, Lerp(a, d, s))
  {
    OnChordLine(a, d, s);
    BetweenOnLerp(a.px, d.px, s);
    BetweenOnLerp(a.py, d.py, s);
  }

  lemma OnChordLine(a: FloatPoint, d: FloatPoint, s: real)
    ensures ChordDistance(a, d, Lerp(a, d, s)) == 0.0
  {
    var dx, dy := d.px - a.px, d.py - a.py;
    CrossOfMultiples(dx, dy, s);
  }

  lemma CrossOfMultiples(dx: real, dy: real, s: real)
    ensures dx * -(s * dy) - -(s * dx) * dy == 0.0
  {
  }

  lemma BetweenOnLerp(x: real, y: real, s: real)
    requires 0.0 <= s <= 1.0
    ensures MinReal(x, y) <= x + s * (y - x) <= MaxReal(x, y)
  {
    var t := s * (y - x);
    MulBetween(s, y - x, t);
    BetweenOffset(x, y, t);
  }

  /** `x + t` lies between `x` and `y` when `t` lies between 0 and `y - x`. */
  lemma BetweenOffset(x: real, y: real, t: real)
    requires y - x >= 0.0 ==> 0.0 <= t <= y - x
    requires y - x < 0.0 ==> y - x <= t <= 0.0
    ensures MinReal(x, y) <= x + t <= MaxReal(x, y)
  {
  }

  /** `s * w` lies between 0 and `w` for `s` in [0, 1]. */
  lemma MulBetween(s: real, w: real, t: real)
    requires 0.0 <= s <= 1.0 && t == s * w
    ensures w >= 0.0 ==> 0.0 <= t <= w
    ensures w < 0.0 ==> w <= t <= 0.0
  {
    var rest := 1.0 - s;
    assert s * w + rest * w == w;
    if w >= 0.0 {
      MulNonNegative(rest, w);
      MulNonNegative(s, w);
    } else {
      MulNonNegative(rest, -w);
      MulNonNegative(s, -w);
    }
  }

  lemma MulNonNegative(x: real, y: real)
    requires x >= 0.0 && y >= 0.0
    ensures x * y >= 0.0
  {
  }

  /** A coordinate of a quadratic Bezier curve at `t`. */
  function Quad1(t: real, s: real, c: real, e: real): real
  {
    s * (1.0 - t) * (1.0 - t) + 2.0 * c * (1.0 - t) * t + e * t * t
  }

  /** `QuadCurveToElement::bezierCurve`: `t` above 1 is clamped to 1, so
      every such `t` gives the end point; `t` = 0 gives the start. */
  function QuadBezier(t: real, start: FloatPoint, control: FloatPoint, end: FloatPoint): (r: FloatPoint)
    ensures t >= 1.0 ==> r == end
    ensures t == 0.0 ==> r == start
  {
    var u := if t > 1.0 then 1.0 else t;
    FloatPoint(Quad1(u, start.px, control.px, end.px), Quad1(u, start.py, control.py, end.py))
  }

  /** A coordinate of a cubic Bezier curve at `t`. */
  function Cubic1(t: real, s: real, c1: real, c2: real, e: real): real
  {
    s * (1.0 - t) * (1.0 - t) * (1.0 - t) + 3.0 * c1 * (1.0 - t) * (1.0 - t) * t
    + 3.0 * c2 * (1.0 - t) * t * t + e * t * t * t
  }

  /** `CurveToElement::bezierCurve`: clamped like the quadratic one. */
  function CubicBezier(t: real, start: FloatPoint, control1: FloatPoint, control2: FloatPoint, end: FloatPoint): (r: FloatPoint)
    ensures t >= 1.0 ==> r == end
    ensures t == 0.0 ==> r == start
  {
    var u := if t > 1.0 then 1.0 else t;
    FloatPoint(Cubic1(u, start.px, control1.px, control2.px, end.px),
               Cubic1(u, start.py, control1.py, control2.py, end.py))
  }

  function Mid(a: FloatPoint, b: FloatPoint): FloatPoint
  {
    FloatPoint((a.px + b.px) / 2.0, (a.py + b.py) / 2.0)
  }

  /** The halves `splitCurve` produces follow the original curve: the first
      half at `t` is the curve at `t/2`, the second half at `t` is the
      curve at `(1 + t)/2`, in each coordinate. */
  lemma SplitHalvesFollowCurve(t: real, a: real, b: real, c: real, d: real)
    requires 0.0 <= t <= 1.0
    ensures var ab, bc, cd := (a + b) / 2.0, (b + c) / 2.0, (c + d) / 2.0;
      var abbc, bccd := (ab + bc) / 2.0, (bc + cd) / 2.0;
      var mid := (abbc + bccd) / 2.0;
      Cubic1(t, a, ab, abbc, mid) == Cubic1(t / 2.0, a, b, c, d)
      && Cubic1(t, mid, bccd, cd, d) == Cubic1((1.0 + t) / 2.0, a, b, c, d)
  {
  }

  /** One element of the corrected `transform`: its points through `apply`,
      and an arc's transform preceded by the map (TransformedAsWritten puts
      it after, as the source does). */
  method MapElement(transform: T.AffineTransform, e: Element) returns (r: Element)
    requires transform.Valid()
    ensures r == Transformed(e, transform.transform)
  {
    match e {
      case MoveTo(p) => r := MoveTo(transform.Apply(p));
      case LineTo(p) => r := LineTo(transform.Apply(p));
      case QuadCurveTo(c, p) => r := QuadCurveTo(transform.Apply(c), transform.Apply(p));
      case CurveTo(c1, c2, p) => r := CurveTo(transform.Apply(c1), transform.Apply(c2), transform.Apply(p));
      case ArcTo(c, radius, sa, ea, acw, t, p) =>
        var arcTransform := PrecededBy(t, transform.transform);
        r := ArcTo(c, radius, sa, ea, acw, arcTransform, transform.Apply(p));
      case CloseSubpath(p) => r := CloseSubpath(transform.Apply(p));
    }
  }

  /** The corrected product for an arc: the arc transform `t` with the map
      `m` applied after it, a transform built from `m` multiplied by `t`.
      The source multiplies `t` by `m` instead. */
  method PrecededBy(t: T.Matrix, m: T.Matrix) returns (r: T.Matrix)
    ensures r == T.Compose(m, t)
  {
    var product := new T.AffineTransform.FromMatrix(m);
    product.Multiply(t);
    r := product.transform;
  }

  /** One coordinate of the split at t = 1/2: the first half's four values
      followed by the second half's last three. */
  function Halves(a: real, b: real, c: real, d: real): (r: seq<real>)
    ensures |r| == 7
  {
    var ab, bc, cd := (a + b) / 2.0, (b + c) / 2.0, (c + d) / 2.0;
    var abbc, bccd := (ab + bc) / 2.0, (bc + cd) / 2.0;
    var mid := (abbc + bccd) / 2.0;
    [a, ab, abbc, mid, bccd, cd, d]
  }

  /** The seven points `splitCurve` leaves: both coordinates split. */
  function SplitPoints(p0: FloatPoint, p1: FloatPoint, p2: FloatPoint, p3: FloatPoint): (r: seq<FloatPoint>)
    ensures |r| == 7
  {
    var x, y := Halves(p0.px, p1.px, p2.px, p3.px), Halves(p0.py, p1.py, p2.py, p3.py);
    seq(7, i requires 0 <= i < 7 => FloatPoint(x[i], y[i]))
  }

  /** The split keeps the curve's ends, meets at the curve's point at 1/2,
      where the two control points around it are symmetric, and each half
      follows its half of the original curve. */
  lemma SplitPointsFollowCurve(p0: FloatPoint, p1: FloatPoint, p2: FloatPoint, p3: FloatPoint)
    ensures var r := SplitPoints(p0, p1, p2, p3);
      r[0] == p0 && r[6] == p3 && r[3] == Mid(r[2], r[4])
      && r[3] == CubicBezier(0.5, p0, p1, p2, p3)
      && (forall t :: 0.0 <= t <= 1.0 ==> CubicBezier(t, r[0], r[1], r[2], r[3]) == CubicBezier(t / 2.0, p0, p1, p2, p3))
      && (forall t :: 0.0 <= t <= 1.0 ==>
            CubicBezier(t, r[3], r[4], r[5], r[6]) == CubicBezier((1.0 + t) / 2.0, p0, p1, p2, p3))
  {
    var r := SplitPoints(p0, p1, p2, p3);
    SplitMeets(p0.px, p1.px, p2.px, p3.px);
    SplitMeets(p0.py, p1.py, p2.py, p3.py);
    forall t | 0.0 <= t <= 1.0
      ensures CubicBezier(t, r[0], r[1], r[2], r[3]) == CubicBezier(t / 2.0, p0, p1, p2, p3)
      ensures CubicBezier(t, r[3], r[4], r[5], r[6]) == CubicBezier((1.0 + t) / 2.0, p0, p1, p2, p3)
    {
      SplitAt(t, p0, p1, p2, p3);
    }
  }

  lemma SplitAt(t: real, p0: FloatPoint, p1: FloatPoint, p2: FloatPoint, p3: FloatPoint)
    requires 0.0 <= t <= 1.0
    ensures var r := SplitPoints(p0, p1, p2, p3);
      CubicBezier(t, r[0], r[1], r[2], r[3]) == CubicBezier(t / 2.0, p0, p1, p2, p3)
      && CubicBezier(t, r[3], r[4], r[5], r[6]) == CubicBezier((1.0 + t) / 2.0, p0, p1, p2, p3)
  {
    SplitHalvesFollowCurve(t, p0.px, p1.px, p2.px, p3.px);
    SplitHalvesFollowCurve(t, p0.py, p1.py, p2.py, p3.py);
  }

  /** In one coordinate, the halves meet at the curve's value at 1/2,
      halfway between the two control values around it. */
  lemma SplitMeets(a: real, b: real, c: real, d: real)
    ensures var h := Halves(a, b, c, d);
      h[3] == Cubic1(0.5, a, b, c, d) && h[3] == (h[2] + h[4]) / 2.0
  {
  }

  /** `CurveToElement::splitCurve`: the cubic `p[0..3]` is split in place
      at t = 1/2 into `p[0..3]` and `p[3..6]`, first the x coordinates and
      then the y coordinates; `SplitPointsFollowCurve` says what the seven
      points are. */
  method SplitCurve(p: array<FloatPoint>)
    requires p.Length >= 7
    modifies p
    ensures p[..7] == SplitPoints(old(p[0]), old(p[1]), old(p[2]), old(p[3]))
    ensures p[7..] == old(p[7..])
  {
    ghost var p0, p1, p2, p3 := p[0], p[1], p[2], p[3];
    SplitXs(p);
    SplitYs(p);
    assert forall i :: 0 <= i < 7 ==> p[i] == SplitPoints(p0, p1, p2, p3)[i];
  }

  /** The first half of `splitCurve`: the x coordinates split. */
  method SplitXs(p: array<FloatPoint>)
    requires p.Length >= 7
    modifies p
    ensures forall i :: 0 <= i < 7 ==>
      p[i] == FloatPoint(Halves(old(p[0].px), old(p[1].px), old(p[2].px), old(p[3].px))[i], old(p[i].py))
    ensures forall i :: 7 <= i < p.Length ==> p[i] == old(p[i])
  {
    var a, b, c, d := p[0].px, p[1].px, p[2].px, p[3].px;
    var ab, bc, cd := (a + b) / 2.0, (b + c) / 2.0, (c + d) / 2.0;
    var abbc, bccd := (ab + bc) / 2.0, (bc + cd) / 2.0;
    var mid := (abbc + bccd) / 2.0;
    p[0] := FloatPoint(a, p[0].py);
    p[1] := FloatPoint(ab, p[1].py);
    p[2] := FloatPoint(abbc, p[2].py);
    p[3] := FloatPoint(mid, p[3].py);
    p[4] := FloatPoint(bccd, p[4].py);
    p[5] := FloatPoint(cd, p[5].py);
    p[6] := FloatPoint(d, p[6].py);
  }

  /** The second half of `splitCurve`: the y coordinates split. */
  method SplitYs(p: array<FloatPoint>)
    requires p.Length >= 7
    modifies p
    ensures forall i :: 0 <= i < 7 ==>
      p[i] == FloatPoint(old(p[i].px), Halves(old(p[0].py), old(p[1].py), old(p[2].py), old(p[3].py))[i])
    ensures forall i :: 7 <= i < p.Length ==> p[i] == old(p[i])
  {
    var a, b, c, d := p[0].py, p[1].py, p[2].py, p[3].py;
    var ab, bc, cd := (a + b) / 2.0, (b + c) / 2.0, (c + d) / 2.0;
    var abbc, bccd := (ab + bc) / 2.0, (bc + cd) / 2.0;
    var mid := (abbc + bccd) / 2.0;
    p[0] := FloatPoint(p[0].px, a);
    p[1] := FloatPoint(p[1].px, ab);
    p[2] := FloatPoint(p[2].px, abbc);
    p[3] := FloatPoint(p[3].px, mid);
    p[4] := FloatPoint(p[4].px, bccd);
    p[5] := FloatPoint(p[5].px, cd);
    p[6] := FloatPoint(p[6].px, d);
  }

  // ---------------------------------------------------------------------
  // The path object.

  class PathData {
    /** The point `(cos a, sin a)` as the platform computes it. */
    const circle: real -> FloatPoint
    /** The element chain from `m_firstElement` to `m_lastElement`. */
    var elements: seq<Element>
    /** `m_shapeFirstElement`, as an index into `elements`. */
    var shapeFirst: Option<nat>
    var isEmpty: bool

    function State(): PathState
      reads this
    {
      PathState(elements, shapeFirst, isEmpty)
    }

    /** The builders' invariants. */
    ghost predicate Valid()
      reads this
    {
      Consistent(State())
    }

    /** `PathData()`. */
    constructor (circle: real -> FloatPoint)
      ensures Valid() && State() == EmptyPath && this.circle == circle
    {
      this.circle := circle;
      elements := [];
      shapeFirst := None;
      isEmpty := true;
    }

    /** `isEmpty()`: nothing that draws has been added. */
    function IsEmpty(): (r: bool)
      reads this
      requires Valid()
      ensures r <==> NoDrawing(elements)
    {
      isEmpty
    }

    /** `alloc`: the new element is linked after the last one and becomes
        the last; the first element stays where it is. */
    method Alloc(e: Element) returns (index: nat)
      modifies this
      ensures index == |old(elements)| && elements == old(elements) + [e]
      ensures shapeFirst == old(shapeFirst) && isEmpty == old(isEmpty)
    {
      index := |elements|;
      elements := elements + [e];
    }

    /** `moveTo`. */
    method MoveTo(end: FloatPoint)
      requires Valid()
      modifies this
      ensures Valid() && State() == MoveToSpec(old(State()), end)
    {
      ghost var next := MoveToSpec(State(), end);
      MoveToKeeps(State(), end);
      if |elements| > 0 && elements[|elements| - 1].MoveTo? {
        elements := elements[|elements| - 1 := Element.MoveTo(end)];
        assert State() == next;
        return;
      }
      var index := Alloc(Element.MoveTo(end));
      shapeFirst := Some(index);
      assert State() == next;
    }

    /** `addLineTo`. */
    method AddLineTo(end: FloatPoint)
      requires Valid()
      modifies this
      ensures Valid() && State() == LineToSpec(old(State()), end)
    {
      ghost var s0 := State();
      ghost var next := LineToSpec(s0, end);
      LineToKeeps(s0, end);
      if |elements| == 0 {
        assert next == MoveToSpec(s0, end);
        MoveTo(end);
        return;
      }
      if !elements[|elements| - 1].MoveTo? && elements[|elements| - 1].end == end {
        assert next == s0;
        return;
      }
      assert next == Appended(s0, LineTo(end));
      isEmpty := false;
      var _ := Alloc(LineTo(end));
      assert State() == next;
    }

    /** `addQuadCurveTo`. */
    method AddQuadCurveTo(control: FloatPoint, end: FloatPoint)
      requires Valid()
      modifies this
      ensures Valid() && State() == QuadSpec(old(State()), control, end)
    {
      ghost var start := CurveStart(State(), control);
      CurveKeeps(State(), control, QuadCurveTo(control, end));
      if |elements| == 0 {
        MoveTo(control);
      }
      assert State() == start;
      isEmpty := false;
      var _ := Alloc(QuadCurveTo(control, end));
      assert State() == Appended(start, QuadCurveTo(control, end));
    }

    /** `addBezierCurveTo`. */
    method AddBezierCurveTo(control1: FloatPoint, control2: FloatPoint, end: FloatPoint)
      requires Valid()
      modifies this
      ensures Valid() && State() == BezierSpec(old(State()), control1, control2, end)
    {
      ghost var start := CurveStart(State(), control1);
      CurveKeeps(State(), control1, CurveTo(control1, control2, end));
      if |elements| == 0 {
        MoveTo(control1);
      }
      assert State() == start;
      isEmpty := false;
      var _ := Alloc(CurveTo(control1, control2, end));
      assert State() == Appended(start, CurveTo(control1, control2, end));
    }

    /** `closeSubpath`. */
    method CloseSubpath()
      requires Valid()
      modifies this
      ensures Valid() && State() == CloseSpec(old(State()))
    {
      ghost var next := CloseSpec(State());
      CloseKeeps(State());
      if shapeFirst.None? {
        return;
      }
      var index := Alloc(Element.CloseSubpath(elements[shapeFirst.value].end));
      shapeFirst := Some(index);
      assert State() == next;
    }

    /** `addArc`. */
    method AddArc(center: FloatPoint, radius: FloatSize, startAngle: real, endAngle: real, anticlockwise: bool)
      requires Valid()
      modifies this
      ensures Valid() && State() == ArcSpec(old(State()), center, radius, startAngle, endAngle, anticlockwise, circle)
    {
      ghost var s0 := State();
      var start := ArcPoint(center, radius, circle(startAngle));
      if |elements| == 0 {
        MoveTo(start);
      }
      assert State() == CurveStart(s0, start);
      if radius.width == 0.0 || radius.height == 0.0 || startAngle == endAngle {
        AddLineTo(start);
        return;
      }
      var arc := NewArc(center, radius, startAngle, endAngle, anticlockwise, circle);
      JoinAndCopyArc(start, arc);
    }

    /** The end of `addArc`: the `lineTo(start)` when the path ends
        elsewhere, then the arc. */
    method JoinAndCopyArc(start: FloatPoint, arc: Element)
      requires Valid() && |elements| > 0 && arc.ArcTo?
      modifies this
      ensures Valid() && State() == Appended(JoinStart(old(State()), start), arc)
    {
      if elements[|elements| - 1].end != start {
        AddLineTo(start);
      }
      assert State() == JoinStart(old(State()), start);
      CopyArc(arc);
    }

    /** `addRect`. */
    method AddRect(rect: FloatRect)
      requires Valid()
      modifies this
      ensures Valid() && State() == RectSpec(old(State()), rect)
    {
      MoveTo(FloatPoint(rect.fx, rect.fy));
      AddRectSides(rect);
      CloseSubpath();
    }

    /** The three `addLineTo` calls of `addRect`, the one point moved
        along the width, the height and back. */
    method AddRectSides(rect: FloatRect)
      requires Valid()
      modifies this
      ensures Valid() && State() == RectSidesSpec(old(State()), rect)
    {
      ghost var m := State();
      var point := FloatPoint(rect.fx + rect.fwidth, rect.fy);
      AddLineTo(point);
      ghost var l1 := State();
      point := FloatPoint(point.px, rect.fy + rect.fheight);
      assert point == FloatPoint(rect.fx + rect.fwidth, rect.fy + rect.fheight);
      AddLineTo(point);
      ghost var l2 := State();
      point := FloatPoint(rect.fx, point.py);
      assert point == FloatPoint(rect.fx, rect.fy + rect.fheight);
      AddLineTo(point);
      assert State() == LineToSpec(l2, FloatPoint(rect.fx, rect.fy + rect.fheight));
    }

    /** Appends a copy of an arc element, transform included. */
    method CopyArc(arc: Element)
      requires Valid() && |elements| > 0 && arc.ArcTo?
      modifies this
      ensures Valid() && State() == Appended(old(State()), arc)
    {
      ghost var next := Appended(State(), arc);
      AppendedKeeps(State(), arc);
      isEmpty := false;
      var _ := Alloc(arc);
      assert State() == next;
    }

    /** One step of the corrected `clone` (CloneStep): an element replayed
        through the builder of its type, an arc copied with its transform. */
    method AddElement(e: Element)
      requires Valid() && (|elements| == 0 ==> e.MoveTo?)
      modifies this
      ensures Valid() && State() == CloneStep(old(State()), e)
    {
      match e {
        case MoveTo(p) => MoveTo(p);
        case LineTo(p) => AddLineTo(p);
        case QuadCurveTo(c, p) => AddQuadCurveTo(c, p);
        case CurveTo(c1, c2, p) => AddBezierCurveTo(c1, c2, p);
        case ArcTo(_, _, _, _, _, _, _) => CopyArc(e);
        case CloseSubpath(_) => CloseSubpath();
      }
    }

    /** The corrected `clone`: every element replayed, in order, through the
        builder of its type; an arc is copied with its transform, where the
        source's `clone` (ReplayAsWritten) rebuilds it without. A path the
        builders and non-singular transforms produced comes back unchanged. */
    method Clone() returns (copy: PathData)
      requires Valid()
      ensures fresh(copy) && copy.Valid() && copy.circle == circle
      ensures copy.State() == Replay(elements)
      ensures NoRepeatedLine(elements) ==> copy.State() == State()
    {
      copy := new PathData(circle);
      var es := elements;
      if |es| > 0 {
        WellFormedStarts(es);
      }
      var i := 0;
      while i < |es|
        invariant 0 <= i <= |es|
        invariant fresh(copy) && copy.Valid() && copy.circle == circle
        invariant copy.State() == Replay(es[..i])
      {
        ReplayNext(es, i);
        copy.AddElement(es[i]);
        i := i + 1;
      }
      assert es[..i] == es;
      if NoRepeatedLine(es) {
        CloneReproduces(State());
      }
    }

    /** The corrected `transform`: every element mapped in place by the
        matrix, each arc's transform preceded by the map (the source's
        product is TransformedAsWritten). */
    method Transform(m: T.Matrix)
      requires Valid()
      modifies this
      ensures Valid() && State() == TransformSpec(old(State()), m)
    {
      TransformKeeps(State(), m);
      var transform := new T.AffineTransform.FromMatrix(m);
      MapEveryElement(transform);
    }

    /** The loop of `transform`: each element replaced by its image. */
    method MapEveryElement(transform: T.AffineTransform)
      requires transform.Valid()
      modifies this`elements
      ensures elements == MapElements(old(elements), transform.transform)
    {
      ghost var target := MapElements(elements, transform.transform);
      var i := 0;
      while i < |elements|
        invariant 0 <= i <= |elements| == |target|
        invariant forall j :: 0 <= j < i ==> elements[j] == target[j]
        invariant forall j :: i <= j < |elements| ==> elements[j] == old(elements)[j]
      {
        var mapped := MapElement(transform, elements[i]);
        elements := elements[i := mapped];
        i := i + 1;
      }
      assert elements == target;
    }
  }
}
