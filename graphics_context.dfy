/**
 * `GraphicsContextTyGL.cpp`: the border-line drawing adapted from Cairo
 * (`calculateStrokePatternOffset` and `drawLineOnTyGLContext`) and the
 * polygon outline `pathFromConvexPolygon` builds.
 *
 * `int` arithmetic is C's: `/` and `%` truncate toward zero, and a float
 * stored into an `int` is truncated. Floats are `real`. The border-line
 * shader calls become `BorderLine` records, in the order they are issued.
 * `WebCore::Path` forwards `moveTo` and `addLineTo` to its `PathData`.
 */
module GraphicsContextTyGL {
  import opened Geometry
  import opened Wrappers
  import P = PathTyGL
  import PC = PlatformContextTyGL
  import opened IntMath

  /** C's `/` on `int`: the quotient truncated toward zero. */
  function CQuot(a: int, b: int): int
    requires b != 0
  {
    var q := (if a < 0 then -a else a) / (if b < 0 then -b else b);
    if (a < 0) != (b < 0) then -q else q
  }

  /** C's `%` on `int`: what is left after `CQuot`. */
  function CRem(a: int, b: int): int
    requires b != 0
  {
    a - b * CQuot(a, b)
  }

  /** On non-negative operands C's `/` and `%` agree with Dafny's. */
  lemma CDivisionOfNatural(a: int, b: int)
    requires a >= 0 && b > 0
    ensures CQuot(a, b) == a / b && CRem(a, b) == a % b
  {
  }

  /** `calculateStrokePatternOffset`: where in its dash pattern a border
      line of `distance` pixels starts, for dashes of `patternWidth`.
      `numSegments & 0x1` is `numSegments % 2`, which is the low bit of the
      two's-complement value also for negative numbers. */
  function StrokePatternOffset(distance: int, patternWidth: int): real
    requires patternWidth != 0
  {
    var remainder := CRem(distance, patternWidth);
    var numSegments := CQuot(distance - remainder, patternWidth);
    if patternWidth == 1 then 1.0
    else
      var evenNumberOfSegments := (numSegments % 2 == 1) != (remainder != 0);
      if evenNumberOfSegments then
        if remainder != 0 then (patternWidth - remainder + CQuot(remainder, 2)) as real
        else CQuot(patternWidth, 2) as real
      else if remainder != 0 then (patternWidth - remainder) as real / 2.0
      else 0.0
  }

  /** One-pixel dots always start one pixel in. */
  lemma UnitPatternOffset(distance: int)
    ensures StrokePatternOffset(distance, 1) == 1.0
  {
  }

  /** The offset of a line of `q` whole dashes of width `w` plus `r`
      pixels: with the flag "`q` odd, flipped when `r` is not 0", it starts
      `r/2` pixels into a dash (`w - r + r/2`), half a dash in, half the
      remaining gap in, or not at all. */
  function PatternOffsetOf(q: int, r: int, w: int): real
  {
    var f := (q % 2 == 1) != (r != 0);
    if f && r != 0 then (w - r + r / 2) as real
    else if f then (w / 2) as real
    else if r != 0 then (w - r) as real / 2.0
    else 0.0
  }

  /** For a line of non-negative length C's `%` and the quotient of the
      source are the Euclidean remainder and quotient. */
  lemma SegmentsOfNatural(distance: int, w: int, q: int, r: int)
    requires w >= 2 && q >= 0 && 0 <= r < w && distance == w * q + r
    ensures CRem(distance, w) == r && CQuot(distance - r, w) == q
  {
    QuotRem(distance, w, q, r);
    CDivisionOfNatural(distance, w);
    CDivisionOfNatural(w * q, w);
    QuotRem(w * q, w, q, 0);
  }

  lemma OffsetFromParts(distance: int, w: int, q: int, r: int)
    requires w >= 2 && q >= 0 && 0 <= r < w && distance == w * q + r
    ensures StrokePatternOffset(distance, w) == PatternOffsetOf(q, r, w)
  {
    SegmentsOfNatural(distance, w, q, r);
    CDivisionOfNatural(r, 2);
    CDivisionOfNatural(w, 2);
  }

  /** The four cases for a line of non-negative length, with `r` the
      pixels left over after `n` whole dashes. */
  lemma PatternOffsetCases(distance: int, w: int)
    requires distance >= 0 && w >= 2
    ensures StrokePatternOffset(distance, w) == PatternOffsetOf(distance / w, distance % w, w)
  {
    DivModSplit(distance, w);
    OffsetFromParts(distance, w, distance / w, distance % w);
  }

  /** The line of 80 pixels with 30-pixel dashes from the source's comment:
      20 pixels remain after two dashes, and the line starts 20 pixels in. */
  lemma EightyByThirty()
    ensures StrokePatternOffset(80, 30) == 20.0
  {
  }

  /** For a line of non-negative length the offset stays within one dash. */
  lemma PatternOffsetWithinDash(distance: int, w: int)
    requires distance >= 0 && w >= 1
    ensures 0.0 <= StrokePatternOffset(distance, w) <= w as real
  {
    if w >= 2 {
      PatternOffsetCases(distance, w);
    }
  }

  /** A dash and a gap more of line does not move the pattern. */
  lemma PatternOffsetPeriodic(distance: int, w: int)
    requires distance >= 0 && w >= 2
    ensures StrokePatternOffset(distance + 2 * w, w) == StrokePatternOffset(distance, w)
  {
    var q, r := distance / w, distance % w;
    DivModSplit(distance, w);
    OffsetFromParts(distance, w, q, r);
    assert w * (q + 2) == w * q + w * 2;
    OffsetFromParts(distance + 2 * w, w, q + 2, r);
  }

  /** A line of a whole number of dashes starts half a dash in when that
      number is odd and at the start of a dash when it is even. */
  lemma WholeDashesOffset(k: int, w: int)
    requires k >= 0 && w >= 2
    ensures StrokePatternOffset(k * w, w) == if k % 2 == 1 then (w / 2) as real else 0.0
  {
    OffsetFromParts(k * w, w, k, 0);
  }

  /** `WebCore::StrokeStyle`. */
  datatype StrokeStyle = NoStroke | SolidStroke | DottedStroke | DashedStroke | DoubleStroke | WavyStroke

  /** A `drawBorderLine(point1, point2, color, strokeThickness, dashLength,
      dashOffset)` call. */
  datatype BorderLine = BorderLine(from: FloatPoint, to: FloatPoint, color: PC.RGBA32, thickness: real,
                                   dashLength: real, dashOffset: real)

  /** The stroke thickness converted to `int`, raised to 1 when the
      float is below 1. */
  function LineThickness(strokeThickness: real): (r: int)
    ensures r >= 1
    ensures strokeThickness >= 1.0 ==> r as real <= strokeThickness < r as real + 1.0
  {
    if strokeThickness < 1.0 then 1 else TruncateToInt(strokeThickness)
  }

  /** The dash length: the thickness for dots, three times it for dashes,
      and 0 (solid) for every other style. */
  function PatternWidth(style: StrokeStyle, thickness: int): int
  {
    if style == DottedStroke then thickness
    else if style == DashedStroke then 3 * thickness
    else 0
  }

  /** Only dotted and dashed lines get a pattern. */
  lemma PatternOnlyForDotsAndDashes(style: StrokeStyle, strokeThickness: real)
    ensures PatternWidth(style, LineThickness(strokeThickness)) > 0 <==> style == DottedStroke || style == DashedStroke
  {
  }

  function Offset(p: FloatPoint, dx: int, dy: int): FloatPoint
  {
    FloatPoint(p.px + dx as real, p.py + dy as real)
  }

  /** `IntPoint(p.x(), p.y())` passed on as a `FloatPoint`. */
  function Truncated(p: FloatPoint): FloatPoint
  {
    FloatPoint(TruncateToInt(p.px) as real, TruncateToInt(p.py) as real)
  }

  /** The length the dash pattern is laid over: the line's extent minus
      the two corner squares, stored into an `int`. */
  function PatternDistance(point1: FloatPoint, point2: FloatPoint, thickness: int): int
  {
    TruncateToInt((if point1.px == point2.px then point2.py - point1.py else point2.px - point1.px) - 2.0 * thickness as real)
  }

  /** The corner pieces of a dotted or dashed line: a square of the
      pattern width at each end (one pixel longer along a vertical line),
      the one at the far end moved back a pixel when the thickness is
      odd. */
  function CornerPieces(point1: FloatPoint, point2: FloatPoint, vertical: bool, thickness: int, w: int,
                        color: PC.RGBA32): (r: seq<BorderLine>)
  {
    var e := if thickness % 2 == 1 then 1 else 0;
    if vertical then
      [BorderLine(point1, Offset(point1, 0, w + 1), color, thickness as real, w as real, 0.0),
       BorderLine(Offset(point2, 0, -e), Offset(point2, 0, -(w + 1)), color, thickness as real, w as real, 0.0)]
    else
      [BorderLine(point1, Offset(point1, w, 0), color, thickness as real, w as real, 0.0),
       BorderLine(Offset(point2, -e, 0), Offset(point2, -w, 0), color, thickness as real, w as real, 0.0)]
  }

  /** The side: with a pattern, pulled in by `w - 2` at both ends along
      the line (the corner pieces then overlap it by `overlapAdjust`, 2
      pixels) and dashed from `StrokePatternOffset`; without one, the whole
      line, solid. Its ends are converted to integer points. */
  function SideLine(point1: FloatPoint, point2: FloatPoint, vertical: bool, thickness: int, w: int,
                    color: PC.RGBA32): (r: BorderLine)
  {
    var ends := SideEnds(point1, point2, vertical, w);
    var offset := if w != 0 then StrokePatternOffset(PatternDistance(point1, point2, thickness), w) else 0.0;
    BorderLine(Truncated(ends.0), Truncated(ends.1), color, thickness as real, w as real, offset)
  }

  /** `sideBegin` and `sideEnd` before their conversion to integer points. */
  function SideEnds(point1: FloatPoint, point2: FloatPoint, vertical: bool, w: int): (FloatPoint, FloatPoint)
  {
    var pull := if w != 0 then w - 2 else 0;
    if vertical then (Offset(point1, 0, pull), Offset(point2, 0, -pull))
    else (Offset(point1, pull, 0), Offset(point2, -pull, 0))
  }

  /** The `drawBorderLine` calls of `drawLineOnTyGLContext`, in order. */
  function LineDraws(style: StrokeStyle, strokeThickness: real, color: PC.RGBA32, point1: FloatPoint,
                     point2: FloatPoint): (r: seq<BorderLine>)
  {
    if style == NoStroke then []
    else
      var t := LineThickness(strokeThickness);
      var w := PatternWidth(style, t);
      var vertical := point1.px == point2.px;
      (if w != 0 then CornerPieces(point1, point2, vertical, t, w, color) else []) +
      [SideLine(point1, point2, vertical, t, w, color)]
  }

  /** Nothing is drawn for `NoStroke`; a solid line is one draw, a dotted or
      dashed one three. Every draw has the stroke colour, a thickness of at
      least 1 and the pattern width as its dash length. */
  lemma LineDrawsShape(style: StrokeStyle, strokeThickness: real, color: PC.RGBA32, point1: FloatPoint, point2: FloatPoint)
    ensures var r := LineDraws(style, strokeThickness, color, point1, point2);
      var t := LineThickness(strokeThickness);
      (r == [] <==> style == NoStroke) &&
      (style != NoStroke ==> |r| == (if style == DottedStroke || style == DashedStroke then 3 else 1)) &&
      (forall d :: d in r ==>
         d.color == color && d.thickness == t as real && d.thickness >= 1.0 &&
         d.dashLength == PatternWidth(style, t) as real)
  {
  }

  /** A solid line is one undashed draw from the first point to the
      second, converted to integer points. */
  lemma SolidLineIsOneDraw(style: StrokeStyle, strokeThickness: real, color: PC.RGBA32, point1: FloatPoint, point2: FloatPoint)
    requires style != NoStroke && style != DottedStroke && style != DashedStroke
    ensures LineDraws(style, strokeThickness, color, point1, point2) ==
      [BorderLine(Truncated(point1), Truncated(point2), color, LineThickness(strokeThickness) as real, 0.0, 0.0)]
  {
  }

  /** A point with integer coordinates. */
  predicate IntegralPoint(p: FloatPoint)
  {
    p.px == TruncateToInt(p.px) as real && p.py == TruncateToInt(p.py) as real
  }

  lemma TruncatedOffset(p: FloatPoint, dx: int, dy: int)
    requires IntegralPoint(p)
    ensures Truncated(Offset(p, dx, dy)) == Offset(p, dx, dy)
  {
    TruncateExact(TruncateToInt(p.px) + dx);
    TruncateExact(TruncateToInt(p.py) + dy);
  }

  /** On a horizontal dotted or dashed line between integer points the
      side starts two pixels before the first corner piece ends and stops
      two pixels after the second one ends, on the same row. */
  lemma HorizontalSideOverlapsCorners(style: StrokeStyle, strokeThickness: real, color: PC.RGBA32,
                                      point1: FloatPoint, point2: FloatPoint)
    requires style == DottedStroke || style == DashedStroke
    requires IntegralPoint(point1) && IntegralPoint(point2) && point1.px != point2.px
    ensures var r := LineDraws(style, strokeThickness, color, point1, point2);
      |r| == 3 && r[0].from == point1 &&
      r[2].from.px == r[0].to.px - 2.0 && r[2].to.px == r[1].to.px + 2.0 &&
      r[2].from.py == point1.py && r[2].to.py == point2.py
  {
    var t := LineThickness(strokeThickness);
    var w := PatternWidth(style, t);
    assert LineDraws(style, strokeThickness, color, point1, point2) ==
      CornerPieces(point1, point2, false, t, w, color) + [SideLine(point1, point2, false, t, w, color)];
    TruncatedOffset(point1, w - 2, 0);
    TruncatedOffset(point2, -(w - 2), 0);
  }

  /** The same on a vertical line, where the corner pieces are one pixel
      longer. */
  lemma VerticalSideOverlapsCorners(style: StrokeStyle, strokeThickness: real, color: PC.RGBA32,
                                    point1: FloatPoint, point2: FloatPoint)
    requires style == DottedStroke || style == DashedStroke
    requires IntegralPoint(point1) && IntegralPoint(point2) && point1.px == point2.px
    ensures var r := LineDraws(style, strokeThickness, color, point1, point2);
      |r| == 3 && r[0].from == point1 &&
      r[2].from.py == r[0].to.py - 3.0 && r[2].to.py == r[1].to.py + 3.0 &&
      r[2].from.px == point1.px && r[2].to.px == point1.px
  {
    var t := LineThickness(strokeThickness);
    var w := PatternWidth(style, t);
    assert LineDraws(style, strokeThickness, color, point1, point2) ==
      CornerPieces(point1, point2, true, t, w, color) + [SideLine(point1, point2, true, t, w, color)];
    TruncatedOffset(point1, 0, w - 2);
    TruncatedOffset(point2, 0, -(w - 2));
  }

  /** When the line is long enough to hold both corner squares, the side's
      dash pattern starts within one dash. */
  lemma SideDashStartsWithinDash(style: StrokeStyle, strokeThickness: real, color: PC.RGBA32,
                                 point1: FloatPoint, point2: FloatPoint)
    requires style != NoStroke
    requires PatternDistance(point1, point2, LineThickness(strokeThickness)) >= 0
    ensures var r := LineDraws(style, strokeThickness, color, point1, point2);
      |r| >= 1 && 0.0 <= r[|r| - 1].dashOffset <= r[|r| - 1].dashLength
  {
    var t := LineThickness(strokeThickness);
    var w := PatternWidth(style, t);
    if w != 0 {
      PatternOffsetWithinDash(PatternDistance(point1, point2, t), w);
    }
  }

  /** `drawLineOnTyGLContext`; the requires is its `ASSERT` that the line
      is horizontal or vertical. */
  method DrawLine(style: StrokeStyle, strokeThickness: real, color: PC.RGBA32, point1: FloatPoint, point2: FloatPoint)
    returns (draws: seq<BorderLine>)
    requires point1.px == point2.px || point1.py == point2.py
    ensures draws == LineDraws(style, strokeThickness, color, point1, point2)
  {
    draws := [];
    if style == NoStroke {
      return;
    }
    var thickness := LineThickness(strokeThickness);
    var patternWidth := PatternWidth(style, thickness);
    var isVerticalLine := point1.px == point2.px;
    var sideBegin, sideEnd := point1, point2;
    var patternOffset := 0.0;
    if patternWidth != 0 {
      var overlapAdjust := 2;
      if isVerticalLine {
        sideBegin := Offset(sideBegin, 0, patternWidth - overlapAdjust);
        sideEnd := Offset(sideEnd, 0, -(patternWidth - overlapAdjust));
      } else {
        sideBegin := Offset(sideBegin, patternWidth - overlapAdjust, 0);
        sideEnd := Offset(sideEnd, -(patternWidth - overlapAdjust), 0);
      }
      var distance := TruncateToInt((if isVerticalLine then point2.py - point1.py else point2.px - point1.px) - 2.0 * thickness as real);
      assert distance == PatternDistance(point1, point2, thickness);
      patternOffset := StrokePatternOffset(distance, patternWidth);
      draws := DrawCornerPieces(point1, point2, isVerticalLine, thickness, patternWidth, color);
    } else {
      assert (sideBegin, sideEnd) == SideEnds(point1, point2, isVerticalLine, patternWidth);
    }
    assert (sideBegin, sideEnd) == SideEnds(point1, point2, isVerticalLine, patternWidth);
    draws := draws + [BorderLine(Truncated(sideBegin), Truncated(sideEnd), color, thickness as real, patternWidth as real, patternOffset)];
  }

  /** The corner-piece calls of `drawLineOnTyGLContext`. */
  method DrawCornerPieces(point1: FloatPoint, point2: FloatPoint, isVerticalLine: bool, thickness: int,
                          patternWidth: int, color: PC.RGBA32) returns (draws: seq<BorderLine>)
    ensures draws == CornerPieces(point1, point2, isVerticalLine, thickness, patternWidth, color)
  {
    var cornerPieceEndOffset := if thickness % 2 == 1 then 1 else 0;
    draws := [];
    if isVerticalLine {
      draws := draws + [BorderLine(point1, Offset(point1, 0, patternWidth + 1), color, thickness as real, patternWidth as real, 0.0)];
      draws := draws + [BorderLine(Offset(point2, 0, -cornerPieceEndOffset), Offset(point2, 0, -(patternWidth + 1)), color, thickness as real, patternWidth as real, 0.0)];
    } else {
      draws := draws + [BorderLine(point1, Offset(point1, patternWidth, 0), color, thickness as real, patternWidth as real, 0.0)];
      draws := draws + [BorderLine(Offset(point2, -cornerPieceEndOffset, 0), Offset(point2, -patternWidth, 0), color, thickness as real, patternWidth as real, 0.0)];
    }
  }

  /** The calls `pathFromConvexPolygon` makes on an empty path: `moveTo`
      the first point, `addLineTo` each later one, and `addLineTo` the
      first point again. */
  function PolygonSpec(points: seq<FloatPoint>): (r: P.PathState)
    requires |points| >= 1
    ensures P.Indexed(r)
  {
    P.LineToSpec(LinesTo(P.MoveToSpec(P.EmptyPath, points[0]), points[1..]), points[0])
  }

  /** `addLineTo` to each point in turn. */
  function LinesTo(s: P.PathState, points: seq<FloatPoint>): (r: P.PathState)
    requires P.Indexed(s)
    ensures P.Indexed(r)
  {
    if points == [] then s else P.LineToSpec(LinesTo(s, points[..|points| - 1]), points[|points| - 1])
  }

  /** `pathFromConvexPolygon`; the requires is its `ASSERT(npoints >= 1)`. */
  method PathFromConvexPolygon(points: seq<FloatPoint>, circle: real -> FloatPoint) returns (polygonPath: P.PathData)
    requires |points| >= 1
    ensures fresh(polygonPath) && polygonPath.Valid() && polygonPath.circle == circle
    ensures polygonPath.State() == PolygonSpec(points)
  {
    polygonPath := new P.PathData(circle);
    polygonPath.MoveTo(points[0]);
    ghost var start := polygonPath.State();
    for pointIndex := 1 to |points|
      invariant polygonPath.Valid() && polygonPath.circle == circle
      invariant polygonPath.State() == LinesTo(start, points[1..pointIndex])
    {
      assert points[1..pointIndex + 1][..pointIndex - 1] == points[1..pointIndex];
      polygonPath.AddLineTo(points[pointIndex]);
    }
    assert points[1..|points|] == points[1..];
    polygonPath.AddLineTo(points[0]);
  }

  /** The line segments of a polygon outline. */
  function Lines(points: seq<FloatPoint>): (r: seq<P.Element>)
    ensures |r| == |points|
  {
    seq(|points|, i requires 0 <= i < |points| => P.LineTo(points[i]))
  }

  /** No point repeats the one before it. */
  predicate NoRepeatedPoint(points: seq<FloatPoint>)
  {
    forall i :: 0 < i < |points| ==> points[i] != points[i - 1]
  }

  /** After the MoveTo, lines to points that each differ from the point
      before are all appended. */
  lemma {:induction false} LinesToAppends(p0: FloatPoint, points: seq<FloatPoint>)
    requires NoRepeatedPoint(points)
    ensures LinesTo(P.PathState([P.MoveTo(p0)], Some(0), true), points) ==
      P.PathState([P.MoveTo(p0)] + Lines(points), Some(0), points == [])
  {
    if points != [] {
      var init := points[..|points| - 1];
      assert NoRepeatedPoint(init);
      LinesToAppends(p0, init);
      if init != [] {
        assert P.Last([P.MoveTo(p0)] + Lines(init)) == P.LineTo(points[|points| - 2]);
      }
      assert Lines(init) + [P.LineTo(points[|points| - 1])] == Lines(points);
    }
  }

  /** The outline of a polygon whose consecutive points differ, the last
      also from the first, is exactly a MoveTo to the first point, a LineTo
      to each later point and a LineTo back to the first. */
  lemma PolygonOutline(points: seq<FloatPoint>)
    requires |points| >= 1 && NoRepeatedPoint(points) && (|points| == 1 || points[|points| - 1] != points[0])
    ensures PolygonSpec(points).elements == [P.MoveTo(points[0])] + Lines(points[1..]) + [P.LineTo(points[0])]
    ensures PolygonSpec(points).shapeFirst == Some(0) && !PolygonSpec(points).isEmpty
  {
    assert NoRepeatedPoint(points[1..]);
    assert P.MoveToSpec(P.EmptyPath, points[0]) == P.PathState([P.MoveTo(points[0])], Some(0), true);
    LinesToAppends(points[0], points[1..]);
    var body := [P.MoveTo(points[0])] + Lines(points[1..]);
    assert P.Last(body) == if |points| == 1 then P.MoveTo(points[0]) else P.LineTo(points[|points| - 1]);
  }

  /** Whatever the points, the outline is a well-formed path that starts
      with a MoveTo to the first point and ends at the first point. */
  lemma PolygonClosed(points: seq<FloatPoint>)
    requires |points| >= 1
    ensures P.Consistent(PolygonSpec(points))
    ensures var es := PolygonSpec(points).elements;
      |es| >= 1 && es[0] == P.MoveTo(points[0]) && P.Last(es).end == points[0]
  {
    var s := P.MoveToSpec(P.EmptyPath, points[0]);
    P.MoveToKeeps(P.EmptyPath, points[0]);
    LinesToKeep(s, points[1..]);
    var l := LinesTo(s, points[1..]);
    P.LineToKeeps(l, points[0]);
    LinesToKeepFirst(s, points[1..]);
  }

  lemma {:induction false} LinesToKeep(s: P.PathState, points: seq<FloatPoint>)
    requires P.Consistent(s)
    ensures P.Consistent(LinesTo(s, points))
  {
    if points != [] {
      LinesToKeep(s, points[..|points| - 1]);
      P.LineToKeeps(LinesTo(s, points[..|points| - 1]), points[|points| - 1]);
    }
  }

  lemma {:induction false} LinesToKeepFirst(s: P.PathState, points: seq<FloatPoint>)
    requires P.Indexed(s) && |s.elements| >= 1
    ensures |LinesTo(s, points).elements| >= 1 && LinesTo(s, points).elements[0] == s.elements[0]
  {
    if points != [] {
      LinesToKeepFirst(s, points[..|points| - 1]);
    }
  }
}
