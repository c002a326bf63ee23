/**
 * `TyGL::AffineTransform` (TransformTyGL.h and .cpp): a 2-D affine map kept
 * as the six entries `a, b, c, d, e, f` of the matrix
 *
 *     | a c e |
 *     | b d f |
 *     | 0 0 1 |
 *
 * together with a type tag: `Move` when the linear part is the identity, so
 * that `apply` and `translate` may take a translation-only shortcut, and
 * `Affine` otherwise.
 *
 * Floats are modelled as `real`, so every operation is exact; `cos` and
 * `sin` of `rotate` are parameters.
 */
module TransformTyGL {
  import opened Geometry

  /** `Transform::m_matrix`, entries 0 to 5. */
  datatype Matrix = Matrix(a: real, b: real, c: real, d: real, e: real, f: real)

  datatype Type = Move | Affine

  /** `kIdentity`. */
  const Identity: Matrix := Matrix(1.0, 0.0, 0.0, 1.0, 0.0, 0.0)

  /** `inlineAutoDetectType`. */
  function DetectType(m: Matrix): (t: Type)
    ensures t == Move <==> m.a == 1.0 && m.b == 0.0 && m.c == 0.0 && m.d == 1.0
  {
    if m.a == 1.0 && m.b == 0.0 && m.c == 0.0 && m.d == 1.0 then Move else Affine
  }

  /** The point `p` mapped by the matrix. */
  function Map(m: Matrix, p: FloatPoint): FloatPoint
  {
    FloatPoint(p.px * m.a + p.py * m.c + m.e, p.px * m.b + p.py * m.d + m.f)
  }

  /** The matrix product `m * n`. */
  function Compose(m: Matrix, n: Matrix): Matrix
  {
    Matrix(m.a * n.a + m.c * n.b, m.b * n.a + m.d * n.b,
           m.a * n.c + m.c * n.d, m.b * n.c + m.d * n.d,
           m.e + m.a * n.e + m.c * n.f, m.f + m.b * n.e + m.d * n.f)
  }

  /** The product maps a point as `n` then `m` do. */
  lemma ComposeMaps(m: Matrix, n: Matrix, p: FloatPoint)
    ensures Map(Compose(m, n), p) == Map(m, Map(n, p))
  {
    ComposeMapsX(m, n, p);
    ComposeMapsY(m, n, p);
  }

  lemma ComposeMapsX(m: Matrix, n: Matrix, p: FloatPoint)
    ensures Map(Compose(m, n), p).px == Map(m, Map(n, p)).px
  {
    ComposedRow(p.px, p.py, n.a, n.b, n.c, n.d, n.e, n.f, m.a, m.c, m.e);
  }

  lemma ComposeMapsY(m: Matrix, n: Matrix, p: FloatPoint)
    ensures Map(Compose(m, n), p).py == Map(m, Map(n, p)).py
  {
    ComposedRow(p.px, p.py, n.a, n.b, n.c, n.d, n.e, n.f, m.b, m.d, m.f);
  }

  /** One coordinate of `ComposeMaps`, as an identity between polynomials. */
  lemma ComposedRow(x: real, y: real, a: real, b: real, c: real, d: real, e: real, f: real,
                    u: real, v: real, w: real)
    ensures (x * a + y * c + e) * u + (x * b + y * d + f) * v + w
            == x * (u * a + v * b) + y * (u * c + v * d) + (w + u * e + v * f)
  {
  }

  /** Matrices that map every point alike are equal. */
  lemma MapDeterminesMatrix(m: Matrix, n: Matrix)
    requires forall p :: Map(m, p) == Map(n, p)
    ensures m == n
  {
    var o, x, y := Map(m, FloatPoint(0.0, 0.0)), Map(m, FloatPoint(1.0, 0.0)), Map(m, FloatPoint(0.0, 1.0));
    assert o == Map(n, FloatPoint(0.0, 0.0)) && x == Map(n, FloatPoint(1.0, 0.0)) && y == Map(n, FloatPoint(0.0, 1.0));
  }

  lemma IdentityMapsAlike(p: FloatPoint)
    ensures Map(Identity, p) == p
  {
  }

  function Translation(x: real, y: real): Matrix { Matrix(1.0, 0.0, 0.0, 1.0, x, y) }
  function Scaling(sx: real, sy: real): Matrix { Matrix(sx, 0.0, 0.0, sy, 0.0, 0.0) }
  function Rotation(cosAngle: real, sinAngle: real): Matrix { Matrix(cosAngle, sinAngle, -sinAngle, cosAngle, 0.0, 0.0) }

  function Determinant(m: Matrix): real { m.a * m.d - m.b * m.c }

  /** The matrix part of `inverse()`: the translation negated for a Move
      transform, the identity for a singular one, and the adjugate over the
      determinant otherwise. */
  function InverseMatrix(m: Matrix, t: Type): Matrix
  {
    if t == Move then Matrix(1.0, 0.0, 0.0, 1.0, -m.e, -m.f)
    else
      var det := Determinant(m);
      if det == 0.0 then Identity else AdjugateOver(m, det)
  }

  /** The adjugate of `m` divided by `det`, entry by entry. */
  function AdjugateOver(m: Matrix, det: real): Matrix
    requires det != 0.0
  {
    Matrix(m.d / det, -m.b / det, -m.c / det, m.a / det,
           (m.c * m.f - m.d * m.e) / det, (m.b * m.e - m.a * m.f) / det)
  }

  /** A non-singular transform composed with its inverse, either way round,
      is the identity. */
  lemma InverseIsInverse(m: Matrix)
    requires Determinant(m) != 0.0
    ensures Compose(m, InverseMatrix(m, DetectType(m))) == Identity
    ensures Compose(InverseMatrix(m, DetectType(m)), m) == Identity
  {
    if DetectType(m) == Affine {
      var det := Determinant(m);
      var k := 1.0 / det;
      assert InverseMatrix(m, Affine) == AdjugateOver(m, det);
      InverseEntries(m, det, k);
      AdjugateRight(m.a, m.b, m.c, m.d, m.e, m.f, k);
      AdjugateLeft(m.a, m.b, m.c, m.d, m.e, m.f, k);
    }
  }

  /** The adjugate over the determinant is the adjugate scaled by `k = 1 / det`. */
  lemma InverseEntries(m: Matrix, det: real, k: real)
    requires det != 0.0 && k == 1.0 / det
    ensures AdjugateOver(m, det) == Adjugate(m.a, m.b, m.c, m.d, m.e, m.f, k)
  {
    var x, y := AdjugateOver(m, det), Adjugate(m.a, m.b, m.c, m.d, m.e, m.f, k);
    assert x.a == y.a by { DivIsMul(m.d, det, k); }
    assert x.b == y.b by { DivIsMul(-m.b, det, k); }
    assert x.c == y.c by { DivIsMul(-m.c, det, k); }
    assert x.d == y.d by { DivIsMul(m.a, det, k); }
    assert x.e == y.e by { DivIsMul(m.c * m.f - m.d * m.e, det, k); }
    assert x.f == y.f by { DivIsMul(m.b * m.e - m.a * m.f, det, k); }
  }

  lemma DivIsMul(x: real, det: real, k: real)
    requires det != 0.0 && k == 1.0 / det
    ensures x / det == x * k
  {
  }

  /** The adjugate of the matrix `a, b, c, d, e, f`, scaled by `k`. */
  function Adjugate(a: real, b: real, c: real, d: real, e: real, f: real, k: real): Matrix
  {
    Matrix(d * k, -b * k, -c * k, a * k, (c * f - d * e) * k, (b * e - a * f) * k)
  }

  /** The matrix times its scaled adjugate, when `k` is one over the
      determinant. */
  lemma AdjugateRight(a: real, b: real, c: real, d: real, e: real, f: real, k: real)
    requires (a * d - b * c) * k == 1.0
    ensures Compose(Matrix(a, b, c, d, e, f), Adjugate(a, b, c, d, e, f, k)) == Identity
  {
    assert a * (d * k) + c * (-b * k) == (a * d - b * c) * k;
    assert b * (d * k) + d * (-b * k) == 0.0;
    assert a * (-c * k) + c * (a * k) == 0.0;
    assert b * (-c * k) + d * (a * k) == (a * d - b * c) * k;
    AdjugateTranslationE(a, b, c, d, e, f, k);
    AdjugateTranslationF(a, b, c, d, e, f, k);
  }

  /** The translation entries of the matrix times its scaled adjugate. */
  lemma AdjugateTranslationE(a: real, b: real, c: real, d: real, e: real, f: real, k: real)
    requires (a * d - b * c) * k == 1.0
    ensures e + a * ((c * f - d * e) * k) + c * ((b * e - a * f) * k) == 0.0
  {
    assert a * ((c * f - d * e) * k) + c * ((b * e - a * f) * k) == -e * ((a * d - b * c) * k);
  }

  lemma AdjugateTranslationF(a: real, b: real, c: real, d: real, e: real, f: real, k: real)
    requires (a * d - b * c) * k == 1.0
    ensures f + b * ((c * f - d * e) * k) + d * ((b * e - a * f) * k) == 0.0
  {
    assert b * ((c * f - d * e) * k) + d * ((b * e - a * f) * k) == -f * ((a * d - b * c) * k);
  }

  /** The scaled adjugate times the matrix. */
  lemma AdjugateLeft(a: real, b: real, c: real, d: real, e: real, f: real, k: real)
    requires (a * d - b * c) * k == 1.0
    ensures Compose(Adjugate(a, b, c, d, e, f, k), Matrix(a, b, c, d, e, f)) == Identity
  {
    assert (d * k) * a + (-c * k) * b == (a * d - b * c) * k;
    assert (-b * k) * a + (a * k) * b == 0.0;
    assert (d * k) * c + (-c * k) * d == 0.0;
    assert (-b * k) * c + (a * k) * d == (a * d - b * c) * k;
    assert (c * f - d * e) * k + (d * k) * e + (-c * k) * f == 0.0;
    assert (b * e - a * f) * k + (-b * k) * e + (a * k) * f == 0.0;
  }

  /** Moves have determinant 1, so the Move case above always applies. */
  lemma MoveIsNonSingular(m: Matrix)
    requires DetectType(m) == Move
    ensures Determinant(m) == 1.0
  {
  }

  /** A singular transform has no inverse, and `inverse()` gives the identity. */
  lemma SingularInverse(m: Matrix, n: Matrix)
    requires DetectType(m) == Affine && Determinant(m) == 0.0
    ensures InverseMatrix(m, Affine) == Identity
    ensures !IsInverse(m, n)
  {
    if IsInverse(m, n) {
      InverseDeterminants(m, n);
      ZeroTimes(Determinant(m), Determinant(n));
      assert false;
    }
  }

  /** Mutually inverse matrices have determinants whose product is one. */
  lemma InverseDeterminants(m: Matrix, n: Matrix)
    requires IsInverse(m, n)
    ensures Determinant(m) * Determinant(n) == 1.0
  {
    DeterminantOfProduct(m, n);
  }

  lemma ZeroTimes(x: real, y: real)
    requires x == 0.0
    ensures x * y == 0.0
  {
  }

  /** The determinant of a product is the product of the determinants. */
  lemma DeterminantOfProduct(m: Matrix, n: Matrix)
    ensures Determinant(Compose(m, n)) == Determinant(m) * Determinant(n)
  {
    var a, b, c, d := m.a, m.b, m.c, m.d;
    calc {
      Determinant(Compose(m, n));
      (a * n.a + c * n.b) * (b * n.c + d * n.d) - (b * n.a + d * n.b) * (a * n.c + c * n.d);
      (a * d - b * c) * (n.a * n.d - n.b * n.c);
    }
  }

  predicate IsInverse(m: Matrix, n: Matrix) { Compose(m, n) == Identity }

  /** C's `floor` and `ceil`, whose results are whole numbers. */
  function Floor(x: real): (r: int)
    ensures r as real <= x < r as real + 1.0
  {
    x.Floor
  }

  function Ceil(x: real): (r: int)
    ensures r as real - 1.0 < x <= r as real
  {
    -((-x).Floor)
  }

  function Min4(p: real, q: real, r: real, s: real): (m: real)
    ensures m <= p && m <= q && m <= r && m <= s
    ensures m == p || m == q || m == r || m == s
  {
    var m1 := if p < q then p else q;
    var m2 := if m1 < r then m1 else r;
    if m2 < s then m2 else s
  }

  function Max4(p: real, q: real, r: real, s: real): (m: real)
    ensures m >= p && m >= q && m >= r && m >= s
    ensures m == p || m == q || m == r || m == s
  {
    var m1 := if p > q then p else q;
    var m2 := if m1 > r then m1 else r;
    if m2 > s then m2 else s
  }

  /** `outboundRect(coords)`: the smallest rectangle with whole-number
      edges holding the four points. */
  function OutboundRect(coords: seq<FloatPoint>): (r: FloatRect)
    requires |coords| >= 4
    ensures forall i :: 0 <= i < 4 ==>
      r.fx <= coords[i].px <= r.MaxX() && r.fy <= coords[i].py <= r.MaxY()
    ensures r.fx + 1.0 > Min4(coords[0].px, coords[1].px, coords[2].px, coords[3].px)
    ensures r.fy + 1.0 > Min4(coords[0].py, coords[1].py, coords[2].py, coords[3].py)
    ensures r.MaxX() - 1.0 < Max4(coords[0].px, coords[1].px, coords[2].px, coords[3].px)
    ensures r.MaxY() - 1.0 < Max4(coords[0].py, coords[1].py, coords[2].py, coords[3].py)
  {
    BoundsOf(Floor(Min4(coords[0].px, coords[1].px, coords[2].px, coords[3].px)),
             Floor(Min4(coords[0].py, coords[1].py, coords[2].py, coords[3].py)),
             Ceil(Max4(coords[0].px, coords[1].px, coords[2].px, coords[3].px)),
             Ceil(Max4(coords[0].py, coords[1].py, coords[2].py, coords[3].py)))
  }

  /** `FloatRect(left, bottom, right - left, top - bottom)` of whole-number edges. */
  function BoundsOf(left: int, bottom: int, right: int, top: int): (r: FloatRect)
    ensures r.fx == left as real && r.fy == bottom as real && r.MaxX() == right as real && r.MaxY() == top as real
  {
    FloatRect(left as real, bottom as real, (right - left) as real, (top - bottom) as real)
  }

  /** The corners of a rectangle in the order `apply` writes them:
      (left, bottom), (right, bottom), (left, top), (right, top). */
  function Corners(rect: FloatRect): seq<FloatPoint>
  {
    [FloatPoint(rect.fx, rect.fy), FloatPoint(rect.MaxX(), rect.fy),
     FloatPoint(rect.fx, rect.MaxY()), FloatPoint(rect.MaxX(), rect.MaxY())]
  }

  /** The empty `FloatRect()` returned when no bounding rectangle is asked for. */
  const EmptyRect: FloatRect := FloatRect(0.0, 0.0, 0.0, 0.0)

  /** The four corners of `rect` mapped by `m`, in `Corners` order. */
  function MappedCorners(m: Matrix, rect: FloatRect): (r: seq<FloatPoint>)
    ensures |r| == 4 && forall i :: 0 <= i < 4 ==> r[i] == Map(m, Corners(rect)[i])
  {
    var c := Corners(rect);
    [Map(m, c[0]), Map(m, c[1]), Map(m, c[2]), Map(m, c[3])]
  }

  /** The Move branch of `apply(rect, coords)` bounds the moved rectangle
      directly; for a rectangle of non-negative size that is the same as
      `outboundRect` of the moved corners. */
  lemma MoveBoundsAgree(m: Matrix, rect: FloatRect)
    requires DetectType(m) == Move && rect.fwidth >= 0.0 && rect.fheight >= 0.0
    ensures BoundsOf(Floor(rect.fx + m.e), Floor(rect.fy + m.f), Ceil(rect.MaxX() + m.e), Ceil(rect.MaxY() + m.f))
         == OutboundRect(MappedCorners(m, rect))
  {
    var q, c := MappedCorners(m, rect), Corners(rect);
    var l, r, b, t := rect.fx + m.e, rect.MaxX() + m.e, rect.fy + m.f, rect.MaxY() + m.f;
    MoveMaps(m, c[0]);
    MoveMaps(m, c[1]);
    MoveMaps(m, c[2]);
    MoveMaps(m, c[3]);
    assert q[0] == FloatPoint(l, b) && q[1] == FloatPoint(r, b);
    assert q[2] == FloatPoint(l, t) && q[3] == FloatPoint(r, t);
    assert Min4(l, r, l, r) == l && Max4(l, r, l, r) == r;
    assert Min4(b, b, t, t) == b && Max4(b, b, t, t) == t;
  }

  /** A Move only translates. */
  lemma MoveMaps(m: Matrix, p: FloatPoint)
    requires DetectType(m) == Move
    ensures Map(m, p) == FloatPoint(p.px + m.e, p.py + m.f)
  {
    assert p.px * m.a == p.px && p.py * m.c == 0.0;
    assert p.px * m.b == 0.0 && p.py * m.d == p.py;
  }

  /** The translation a matrix with no translation of its own contributes. */
  lemma NoTranslation(a: real, c: real, x: real, y: real)
    requires x == 0.0 && y == 0.0
    ensures a * x + c * y == 0.0
  {
  }

  /** The product `m * n` written entry by entry, its translation given. */
  lemma ComposeEntries(m: Matrix, n: Matrix, e: real, f: real)
    requires e == m.e + (m.a * n.e + m.c * n.f) && f == m.f + (m.b * n.e + m.d * n.f)
    ensures Compose(m, n) == Matrix(m.a * n.a + m.c * n.b, m.b * n.a + m.d * n.b,
                                    m.a * n.c + m.c * n.d, m.b * n.c + m.d * n.d, e, f)
  {
  }

  class AffineTransform {
    var kind: Type
    var transform: Matrix

    /** The type tag describes the matrix. */
    ghost predicate Valid()
      reads this
    {
      kind == DetectType(transform)
    }

    /** `AffineTransform()`: the identity, a Move. */
    constructor ()
      ensures Valid() && kind == Move && transform == Identity
    {
      kind := Move;
      transform := Identity;
    }

    /** `AffineTransform(Transform)`: the type is detected from the matrix. */
    constructor FromMatrix(m: Matrix)
      ensures Valid() && transform == m
    {
      transform := m;
      kind := DetectType(m);
    }

    /** `isIdentity()`. */
    function IsIdentity(): (r: bool)
      reads this
      requires Valid()
      ensures r <==> transform == Identity
    {
      kind == Move && transform.e == 0.0 && transform.f == 0.0
    }

    /** `apply(FloatPoint)`: a Move only adds the translation, which is what
        the full affine formula gives for it. */
    function Apply(location: FloatPoint): (r: FloatPoint)
      reads this
      requires Valid()
      ensures r == Map(transform, location)
    {
      if kind == Move then FloatPoint(location.px + transform.e, location.py + transform.f)
      else
        FloatPoint(location.px * transform.a + location.py * transform.c + transform.e,
                   location.px * transform.b + location.py * transform.d + transform.f)
    }

    /** `apply(rect, coords, returnOutboundRect)`: writes the mapped corners
        into `coords` and returns their bounding rectangle, or the empty
        rectangle when it is not asked for. A Move always rounds its first
        corner down and its last corner up, which is the bounding rectangle
        only while the rectangle's size is not negative. */
    method ApplyRect(rectangle: FloatRect, coords: array<FloatPoint>, returnOutboundRect: bool) returns (r: FloatRect)
      requires Valid() && coords.Length >= 4
      modifies coords
      ensures forall i :: 0 <= i < 4 ==> coords[i] == Map(transform, Corners(rectangle)[i])
      ensures forall i :: 4 <= i < coords.Length ==> coords[i] == old(coords[i])
      ensures !returnOutboundRect ==> r == EmptyRect
      ensures returnOutboundRect && (kind == Affine || (rectangle.fwidth >= 0.0 && rectangle.fheight >= 0.0)) ==>
        r == OutboundRect(coords[..4])
      ensures returnOutboundRect && kind == Move ==>
        r == BoundsOf(Floor(coords[0].px), Floor(coords[0].py), Ceil(coords[3].px), Ceil(coords[3].py))
    {
      if kind == Move {
        var left := rectangle.fx + transform.e;
        var bottom := rectangle.fy + transform.f;
        var right := rectangle.MaxX() + transform.e;
        var top := rectangle.MaxY() + transform.f;
        coords[0] := FloatPoint(left, bottom);
        coords[1] := FloatPoint(right, bottom);
        coords[2] := FloatPoint(left, top);
        coords[3] := FloatPoint(right, top);
        if !returnOutboundRect {
          return EmptyRect;
        }
        if rectangle.fwidth >= 0.0 && rectangle.fheight >= 0.0 {
          MoveBoundsAgree(transform, rectangle);
          assert coords[..4] == MappedCorners(transform, rectangle);
        }
        return BoundsOf(Floor(left), Floor(bottom), Ceil(right), Ceil(top));
      }
      coords[0] := Apply(FloatPoint(rectangle.fx, rectangle.fy));
      var point := FloatPoint(rectangle.MaxX(), rectangle.fy);
      coords[1] := Apply(point);
      point := FloatPoint(point.px, rectangle.MaxY());
      coords[3] := Apply(point);
      point := FloatPoint(rectangle.fx, point.py);
      coords[2] := Apply(point);
      if !returnOutboundRect {
        return EmptyRect;
      }
      r := OutboundRect(coords[..4]);
    }

    /** `operator=(const AffineTransform&)`. */
    method Assign(other: AffineTransform)
      requires other.Valid()
      modifies this
      ensures Valid() && kind == old(other.kind) && transform == old(other.transform)
    {
      kind, transform := other.kind, other.transform;
    }

    /** `operator=(Transform)`: the type is re-detected. */
    method AssignMatrix(m: Matrix)
      modifies this
      ensures Valid() && transform == m
    {
      transform := m;
      kind := DetectType(m);
    }

    /** `multiply(other)`: post-composes `other`, so the result applies
        `other` first. The translation update is skipped when `other` has
        none, which leaves the same matrix. */
    method Multiply(other: Matrix)
      modifies this
      ensures Valid() && transform == Compose(old(transform), other)
    {
      ghost var m := transform;
      var a, b, c, d := transform.a, transform.b, transform.c, transform.d;
      var e, f := transform.e, transform.f;
      if other.e != 0.0 || other.f != 0.0 {
        e := e + (a * other.e + c * other.f);
        f := f + (b * other.e + d * other.f);
      } else {
        NoTranslation(a, c, other.e, other.f);
        NoTranslation(b, d, other.e, other.f);
      }
      transform := Matrix(a * other.a + c * other.b, b * other.a + d * other.b,
                          a * other.c + c * other.d, b * other.c + d * other.d, e, f);
      ComposeEntries(m, other, e, f);
      kind := DetectType(transform);
    }

    /** `translate(x, y)`: a Move only shifts, which equals multiplying by
        the translation; an Affine transform multiplies. */
    method Translate(x: real, y: real)
      requires Valid()
      modifies this
      ensures Valid() && transform == Compose(old(transform), Translation(x, y))
      ensures old(kind) == Move ==> kind == Move
    {
      if kind == Move {
        transform := Matrix(transform.a, transform.b, transform.c, transform.d, transform.e + x, transform.f + y);
        return;
      }
      Multiply(Translation(x, y));
    }

    /** `scale(sx, sy)`. */
    method Scale(sx: real, sy: real)
      modifies this
      ensures Valid() && transform == Compose(old(transform), Scaling(sx, sy))
    {
      Multiply(Scaling(sx, sy));
    }

    /** `rotate(angle)`, given `cos(angle)` and `sin(angle)`. */
    method Rotate(cosAngle: real, sinAngle: real)
      modifies this
      ensures Valid() && transform == Compose(old(transform), Rotation(cosAngle, sinAngle))
    {
      Multiply(Rotation(cosAngle, sinAngle));
    }

    /** `inverse()` as the source writes it: the result starts as the
        default transform, a Move, and only its matrix entries are set, so
        its type stays Move whatever the matrix. */
    method InverseAsWritten() returns (result: AffineTransform)
      requires Valid()
      ensures fresh(result) && result.kind == Move
      ensures result.transform == InverseMatrix(transform, kind)
    {
      result := new AffineTransform();
      result.transform := InverseMatrix(transform, kind);
    }

    /** `inverse()` with the type re-detected, as `operator=(Transform)`
        does: a valid transform whose matrix is the inverse matrix. */
    method Inverse() returns (result: AffineTransform)
      requires Valid()
      ensures fresh(result) && result.Valid()
      ensures result.transform == InverseMatrix(transform, kind)
      ensures Determinant(transform) != 0.0 ==>
        Compose(transform, result.transform) == Identity && Compose(result.transform, transform) == Identity
    {
      result := new AffineTransform();
      result.AssignMatrix(InverseMatrix(transform, kind));
      if Determinant(transform) != 0.0 {
        InverseIsInverse(transform);
      }
    }
  }

  /** The inverse the source builds for `scale(2, 2)` is tagged Move, so
      its `apply` adds the zero translation and leaves a point where it is,
      while its matrix halves the point. */
  lemma InverseTagMismatch()
    ensures var m := Scaling(2.0, 2.0);
      var inv := InverseMatrix(m, DetectType(m));
      inv == Scaling(0.5, 0.5)
      && DetectType(inv) == Affine
      && Map(inv, FloatPoint(1.0, 1.0)) == FloatPoint(0.5, 0.5)
      && FloatPoint(1.0 + inv.e, 1.0 + inv.f) == FloatPoint(1.0, 1.0)
  {
  }
}
