/**
 * `ShaderPathTyGL.cpp`: filling a path. First the trapezoids of each path
 * are rasterised into an alpha texture: `setupAttributes` writes four
 * vertices per trapezoid, and the trapezoids are drawn in batches.
 * Then the batched path quads sample that texture. `pathBeforeFlushAction`
 * stacks up to four paths per band of the texture, one colour channel
 * each, and writes every quad's texture coordinates.
 *
 * GL calls become returned draw records or boolean oracles. Floats are
 * `real`. A trapezoid list is its trapezoids plus the integer bounding box
 * they occupy.
 */
module ShaderPathTyGL {
  import opened TyGLDefs
  import opened IntMath
  import PC = PlatformContextTyGL

  /** `TrapezoidList::Trapezoid`: a horizontal band with two slanted sides. */
  datatype Trapezoid = Trapezoid(bottomY: real, topY: real,
                                 bottomLeftX: real, bottomRightX: real,
                                 topLeftX: real, topRightX: real)

  /** `IntRect` bounding box of a trapezoid list. */
  datatype Box = Box(x: int, y: int, width: int, height: int)

  /** A trapezoid list as the path batch holds it. */
  datatype PathEntry = PathEntry(trapezoids: seq<Trapezoid>, box: Box, isRectShape: bool)

  /** A draw call issued while rasterising trapezoids. */
  datatype TrapezoidDraw = DrawTriangles(indexCount: nat) | DrawTriangleStrip(vertexCount: nat)

  /** Floats per trapezoid vertex (`numberOfAttributes` in both rasterising loops). */
  const FloatsPerVertex := 8
  const FloatsPerTrapezoid := 4 * FloatsPerVertex
  const TextureSize := 2048
  const TileAlignment := 16
  /** The channel `fillPathAlphaTexture` renders a single path into. */
  const AlphaTextureChannel := 3

  // ---------------------------------------------------------------------
  // setupAttributes
  // ---------------------------------------------------------------------

  /** `i + ((i & 0x1) << 1)` for a non-negative vertex number i. */
  function VertexNumber(i: nat): nat
  {
    i + (i % 2) * 2
  }

  /** The corner the fill-path vertex shader assigns to a vertex number:
      numbers up to 2 are on the bottom edge, 0 and 3 on the left side. */
  predicate ShaderCornerIsBottom(n: nat) { n <= 2 }
  predicate ShaderCornerIsLeft(n: nat) { n == 0 || n == 3 }

  /** The four vertices of a trapezoid are numbered 0, 3, 2, 5.
      For the shader that is bottom-left, top-left, bottom-right, top-right:
      even vertices are on the bottom and vertices 0 and 1 on the left, so
      the four vertices take four distinct corners. */
  lemma VertexNumbersPickCorners(i: nat)
    requires i < 4
    ensures VertexNumber(i) == [0, 3, 2, 5][i]
    ensures ShaderCornerIsBottom(VertexNumber(i)) <==> i % 2 == 0
    ensures ShaderCornerIsLeft(VertexNumber(i)) <==> i < 2
  {
  }

  /** The eight floats of vertex i: vertex number, channel, the two y edges
      relative to offsetY and the four x corners relative to offsetX. */
  function Vertex(t: Trapezoid, channel: real, offsetX: real, offsetY: real, i: nat): (r: seq<real>)
    ensures |r| == FloatsPerVertex
  {
    [VertexNumber(i) as real, channel, t.bottomY - offsetY, t.topY - offsetY,
     t.bottomLeftX - offsetX, t.bottomRightX - offsetX, t.topLeftX - offsetX, t.topRightX - offsetX]
  }

  /** The eight floats at p are v. */
  ghost predicate VertexAt(a: seq<real>, p: nat, v: seq<real>)
    requires |v| == FloatsPerVertex
  {
    p + FloatsPerVertex <= |a| && a[p..p + FloatsPerVertex] == v
  }

  /** The 32 floats starting at `start` are trapezoid t's four vertices. */
  ghost predicate HoldsTrapezoid(a: seq<real>, start: nat, t: Trapezoid, channel: real, offsetX: real, offsetY: real)
  {
    forall i: nat :: i < 4 ==> VertexAt(a, start + FloatsPerVertex * i, Vertex(t, channel, offsetX, offsetY, i))
  }

  /** Only positions inside [lo, hi) differ between the two states. */
  ghost predicate ChangedOnlyIn(now: seq<real>, before: seq<real>, lo: int, hi: int)
  {
    |now| == |before| && forall k :: 0 <= k < |now| && !(lo <= k < hi) ==> now[k] == before[k]
  }

  /** A trapezoid written outside the changed range is still there. */
  lemma {:induction false} HoldsTrapezoidOutside(now: seq<real>, before: seq<real>, start: nat, t: Trapezoid, channel: real,
                              offsetX: real, offsetY: real, lo: int, hi: int)
    requires HoldsTrapezoid(before, start, t, channel, offsetX, offsetY)
    requires ChangedOnlyIn(now, before, lo, hi)
    requires start + FloatsPerTrapezoid <= lo || hi <= start
    ensures HoldsTrapezoid(now, start, t, channel, offsetX, offsetY)
  {
    forall i: nat | i < 4
      ensures VertexAt(now, start + FloatsPerVertex * i, Vertex(t, channel, offsetX, offsetY, i))
    {
      var p := start + FloatsPerVertex * i;
      assert VertexAt(before, p, Vertex(t, channel, offsetX, offsetY, i));
      assert now[p..p + FloatsPerVertex] == before[p..p + FloatsPerVertex];
    }
  }

  /** The eight stores of one loop iteration of `setupAttributes`. */
  method WriteVertex(attributes: array<real>, p: nat, v: seq<real>)
    requires |v| == FloatsPerVertex && p + FloatsPerVertex <= attributes.Length
    modifies attributes
    ensures VertexAt(attributes[..], p, v)
    ensures ChangedOnlyIn(attributes[..], old(attributes[..]), p, p + FloatsPerVertex)
  {
    attributes[p] := v[0];
    attributes[p + 1] := v[1];
    attributes[p + 2] := v[2];
    attributes[p + 3] := v[3];
    attributes[p + 4] := v[4];
    attributes[p + 5] := v[5];
    attributes[p + 6] := v[6];
    attributes[p + 7] := v[7];
    assert attributes[..][p..p + FloatsPerVertex] == v;
  }

  /** `setupAttributes`: writes the trapezoid's four vertices through an
      advancing pointer and nothing else. */
  method SetupAttributes(t: Trapezoid, channel: real, attributes: array<real>, start: nat, offsetX: real, offsetY: real)
    requires start + FloatsPerTrapezoid <= attributes.Length
    modifies attributes
    ensures HoldsTrapezoid(attributes[..], start, t, channel, offsetX, offsetY)
    ensures ChangedOnlyIn(attributes[..], old(attributes[..]), start, start + FloatsPerTrapezoid)
  {
    var p := start;
    for i := 0 to 4
      invariant p == start + FloatsPerVertex * i
      invariant forall i1: nat :: i1 < i ==>
        VertexAt(attributes[..], start + FloatsPerVertex * i1, Vertex(t, channel, offsetX, offsetY, i1))
      invariant ChangedOnlyIn(attributes[..], old(attributes[..]), start, p)
    {
      ghost var before := attributes[..];
      WriteVertex(attributes, p, Vertex(t, channel, offsetX, offsetY, i));
      forall i1: nat | i1 < i
        ensures VertexAt(attributes[..], start + FloatsPerVertex * i1, Vertex(t, channel, offsetX, offsetY, i1))
      {
        var q := start + FloatsPerVertex * i1;
        assert VertexAt(before, q, Vertex(t, channel, offsetX, offsetY, i1));
        assert attributes[..][q..q + FloatsPerVertex] == before[q..q + FloatsPerVertex];
      }
      p := p + FloatsPerVertex;
    }
  }

  // ---------------------------------------------------------------------
  // Batching the trapezoid draws
  // ---------------------------------------------------------------------

  /** `min(kMaximumNumberOfUshortQuads, kMaximumNumberOfAttributes / 32)`:
      the batch size of `fillPathAlphaTexture`. */
  const AlphaTextureBatchLimit: nat := 2048

  /** The batch size written out is the minimum the source computes, and the
      same limit `pathBeforeFlushAction` uses for a scratch area at offset 0. */
  lemma AlphaTextureBatchLimitIsMinimum()
    ensures AlphaTextureBatchLimit == Min(PC.MaximumNumberOfUshortQuads, PC.MaximumNumberOfAttributes / FloatsPerTrapezoid)
    ensures AlphaTextureBatchLimit == PathBatchLimit(0)
  {
  }

  /** The draw issued for the last `pending` trapezoids, if any: a lone
      trapezoid is a four-vertex strip, more are indexed triangles. */
  function FinalDraw(pending: nat): seq<TrapezoidDraw>
  {
    if pending == 0 then []
    else if pending == 1 then [DrawTriangleStrip(4)]
    else [DrawTriangles(pending * 6)]
  }

  /** The draws for `count` trapezoids in batches of `limit`: one indexed
      draw per full batch, then the remainder. */
  function BatchDraws(count: nat, limit: nat): seq<TrapezoidDraw>
    requires limit >= 1
  {
    seq(count / limit, _ => DrawTriangles(limit * 6)) + FinalDraw(count % limit)
  }

  /** The trapezoids a draw covers (six indices or four strip vertices each). */
  function QuadsOf(d: TrapezoidDraw): nat
  {
    match d
    case DrawTriangles(n) => n / 6
    case DrawTriangleStrip(_) => 1
  }

  function TotalQuads(draws: seq<TrapezoidDraw>): nat
  {
    if draws == [] then 0 else TotalQuads(draws[..|draws| - 1]) + QuadsOf(draws[|draws| - 1])
  }

  lemma {:induction false} TotalQuadsAppend(a: seq<TrapezoidDraw>, b: seq<TrapezoidDraw>)
    ensures TotalQuads(a + b) == TotalQuads(a) + TotalQuads(b)
    decreases |b|
  {
    if b == [] {
      assert a + b == a;
    } else {
      var b1 := b[..|b| - 1];
      assert (a + b)[..|a + b| - 1] == a + b1;
      TotalQuadsAppend(a, b1);
    }
  }

  lemma {:induction false} QuadsOfTriangles(n: nat)
    ensures QuadsOf(DrawTriangles(n * 6)) == n
  {
    QuotRem(n * 6, 6, n, 0);
  }

  lemma {:induction false} TotalQuadsOfFullBatches(k: nat, limit: nat)
    requires limit >= 1
    ensures TotalQuads(seq(k, _ => DrawTriangles(limit * 6))) == k * limit
  {
    if k > 0 {
      var s := seq(k, _ => DrawTriangles(limit * 6));
      assert s[..k - 1] == seq(k - 1, _ => DrawTriangles(limit * 6));
      TotalQuadsOfFullBatches(k - 1, limit);
      QuadsOfTriangles(limit);
    }
  }

  /** Batching loses no trapezoid and draws none twice: the batches cover
      exactly `count` trapezoids, each batch between 1 and `limit`. */
  lemma {:induction false} BatchDrawsCoverEveryTrapezoid(count: nat, limit: nat)
    requires limit >= 1
    ensures TotalQuads(BatchDraws(count, limit)) == count
    ensures forall d :: d in BatchDraws(count, limit) ==> 1 <= QuadsOf(d) <= limit
  {
    DivModSplit(count, limit);
    FullBatchesThenRest(count / limit, count % limit, limit);
  }

  /** `k` full batches and a remainder below the limit. */
  lemma {:induction false} FullBatchesThenRest(k: nat, rest: nat, limit: nat)
    requires limit >= 1 && rest < limit
    ensures TotalQuads(seq(k, _ => DrawTriangles(limit * 6)) + FinalDraw(rest)) == k * limit + rest
    ensures forall d :: d in seq(k, _ => DrawTriangles(limit * 6)) + FinalDraw(rest) ==> 1 <= QuadsOf(d) <= limit
  {
    var full := seq(k, _ => DrawTriangles(limit * 6));
    var last := FinalDraw(rest);
    TotalQuadsAppend(full, last);
    TotalQuadsOfFullBatches(k, limit);
    FinalDrawQuads(rest);
    QuadsOfTriangles(limit);
    forall d | d in full + last
      ensures 1 <= QuadsOf(d) <= limit
    {
      if d in full {
        assert d == DrawTriangles(limit * 6);
      }
    }
  }

  /** The remainder draw covers the remaining trapezoids. */
  lemma {:induction false} FinalDrawQuads(rest: nat)
    ensures TotalQuads(FinalDraw(rest)) == rest
    ensures forall d :: d in FinalDraw(rest) ==> QuadsOf(d) == rest
  {
    if rest >= 2 {
      QuadsOfTriangles(rest);
    }
    var last := FinalDraw(rest);
    if last != [] {
      assert last[..0] == [];
    }
  }

  /** The rasterising state shared by both trapezoid loops: full batches
      drawn so far and `trapezoidIndex` trapezoids waiting. */
  ghost predicate BatchState(draws: seq<TrapezoidDraw>, trapezoidIndex: nat, processed: nat, limit: nat)
  {
    limit >= 1 && trapezoidIndex < limit &&
    processed == |draws| * limit + trapezoidIndex &&
    forall d :: d in draws ==> d == DrawTriangles(limit * 6)
  }

  /** The remainder draw after the loop completes the batch draws. */
  lemma {:induction false} BatchStateFinal(draws: seq<TrapezoidDraw>, trapezoidIndex: nat, processed: nat, limit: nat)
    requires BatchState(draws, trapezoidIndex, processed, limit)
    ensures draws + FinalDraw(trapezoidIndex) == BatchDraws(processed, limit)
    ensures processed % limit == trapezoidIndex
  {
    QuotRem(processed, limit, |draws|, trapezoidIndex);
    assert draws == seq(processed / limit, _ => DrawTriangles(limit * 6)) by {
      forall k | 0 <= k < |draws|
        ensures draws[k] == DrawTriangles(limit * 6)
      {
        assert draws[k] in draws;
      }
    }
  }

  /** One trapezoid at slot `trapezoidIndex` of the scratch area at `start`,
      followed by the draw when the batch is full (the loop body both
      rasterising loops share). */
  method RasteriseTrapezoid(attributes: array<real>, start: nat, limit: nat, t: Trapezoid, channel: real,
                            offsetX: real, offsetY: real, trapezoidIndex: nat, draws: seq<TrapezoidDraw>)
    returns (nextIndex: nat, nextDraws: seq<TrapezoidDraw>)
    requires 1 <= limit && trapezoidIndex < limit
    requires start + FloatsPerTrapezoid * limit <= attributes.Length
    modifies attributes
    ensures trapezoidIndex + 1 < limit ==> nextIndex == trapezoidIndex + 1 && nextDraws == draws
    ensures trapezoidIndex + 1 == limit ==> nextIndex == 0 && nextDraws == draws + [DrawTriangles(limit * 6)]
    ensures HoldsTrapezoid(attributes[..], start + FloatsPerTrapezoid * trapezoidIndex, t, channel, offsetX, offsetY)
    ensures ChangedOnlyIn(attributes[..], old(attributes[..]), start + FloatsPerTrapezoid * trapezoidIndex,
                          start + FloatsPerTrapezoid * (trapezoidIndex + 1))
  {
    SetupAttributes(t, channel, attributes, start + FloatsPerTrapezoid * trapezoidIndex, offsetX, offsetY);
    nextIndex := trapezoidIndex + 1;
    nextDraws := draws;
    if nextIndex >= limit {
      nextDraws := draws + [DrawTriangles(nextIndex * 6)];
      nextIndex := 0;
    }
  }

  lemma {:induction false} BatchStateStep(draws: seq<TrapezoidDraw>, trapezoidIndex: nat, processed: nat, limit: nat,
                       nextIndex: nat, nextDraws: seq<TrapezoidDraw>)
    requires BatchState(draws, trapezoidIndex, processed, limit)
    requires trapezoidIndex + 1 < limit ==> nextIndex == trapezoidIndex + 1 && nextDraws == draws
    requires trapezoidIndex + 1 == limit ==> nextIndex == 0 && nextDraws == draws + [DrawTriangles(limit * 6)]
    ensures BatchState(nextDraws, nextIndex, processed + 1, limit)
  {
    if trapezoidIndex + 1 == limit {
      assert |nextDraws| * limit == |draws| * limit + limit;
    }
  }

  /** The trapezoids of the current batch fill the slots from `start` in order. */
  ghost predicate PendingHeld(a: seq<real>, start: nat, pending: seq<Trapezoid>, channel: real, offsetX: real, offsetY: real)
  {
    forall s :: 0 <= s < |pending| ==>
      HoldsTrapezoid(a, start + FloatsPerTrapezoid * s, pending[s], channel, offsetX, offsetY)
  }

  /** Writing the next slot keeps the earlier slots and adds one trapezoid. */
  lemma {:induction false} PendingHeldStep(now: seq<real>, before: seq<real>, start: nat, pending: seq<Trapezoid>, t: Trapezoid,
                        channel: real, offsetX: real, offsetY: real)
    requires PendingHeld(before, start, pending, channel, offsetX, offsetY)
    requires HoldsTrapezoid(now, start + FloatsPerTrapezoid * |pending|, t, channel, offsetX, offsetY)
    requires ChangedOnlyIn(now, before, start + FloatsPerTrapezoid * |pending|, start + FloatsPerTrapezoid * (|pending| + 1))
    ensures PendingHeld(now, start, pending + [t], channel, offsetX, offsetY)
  {
    forall s | 0 <= s < |pending|
      ensures HoldsTrapezoid(now, start + FloatsPerTrapezoid * s, pending[s], channel, offsetX, offsetY)
    {
      HoldsTrapezoidOutside(now, before, start + FloatsPerTrapezoid * s, pending[s], channel, offsetX, offsetY,
                            start + FloatsPerTrapezoid * |pending|, start + FloatsPerTrapezoid * (|pending| + 1));
    }
  }

  /** After trapezoid i is written at slot `index`, the current batch is the
      window ending at i, or empty when the batch was just drawn. */
  lemma {:induction false} PendingSlides(now: seq<real>, before: seq<real>, trapezoids: seq<Trapezoid>, i: nat,
                                         index: nat, nextIndex: nat, channel: real, offsetX: real, offsetY: real)
    requires index <= i < |trapezoids| && (nextIndex == 0 || nextIndex == index + 1)
    requires PendingHeld(before, 0, trapezoids[i - index..i], channel, offsetX, offsetY)
    requires HoldsTrapezoid(now, FloatsPerTrapezoid * index, trapezoids[i], channel, offsetX, offsetY)
    requires ChangedOnlyIn(now, before, FloatsPerTrapezoid * index, FloatsPerTrapezoid * (index + 1))
    ensures PendingHeld(now, 0, trapezoids[i + 1 - nextIndex..i + 1], channel, offsetX, offsetY)
  {
    if nextIndex != 0 {
      PendingHeldStep(now, before, 0, trapezoids[i - index..i], trapezoids[i], channel, offsetX, offsetY);
      assert trapezoids[i + 1 - nextIndex..i + 1] == trapezoids[i - index..i] + [trapezoids[i]];
    }
  }

  /** `fillPathAlphaTexture`: rasterises one trapezoid list into channel 3
      of a cleared alpha texture, in batches of `AlphaTextureBatchLimit`.
      `compiled` is the result of compiling the fill-path shader. The draws
      are the batch draws of all trapezoids. The trapezoids of the last
      batch remain in slot order in the scratch area, and nothing past one
      batch is written. */
  method FillPathAlphaTexture(attributes: array<real>, path: PathEntry, compiled: bool) returns (draws: seq<TrapezoidDraw>)
    requires attributes.Length == PC.MaximumNumberOfAttributes
    modifies attributes
    ensures !compiled ==> draws == [] && attributes[..] == old(attributes[..])
    ensures compiled ==> draws == BatchDraws(|path.trapezoids|, AlphaTextureBatchLimit)
    ensures compiled ==> PendingHeld(attributes[..], 0,
      path.trapezoids[|path.trapezoids| - |path.trapezoids| % AlphaTextureBatchLimit..],
      AlphaTextureChannel as real, path.box.x as real, path.box.y as real)
    ensures ChangedOnlyIn(attributes[..], old(attributes[..]), 0, FloatsPerTrapezoid * AlphaTextureBatchLimit)
  {
    draws := [];
    if !compiled {
      return;
    }
    var limit := AlphaTextureBatchLimit;
    var x, y := path.box.x as real, path.box.y as real;
    var trapezoids := path.trapezoids;
    var trapezoidIndex := 0;
    for i := 0 to |trapezoids|
      invariant BatchState(draws, trapezoidIndex, i, limit)
      invariant PendingHeld(attributes[..], 0, trapezoids[i - trapezoidIndex..i], AlphaTextureChannel as real, x, y)
      invariant ChangedOnlyIn(attributes[..], old(attributes[..]), 0, FloatsPerTrapezoid * limit)
    {
      ghost var before := attributes[..];
      var nextIndex, nextDraws := RasteriseTrapezoid(attributes, 0, limit, trapezoids[i], AlphaTextureChannel as real,
                                                     x, y, trapezoidIndex, draws);
      BatchStateStep(draws, trapezoidIndex, i, limit, nextIndex, nextDraws);
      PendingSlides(attributes[..], before, trapezoids, i, trapezoidIndex, nextIndex, AlphaTextureChannel as real, x, y);
      trapezoidIndex, draws := nextIndex, nextDraws;
    }
    BatchStateFinal(draws, trapezoidIndex, |trapezoids|, limit);
    assert trapezoids[|trapezoids| - |trapezoids| % limit..] == trapezoids[|trapezoids| - trapezoidIndex..|trapezoids|];
    draws := draws + FinalDraw(trapezoidIndex);
  }

  // ---------------------------------------------------------------------
  // pathBeforeFlushAction: texture layout
  // ---------------------------------------------------------------------

  /** The batch's paths, bands of four: the tallest path of band b among
      paths lo until hi (the running `maxHeight` of the first loop). */
  function BandMax(paths: seq<PathEntry>, lo: nat, hi: nat): int
    requires lo < hi <= |paths|
    decreases hi - lo
  {
    if hi == lo + 1 then paths[lo].box.height else Max(BandMax(paths, lo, hi - 1), paths[hi - 1].box.height)
  }

  /** The number of bands of four paths. */
  function Bands(paths: seq<PathEntry>): nat
  {
    (|paths| + 3) / 4
  }

  /** The height of band b: its tallest path. */
  function BandHeight(paths: seq<PathEntry>, b: nat): int
    requires b < Bands(paths)
  {
    BandMax(paths, 4 * b, Min(4 * b + 4, |paths|))
  }

  /** The texture row where band b starts: the heights of all earlier bands stacked. */
  function BandOffset(paths: seq<PathEntry>, b: nat): int
    requires b <= Bands(paths)
  {
    if b == 0 then 0 else BandOffset(paths, b - 1) + BandHeight(paths, b - 1)
  }

  /** The widest path among the first k (the running `maxWidth`). */
  function MaxWidth(paths: seq<PathEntry>, k: nat): int
    requires k <= |paths|
  {
    if k == 0 then 0 else Max(MaxWidth(paths, k - 1), paths[k - 1].box.width)
  }

  /** Bounding boxes have non-negative sizes. */
  ghost predicate SizesNonNegative(paths: seq<PathEntry>)
  {
    forall i :: 0 <= i < |paths| ==> paths[i].box.width >= 0 && paths[i].box.height >= 0
  }

  /** The first loop of `pathBeforeFlushAction`: `offsetY[i]` is where path
      i's band starts, `maxWidth` is the widest path and `maxHeight` the
      total height of all bands. The contract requires the
      `ASSERT(quadCount >= 1)` precondition. */
  method PathOffsets(paths: seq<PathEntry>) returns (offsetY: seq<int>, maxWidth: int, maxHeight: int)
    requires |paths| >= 1
    ensures |offsetY| == |paths|
    ensures forall i :: 0 <= i < |paths| ==> offsetY[i] == BandOffset(paths, i / 4)
    ensures maxWidth == MaxWidth(paths, |paths|)
    ensures maxHeight == BandOffset(paths, Bands(paths))
  {
    var currentOffsetY := 0;
    maxWidth := 0;
    maxHeight := 0;
    offsetY := [];
    for pathIndex := 0 to |paths|
      invariant |offsetY| == pathIndex
      invariant forall k :: 0 <= k < pathIndex ==> offsetY[k] == BandOffset(paths, k / 4)
      invariant maxWidth == MaxWidth(paths, pathIndex)
      invariant pathIndex == 0 ==> currentOffsetY == 0 && maxHeight == 0
      invariant pathIndex > 0 ==> currentOffsetY == BandOffset(paths, (pathIndex - 1) / 4)
      invariant pathIndex > 0 ==> maxHeight == BandMax(paths, 4 * ((pathIndex - 1) / 4), pathIndex)
    {
      var box := paths[pathIndex].box;
      if pathIndex > 0 {
        BandStep(paths, pathIndex);
      }
      maxWidth := Max(maxWidth, box.width);
      if pathIndex % 4 == 0 {
        currentOffsetY := currentOffsetY + maxHeight;
        maxHeight := box.height;
      } else {
        maxHeight := Max(maxHeight, box.height);
      }
      offsetY := offsetY + [currentOffsetY];
    }
    LastBandCloses(paths);
    maxHeight := maxHeight + currentOffsetY;
  }

  /** Path i either opens a new band (every fourth path) or joins the band
      of path i - 1. */
  lemma {:induction false} BandStep(paths: seq<PathEntry>, i: nat)
    requires 0 < i < |paths|
    ensures i % 4 == 0 ==>
      && BandOffset(paths, (i - 1) / 4) + BandMax(paths, 4 * ((i - 1) / 4), i) == BandOffset(paths, i / 4)
      && paths[i].box.height == BandMax(paths, 4 * (i / 4), i + 1)
    ensures i % 4 != 0 ==>
      && (i - 1) / 4 == i / 4 && 4 * (i / 4) < i
      && Max(BandMax(paths, 4 * ((i - 1) / 4), i), paths[i].box.height) == BandMax(paths, 4 * (i / 4), i + 1)
  {
    var b := (i - 1) / 4;
    if i % 4 == 0 {
      assert 4 * b + 4 == i && b + 1 == i / 4;
      assert Min(4 * b + 4, |paths|) == i;
    } else {
      assert b == i / 4 && 4 * b < i;
    }
  }

  /** After the last path its band is closed: the running height plus its
      offset is the total height. */
  lemma {:induction false} LastBandCloses(paths: seq<PathEntry>)
    requires |paths| >= 1
    ensures BandOffset(paths, (|paths| - 1) / 4) + BandMax(paths, 4 * ((|paths| - 1) / 4), |paths|)
         == BandOffset(paths, Bands(paths))
  {
    var b := (|paths| - 1) / 4;
    assert b + 1 == Bands(paths) && Min(4 * b + 4, |paths|) == |paths|;
  }

  lemma {:induction false} BandMaxAtLeast(paths: seq<PathEntry>, lo: nat, hi: nat, k: nat)
    requires lo <= k < hi <= |paths|
    ensures paths[k].box.height <= BandMax(paths, lo, hi)
    decreases hi - lo
  {
    if hi > lo + 1 && k < hi - 1 {
      BandMaxAtLeast(paths, lo, hi - 1, k);
    }
  }

  lemma {:induction false} BandOffsetMonotone(paths: seq<PathEntry>, b: nat, c: nat)
    requires SizesNonNegative(paths)
    requires b <= c <= Bands(paths)
    ensures BandOffset(paths, b) <= BandOffset(paths, c)
    decreases c - b
  {
    if b < c {
      BandMaxAtLeast(paths, 4 * (c - 1), Min(4 * (c - 1) + 4, |paths|), 4 * (c - 1));
      BandOffsetMonotone(paths, b, c - 1);
    }
  }

  /** Path i's rows in band i / 4 end before the next band starts. */
  lemma {:induction false} PathFitsItsBand(paths: seq<PathEntry>, i: nat)
    requires i < |paths|
    ensures BandOffset(paths, i / 4) + paths[i].box.height <= BandOffset(paths, i / 4 + 1)
  {
    BandMaxAtLeast(paths, 4 * (i / 4), Min(4 * (i / 4) + 4, |paths|), i);
  }

  /** Paths i and j sit in bands i / 4 and j / 4, on channels i % 4 and j % 4. */
  lemma {:induction false} BandsAndChannels(i: nat, j: nat, n: nat)
    requires i < j < n
    ensures i / 4 <= j / 4 < (n + 3) / 4
    ensures i / 4 == j / 4 ==> i % 4 != j % 4
    ensures i % 4 == j % 4 ==> i / 4 + 1 <= j / 4
  {
  }

  /** Path j's rows lie inside the total height of the layout. */
  lemma {:induction false} PathInsideLayout(paths: seq<PathEntry>, j: nat)
    requires SizesNonNegative(paths)
    requires j < |paths|
    ensures 0 <= BandOffset(paths, j / 4)
    ensures BandOffset(paths, j / 4) + paths[j].box.height <= BandOffset(paths, Bands(paths))
  {
    BandsAndChannels(j, j + 1, |paths| + 1);
    assert j / 4 < Bands(paths);
    BandOffsetMonotone(paths, 0, j / 4);
    PathFitsItsBand(paths, j);
    BandOffsetMonotone(paths, j / 4 + 1, Bands(paths));
  }

  /** The layout never lets two paths of one band share a channel, nor two
      paths that share a channel share a texture row. Path i covers rows
      [offset, offset + height) of channel i & 3. Two paths of one band
      have different channels, and two paths with the same channel cover
      disjoint rows. */
  lemma {:induction false} PathLayoutSeparatesPaths(paths: seq<PathEntry>, i: nat, j: nat)
    requires SizesNonNegative(paths)
    requires i < j < |paths|
    ensures i / 4 == j / 4 ==> i % 4 != j % 4
    ensures i % 4 == j % 4 ==> BandOffset(paths, i / 4) + paths[i].box.height <= BandOffset(paths, j / 4)
  {
    BandsAndChannels(i, j, |paths|);
    if i % 4 == j % 4 {
      PathFitsItsBand(paths, i);
      BandOffsetMonotone(paths, i / 4 + 1, j / 4);
    }
  }

  /** `(v + 15) & ~15`: clearing the low four bits of a two's-complement
      value rounds it down to a multiple of 16, which the Euclidean
      remainder by 16 expresses exactly. */
  function TileAligned(v: int): int
  {
    (v + TileAlignment - 1) - (v + TileAlignment - 1) % TileAlignment
  }

  /** The scissor box rounds each size up to the next multiple of `TileAlignment`. */
  lemma TileAlignedRoundsUp(v: int)
    ensures TileAligned(v) % TileAlignment == 0
    ensures v <= TileAligned(v) < v + TileAlignment
  {
  }

  /** `maximumNumberOfTrapezoids`: the scratch area for the alpha-texture
      trapezoids begins after the batched quads' own attributes. */
  function PathBatchLimit(attributeStartOffset: int): int
  {
    Min(PC.MaximumNumberOfUshortQuads, (PC.MaximumNumberOfAttributes - attributeStartOffset) / FloatsPerTrapezoid)
  }

  // ---------------------------------------------------------------------
  // pathBeforeFlushAction: rasterising and texture coordinates
  // ---------------------------------------------------------------------

  /** The trapezoids of the first k paths. */
  function TrapezoidsBefore(paths: seq<PathEntry>, k: nat): nat
    requires k <= |paths|
  {
    if k == 0 then 0 else TrapezoidsBefore(paths, k - 1) + |paths[k - 1].trapezoids|
  }

  /** The second loop of `pathBeforeFlushAction`: every trapezoid of path i
      goes to channel `i & 3`, shifted so that it lands in path i's band.
      The trapezoid count carries across paths, so the draws are the batch
      draws of all trapezoids of the batch together. */
  method RasterisePaths(attributes: array<real>, start: nat, limit: nat, paths: seq<PathEntry>, offsetY: seq<int>)
    returns (draws: seq<TrapezoidDraw>)
    requires |offsetY| == |paths| && 1 <= limit
    requires start + FloatsPerTrapezoid * limit <= attributes.Length
    modifies attributes
    ensures draws == BatchDraws(TrapezoidsBefore(paths, |paths|), limit)
    ensures ChangedOnlyIn(attributes[..], old(attributes[..]), start, start + FloatsPerTrapezoid * limit)
  {
    draws := [];
    var trapezoidIndex := 0;
    for pathIndex := 0 to |paths|
      invariant BatchState(draws, trapezoidIndex, TrapezoidsBefore(paths, pathIndex), limit)
      invariant ChangedOnlyIn(attributes[..], old(attributes[..]), start, start + FloatsPerTrapezoid * limit)
    {
      var path := paths[pathIndex];
      var x := path.box.x as real;
      var y := (path.box.y - offsetY[pathIndex]) as real;
      for i := 0 to |path.trapezoids|
        invariant BatchState(draws, trapezoidIndex, TrapezoidsBefore(paths, pathIndex) + i, limit)
        invariant ChangedOnlyIn(attributes[..], old(attributes[..]), start, start + FloatsPerTrapezoid * limit)
      {
        var nextIndex, nextDraws := RasteriseTrapezoid(attributes, start, limit, path.trapezoids[i],
                                                       (pathIndex % 4) as real, x, y, trapezoidIndex, draws);
        BatchStateStep(draws, trapezoidIndex, TrapezoidsBefore(paths, pathIndex) + i, limit, nextIndex, nextDraws);
        trapezoidIndex, draws := nextIndex, nextDraws;
      }
    }
    BatchStateFinal(draws, trapezoidIndex, TrapezoidsBefore(paths, |paths|), limit);
    draws := draws + FinalDraw(trapezoidIndex);
  }

  /** The texture coordinates of vertex v of a path quad: x is the path's
      width on the right-hand vertices (the left ones keep the 0 written
      when the quad was added), y is the band row where the path starts
      on the first two vertices and where it ends on the last two, and
      the channel is the path's. All are in texture units. */
  ghost predicate TexturedVertex(now: seq<real>, before: seq<real>, p: nat, v: nat, box: Box, offsetY: int, channel: nat)
  {
    var topY := offsetY as real / TextureSize as real;
    var bottomY := topY + box.height as real / TextureSize as real;
    p + 5 <= |now| && p + 5 <= |before| &&
    now[p + 2] == (if v % 2 == 1 then box.width as real / TextureSize as real else before[p + 2]) &&
    now[p + 3] == (if v < 2 then topY else bottomY) &&
    now[p + 4] == channel as real
  }

  /** All four vertices of the path quad whose first vertex starts at p. */
  ghost predicate TexturedQuad(now: seq<real>, before: seq<real>, p: nat, stride: nat, box: Box, offsetY: int, channel: nat)
  {
    TexturedVertex(now, before, p, 0, box, offsetY, channel) &&
    TexturedVertex(now, before, p + stride, 1, box, offsetY, channel) &&
    TexturedVertex(now, before, p + 2 * stride, 2, box, offsetY, channel) &&
    TexturedVertex(now, before, p + 3 * stride, 3, box, offsetY, channel)
  }

  /** One stanza of the third loop: the x (right-hand vertices only), y
      and channel texture attributes of the vertex starting at p. */
  method WriteTextureVertex(attributes: array<real>, p: nat, v: nat, box: Box, offsetY: int, channel: nat)
    requires p + 5 <= attributes.Length
    modifies attributes
    ensures TexturedVertex(attributes[..], old(attributes[..]), p, v, box, offsetY, channel)
    ensures ChangedOnlyIn(attributes[..], old(attributes[..]), p + 2, p + 5)
  {
    var topY := offsetY as real / TextureSize as real;
    var bottomY := topY + box.height as real / TextureSize as real;
    if v % 2 == 1 {
      attributes[p + 2] := box.width as real / TextureSize as real;
    }
    attributes[p + 3] := if v < 2 then topY else bottomY;
    attributes[p + 4] := channel as real;
  }

  /** One iteration of the third loop: the four vertices of one path quad,
      through a pointer advancing by the quad's stride. */
  method WriteQuadTextureCoordinates(attributes: array<real>, p: nat, stride: nat, box: Box, offsetY: int, channel: nat)
    requires stride >= 5 && p + 4 * stride <= attributes.Length
    modifies attributes
    ensures TexturedQuad(attributes[..], old(attributes[..]), p, stride, box, offsetY, channel)
    ensures ChangedOnlyIn(attributes[..], old(attributes[..]), p, p + 4 * stride)
  {
    ghost var a0 := attributes[..];
    WriteTextureVertex(attributes, p, 0, box, offsetY, channel);
    ghost var a1 := attributes[..];
    WriteTextureVertex(attributes, p + stride, 1, box, offsetY, channel);
    ghost var a2 := attributes[..];
    WriteTextureVertex(attributes, p + 2 * stride, 2, box, offsetY, channel);
    ghost var a3 := attributes[..];
    WriteTextureVertex(attributes, p + 3 * stride, 3, box, offsetY, channel);
    ghost var a4 := attributes[..];
    assert TexturedVertex(a4, a0, p + 3 * stride, 3, box, offsetY, channel);
    assert TexturedVertex(a4, a0, p + 2 * stride, 2, box, offsetY, channel);
    assert TexturedVertex(a4, a0, p + stride, 1, box, offsetY, channel);
    assert TexturedVertex(a4, a0, p, 0, box, offsetY, channel);
  }

  /** A quad written before stays written while later quads are added, and
      a quad written over untouched memory compares equal to the original. */
  lemma {:induction false} TexturedQuadStep(now: seq<real>, before: seq<real>, original: seq<real>, p: nat, lo: nat, hi: nat,
                         stride: nat, box: Box, offsetY: int, channel: nat)
    requires ChangedOnlyIn(now, before, lo, hi)
    requires ChangedOnlyIn(before, original, 0, lo)
    requires (TexturedQuad(before, original, p, stride, box, offsetY, channel) && p + 4 * stride <= lo) ||
             (TexturedQuad(now, before, p, stride, box, offsetY, channel) && lo <= p)
    requires stride >= 5
    ensures TexturedQuad(now, original, p, stride, box, offsetY, channel)
  {
  }

  lemma {:induction false} MulMonotone(a: nat, b: nat, s: nat)
    requires a <= b
    ensures a * s <= b * s
  {
  }

  /** Where quad i's first vertex starts in the attribute array. */
  function QuadStart(i: nat, stride: nat): nat
  {
    4 * i * stride
  }

  lemma {:induction false} QuadStartBefore(i: nat, j: nat, stride: nat)
    requires i < j
    ensures QuadStart(i, stride) + 4 * stride <= QuadStart(j, stride)
  {
    assert QuadStart(i + 1, stride) == QuadStart(i, stride) + 4 * stride;
    MulMonotone(4 * (i + 1), 4 * j, stride);
  }

  /** The third loop of `pathBeforeFlushAction`: the texture coordinates of
      every path quad name the rows and channel its path was rasterised
      into. Only the quads' own attribute area changes. */
  method WriteTextureCoordinates(attributes: array<real>, stride: nat, paths: seq<PathEntry>, offsetY: seq<int>)
    requires stride >= 5 && |offsetY| == |paths|
    requires QuadStart(|paths|, stride) <= attributes.Length
    modifies attributes
    ensures forall i: nat :: i < |paths| ==>
      TexturedQuad(attributes[..], old(attributes[..]), QuadStart(i, stride), stride, paths[i].box, offsetY[i], i % 4)
    ensures ChangedOnlyIn(attributes[..], old(attributes[..]), 0, QuadStart(|paths|, stride))
  {
    for pathIndex := 0 to |paths|
      invariant forall i: nat :: i < pathIndex ==>
        TexturedQuad(attributes[..], old(attributes[..]), QuadStart(i, stride), stride, paths[i].box, offsetY[i], i % 4)
      invariant ChangedOnlyIn(attributes[..], old(attributes[..]), 0, QuadStart(pathIndex, stride))
    {
      ghost var before := attributes[..];
      var p := QuadStart(pathIndex, stride);
      assert QuadStart(pathIndex + 1, stride) == p + 4 * stride;
      MulMonotone(4 * pathIndex + 4, 4 * |paths|, stride);
      WriteQuadTextureCoordinates(attributes, p, stride, paths[pathIndex].box, offsetY[pathIndex], pathIndex % 4);
      TexturedQuadsStep(attributes[..], before, old(attributes[..]), paths, offsetY, stride, pathIndex);
    }
  }

  /** Writing quad `pathIndex` keeps the quads before it and adds its own. */
  lemma {:induction false} TexturedQuadsStep(now: seq<real>, before: seq<real>, original: seq<real>, paths: seq<PathEntry>,
                                             offsetY: seq<int>, stride: nat, pathIndex: nat)
    requires |offsetY| == |paths| && pathIndex < |paths| && stride >= 5
    requires forall i: nat :: i < pathIndex ==>
      TexturedQuad(before, original, QuadStart(i, stride), stride, paths[i].box, offsetY[i], i % 4)
    requires ChangedOnlyIn(before, original, 0, QuadStart(pathIndex, stride))
    requires TexturedQuad(now, before, QuadStart(pathIndex, stride), stride, paths[pathIndex].box, offsetY[pathIndex], pathIndex % 4)
    requires ChangedOnlyIn(now, before, QuadStart(pathIndex, stride), QuadStart(pathIndex, stride) + 4 * stride)
    ensures forall i: nat :: i < pathIndex + 1 ==>
      TexturedQuad(now, original, QuadStart(i, stride), stride, paths[i].box, offsetY[i], i % 4)
    ensures ChangedOnlyIn(now, original, 0, QuadStart(pathIndex + 1, stride))
  {
    var p := QuadStart(pathIndex, stride);
    QuadStartNext(pathIndex, stride);
    ChangedOnlyInGrow(now, before, original, 0, p, p + 4 * stride);
    forall i: nat | i < pathIndex
      ensures TexturedQuad(now, original, QuadStart(i, stride), stride, paths[i].box, offsetY[i], i % 4)
    {
      QuadStartBefore(i, pathIndex, stride);
      TexturedQuadStep(now, before, original, QuadStart(i, stride), p, p + 4 * stride,
                       stride, paths[i].box, offsetY[i], i % 4);
    }
    TexturedQuadStep(now, before, original, p, p, p + 4 * stride,
                     stride, paths[pathIndex].box, offsetY[pathIndex], pathIndex % 4);
  }

  lemma {:induction false} QuadStartNext(i: nat, stride: nat)
    ensures QuadStart(i + 1, stride) == QuadStart(i, stride) + 4 * stride
  {
    assert 4 * (i + 1) * stride == 4 * i * stride + 4 * stride;
  }

  /** A pass over the range after an already changed one changed only their
      union. */
  lemma {:induction false} ChangedOnlyInGrow(now: seq<real>, mid: seq<real>, before: seq<real>, lo: int, m: int, hi: int)
    requires ChangedOnlyIn(now, mid, m, hi) && ChangedOnlyIn(mid, before, lo, m) && lo <= m <= hi
    ensures ChangedOnlyIn(now, before, lo, hi)
  {
  }

  /** A quad written before the rasterising pass keeps its coordinates
      relative to the state before that pass, which wrote only past it. */
  lemma {:induction false} TexturedQuadRebase(now: seq<real>, mid: seq<real>, original: seq<real>, p: nat, lo: int, hi: int,
                           stride: nat, box: Box, offsetY: int, channel: nat)
    requires TexturedQuad(now, mid, p, stride, box, offsetY, channel)
    requires ChangedOnlyIn(mid, original, lo, hi) && p + 4 * stride <= lo && stride >= 5
    ensures TexturedQuad(now, original, p, stride, box, offsetY, channel)
  {
  }

  /** The second and third loops of `pathBeforeFlushAction`, once the
      alpha texture and the fill-path shader are ready. */
  method RasteriseAndMapPaths(attributes: array<real>, numberOfAttributes: nat, paths: seq<PathEntry>, offsetY: seq<int>)
    returns (draws: seq<TrapezoidDraw>)
    requires attributes.Length == PC.MaximumNumberOfAttributes && |offsetY| == |paths|
    requires numberOfAttributes >= 5
    requires QuadStart(|paths|, numberOfAttributes) + FloatsPerTrapezoid <= PC.MaximumNumberOfAttributes
    modifies attributes
    ensures draws == BatchDraws(TrapezoidsBefore(paths, |paths|), PathBatchLimit(QuadStart(|paths|, numberOfAttributes)))
    ensures forall i: nat :: i < |paths| ==>
      TexturedQuad(attributes[..], old(attributes[..]), QuadStart(i, numberOfAttributes), numberOfAttributes,
                   paths[i].box, offsetY[i], i % 4)
    ensures ChangedOnlyIn(attributes[..], old(attributes[..]), 0,
                          QuadStart(|paths|, numberOfAttributes) + FloatsPerTrapezoid * PathBatchLimit(QuadStart(|paths|, numberOfAttributes)))
  {
    var attributeStartOffset := QuadStart(|paths|, numberOfAttributes);
    var limit := PathBatchLimit(attributeStartOffset);
    draws := RasterisePaths(attributes, attributeStartOffset, limit, paths, offsetY);
    ghost var rasterised := attributes[..];
    WriteTextureCoordinates(attributes, numberOfAttributes, paths, offsetY);
    TexturedQuadsRebase(attributes[..], rasterised, old(attributes[..]), paths, offsetY, numberOfAttributes,
                        attributeStartOffset + FloatsPerTrapezoid * limit);
    ChangedOnlyInJoin(attributes[..], rasterised, old(attributes[..]), 0, attributeStartOffset,
                      attributeStartOffset + FloatsPerTrapezoid * limit);
  }

  /** Every path quad survives a pass that wrote only past the quads. */
  lemma {:induction false} TexturedQuadsRebase(now: seq<real>, mid: seq<real>, original: seq<real>, paths: seq<PathEntry>,
                                               offsetY: seq<int>, stride: nat, hi: int)
    requires |offsetY| == |paths| && stride >= 5
    requires forall i: nat :: i < |paths| ==>
      TexturedQuad(now, mid, QuadStart(i, stride), stride, paths[i].box, offsetY[i], i % 4)
    requires ChangedOnlyIn(mid, original, QuadStart(|paths|, stride), hi)
    ensures forall i: nat :: i < |paths| ==>
      TexturedQuad(now, original, QuadStart(i, stride), stride, paths[i].box, offsetY[i], i % 4)
  {
    forall i: nat | i < |paths|
      ensures TexturedQuad(now, original, QuadStart(i, stride), stride, paths[i].box, offsetY[i], i % 4)
    {
      QuadStartBefore(i, |paths|, stride);
      TexturedQuadRebase(now, mid, original, QuadStart(i, stride), QuadStart(|paths|, stride), hi,
                         stride, paths[i].box, offsetY[i], i % 4);
    }
  }

  /** Two passes over adjacent ranges changed only their union. */
  lemma {:induction false} ChangedOnlyInJoin(now: seq<real>, mid: seq<real>, before: seq<real>, lo: int, m: int, hi: int)
    requires ChangedOnlyIn(now, mid, lo, m) && ChangedOnlyIn(mid, before, m, hi) && lo <= m <= hi
    ensures ChangedOnlyIn(now, before, lo, hi)
  {
  }

  /** `pathBeforeFlushAction`: lays out the batched paths in the alpha
      texture and rasterises their trapezoids into it. It then points each
      path quad's texture coordinates at its path's rows and channel.
      `textureAvailable` and `compiled` say whether the alpha texture exists
      and the fill-path shader compiles; otherwise the action fails and
      changes nothing. The requires are the `ASSERT(quadCount >= 1)`, the
      16-entry `offsetY` array, non-negative box sizes, the fill-colour
      layout (position, then texture position and channel) and room for one
      trapezoid after the quads. */
  method PathBeforeFlushAction(attributes: array<real>, numberOfAttributes: nat, paths: seq<PathEntry>,
                               textureAvailable: bool, compiled: bool)
    returns (ok: bool, draws: seq<TrapezoidDraw>, scissorWidth: int, scissorHeight: int)
    requires attributes.Length == PC.MaximumNumberOfAttributes
    requires 1 <= |paths| <= PC.MaximumNumberOfPathAttributes
    requires numberOfAttributes >= 5
    requires QuadStart(|paths|, numberOfAttributes) + FloatsPerTrapezoid <= PC.MaximumNumberOfAttributes
    modifies attributes
    ensures ok <==> textureAvailable && compiled
    ensures !ok ==> draws == [] && attributes[..] == old(attributes[..])
    ensures ok ==> draws == BatchDraws(TrapezoidsBefore(paths, |paths|), PathBatchLimit(QuadStart(|paths|, numberOfAttributes)))
    ensures ok ==> scissorWidth == TileAligned(MaxWidth(paths, |paths|))
    ensures ok ==> scissorHeight == TileAligned(BandOffset(paths, Bands(paths)))
    ensures ok ==> forall i: nat :: i < |paths| ==>
      TexturedQuad(attributes[..], old(attributes[..]), QuadStart(i, numberOfAttributes), numberOfAttributes,
                   paths[i].box, BandOffset(paths, i / 4), i % 4)
    ensures ChangedOnlyIn(attributes[..], old(attributes[..]), 0,
                          QuadStart(|paths|, numberOfAttributes) + FloatsPerTrapezoid * PathBatchLimit(QuadStart(|paths|, numberOfAttributes)))
  {
    var offsetY, maxWidth, maxHeight := PathOffsets(paths);
    draws, scissorWidth, scissorHeight := [], 0, 0;
    if !textureAvailable || !compiled {
      return false, draws, scissorWidth, scissorHeight;
    }
    scissorWidth := TileAligned(maxWidth);
    scissorHeight := TileAligned(maxHeight);
    draws := RasteriseAndMapPaths(attributes, numberOfAttributes, paths, offsetY);
    ok := true;
  }

  // ---------------------------------------------------------------------
  // fillPath
  // ---------------------------------------------------------------------

  /** What `fillPath` does with one path's trapezoid list, given the path
      batch's quad count once `beginAttributeAdding` has run. */
  datatype FillPathStep =
    | NothingToFill
    | FillAbsoluteRect(left: real, bottom: real, right: real, top: real)
    | AddedToBatch(quadCount: nat, flushed: bool)

  /** `fillPath`: an empty box draws nothing; a rectangle becomes an absolute
      rectangle fill of its single trapezoid. Any other shape adds one quad
      to the path batch, and the batch is flushed once it holds
      `kMaximumNumberOfPathAttributes` paths. */
  function FillPath(path: PathEntry, quadCount: nat): FillPathStep
    requires path.isRectShape ==> |path.trapezoids| >= 1
  {
    if path.box.width == 0 || path.box.height == 0 then NothingToFill
    else if path.isRectShape then
      var t := path.trapezoids[0];
      FillAbsoluteRect(t.bottomLeftX, t.bottomY, t.bottomRightX, t.topY)
    else if quadCount + 1 >= PC.MaximumNumberOfPathAttributes then AddedToBatch(0, true)
    else AddedToBatch(quadCount + 1, false)
  }

  /** The path batch never outgrows `pathAttributes` and `offsetY`: a batch
      below the limit takes the new path into slot `quadCount`, stays below
      the limit, and is flushed exactly when the new path fills the last
      slot. Only paths that are neither empty nor rectangles join it. */
  lemma {:induction false} FillPathKeepsBatchInSlots(path: PathEntry, quadCount: nat)
    requires path.isRectShape ==> |path.trapezoids| >= 1
    requires quadCount < PC.MaximumNumberOfPathAttributes
    ensures var r := FillPath(path, quadCount);
      (r.AddedToBatch? <==> path.box.width != 0 && path.box.height != 0 && !path.isRectShape) &&
      (r.AddedToBatch? ==> r.quadCount < PC.MaximumNumberOfPathAttributes &&
                           (r.flushed <==> quadCount + 1 == PC.MaximumNumberOfPathAttributes) &&
                           (!r.flushed ==> r.quadCount == quadCount + 1))
  {
  }
}
