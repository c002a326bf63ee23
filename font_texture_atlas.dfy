/**
 * `TyGL::FontTextureAtlasTyGL` (FontTextureAtlasTyGL.h and .cpp): a
 * one-channel texture holding glyph bitmaps. `region` finds room for a
 * glyph with a skyline search over `m_nodes`, `copyGlyphBitmapToRegion`
 * writes the glyph's bytes into the CPU-side backing store, and `update`
 * uploads the store when it changed.
 *
 * The GL texture itself, `bindTexture` and `glTexImage2D` are not part
 * of this model; `update` reports whether it would upload.
 */
module FontTextureAtlasTyGL {
  import opened Geometry
  import S = FontTextureAtlasSkyline

  /** Atlas side lengths TextureFont starts from and grows up to. */
  const DefaultAtlasSide: int := 64
  const MaximumAtlasSide: int := 4096

  newtype Byte = b: int | 0 <= b < 256

  /** Two rectangles share no cell. */
  predicate Disjoint(a: IntRect, b: IntRect)
  {
    a.MaxX() <= b.x || b.MaxX() <= a.x || a.MaxY() <= b.y || b.MaxY() <= a.y
  }

  /** `region` shares no cell with any of `regions`. */
  predicate ApartFrom(regions: seq<IntRect>, region: IntRect)
  {
    forall a :: 0 <= a < |regions| ==> Disjoint(regions[a], region)
  }

  /** The assertions `copyGlyphBitmapToRegion` makes about its region:
      it keeps off the one-pixel border of the atlas. */
  predicate InsideBorder(region: IntRect, atlasWidth: int, atlasHeight: int)
  {
    0 < region.x < atlasWidth - 1 && 0 < region.y < atlasHeight - 1
    && region.MaxX() <= atlasWidth - 1 && region.MaxY() <= atlasHeight - 1
  }

  /** The areas of the regions handed out, added up. */
  function Area(regions: seq<IntRect>): int
  {
    if |regions| == 0 then 0
    else Area(regions[..|regions| - 1]) + regions[|regions| - 1].width * regions[|regions| - 1].height
  }

  /** What the regions handed out so far keep with respect to a column
      profile: each is non-empty and inside the border, no two overlap,
      and each lies below the profile in every column it covers. */
  predicate RegionsUnder(profile: seq<int>, regions: seq<IntRect>, atlasWidth: int, atlasHeight: int)
  {
    (forall a :: 0 <= a < |regions| ==>
       regions[a].width >= 1 && regions[a].height >= 1
       && InsideBorder(regions[a], atlasWidth, atlasHeight))
    && (forall a, b :: 0 <= a < b < |regions| ==> Disjoint(regions[a], regions[b]))
    && (forall a, c :: 0 <= a < |regions| && regions[a].x - 1 <= c < regions[a].MaxX() - 1 ==>
          Under(profile, regions[a], c))
  }

  /** Column `c` of the profile exists and is at least the region's bottom. */
  predicate Under(profile: seq<int>, region: IntRect, c: int)
  {
    0 <= c < |profile| && region.MaxY() <= profile[c]
  }

  /** The regions lie under the skyline `nodes`; before the first node
      exists nothing has been handed out. */
  predicate RegionsBelow(nodes: seq<IntRect>, regions: seq<IntRect>, atlasWidth: int, atlasHeight: int)
  {
    (|nodes| == 0 ==> regions == [])
    && RegionsUnder(S.Profile(nodes), regions, atlasWidth, atlasHeight)
  }

  /** A region that rests on the profile (no column under it is higher
      than its top) and raises the columns under it to its bottom overlaps
      no earlier region, and all regions then lie under the new profile. */
  lemma RaiseKeepsRegions(before: seq<int>, after: seq<int>, regions: seq<IntRect>, region: IntRect,
                          atlasWidth: int, atlasHeight: int)
    requires RegionsUnder(before, regions, atlasWidth, atlasHeight)
    requires region.width >= 1 && region.height >= 1 && InsideBorder(region, atlasWidth, atlasHeight)
    requires region.MaxX() - 1 <= |before| == |after|
    requires forall c :: region.x - 1 <= c < region.MaxX() - 1 ==> before[c] <= region.y
    requires forall c :: 0 <= c < |before| ==>
      after[c] == if region.x - 1 <= c < region.MaxX() - 1 then region.MaxY() else before[c]
    ensures ApartFrom(regions, region)
    ensures RegionsUnder(after, regions + [region], atlasWidth, atlasHeight)
  {
    forall a | 0 <= a < |regions| ensures Disjoint(regions[a], region) {
      var r := regions[a];
      if !(r.MaxX() <= region.x || region.MaxX() <= r.x) {
        var c := (if r.x > region.x then r.x else region.x) - 1;
        assert Under(before, regions[a], c);
        assert r.MaxY() <= before[c] <= region.y;
      }
    }
    var all := regions + [region];
    forall a, c | 0 <= a < |all| && all[a].x - 1 <= c < all[a].MaxX() - 1
      ensures Under(after, all[a], c)
    {
      if a < |regions| {
        var r := regions[a];
        assert all[a] == r;
        assert InsideBorder(r, atlasWidth, atlasHeight);
        assert Under(before, regions[a], c);
      } else {
        assert all[a] == region;
        assert 0 <= c < |before|;
      }
      assert after[c] == if region.x - 1 <= c < region.MaxX() - 1 then region.MaxY() else before[c];
    }
  }

  /** The area of one more region. */
  lemma AreaAppend(regions: seq<IntRect>, region: IntRect)
    ensures Area(regions + [region]) == Area(regions) + region.width * region.height
  {
    assert (regions + [region])[..|regions|] == regions;
  }

  /** Placing a region as `region` does keeps `RegionsBelow`, and the new
      region overlaps none of the earlier ones. */
  lemma AllocationKeepsRegions(nodes: seq<IntRect>, regions: seq<IntRect>, w: int, h: int,
                               atlasWidth: int, atlasHeight: int)
    requires S.Skyline(nodes, atlasWidth) && w >= 1 && h >= 1 && atlasHeight <= S.IntMax
    requires RegionsBelow(nodes, regions, atlasWidth, atlasHeight)
    requires S.Allocate(nodes, w, h, atlasWidth, atlasHeight).0 != S.NoRegion
    ensures RegionsBelow(S.Allocate(nodes, w, h, atlasWidth, atlasHeight).1,
                         regions + [S.Allocate(nodes, w, h, atlasWidth, atlasHeight).0], atlasWidth, atlasHeight)
    ensures ApartFrom(regions, S.Allocate(nodes, w, h, atlasWidth, atlasHeight).0)
    ensures S.Skyline(S.Allocate(nodes, w, h, atlasWidth, atlasHeight).1, atlasWidth)
    ensures InsideBorder(S.Allocate(nodes, w, h, atlasWidth, atlasHeight).0, atlasWidth, atlasHeight)
    ensures Area(regions + [S.Allocate(nodes, w, h, atlasWidth, atlasHeight).0]) == Area(regions) + w * h
  {
    var placed := S.Allocate(nodes, w, h, atlasWidth, atlasHeight);
    var region, after := placed.0, placed.1;
    S.AllocateSpec(nodes, w, h, atlasWidth, atlasHeight);
    assert region.width == w && region.height == h;
    assert InsideBorder(region, atlasWidth, atlasHeight);
    RaiseKeepsRegions(S.Profile(nodes), S.Profile(after), regions, region, atlasWidth, atlasHeight);
    AreaAppend(regions, region);
  }

  /** Byte `k` of a store `atlasWidth` bytes wide lies in the glyph
      rectangle `region`. */
  predicate InGlyph(k: int, region: IntRect, atlasWidth: int)
    requires atlasWidth > 0
  {
    region.y <= k / atlasWidth < region.MaxY() && region.x <= k % atlasWidth < region.MaxX()
  }

  /** The bitmap byte `copyGlyphBitmapToRegion` copies into store byte `k`:
      the same row and column of the glyph, rows `stride` bytes apart. */
  function SourceIndex(k: int, region: IntRect, stride: int, atlasWidth: int): int
    requires atlasWidth > 0
  {
    (k / atlasWidth - region.y) * stride + (k % atlasWidth - region.x)
  }

  /** The bitmap holds every byte the glyph's rows read. */
  predicate BitmapCovers(bitmap: seq<Byte>, stride: int, width: int, height: int)
  {
    0 <= width <= stride && 0 <= height && (height == 0 || (height - 1) * stride + width <= |bitmap|)
  }

  /** Row `q` and column `rem` of a store `w` bytes wide are its byte
      `q * w + rem`, and that is the only byte with this row and column. */
  lemma RowColumn(q: int, rem: int, w: int)
    requires 0 <= rem < w
    ensures (q * w + rem) / w == q && (q * w + rem) % w == rem
    ensures forall k :: k / w == q && k % w == rem ==> k == q * w + rem
  {
    var k := q * w + rem;
    var q2, r2 := k / w, k % w;
    assert k == q2 * w + r2 && 0 <= r2 < w;
    assert (q - q2) * w == r2 - rem;
    if q - q2 >= 1 {
      MulAtLeast(q - q2, w);
    } else if q2 - q >= 1 {
      MulAtLeast(q2 - q, w);
    }
    forall k1 | k1 / w == q && k1 % w == rem ensures k1 == q * w + rem {
      assert k1 == (k1 / w) * w + k1 % w;
    }
  }

  lemma MulAtLeast(d: int, w: int)
    requires d >= 1 && w > 0
    ensures d * w >= w
  {
  }

  /** The glyph's byte at row `r` and column `c` of `region` goes to store
      byte `(y + r) * width + x + c`, read from bitmap byte `r * stride + c`. */
  lemma GlyphCell(region: IntRect, stride: int, atlasWidth: int, r: int, c: int)
    requires 0 <= region.x && region.MaxX() <= atlasWidth
    requires 0 <= r < region.height && 0 <= c < region.width
    ensures InGlyph((region.y + r) * atlasWidth + region.x + c, region, atlasWidth)
    ensures SourceIndex((region.y + r) * atlasWidth + region.x + c, region, stride, atlasWidth) == r * stride + c
  {
    RowColumn(region.y + r, region.x + c, atlasWidth);
  }

  /** Every store byte in the glyph reads a bitmap byte that exists, and
      the glyph lies inside the `width * height` bytes of the store. */
  lemma GlyphInBounds(k: int, region: IntRect, bitmap: seq<Byte>, stride: int, atlasWidth: int, atlasHeight: int)
    requires atlasWidth > 0 && InsideBorder(region, atlasWidth, atlasHeight)
    requires BitmapCovers(bitmap, stride, region.width, region.height)
    requires InGlyph(k, region, atlasWidth)
    ensures 0 <= SourceIndex(k, region, stride, atlasWidth) < |bitmap|
    ensures 0 <= k < atlasWidth * atlasHeight
  {
    var row, col := k / atlasWidth, k % atlasWidth;
    assert k == row * atlasWidth + col;
    CellInBitmap(row - region.y, col - region.x, stride, region.width, region.height, |bitmap|);
    CellInStore(row, col, atlasWidth, atlasHeight);
  }

  /** Row `r` and column `c` of a glyph lie inside a bitmap that covers it. */
  lemma CellInBitmap(r: int, c: int, stride: int, width: int, height: int, n: int)
    requires 0 <= r < height && 0 <= c < width <= stride
    requires (height - 1) * stride + width <= n
    ensures 0 <= r * stride + c < n
  {
    MulMonotone(0, r, stride);
    MulMonotone(r, height - 1, stride);
  }

  /** Row `row` and column `col` of a `w` by `h` store lie inside its `w * h` bytes. */
  lemma CellInStore(row: int, col: int, w: int, h: int)
    requires 0 <= row < h && 0 <= col < w
    ensures 0 <= row * w + col < w * h
  {
    MulMonotone(row + 1, h, w);
    MulMonotone(0, row, w);
  }

  lemma MulMonotone(a: int, b: int, s: int)
    requires a <= b && s >= 0
    ensures a * s <= b * s
  {
    assert b * s - a * s == (b - a) * s;
  }

  /** With a positive stride another row is left exactly while fewer
      than `height` rows were copied. */
  lemma RowsLeft(r: int, height: int, stride: int)
    requires stride > 0
    ensures r * stride < stride * height <==> r < height
  {
    if r < height {
      assert r * stride <= (height - 1) * stride;
    } else {
      assert r * stride >= height * stride;
    }
  }

  /** Store byte `k` is one of the first `rows` rows of the glyph, or one
      of the first `cols` bytes of the row after them. */
  predicate Done(k: int, region: IntRect, rows: int, cols: int, atlasWidth: int)
    requires atlasWidth > 0
  {
    region.y <= k / atlasWidth && region.x <= k % atlasWidth
    && ((k / atlasWidth < region.y + rows && k % atlasWidth < region.MaxX())
        || (k / atlasWidth == region.y + rows && k % atlasWidth < region.x + cols))
  }

  /** `store` is `original` with the bytes `Done` names copied from the
      bitmap. */
  ghost predicate Painted(store: seq<Byte>, original: seq<Byte>, region: IntRect, rows: int, cols: int,
                    bitmap: seq<Byte>, stride: int, atlasWidth: int)
  {
    atlasWidth > 0 && |store| == |original|
    && 0 <= rows <= region.height && 0 <= cols <= region.width
    && (forall k :: InGlyph(k, region, atlasWidth) ==> 0 <= SourceIndex(k, region, stride, atlasWidth) < |bitmap|)
    && (forall k :: 0 <= k < |store| ==>
          store[k] == if Done(k, region, rows, cols, atlasWidth) && InGlyph(k, region, atlasWidth)
                      then bitmap[SourceIndex(k, region, stride, atlasWidth)] else original[k])
  }

  /** Copying the next byte of the current row extends the painted part. */
  lemma PaintByte(store: seq<Byte>, original: seq<Byte>, region: IntRect, rows: int, cols: int,
                  bitmap: seq<Byte>, stride: int, atlasWidth: int)
    requires Painted(store, original, region, rows, cols, bitmap, stride, atlasWidth)
    requires 0 <= region.x && region.MaxX() <= atlasWidth && rows < region.height && cols < region.width
    requires 0 <= (region.y + rows) * atlasWidth + region.x + cols < |store|
    ensures 0 <= rows * stride + cols < |bitmap|
    ensures Painted(store[(region.y + rows) * atlasWidth + region.x + cols := bitmap[rows * stride + cols]],
                    original, region, rows, cols + 1, bitmap, stride, atlasWidth)
  {
    var k0 := (region.y + rows) * atlasWidth + region.x + cols;
    GlyphCell(region, stride, atlasWidth, rows, cols);
    RowColumn(region.y + rows, region.x + cols, atlasWidth);
  }

  /** A finished row starts the next one. */
  lemma PaintRow(store: seq<Byte>, original: seq<Byte>, region: IntRect, rows: int,
                 bitmap: seq<Byte>, stride: int, atlasWidth: int)
    requires Painted(store, original, region, rows, region.width, bitmap, stride, atlasWidth)
    requires rows < region.height
    ensures Painted(store, original, region, rows + 1, 0, bitmap, stride, atlasWidth)
  {
    forall k | 0 <= k < |store|
      ensures Done(k, region, rows, region.width, atlasWidth) == Done(k, region, rows + 1, 0, atlasWidth)
    {
    }
  }

  /** Once every row is painted, exactly the glyph's bytes come from the
      bitmap. A glyph with no columns paints nothing. */
  lemma PaintedAll(store: seq<Byte>, original: seq<Byte>, region: IntRect, rows: int,
                   bitmap: seq<Byte>, stride: int, atlasWidth: int)
    requires Painted(store, original, region, rows, 0, bitmap, stride, atlasWidth)
    requires rows == region.height || region.width == 0
    ensures forall k :: 0 <= k < |store| ==>
      store[k] == if InGlyph(k, region, atlasWidth) then bitmap[SourceIndex(k, region, stride, atlasWidth)] else original[k]
  {
    forall k | 0 <= k < |store| && InGlyph(k, region, atlasWidth)
      ensures Done(k, region, rows, 0, atlasWidth)
    {
    }
  }

  /** Every byte of a glyph inside the border lies in the store and reads
      a byte the bitmap holds. */
  lemma GlyphWithinBounds(region: IntRect, bitmap: seq<Byte>, stride: int, atlasWidth: int, atlasHeight: int)
    requires atlasWidth > 0 && InsideBorder(region, atlasWidth, atlasHeight)
    requires BitmapCovers(bitmap, stride, region.width, region.height)
    ensures forall k :: InGlyph(k, region, atlasWidth) ==>
      0 <= k < atlasWidth * atlasHeight && 0 <= SourceIndex(k, region, stride, atlasWidth) < |bitmap|
  {
    forall k | InGlyph(k, region, atlasWidth)
      ensures 0 <= k < atlasWidth * atlasHeight && 0 <= SourceIndex(k, region, stride, atlasWidth) < |bitmap|
    {
      GlyphInBounds(k, region, bitmap, stride, atlasWidth, atlasHeight);
    }
  }

  /** The offsets of one row plus the row's stride are those of the next. */
  lemma NextRow(y: int, r: int, x: int, atlasWidth: int, stride: int)
    ensures (y + r) * atlasWidth + x + atlasWidth == (y + r + 1) * atlasWidth + x
    ensures r * stride + stride == (r + 1) * stride
  {
  }

  /** A glyph copied into one region touches no byte of a region disjoint
      from it, so the glyphs already in the atlas keep their bytes. */
  lemma DisjointGlyphsDoNotShareBytes(k: int, a: IntRect, b: IntRect, atlasWidth: int)
    requires atlasWidth > 0 && Disjoint(a, b)
    ensures !(InGlyph(k, a, atlasWidth) && InGlyph(k, b, atlasWidth))
  {
  }

  /** The node list is a skyline once it exists, the memory counted is the
      area handed out, and the regions lie under the skyline. */
  predicate Packed(nodes: seq<IntRect>, regions: seq<IntRect>, usedMemory: int, atlasWidth: int, atlasHeight: int)
  {
    (|nodes| > 0 ==> S.Skyline(nodes, atlasWidth))
    && usedMemory == Area(regions)
    && RegionsBelow(nodes, regions, atlasWidth, atlasHeight)
  }

  /** A region that `region` hands out keeps the atlas packed: the new
      region lies inside the border and overlaps no earlier one. */
  lemma AllocationKeepsPacked(nodes: seq<IntRect>, regions: seq<IntRect>, usedMemory: int, w: int, h: int,
                              atlasWidth: int, atlasHeight: int, region: IntRect, after: seq<IntRect>)
    requires |nodes| > 0 && Packed(nodes, regions, usedMemory, atlasWidth, atlasHeight)
    requires w >= 1 && h >= 1 && atlasHeight <= S.IntMax
    requires (region, after) == S.Allocate(nodes, w, h, atlasWidth, atlasHeight) && region != S.NoRegion
    ensures Packed(after, regions + [region], usedMemory + w * h, atlasWidth, atlasHeight)
    ensures InsideBorder(region, atlasWidth, atlasHeight)
    ensures ApartFrom(regions, region)
  {
    AllocationKeepsRegions(nodes, regions, w, h, atlasWidth, atlasHeight);
  }

  /** With the candidate search's choice, `region` places the region at
      the chosen node. */
  lemma AllocateAt(nodes: seq<IntRect>, bestIndex: int, region: IntRect, atlasWidth: int, atlasHeight: int)
    requires S.Skyline(nodes, atlasWidth) && region.width >= 1 && region.height >= 1 && atlasHeight <= S.IntMax
    requires var c := S.Select(nodes, |nodes|, region.width, region.height, atlasWidth, atlasHeight);
      bestIndex == c.bestIndex != -1 && region == IntRect(c.regionX, c.regionY, region.width, region.height)
    ensures 0 <= bestIndex < |nodes|
    ensures S.Allocate(nodes, region.width, region.height, atlasWidth, atlasHeight) == (region, S.Placed(nodes, bestIndex, region))
  {
    S.SelectBest(nodes, |nodes|, region.width, region.height, atlasWidth, atlasHeight);
  }

  class FontTextureAtlas {
    const atlasWidth: int
    const atlasHeight: int
    /** `m_atlasBackingStore`, seen byte by byte as `copyGlyphBitmapToRegion`
        writes it. */
    const backingStore: array<Byte>
    /** `m_nodes`. */
    var nodes: seq<IntRect>
    var usedMemory: int
    var dirty: bool
    /** The regions `region` has handed out. */
    ghost var regions: seq<IntRect>

    ghost predicate Valid()
      reads this
    {
      3 <= atlasWidth <= S.IntMax && 1 <= atlasHeight <= S.IntMax
      && backingStore.Length >= atlasWidth * atlasHeight
      && Packed(nodes, regions, usedMemory, atlasWidth, atlasHeight)
    }

    /** `FontTextureAtlasTyGL(width, height)`: a backing store of
        `(width * height + 3) / 4` zeroed 32-bit words, no nodes, nothing
        used, not dirty. */
    constructor (width: int, height: int)
      requires width >= 0 && height >= 0
      ensures atlasWidth == width && atlasHeight == height
      ensures backingStore.Length == 4 * ((width * height + 3) / 4)
      ensures forall k :: 0 <= k < backingStore.Length ==> backingStore[k] == 0
      ensures nodes == [] && usedMemory == 0 && !dirty && regions == []
      ensures 3 <= width <= S.IntMax && 1 <= height <= S.IntMax ==> Valid()
      ensures fresh(backingStore)
    {
      atlasWidth, atlasHeight := width, height;
      backingStore := new Byte[4 * ((width * height + 3) / 4)](_ => 0);
      nodes, usedMemory, dirty := [], 0, false;
      regions := [];
    }

    /** `fit(index, regionWidth, regionHeight)`. */
    method Fit(index: int, regionWidth: int, regionHeight: int) returns (y: int)
      requires 3 <= atlasWidth && S.Skyline(nodes, atlasWidth) && 0 <= index < |nodes|
      ensures y == S.Fit(nodes, index, regionWidth, regionHeight, atlasWidth, atlasHeight)
    {
      var node := nodes[index];
      var widthLeft := regionWidth;
      if node.x + regionWidth >= atlasWidth {
        return -1;
      }
      y := node.MaxY();
      S.SumWidthsSpan(nodes, index);
      var k := index;
      while widthLeft > 0
        invariant index <= k <= |nodes| && widthLeft <= S.SumWidths(nodes, k)
        invariant S.FitFrom(nodes, k, widthLeft, y, regionHeight, atlasHeight)
               == S.FitFrom(nodes, index, regionWidth, nodes[index].MaxY(), regionHeight, atlasHeight)
        decreases |nodes| - k
      {
        node := nodes[k];
        k := k + 1;
        var nodeBottom := node.MaxY();
        if nodeBottom > y {
          y := nodeBottom;
        }
        if y + regionHeight >= atlasHeight {
          return -1;
        }
        widthLeft := widthLeft - node.width;
      }
    }

    /** `mergeNodes()`. After a merge the loop index stays put (the
        source's `--i`), so the widened node meets its new neighbour. */
    method MergeNodes()
      modifies this
      ensures nodes == S.MergeFrom(old(nodes), 0)
      ensures usedMemory == old(usedMemory) && dirty == old(dirty) && regions == old(regions)
    {
      var i := 0;
      while i < |nodes| - 1
        invariant 0 <= i <= |nodes|
        invariant S.MergeFrom(nodes, i) == S.MergeFrom(old(nodes), 0)
        invariant usedMemory == old(usedMemory) && dirty == old(dirty) && regions == old(regions)
        decreases 2 * |nodes| - i
      {
        if nodes[i].MaxY() == nodes[i + 1].MaxY() {
          ghost var before := nodes;
          nodes := nodes[i := S.Widened(nodes[i], nodes[i + 1].width)];
          nodes := nodes[..i + 1] + nodes[i + 2..];
          assert nodes == S.MergeAt(before, i);
        } else {
          i := i + 1;
        }
      }
    }

    /** `shrinkNodes(index)`. After a removal the loop index stays put
        (the source's `--index`). */
    method ShrinkNodes(index: int)
      requires 1 <= index <= |nodes|
      modifies this
      ensures nodes == S.ShrinkFrom(old(nodes), index)
      ensures usedMemory == old(usedMemory) && dirty == old(dirty) && regions == old(regions)
    {
      var i := index;
      while i < |nodes|
        invariant 1 <= i <= |nodes|
        invariant S.ShrinkFrom(nodes, i) == S.ShrinkFrom(old(nodes), index)
        invariant usedMemory == old(usedMemory) && dirty == old(dirty) && regions == old(regions)
        decreases |nodes| - i
      {
        var node, prev := nodes[i], nodes[i - 1];
        if node.x >= prev.MaxX() {
          break;
        }
        var shrinkOffset := prev.MaxX() - node.x;
        ghost var before := nodes;
        nodes := nodes[i := IntRect(node.x + shrinkOffset, node.y, node.width - shrinkOffset, node.height)];
        if nodes[i].width > 0 {
          break;
        }
        nodes := nodes[..i] + nodes[i + 1..];
        assert nodes == before[..i] + before[i + 1..];
      }
    }

    /** The candidate loop of `region`: for every node that fits, keep the
        one with the lowest `y + height`, the narrower among equals, and the
        region at its x and fitted y. */
    method SearchCandidates(regionWidth: int, regionHeight: int) returns (bestIndex: int, region: IntRect)
      requires 3 <= atlasWidth && S.Skyline(nodes, atlasWidth)
      ensures var c := S.Select(nodes, |nodes|, regionWidth, regionHeight, atlasWidth, atlasHeight);
        bestIndex == c.bestIndex && region == IntRect(c.regionX, c.regionY, regionWidth, regionHeight)
      ensures -1 <= bestIndex < |nodes|
    {
      region := IntRect(0, 0, regionWidth, regionHeight);
      var bestHeight, bestWidth := S.IntMax, S.IntMax;
      bestIndex := -1;
      var nodesCount := |nodes|;
      var i := 0;
      while i < nodesCount
        invariant 0 <= i <= nodesCount == |nodes|
        invariant S.Select(nodes, i, regionWidth, regionHeight, atlasWidth, atlasHeight)
               == S.Choice(bestIndex, bestHeight, bestWidth, region.x, region.y)
        invariant region.width == regionWidth && region.height == regionHeight && -1 <= bestIndex < i
        decreases nodesCount - i
      {
        var y := Fit(i, regionWidth, regionHeight);
        if y >= 0 {
          var node := nodes[i];
          if y + regionHeight < bestHeight || (y + regionHeight == bestHeight && node.width < bestWidth) {
            bestWidth := node.width;
            bestHeight := y + regionHeight;
            bestIndex := i;
            region := IntRect(node.x, y, regionWidth, regionHeight);
          }
        }
        i := i + 1;
      }
    }

    /** The tail of `region` once a node was chosen: insert the region's
        node before it, shrink the nodes it now overlaps, merge level
        neighbours, and count the region's memory. */
    method Place(bestIndex: int, region: IntRect)
      requires Valid() && |nodes| > 0
      requires region.width >= 1 && region.height >= 1
      requires var c := S.Select(nodes, |nodes|, region.width, region.height, atlasWidth, atlasHeight);
        bestIndex == c.bestIndex != -1 && region == IntRect(c.regionX, c.regionY, region.width, region.height)
      modifies this
      ensures Valid()
      ensures (region, nodes) == S.Allocate(old(nodes), region.width, region.height, atlasWidth, atlasHeight)
      ensures usedMemory == old(usedMemory) + region.width * region.height
      ensures regions == old(regions) + [region]
      ensures InsideBorder(region, atlasWidth, atlasHeight)
      ensures ApartFrom(old(regions), region)
      ensures dirty == old(dirty)
    {
      AllocateAt(nodes, bestIndex, region, atlasWidth, atlasHeight);
      ghost var before, used, handed := nodes, usedMemory, regions;
      InsertNode(bestIndex, region);
      usedMemory := usedMemory + region.width * region.height;
      regions := regions + [region];
      AllocationKeepsPacked(before, handed, used, region.width, region.height, atlasWidth, atlasHeight, region, nodes);
    }

    /** The node updates of `region`: insert the region's node before node
        `bestIndex`, narrow the nodes right of it, then merge level neighbours. */
    method InsertNode(bestIndex: int, region: IntRect)
      requires 0 <= bestIndex < |nodes|
      modifies this
      ensures nodes == S.Placed(old(nodes), bestIndex, region)
      ensures usedMemory == old(usedMemory) && dirty == old(dirty) && regions == old(regions)
    {
      nodes := nodes[..bestIndex] + [IntRect(region.x, region.y, region.width, region.height)] + nodes[bestIndex..];
      ShrinkNodes(bestIndex + 1);
      MergeNodes();
    }

    /** `region(regionWidth, regionHeight)`, for the sizes TextureFont asks
        for (glyph bitmap size plus one, so at least 1 by 1). On the first
        call the node list is seeded with the one node spanning the atlas
        inside its border. */
    method Region(regionWidth: int, regionHeight: int) returns (region: IntRect)
      requires Valid() && regionWidth >= 1 && regionHeight >= 1
      modifies this
      ensures Valid()
      ensures (region, nodes)
           == S.Allocate(S.Seeded(old(nodes), atlasWidth), regionWidth, regionHeight, atlasWidth, atlasHeight)
      ensures region == S.NoRegion ==> usedMemory == old(usedMemory) && regions == old(regions)
      ensures region != S.NoRegion ==>
        usedMemory == old(usedMemory) + regionWidth * regionHeight
        && regions == old(regions) + [region]
        && InsideBorder(region, atlasWidth, atlasHeight)
        && ApartFrom(old(regions), region)
      ensures dirty == old(dirty)
    {
      if |nodes| == 0 {
        nodes := [IntRect(1, 0, atlasWidth - 2, 1)];
      }
      var bestIndex;
      bestIndex, region := SearchCandidates(regionWidth, regionHeight);
      if bestIndex == -1 {
        return S.NoRegion;
      }
      Place(bestIndex, region);
    }

    /** The inner loop of `copyGlyphBitmapToRegion`: copies row `r` of the
        glyph, one byte at a time, and returns the advanced offsets. */
    method CopyRow(ghost original: seq<Byte>, region: IntRect, bitmap: seq<Byte>, stride: int, ghost r: int,
                   atlasStart: int, bitmapStart: int) returns (atlasOffset: int, bitmapOffset: int)
      requires atlasWidth > 0 && 0 <= region.x && region.MaxX() <= atlasWidth && 0 <= r < region.height
      requires atlasStart == (region.y + r) * atlasWidth + region.x && bitmapStart == r * stride
      requires forall k :: InGlyph(k, region, atlasWidth) ==> 0 <= k < backingStore.Length
      requires Painted(backingStore[..], original, region, r, 0, bitmap, stride, atlasWidth)
      modifies backingStore
      ensures atlasOffset == atlasStart + region.width && bitmapOffset == bitmapStart + region.width
      ensures Painted(backingStore[..], original, region, r + 1, 0, bitmap, stride, atlasWidth)
    {
      atlasOffset, bitmapOffset := atlasStart, bitmapStart;
      var rowEnd := bitmapOffset + region.width;
      ghost var c := 0;
      while bitmapOffset < rowEnd
        invariant 0 <= c <= region.width && bitmapOffset == bitmapStart + c && atlasOffset == atlasStart + c
        invariant Painted(backingStore[..], original, region, r, c, bitmap, stride, atlasWidth)
        decreases rowEnd - bitmapOffset
      {
        GlyphCell(region, stride, atlasWidth, r, c);
        PaintByte(backingStore[..], original, region, r, c, bitmap, stride, atlasWidth);
        backingStore[atlasOffset] := bitmap[bitmapOffset];
        atlasOffset, bitmapOffset := atlasOffset + 1, bitmapOffset + 1;
        c := c + 1;
      }
      PaintRow(backingStore[..], original, region, r, bitmap, stride, atlasWidth);
    }

    /** `copyGlyphBitmapToRegion(region, bitmap, stride, depth)`: for an
        8-bit bitmap (depth 1), copies the glyph row by row into the store,
        `stride` bitmap bytes and `width` store bytes per row, and marks the
        atlas dirty. Any other depth changes nothing. */
    method CopyGlyphBitmapToRegion(region: IntRect, bitmap: seq<Byte>, stride: int, depth: int)
      requires Valid() && InsideBorder(region, atlasWidth, atlasHeight)
      requires BitmapCovers(bitmap, stride, region.width, region.height)
      modifies this, backingStore
      ensures Valid()
      ensures nodes == old(nodes) && usedMemory == old(usedMemory) && regions == old(regions)
      ensures depth != 1 ==> dirty == old(dirty) && unchanged(backingStore)
      ensures depth == 1 ==> dirty
      ensures forall k :: InGlyph(k, region, atlasWidth) ==>
        0 <= k < backingStore.Length && 0 <= SourceIndex(k, region, stride, atlasWidth) < |bitmap|
      ensures depth == 1 ==> forall k :: 0 <= k < backingStore.Length ==>
        backingStore[k] == if InGlyph(k, region, atlasWidth) then bitmap[SourceIndex(k, region, stride, atlasWidth)]
                           else old(backingStore[k])
    {
      GlyphWithinBounds(region, bitmap, stride, atlasWidth, atlasHeight);
      if depth != 1 {
        return;
      }
      var x, y, regionWidth, regionHeight := region.x, region.y, region.width, region.height;
      ghost var original := backingStore[..];
      var atlasOffset := y * atlasWidth + x;
      var bitmapOffset := 0;
      var bitmapEnd := stride * regionHeight;
      ghost var r := 0;
      while bitmapOffset < bitmapEnd
        invariant 0 <= r <= regionHeight && (stride > 0 || r == 0)
        invariant bitmapOffset == r * stride && atlasOffset == (y + r) * atlasWidth + x
        invariant Painted(backingStore[..], original, region, r, 0, bitmap, stride, atlasWidth)
        invariant nodes == old(nodes) && usedMemory == old(usedMemory) && regions == old(regions)
        decreases bitmapEnd - bitmapOffset
      {
        RowsLeft(r, regionHeight, stride);
        atlasOffset, bitmapOffset := CopyRow(original, region, bitmap, stride, r, atlasOffset, bitmapOffset);
        atlasOffset := atlasOffset + atlasWidth - regionWidth;
        bitmapOffset := bitmapOffset + stride - regionWidth;
        NextRow(y, r, x, atlasWidth, stride);
        r := r + 1;
      }
      if stride > 0 {
        RowsLeft(r, regionHeight, stride);
      }
      PaintedAll(backingStore[..], original, region, r, bitmap, stride, atlasWidth);
      dirty := true;
    }

    /** `update()`: uploads the backing store when it is dirty. */
    method Update() returns (uploaded: bool)
      requires Valid()
      modifies this
      ensures Valid()
      ensures uploaded == old(dirty) && !dirty
      ensures nodes == old(nodes) && usedMemory == old(usedMemory) && regions == old(regions)
    {
      uploaded := dirty;
      if dirty {
        dirty := false;
      }
    }
  }
}
