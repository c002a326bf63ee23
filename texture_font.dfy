/**
 * `TyGL::TextureFont` (TextureFontTyGL.h and .cpp): a per-font cache of
 * glyph metrics over a font texture atlas. `glyph` renders a glyph on a
 * cache miss, reserves atlas room for it and copies its bitmap in;
 * `expandAtlas` replaces a full atlas by a bigger one and re-renders the
 * cached glyphs; `calculateAtlasSize` picks the first atlas side.
 *
 * FreeType's `FT_Load_Glyph` is a parameter of the model: a function from
 * glyph code to a rendered 8-bit bitmap or an error code. Integer sizes are
 * unbounded; float texture coordinates are `real`.
 */
module TextureFontTyGL {
  import opened Geometry
  import S = FontTextureAtlasSkyline
  import opened FontTextureAtlasTyGL

  /** `AtlasFullError`: the first code above FreeType's error range. */
  const AtlasFullError: int := 0x100
  /** FreeType's out-of-memory error code. */
  const OutOfMemoryError: int := 0x40

  /** The average number of glyphs per font the first atlas is sized for. */
  const InitialGlyphCount: int := 32

  /** A glyph as `FT_Load_Glyph(..., FT_LOAD_RENDER)` leaves it in the slot. */
  datatype GlyphBitmap = GlyphBitmap(width: int, rows: int, pitch: int, left: int, top: int, buffer: seq<Byte>)

  datatype LoadResult = Rendered(bitmap: GlyphBitmap) | LoadFailed(error: int)

  /** What the model takes of FreeType: errors are non-zero, and a rendered
      bitmap has non-negative sizes and holds every byte of its rows. */
  predicate SoundLoad(r: LoadResult)
  {
    match r
    case Rendered(b) => 0 <= b.width && 0 <= b.rows && BitmapCovers(b.buffer, b.pitch, b.width, b.rows)
    case LoadFailed(e) => e != 0
  }

  /** `AtlasRegion`: texture coordinates of a glyph's corners. */
  datatype AtlasRegion = AtlasRegion(s0: real, t0: real, s1: real, t1: real)

  /** `GlyphMetrics`: size, bearing, atlas location and texture region. */
  datatype GlyphMetrics = GlyphMetrics(size: (int, int), offset: (int, int), location: (int, int), atlasRegion: AtlasRegion)

  /** The value-initialised `GlyphMetrics()` returned on errors. */
  const NoMetrics: GlyphMetrics := GlyphMetrics((0, 0), (0, 0), (0, 0), AtlasRegion(0.0, 0.0, 0.0, 0.0))

  /** The metrics `glyph` caches for a bitmap placed at `(x, y)` of an
      atlas `atlasWidth` by `atlasHeight`. */
  function MetricsFor(b: GlyphBitmap, x: int, y: int, atlasWidth: int, atlasHeight: int): (m: GlyphMetrics)
    requires atlasWidth > 0 && atlasHeight > 0
    ensures m.size == (b.width, b.rows) && m.offset == (b.left, b.top) && m.location == (x, y)
    ensures m.atlasRegion.s0 * atlasWidth as real == x as real
    ensures m.atlasRegion.t0 * atlasHeight as real == y as real
    ensures m.atlasRegion.s1 * atlasWidth as real == (x + b.width) as real
    ensures m.atlasRegion.t1 * atlasHeight as real == (y + b.rows) as real
  {
    var w, h := atlasWidth as real, atlasHeight as real;
    GlyphMetrics((b.width, b.rows), (b.left, b.top), (x, y),
      AtlasRegion(x as real / w, y as real / h, (x + b.width) as real / w, (y + b.rows) as real / h))
  }

  /** The glyph's own rectangle in the atlas: its region without the
      one-pixel gap `region` was asked for. */
  function GlyphRect(m: GlyphMetrics): IntRect
  {
    IntRect(m.location.0, m.location.1, m.size.0, m.size.1)
  }

  /** The region `glyph` reserves for a glyph: its rectangle, one pixel
      wider and taller. */
  function ReservedRect(m: GlyphMetrics): IntRect
  {
    IntRect(m.location.0, m.location.1, m.size.0 + 1, m.size.1 + 1)
  }

  // ---------------------------------------------------------------------
  // Atlas sizing

  /** `side` is `base` doubled zero or more times. */
  predicate Doubling(side: int, base: int)
    requires base > 0
    decreases side
  {
    side == base || (side > base && side % 2 == 0 && Doubling(side / 2, base))
  }

  /** The inner loop of `calculateAtlasSize`: double `side` until its
      square holds `reserved`. */
  function Grow(side: int, reserved: int): int
    requires side >= 1
    decreases reserved - side
  {
    if reserved > side * side then
      assert side <= side * side;
      Grow(2 * side, reserved)
    else side
  }

  /** `Grow` doubles `side` to the first square holding `reserved`. */
  lemma {:induction false} GrowSpec(side: int, reserved: int)
    requires side >= 1
    ensures Doubling(Grow(side, reserved), side)
    ensures Grow(side, reserved) * Grow(side, reserved) >= reserved
    ensures Grow(side, reserved) == side
         || (Grow(side, reserved) >= 2 * side && Grow(side, reserved) % 2 == 0
             && (Grow(side, reserved) / 2) * (Grow(side, reserved) / 2) < reserved)
    decreases reserved - side
  {
    if reserved > side * side {
      assert side <= side * side;
      GrowSpec(2 * side, reserved);
      var g := Grow(2 * side, reserved);
      DoublingOfDouble(g, side);
      if g == 2 * side {
        assert g / 2 == side;
      }
    }
  }

  /** Doubling from twice `base` is doubling from `base`. */
  lemma {:induction false} DoublingOfDouble(side: int, base: int)
    requires base > 0 && Doubling(side, 2 * base)
    ensures Doubling(side, base)
    decreases side
  {
    if side == 2 * base {
      assert side / 2 == base;
    } else {
      DoublingOfDouble(side / 2, base);
    }
  }

  /** The outer do/while of `calculateAtlasSize`, from `count` glyphs and a
      side of `side`: the side it returns and the count it was sized for. */
  function AtlasPlan(charWidth: int, charHeight: int, count: int, side: int): (int, int)
    requires side >= 1 && count >= 1
    decreases count
  {
    var grown := Grow(side, charWidth * charHeight * count);
    if grown <= 1024 || count == 2 then (grown, count)
    else if count / 2 == 0 then (1024, count / 2)
    else AtlasPlan(charWidth, charHeight, count / 2, 1024)
  }

  /** From 32 glyphs the count halves at most to 2, and the side returned
      is 64 doubled: its square holds that many glyph cells, it is at most
      1024 unless the count reached 2, and half of it would not have held
      them (unless it is 64, or the 1024 the loop restarts from). */
  lemma AtlasSizeSpec(charWidth: int, charHeight: int)
    ensures var plan := AtlasPlan(charWidth, charHeight, InitialGlyphCount, DefaultAtlasSide);
      var side, count := plan.0, plan.1;
      count in {32, 16, 8, 4, 2}
      && Doubling(side, DefaultAtlasSide)
      && side * side >= charWidth * charHeight * count
      && (side <= 1024 || count == 2)
      && (side == DefaultAtlasSide || side == 1024 || (side / 2) * (side / 2) < charWidth * charHeight * count)
  {
    var cw, ch := charWidth, charHeight;
    GrowSpec(64, cw * ch * 32);
    GrowSpec(1024, cw * ch * 16);
    GrowSpec(1024, cw * ch * 8);
    GrowSpec(1024, cw * ch * 4);
    GrowSpec(1024, cw * ch * 2);
    DoublingFrom1024(Grow(1024, cw * ch * 16));
    DoublingFrom1024(Grow(1024, cw * ch * 8));
    DoublingFrom1024(Grow(1024, cw * ch * 4));
    DoublingFrom1024(Grow(1024, cw * ch * 2));
  }

  /** 1024 is 64 doubled four times. */
  lemma DoublingFrom1024(side: int)
    requires Doubling(side, 1024)
    ensures Doubling(side, DefaultAtlasSide)
  {
    DoublingOfDouble(side, 512);
    DoublingOfDouble(side, 256);
    DoublingOfDouble(side, 128);
    DoublingOfDouble(side, 64);
  }

  /** When the source's 32-bit product `charWidth * charHeight * 32` does
      not overflow, the side fits in an `int` as well. */
  lemma AtlasSideBounded(charWidth: int, charHeight: int)
    requires charWidth * charHeight * InitialGlyphCount <= S.IntMax
    ensures DefaultAtlasSide <= AtlasPlan(charWidth, charHeight, InitialGlyphCount, DefaultAtlasSide).0 <= 92682
  {
    AtlasSizeSpec(charWidth, charHeight);
    var plan := AtlasPlan(charWidth, charHeight, InitialGlyphCount, DefaultAtlasSide);
    var side, count := plan.0, plan.1;
    DoublingAtLeast(side, DefaultAtlasSide);
    if side != DefaultAtlasSide && side != 1024 {
      assert charWidth * charHeight * count <= charWidth * charHeight * 32 by {
        if charWidth * charHeight >= 0 {
          MulMonotone(count, 32, charWidth * charHeight);
        }
      }
      if side / 2 > 46341 {
        MulMonotone(46341, side / 2, side / 2);
      }
    }
  }

  lemma {:induction false} DoublingAtLeast(side: int, base: int)
    requires base > 0 && Doubling(side, base)
    ensures side >= base
    decreases side
  {
    if side != base {
      DoublingAtLeast(side / 2, base);
    }
  }

  /** `expandAtlas`'s new size: double the height, capped at the maximum
      side, while the height is below it; otherwise double the width the
      same way; `(0, 0)`, the empty `IntSize`, when neither can grow. */
  function ExpandedSize(width: int, height: int): (int, int)
  {
    var vertical := if height < MaximumAtlasSide then (width, if height * 2 > MaximumAtlasSide then MaximumAtlasSide else height * 2)
                    else (0, 0);
    if vertical == (0, 0) && width < MaximumAtlasSide then
      (if width * 2 > MaximumAtlasSide then MaximumAtlasSide else width * 2, height)
    else vertical
  }

  /** For an atlas of positive size: the height grows first, up to the
      maximum, with the width kept; once the height is at the maximum the
      width grows the same way; when both are at the maximum there is no
      new size. The atlas only grows, and never past the maximum. */
  lemma ExpandedSizeSpec(width: int, height: int)
    requires 1 <= width && 1 <= height
    ensures var n := ExpandedSize(width, height);
      (n == (0, 0) <==> width >= MaximumAtlasSide && height >= MaximumAtlasSide)
      && (height < MaximumAtlasSide ==> n == (width, Min(2 * height, MaximumAtlasSide)))
      && (height >= MaximumAtlasSide && width < MaximumAtlasSide ==> n == (Min(2 * width, MaximumAtlasSide), height))
      && (n != (0, 0) ==>
            n.0 >= width && n.1 >= height && n.0 * n.1 > width * height
            && (width <= MaximumAtlasSide ==> n.0 <= MaximumAtlasSide)
            && (height <= MaximumAtlasSide ==> n.1 <= MaximumAtlasSide))
  {
    var n := ExpandedSize(width, height);
    if n != (0, 0) {
      if height < MaximumAtlasSide {
        MulStrict(width, height, n.1);
      } else {
        MulStrict(height, width, n.0);
      }
    }
  }

  function Min(a: int, b: int): int { if a < b then a else b }

  lemma MulStrict(a: int, b: int, c: int)
    requires a >= 1 && b < c
    ensures a * b < a * c
  {
    assert a * c - a * b == a * (c - b);
  }

  // ---------------------------------------------------------------------
  // The glyph cache

  /** One step of `expandAtlas`'s re-request loop: the code leaves the
      pending set and joins either the cache or the refused codes. */
  lemma RecacheStep(all: set<int>, pending: set<int>, refused: set<int>, keys: set<int>, code: int, cached: bool)
    requires code in pending && pending <= all && refused <= all - pending && keys == all - pending - refused
    ensures var newRefused, newKeys := (if cached then refused else refused + {code}), (if cached then keys + {code} else keys);
      newRefused <= all - (pending - {code}) && newKeys == all - (pending - {code}) - newRefused
  {
  }

  /** One request of a rendered bitmap `b` to an atlas `aw` by `ah` whose
      node list is `before`: `region` asks the seeded skyline for the bitmap
      size plus one each way, the node list becomes `after`, and the glyph
      is refused exactly when no node has room for it. */
  ghost predicate AllocationTurn(b: GlyphBitmap, before: seq<IntRect>, after: seq<IntRect>, aw: int, ah: int, refused: bool)
  {
    var seeded := S.Seeded(before, aw);
    S.Skyline(seeded, aw) && b.width >= 0 && b.rows >= 0 && ah <= S.IntMax
    && var (region, nodes) := S.Allocate(seeded, b.width + 1, b.rows + 1, aw, ah);
       after == nodes && (refused <==> region == S.NoRegion)
  }

  /** What `region` returns for a bitmap, tested as `glyph` tests it (a
      negative x), is the refusal of an allocation turn. */
  lemma TurnOfRegion(b: GlyphBitmap, before: seq<IntRect>, after: seq<IntRect>, aw: int, ah: int, region: IntRect)
    requires 3 <= aw && ah <= S.IntMax && (|before| > 0 ==> S.Skyline(before, aw)) && b.width >= 0 && b.rows >= 0
    requires (region, after) == S.Allocate(S.Seeded(before, aw), b.width + 1, b.rows + 1, aw, ah)
    requires region != S.NoRegion ==> InsideBorder(region, aw, ah)
    ensures AllocationTurn(b, before, after, aw, ah, region.x < 0)
  {
  }

  /** `expandAtlas` re-requested the codes `done`, each once, in the order
      `order`, starting from the fresh atlas's empty node list: `trail`
      holds the node list before each request and after the last one, and
      `refused` holds the codes whose request found no room. */
  ghost predicate Rebuilt(load: int -> LoadResult, done: set<int>, order: seq<int>, trail: seq<seq<IntRect>>,
                          refused: set<int>, aw: int, ah: int)
  {
    |trail| == |order| + 1 && trail[0] == []
    && (forall c :: c in done <==> c in order)
    && (forall i, j :: 0 <= i < j < |order| ==> order[i] != order[j])
    && refused <= done
    && forall i :: 0 <= i < |order| ==> RequestedAt(load, order, trail, refused, aw, ah, i)
  }

  /** Request `i` of a rebuild: a rendered code, refused exactly when the
      atlas had no room for it at that turn. */
  ghost predicate RequestedAt(load: int -> LoadResult, order: seq<int>, trail: seq<seq<IntRect>>,
                              refused: set<int>, aw: int, ah: int, i: int)
    requires 0 <= i < |order| && |trail| == |order| + 1
  {
    load(order[i]).Rendered?
    && AllocationTurn(load(order[i]).bitmap, trail[i], trail[i + 1], aw, ah, order[i] in refused)
  }

  /** Re-requesting one more code, not yet done, extends a rebuild. */
  lemma RebuiltStep(load: int -> LoadResult, done: set<int>, order: seq<int>, trail: seq<seq<IntRect>>,
                    refused: set<int>, aw: int, ah: int, code: int, after: seq<IntRect>, isRefused: bool)
    requires Rebuilt(load, done, order, trail, refused, aw, ah) && code !in done && load(code).Rendered?
    requires AllocationTurn(load(code).bitmap, trail[|order|], after, aw, ah, isRefused)
    ensures var newRefused := if isRefused then refused + {code} else refused;
      Rebuilt(load, done + {code}, order + [code], trail + [after], newRefused, aw, ah)
  {
    var newRefused := if isRefused then refused + {code} else refused;
    var newOrder, newTrail := order + [code], trail + [after];
    forall i | 0 <= i < |newOrder|
      ensures RequestedAt(load, newOrder, newTrail, newRefused, aw, ah, i)
    {
      if i < |order| {
        assert RequestedAt(load, order, trail, refused, aw, ah, i);
        assert newOrder[i] == order[i] != code;
        assert newTrail[i] == trail[i] && newTrail[i + 1] == trail[i + 1];
        assert (order[i] in newRefused) == (order[i] in refused);
      } else {
        assert newOrder[i] == code && newTrail[i] == trail[|order|] && newTrail[i + 1] == after;
        assert (code in newRefused) == isRefused;
      }
    }
  }

  /** Some element of a non-empty set: the next key a hash-map iterator
      visits, in an order the model leaves open. */
  method AnyKey(keys: set<int>) returns (k: int)
    requires keys != {}
    ensures k in keys
  {
    if forall x :: x !in keys {
      assert false;
    }
    k :| k in keys;
  }

  class TextureFont {
    /** `FT_Load_Glyph` on this font's face. */
    const load: int -> LoadResult
    /** `maxCharWidth()` and `fontMetrics().height()` of the font data. */
    const maxCharWidth: int
    const fontHeight: int
    var atlas: FontTextureAtlas?
    /** `m_glyphs`. */
    var glyphs: map<int, GlyphMetrics>

    /** FreeType behaves, the atlas is sound, and every cached glyph is the
        one the loader renders for its code, placed inside the border of
        the current atlas. Before the atlas exists nothing is cached. */
    ghost predicate Valid()
      reads this, atlas
    {
      (forall code :: SoundLoad(load(code)))
      && (atlas == null ==> glyphs == map[])
      && (atlas != null ==>
            atlas.Valid()
            && forall code :: code in glyphs ==> Cached(code, glyphs[code], atlas.atlasWidth, atlas.atlasHeight))
    }

    /** `m` is what `glyph` caches for `code` in an atlas of this size. */
    ghost predicate Cached(code: int, m: GlyphMetrics, atlasWidth: int, atlasHeight: int)
    {
      load(code).Rendered?
      && atlasWidth > 0 && atlasHeight > 0
      && m == MetricsFor(load(code).bitmap, m.location.0, m.location.1, atlasWidth, atlasHeight)
      && InsideBorder(GlyphRect(m), atlasWidth, atlasHeight)
    }

    constructor (load: int -> LoadResult, maxCharWidth: int, fontHeight: int)
      requires forall code :: SoundLoad(load(code))
      ensures Valid() && atlas == null && glyphs == map[]
      ensures this.load == load && this.maxCharWidth == maxCharWidth && this.fontHeight == fontHeight
    {
      this.load, this.maxCharWidth, this.fontHeight := load, maxCharWidth, fontHeight;
      atlas := null;
      glyphs := map[];
    }

    /** `calculateAtlasSize()`: a square atlas for 32 glyph cells of the
        font's largest character plus a pixel, halving the count while
        the side would exceed 1024. */
    method CalculateAtlasSize() returns (size: (int, int))
      ensures size.0 == size.1
           == AtlasPlan(maxCharWidth + 1, fontHeight + 1, InitialGlyphCount, DefaultAtlasSide).0
    {
      var charWidth := maxCharWidth + 1;
      var charHeight := fontHeight + 1;
      var count := InitialGlyphCount;
      var atlasSide := DefaultAtlasSide;
      while true
        invariant count >= 1 && atlasSide >= 1
        invariant AtlasPlan(charWidth, charHeight, count, atlasSide)
               == AtlasPlan(charWidth, charHeight, InitialGlyphCount, DefaultAtlasSide)
        decreases count
      {
        var atlasReservedSpace := charWidth * charHeight * count;
        ghost var start := atlasSide;
        while atlasReservedSpace > atlasSide * atlasSide
          invariant atlasSide >= 1 && Grow(atlasSide, atlasReservedSpace) == Grow(start, atlasReservedSpace)
          decreases atlasReservedSpace - atlasSide
        {
          MulMonotone(1, atlasSide, atlasSide);
          atlasSide := atlasSide * 2;
        }
        if atlasSide <= 1024 || count == 2 {
          break;
        }
        atlasSide := 1024;
        count := count / 2;
        if count == 0 {
          break;
        }
      }
      return (atlasSide, atlasSide);
    }

    /** `createAtlas()`: makes the first atlas, of the calculated size, when
        there is none. The source's null check after `create` cannot fail
        here, since `create` always returns an atlas. */
    method CreateAtlas() returns (created: bool)
      requires Valid()
      requires (maxCharWidth + 1) * (fontHeight + 1) * InitialGlyphCount <= S.IntMax
      modifies this
      ensures Valid() && created && atlas != null
      ensures old(atlas) != null ==> atlas == old(atlas) && glyphs == old(glyphs)
      ensures old(atlas) == null ==>
        fresh(atlas) && atlas.nodes == [] && atlas.regions == []
        && atlas.atlasWidth == atlas.atlasHeight
           == AtlasPlan(maxCharWidth + 1, fontHeight + 1, InitialGlyphCount, DefaultAtlasSide).0
    {
      if atlas == null {
        var size := CalculateAtlasSize();
        AtlasSideBounded(maxCharWidth + 1, fontHeight + 1);
        atlas := new FontTextureAtlas(size.0, size.1);
      }
      return true;
    }

    /** `glyph(glyphCode, errorCode)`: the cached metrics when present;
        otherwise renders the glyph, reserves a region one pixel larger
        than the bitmap each way, copies the bitmap to the region's corner,
        and caches and returns its metrics. A load error is passed on and
        a full atlas reported as `AtlasFullError`; neither caches anything. */
    method Glyph(glyphCode: int) returns (metrics: GlyphMetrics, errorCode: int)
      requires Valid() && atlas != null
      modifies this, atlas, atlas.backingStore
      ensures Valid() && atlas == old(atlas)
      ensures glyphCode in old(glyphs) ==>
        metrics == old(glyphs)[glyphCode] && errorCode == 0 && glyphs == old(glyphs)
        && atlas.nodes == old(atlas.nodes) && atlas.regions == old(atlas.regions)
      ensures glyphCode !in old(glyphs) && load(glyphCode).LoadFailed? ==>
        metrics == NoMetrics && errorCode == load(glyphCode).error && glyphs == old(glyphs)
        && atlas.nodes == old(atlas.nodes) && atlas.regions == old(atlas.regions)
      ensures glyphCode !in old(glyphs) && load(glyphCode).Rendered? ==>
        var b := load(glyphCode).bitmap;
        AllocationTurn(b, old(atlas.nodes), atlas.nodes, atlas.atlasWidth, atlas.atlasHeight, errorCode == AtlasFullError)
        && ((errorCode == AtlasFullError && metrics == NoMetrics && glyphs == old(glyphs)
         && atlas.regions == old(atlas.regions))
        || (errorCode == 0
            && metrics == MetricsFor(b, metrics.location.0, metrics.location.1, atlas.atlasWidth, atlas.atlasHeight)
            && glyphs == old(glyphs)[glyphCode := metrics]
            && atlas.regions == old(atlas.regions) + [ReservedRect(metrics)]
            && forall a :: 0 <= a < |old(atlas.regions)| ==> Disjoint(old(atlas.regions)[a], ReservedRect(metrics))))
    {
      errorCode := 0;
      if glyphCode in glyphs {
        return glyphs[glyphCode], 0;
      }
      var loaded := load(glyphCode);
      assert SoundLoad(loaded);
      if loaded.LoadFailed? {
        return NoMetrics, loaded.error;
      }
      metrics, errorCode := PlaceGlyph(glyphCode);
    }

    /** The cache miss of `glyph` once FreeType rendered the bitmap. */
    method PlaceGlyph(glyphCode: int) returns (metrics: GlyphMetrics, errorCode: int)
      requires Valid() && atlas != null && glyphCode !in glyphs && load(glyphCode).Rendered?
      modifies this, atlas, atlas.backingStore
      ensures Valid() && atlas == old(atlas)
      ensures AllocationTurn(load(glyphCode).bitmap, old(atlas.nodes), atlas.nodes, atlas.atlasWidth, atlas.atlasHeight,
                             errorCode == AtlasFullError)
      ensures var b := load(glyphCode).bitmap;
        (errorCode == AtlasFullError && metrics == NoMetrics && glyphs == old(glyphs)
         && atlas.regions == old(atlas.regions))
        || (errorCode == 0
            && metrics == MetricsFor(b, metrics.location.0, metrics.location.1, atlas.atlasWidth, atlas.atlasHeight)
            && glyphs == old(glyphs)[glyphCode := metrics]
            && atlas.regions == old(atlas.regions) + [ReservedRect(metrics)]
            && forall a :: 0 <= a < |old(atlas.regions)| ==> Disjoint(old(atlas.regions)[a], ReservedRect(metrics)))
    {
      var b := load(glyphCode).bitmap;
      assert SoundLoad(load(glyphCode));
      ghost var before := atlas.nodes;
      var reserved := atlas.Region(b.width + 1, b.rows + 1);
      TurnOfRegion(b, before, atlas.nodes, atlas.atlasWidth, atlas.atlasHeight, reserved);
      if reserved.x < 0 {
        return NoMetrics, AtlasFullError;
      }
      var region := IntRect(reserved.x, reserved.y, b.width, b.rows);
      atlas.CopyGlyphBitmapToRegion(region, b.buffer, b.pitch, 1);
      metrics := MetricsFor(b, region.x, region.y, atlas.atlasWidth, atlas.atlasHeight);
      assert ReservedRect(metrics) == reserved && GlyphRect(metrics) == region;
      glyphs := glyphs[glyphCode := metrics];
      errorCode := 0;
    }

    /** One `glyph(iterator->key, errorCode)` of `expandAtlas`, for a code
        that was rendered before: it is cached again, unless the atlas is
        full, and nothing else enters the cache. */
    method RequestAgain(code: int) returns (cached: bool)
      requires Valid() && atlas != null && code !in glyphs && load(code).Rendered?
      modifies this, atlas, atlas.backingStore
      ensures Valid() && atlas == old(atlas)
      ensures AllocationTurn(load(code).bitmap, old(atlas.nodes), atlas.nodes, atlas.atlasWidth, atlas.atlasHeight, !cached)
      ensures glyphs.Keys == if cached then old(glyphs).Keys + {code} else old(glyphs).Keys
    {
      var _, errorCode := Glyph(code);
      cached := errorCode == 0;
    }

    /** `expandAtlas()`: replaces the atlas by one of the expanded size and
        re-requests every glyph that was cached, one code after another in
        the order `order` (a hash-map iteration order the model leaves
        open); false when the atlas is already at its maximum size. Request
        `i` turns the new atlas's node list `trail[i]` into `trail[i + 1]`,
        and its code is `refused` exactly when no node had room for it at
        that turn; every other code that was cached is cached again. */
    method ExpandAtlas() returns (expanded: bool, ghost order: seq<int>, ghost trail: seq<seq<IntRect>>,
                                  ghost refused: set<int>)
      requires Valid() && atlas != null
      modifies this
      ensures Valid() && atlas != null
      ensures var n := ExpandedSize(old(atlas.atlasWidth), old(atlas.atlasHeight));
        (expanded <==> n != (0, 0))
        && (!expanded ==> atlas == old(atlas) && glyphs == old(glyphs) && refused == {})
        && (expanded ==> fresh(atlas) && (atlas.atlasWidth, atlas.atlasHeight) == n
                         && refused <= old(glyphs).Keys && glyphs.Keys == old(glyphs).Keys - refused)
        && (expanded ==> Rebuilt(load, old(glyphs).Keys, order, trail, refused, n.0, n.1) && trail[|order|] == atlas.nodes)
    {
      order, trail, refused := [], [[]], {};
      var newSize := ExpandedSize(atlas.atlasWidth, atlas.atlasHeight);
      if newSize == (0, 0) {
        return false, order, trail, refused;
      }
      ExpandedSizeSpec(atlas.atlasWidth, atlas.atlasHeight);
      var oldKeys := glyphs.Keys;
      assert forall code :: code in oldKeys ==> load(code).Rendered?;
      atlas := new FontTextureAtlas(newSize.0, newSize.1);
      glyphs := map[];
      order, trail, refused := RequestAll(oldKeys);
      return true, order, trail, refused;
    }

    /** The re-request loop of `expandAtlas`, on the fresh atlas: every code
        of `codes` is requested once, and the rebuild is recorded. */
    method RequestAll(codes: set<int>) returns (ghost order: seq<int>, ghost trail: seq<seq<IntRect>>,
                                                ghost refused: set<int>)
      requires Valid() && atlas != null && atlas.nodes == [] && glyphs == map[]
      requires forall code :: code in codes ==> load(code).Rendered?
      modifies this, atlas, atlas.backingStore
      ensures Valid() && atlas == old(atlas)
      ensures refused <= codes && glyphs.Keys == codes - refused
      ensures Rebuilt(load, codes, order, trail, refused, atlas.atlasWidth, atlas.atlasHeight)
      ensures trail[|order|] == atlas.nodes
    {
      order, trail, refused := [], [[]], {};
      var pending := codes;
      while pending != {}
        invariant Valid() && atlas == old(atlas)
        invariant pending <= codes && refused <= codes - pending
        invariant glyphs.Keys == codes - pending - refused
        invariant Rebuilt(load, codes - pending, order, trail, refused, atlas.atlasWidth, atlas.atlasHeight)
        invariant trail[|order|] == atlas.nodes
        decreases pending
      {
        var code := AnyKey(pending);
        ghost var keys := glyphs.Keys;
        var cached := RequestAgain(code);
        RecacheStep(codes, pending, refused, keys, code, cached);
        RebuiltStep(load, codes - pending, order, trail, refused, atlas.atlasWidth, atlas.atlasHeight,
                    code, atlas.nodes, !cached);
        if !cached {
          refused := refused + {code};
        }
        order, trail := order + [code], trail + [atlas.nodes];
        pending := pending - {code};
      }
      assert codes - pending == codes;
    }
  }
}
