/**
 * `Font.h`: the glyph metrics a font memoises. `widthForGlyph` and
 * `boundsForGlyph` look a glyph up in a per-font cache and only ask the
 * font's data when the cache has nothing known for it; the zero-width
 * space glyph short-circuits both.
 *
 * The metric sources (`SVGData::widthForSVGGlyph`, the OpenType vertical
 * advance, `platformWidthForGlyph`, `platformBoundsForGlyph`) are code this
 * model does not see; they are the functions of a `GlyphSource` the font is
 * built with. `GlyphMetricsMap.h` is not part of this model: a cache is a
 * map, and a glyph missing from it reads as the "unknown" metric (-1 for a
 * width, a rectangle of unknown width for bounds), as `metricsForGlyph`
 * answers there. Floats are `real`.
 */
module FontGlyphMetrics {
  import opened Wrappers

  /** `Glyph`: an unsigned 16-bit glyph index. */
  type Glyph = g: int | 0 <= g < 0x1_0000

  /** `cGlyphSizeUnknown`. */
  const GlyphSizeUnknown: real := -1.0

  datatype FloatRect = FloatRect(x: real, y: real, width: real, height: real)

  /** `FloatRect()`. */
  const EmptyRect := FloatRect(0.0, 0.0, 0.0, 0.0)

  /** What a bounds cache answers for a glyph it does not hold. */
  const UnknownBounds := FloatRect(0.0, 0.0, GlyphSizeUnknown, GlyphSizeUnknown)

  /** Where uncached metrics come from: the SVG font data (given the
      platform font size), the vertical-layout advance and the platform. */
  datatype GlyphSource = GlyphSource(
    svgWidth: (Glyph, real) -> real,
    verticalAdvance: Glyph -> real,
    platformWidth: Glyph -> real,
    platformBounds: Glyph -> FloatRect)

  class Font {
    const source: GlyphSource
    /** `isSVGFont()`: the font has `m_svgData`. */
    const hasSvgData: bool
    /** The font has `m_verticalData`. */
    const hasVerticalData: bool
    /** `platformData().size()`. */
    const platformSize: real
    /** `fontMetrics().unitsPerEm()`. */
    const unitsPerEm: nat
    var zeroWidthSpaceGlyph: Glyph
    var spaceWidth: real
    var adjustedSpaceWidth: real
    /** `m_glyphToWidthMap`. */
    var widthMap: map<Glyph, real>
    /** `m_glyphToBoundsMap`, created on first use. */
    var boundsMap: Option<map<Glyph, FloatRect>>

    /** The width the font's data gives a glyph: the SVG data first, then
        the vertical data, then the platform. */
    function SourceWidth(g: Glyph): real
    {
      if hasSvgData then source.svgWidth(g, platformSize)
      else if hasVerticalData then source.verticalAdvance(g)
      else source.platformWidth(g)
    }

    /** Every cached metric is the one the font's data gives. */
    ghost predicate Valid()
      reads this`widthMap, this`boundsMap
    {
      (forall g | g in widthMap :: widthMap[g] == SourceWidth(g)) &&
      (boundsMap.Some? ==> forall g | g in boundsMap.value :: boundsMap.value[g] == source.platformBounds(g))
    }

    /** A font with empty metric caches. */
    constructor (source: GlyphSource, hasSvgData: bool, hasVerticalData: bool, platformSize: real,
                 unitsPerEm: nat, zeroWidthSpaceGlyph: Glyph)
      ensures Valid()
      ensures this.source == source && this.hasSvgData == hasSvgData && this.hasVerticalData == hasVerticalData
      ensures this.platformSize == platformSize && this.unitsPerEm == unitsPerEm
      ensures this.zeroWidthSpaceGlyph == zeroWidthSpaceGlyph
      ensures widthMap == map[] && boundsMap == None && spaceWidth == 0.0 && adjustedSpaceWidth == 0.0
    {
      this.source := source;
      this.hasSvgData := hasSvgData;
      this.hasVerticalData := hasVerticalData;
      this.platformSize := platformSize;
      this.unitsPerEm := unitsPerEm;
      this.zeroWidthSpaceGlyph := zeroWidthSpaceGlyph;
      spaceWidth := 0.0;
      adjustedSpaceWidth := 0.0;
      widthMap := map[];
      boundsMap := None;
    }

    /** `isZeroWidthSpaceGlyph`: the stored zero-width space glyph, unless
        that is glyph 0. */
    function IsZeroWidthSpaceGlyph(g: Glyph): (r: bool)
      reads this`zeroWidthSpaceGlyph
      ensures r ==> g != 0
      ensures r <==> g == zeroWidthSpaceGlyph && zeroWidthSpaceGlyph != 0
    {
      g == zeroWidthSpaceGlyph && g != 0
    }

    /** `m_glyphToWidthMap.metricsForGlyph`. */
    function CachedWidth(g: Glyph): real
      reads this`widthMap
    {
      if g in widthMap then widthMap[g] else GlyphSizeUnknown
    }

    /** `widthForGlyph`: 0 for the zero-width space glyph; otherwise the
        width the font's data gives, taken from the cache when it holds a
        known width and stored there when it does not. */
    method WidthForGlyph(g: Glyph) returns (w: real)
      requires Valid()
      modifies this`widthMap
      ensures Valid()
      ensures w == if IsZeroWidthSpaceGlyph(g) then 0.0 else SourceWidth(g)
      ensures IsZeroWidthSpaceGlyph(g) || old(CachedWidth(g)) != GlyphSizeUnknown ==> widthMap == old(widthMap)
      ensures !IsZeroWidthSpaceGlyph(g) && old(CachedWidth(g)) == GlyphSizeUnknown ==> widthMap == old(widthMap)[g := w]
    {
      if IsZeroWidthSpaceGlyph(g) {
        return 0.0;
      }
      w := CachedWidth(g);
      if w != GlyphSizeUnknown {
        return w;
      }
      if hasSvgData {
        w := source.svgWidth(g, platformSize);
      } else if hasVerticalData {
        w := source.verticalAdvance(g);
      } else {
        w := source.platformWidth(g);
      }
      widthMap := widthMap[g := w];
    }

    /** `m_glyphToBoundsMap->metricsForGlyph`, when the map exists. */
    function CachedBounds(g: Glyph): FloatRect
      reads this`boundsMap
    {
      if boundsMap.Some? && g in boundsMap.value then boundsMap.value[g] else UnknownBounds
    }

    /** `boundsForGlyph`: the empty rectangle for the zero-width space
        glyph; otherwise the platform bounds, taken from the cache when it
        holds them with a known width and stored there (creating the map if
        there is none yet) when it does not. */
    method BoundsForGlyph(g: Glyph) returns (b: FloatRect)
      requires Valid()
      modifies this`boundsMap
      ensures Valid()
      ensures b == if IsZeroWidthSpaceGlyph(g) then EmptyRect else source.platformBounds(g)
      ensures IsZeroWidthSpaceGlyph(g) || old(CachedBounds(g)).width != GlyphSizeUnknown ==> boundsMap == old(boundsMap)
      ensures !IsZeroWidthSpaceGlyph(g) && old(CachedBounds(g)).width == GlyphSizeUnknown ==>
        boundsMap == Some((if old(boundsMap).Some? then old(boundsMap).value else map[])[g := b])
    {
      if IsZeroWidthSpaceGlyph(g) {
        return EmptyRect;
      }
      if boundsMap.Some? {
        b := CachedBounds(g);
        if b.width != GlyphSizeUnknown {
          return b;
        }
      }
      b := source.platformBounds(g);
      if boundsMap.None? {
        boundsMap := Some(map[]);
      }
      boundsMap := Some(boundsMap.value[g := b]);
    }

    /** `sizePerUnit`: the platform size per font unit, a font without
        `unitsPerEm` counting as one unit per em. */
    function SizePerUnit(): (r: real)
      ensures unitsPerEm == 0 ==> r == platformSize
      ensures unitsPerEm != 0 ==> r * unitsPerEm as real == platformSize
    {
      platformSize / (if unitsPerEm != 0 then unitsPerEm as real else 1.0)
    }

    /** `setSpaceWidths`: the space width and the adjusted one both become
        the given width. */
    method SetSpaceWidths(width: real)
      modifies this`spaceWidth, this`adjustedSpaceWidth
      ensures spaceWidth == width && adjustedSpaceWidth == width
    {
      spaceWidth := width;
      adjustedSpaceWidth := width;
    }
  }

  /** Asking twice for a glyph's width gives the same answer, and once the
      width is known the second call leaves the cache alone. */
  method WidthForGlyphTwice(font: Font, g: Glyph) returns (first: real, second: real)
    requires font.Valid()
    modifies font`widthMap
    ensures first == second
    ensures first != GlyphSizeUnknown ==> g in font.widthMap || font.IsZeroWidthSpaceGlyph(g)
  {
    first := font.WidthForGlyph(g);
    second := font.WidthForGlyph(g);
  }

  /** Likewise for bounds. */
  method BoundsForGlyphTwice(font: Font, g: Glyph) returns (first: FloatRect, second: FloatRect)
    requires font.Valid()
    modifies font`boundsMap
    ensures first == second
    ensures !font.IsZeroWidthSpaceGlyph(g) ==> font.boundsMap.Some? && g in font.boundsMap.value
  {
    first := font.BoundsForGlyph(g);
    second := font.BoundsForGlyph(g);
  }
}
