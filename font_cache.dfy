/**
 * `FontCache.h`: `FontDescriptionFontDataCacheKey`, the key under which
 * platform font data is cached. It packs the font description's size,
 * weight and five small enumerations into three `unsigned` words.
 *
 * `FontDescription` itself is not part of this model: it is reduced to the
 * seven values the key reads, each already converted to `unsigned`
 * (`bv32`, so that shifts drop high bits as they do in C++).
 */
module FontCacheKey {
  /** The parts of a `FontDescription` that the key reads. */
  datatype FontDescription = FontDescription(
    computedPixelSize: bv32, weight: bv32,
    widthVariant: bv32, nonCJKGlyphOrientation: bv32, orientation: bv32,
    italic: bv32, renderingMode: bv32)

  /** `FontDescriptionFontDataCacheKey`. */
  datatype FontDataCacheKey = FontDataCacheKey(size: bv32, weight: bv32, flags: bv32)

  /** The explicit constructor: the given size, weight and flags zero. */
  function DefaultKey(size: bv32): (k: FontDataCacheKey)
    ensures k.size == size && k.weight == 0 && k.flags == 0
  {
    FontDataCacheKey(size, 0, 0)
  }

  /** The description's flag fields fit the bits the key gives them: the
      four one-bit fields are 0 or 1 and the width variant fits in 28 bits. */
  predicate FlagsFit(d: FontDescription)
  {
    d.nonCJKGlyphOrientation <= 1 && d.orientation <= 1 && d.italic <= 1 && d.renderingMode <= 1 &&
    d.widthVariant < 0x1000_0000
  }

  /** `makeFlagKey`: width variant above bit 4, then one bit each for the
      non-CJK glyph orientation, the orientation, italic and the rendering
      mode; when the fields fit, each can be read back out of the key. */
  function MakeFlagKey(d: FontDescription): (flags: bv32)
    ensures FlagsFit(d) ==>
      flags >> 4 == d.widthVariant && (flags >> 3) & 1 == d.nonCJKGlyphOrientation &&
      (flags >> 2) & 1 == d.orientation && (flags >> 1) & 1 == d.italic && flags & 1 == d.renderingMode
  {
    (d.widthVariant << 4) | (d.nonCJKGlyphOrientation << 3) | (d.orientation << 2) | (d.italic << 1) | d.renderingMode
  }

  /** The constructor from a description. */
  function KeyOf(d: FontDescription): (k: FontDataCacheKey)
    ensures k.size == d.computedPixelSize && k.weight == d.weight && k.flags == MakeFlagKey(d)
  {
    FontDataCacheKey(d.computedPixelSize, d.weight, MakeFlagKey(d))
  }

  /** So descriptions whose flag fields fit and differ in one of them get
      different flag keys. */
  lemma FlagKeyInjective(d: FontDescription, e: FontDescription)
    requires FlagsFit(d) && FlagsFit(e)
    requires MakeFlagKey(d) == MakeFlagKey(e)
    ensures d.widthVariant == e.widthVariant && d.nonCJKGlyphOrientation == e.nonCJKGlyphOrientation
    ensures d.orientation == e.orientation && d.italic == e.italic && d.renderingMode == e.renderingMode
  {
  }

  /** Outside those ranges the fields overlap: an italic value of 2 gives
      the same key as an orientation of 1. */
  lemma FlagKeyOverlapsOutsideBits()
    ensures MakeFlagKey(FontDescription(0, 0, 0, 0, 0, 2, 0)) == MakeFlagKey(FontDescription(0, 0, 0, 0, 1, 0, 0))
  {
  }

  /** `operator==`: size, weight and flags all agree, which is equality of
      the keys. */
  function Equal(a: FontDataCacheKey, b: FontDataCacheKey): (r: bool)
    ensures r <==> a == b
  {
    a.size == b.size && a.weight == b.weight && a.flags == b.flags
  }

  /** `operator!=`: the negation of `operator==`, so inequality of the keys. */
  function NotEqual(a: FontDataCacheKey, b: FontDataCacheKey): (r: bool)
    ensures r <==> a != b
  {
    !Equal(a, b)
  }

  /** Two descriptions with fitting flags get equal keys exactly when they
      agree on every field the key reads. */
  lemma KeysEqualIffFieldsAgree(d: FontDescription, e: FontDescription)
    requires FlagsFit(d) && FlagsFit(e)
    ensures Equal(KeyOf(d), KeyOf(e)) <==> d == e
  {
    if Equal(KeyOf(d), KeyOf(e)) {
      FlagKeyInjective(d, e);
    }
  }

  /** A default key equals a description's key only when the description
      has weight 0 and every flag field 0. */
  lemma DefaultKeyMatches(size: bv32, d: FontDescription)
    requires FlagsFit(d)
    ensures Equal(DefaultKey(size), KeyOf(d)) <==>
      d == FontDescription(size, 0, 0, 0, 0, 0, 0)
  {
  }
}
