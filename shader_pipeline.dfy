/**
 * `ShaderPipelineTyGL` (ShaderPipelineTyGL.cpp): the 32-bit `ShaderHash`
 * that names a combination of shader pieces, the composition of those
 * pieces from the drawing state, the blend-function table of the composite
 * operators, and the 16-entry LRU `ShaderCache` of compiled programs.
 *
 * The cache's doubly linked recency list becomes `order`, the sequence of
 * item indexes from the head to the sentinel; the hash map becomes a Dafny
 * `map`. `glDeleteProgram` becomes the returned program id.
 */
module ShaderPipelineTyGL {
  import opened Wrappers
  import opened GraphicsTypes
  import opened PlatformContextTyGL

  // ---------------------------------------------------------------------
  // ShaderHash
  // ---------------------------------------------------------------------

  /** The union of `hash` with the bit fields blending:2, clipping:1,
      coloring:4 and primary:25, from the least significant bit up.
      Assigning to a bit field keeps only its low bits. */
  function PackShaderHash(blending: bv32, clipping: bv32, coloring: bv32, primary: bv32): bv32
  {
    (blending & 3) | ((clipping & 1) << 2) | ((coloring & 15) << 3) | ((primary & 0x1FF_FFFF) << 7)
  }

  function HashBlending(h: bv32): bv32 { h & 3 }
  function HashClipping(h: bv32): bv32 { (h >> 2) & 1 }
  function HashColoring(h: bv32): bv32 { (h >> 3) & 15 }
  function HashPrimary(h: bv32): bv32 { h >> 7 }

  /** Each field reads back what was stored in it, truncated to its width. */
  lemma HashFieldsReadBack(blending: bv32, clipping: bv32, coloring: bv32, primary: bv32)
    ensures HashBlending(PackShaderHash(blending, clipping, coloring, primary)) == blending & 3
    ensures HashClipping(PackShaderHash(blending, clipping, coloring, primary)) == clipping & 1
    ensures HashColoring(PackShaderHash(blending, clipping, coloring, primary)) == coloring & 15
    ensures HashPrimary(PackShaderHash(blending, clipping, coloring, primary)) == primary & 0x1FF_FFFF
  {
  }

  /** The four fields cover the whole 32-bit word: packing the fields of
      any hash gives that hash back. */
  lemma HashRepacks(h: bv32)
    ensures PackShaderHash(HashBlending(h), HashClipping(h), HashColoring(h), HashPrimary(h)) == h
  {
  }

  /** A hash is 0 exactly when every field is 0. */
  lemma HashZeroIff(blending: bv32, clipping: bv32, coloring: bv32, primary: bv32)
    ensures PackShaderHash(blending, clipping, coloring, primary) == 0 <==>
      (blending & 3 == 0 && clipping & 1 == 0 && coloring & 15 == 0 && primary & 0x1FF_FFFF == 0)
  {
    HashFieldsReadBack(blending, clipping, coloring, primary);
  }

  // ---------------------------------------------------------------------
  // Shader composition (the body of `beginAttributeAdding`)
  // ---------------------------------------------------------------------

  /** The programs a combined shader can be built from: the primary shader
      and the static secondary pieces. */
  datatype PieceId =
    | PrimaryPiece
    | AttributeSolidColorPiece
    | UniformSolidColorPiece
    | GradientPiece
    | FastPatternPiece
    | TransformedPatternPiece
    | ClipPiece
    | BasicBlendPiece
    | ComplexBlendPiece
    | NonseparableBlendPiece

  /** `compositeOperator == CompositeDifference ? BlendModeDifference : blendMode`. */
  function EffectiveBlendMode(op: CompositeOperator, mode: BlendMode): BlendMode
  {
    if op == CompositeDifference then BlendModeDifference else mode
  }

  /** The blend piece the switch on the effective blend mode adds, if any. */
  function BlendPiece(op: CompositeOperator, mode: BlendMode): Option<PieceId>
  {
    match EffectiveBlendMode(op, mode)
    case BlendModeNormal => None
    case BlendModeMultiply => Some(BasicBlendPiece)
    case BlendModeScreen => Some(BasicBlendPiece)
    case BlendModeDarken => Some(BasicBlendPiece)
    case BlendModeLighten => Some(BasicBlendPiece)
    case BlendModeDifference => Some(BasicBlendPiece)
    case BlendModeExclusion => Some(BasicBlendPiece)
    case BlendModeOverlay => Some(ComplexBlendPiece)
    case BlendModeColorDodge => Some(ComplexBlendPiece)
    case BlendModeColorBurn => Some(ComplexBlendPiece)
    case BlendModeHardLight => Some(ComplexBlendPiece)
    case BlendModeSoftLight => Some(ComplexBlendPiece)
    case BlendModeHue => Some(NonseparableBlendPiece)
    case BlendModeSaturation => Some(NonseparableBlendPiece)
    case BlendModeColor => Some(NonseparableBlendPiece)
    case BlendModeLuminosity => Some(NonseparableBlendPiece)
  }

  /** A blend piece is added exactly when `flushBatchingQueue` and
      `endAttributeAdding` treat the draw as blended (a non-normal blend
      mode or the Difference operator), so the piece and the copy of the
      destination always come together. */
  lemma BlendPieceIffBlended(op: CompositeOperator, mode: BlendMode)
    ensures BlendPiece(op, mode).Some? <==> (mode != BlendModeNormal || op == CompositeDifference)
  {
  }

  /** The shader id a piece stores in its hash field. */
  function PieceHashId(p: PieceId): bv32
  {
    match p
    case PrimaryPiece => 0
    case AttributeSolidColorPiece => AttributeSolidColorShaderId
    case UniformSolidColorPiece => UniformSolidColorShaderId
    case GradientPiece => GradientShaderId
    case FastPatternPiece => FastPatternShaderId
    case TransformedPatternPiece => TransformedPatternShaderId
    case ClipPiece => ClipShaderId
    case BasicBlendPiece => BasicBlendShaderId
    case ComplexBlendPiece => ComplexBlendShaderId
    case NonseparableBlendPiece => NonseparableBlendShaderId
  }

  function OptionalPiece(p: Option<PieceId>): seq<PieceId>
  {
    if p.Some? then [p.value] else []
  }

  /** The colouring pieces, in the order the source adds them. */
  function ColoringPieces(kind: ColoringType, options: bv32, fastPattern: bool): seq<PieceId>
  {
    match kind
    case SolidColoring =>
      (if options & AttributeSolidColoringOption != 0 then [AttributeSolidColorPiece] else [])
      + (if options & UniformSolidColoringOption != 0 then [UniformSolidColorPiece] else [])
    case GradientColoring =>
      if options & ComplexFillOption != 0 then [GradientPiece] else []
    case PatternColoring =>
      if options & ComplexFillOption == 0 then []
      else if fastPattern then [FastPatternPiece] else [TransformedPatternPiece]
  }

  /** The value of `shaderHash.coloring` after the colouring branch: the
      last colouring piece added, or 0. */
  function ColoringHashId(kind: ColoringType, options: bv32, fastPattern: bool): bv32
  {
    match kind
    case SolidColoring =>
      if options & UniformSolidColoringOption != 0 then UniformSolidColorShaderId
      else if options & AttributeSolidColoringOption != 0 then AttributeSolidColorShaderId
      else NoSolidColorShaderId
    case GradientColoring =>
      if options & ComplexFillOption != 0 then GradientShaderId else NoSolidColorShaderId
    case PatternColoring =>
      if options & ComplexFillOption == 0 then NoSolidColorShaderId
      else if fastPattern then FastPatternShaderId else TransformedPatternShaderId
  }

  /** What the composition depends on: the primary shader's id and options,
      the coloring type, whether the fast pattern shader applies, whether a
      clip mask is set, and the composite operator and blend mode. */
  datatype CompositionInput = CompositionInput(
    primaryId: bv32,
    options: bv32,
    kind: ColoringType,
    fastPattern: bool,
    clipped: bool,
    op: CompositeOperator,
    mode: BlendMode)

  /** The primary shader asks for at most one of the two solid colourings
      (asserted before the colouring branch). */
  predicate SingleSolidColoring(options: bv32)
  {
    !(options & AttributeSolidColoringOption != 0 && options & UniformSolidColoringOption != 0)
  }

  /** `combinedShader[0 .. shaderProgramCount)`. */
  function ComposedPieces(c: CompositionInput): seq<PieceId>
  {
    [PrimaryPiece] + ColoringPieces(c.kind, c.options, c.fastPattern)
    + (if c.clipped then [ClipPiece] else []) + OptionalPiece(BlendPiece(c.op, c.mode))
  }

  /** `shaderHash.hash` once every field is set. */
  function ComposedHash(c: CompositionInput): bv32
  {
    PackShaderHash(
      BlendHashId(c.op, c.mode),
      if c.clipped then ClipShaderId else NoClipId,
      ColoringHashId(c.kind, c.options, c.fastPattern),
      c.primaryId)
  }

  /** The combined shader starts with the primary shader and has at most
      four pieces, within `kMaximumNumberOfShaderPieces`. */
  lemma ComposedPiecesFit(c: CompositionInput)
    requires SingleSolidColoring(c.options)
    ensures 1 <= |ComposedPieces(c)| <= 4 <= MaximumNumberOfShaderPieces
    ensures ComposedPieces(c)[0] == PrimaryPiece
    ensures forall i :: 1 <= i < |ComposedPieces(c)| ==> ComposedPieces(c)[i] != PrimaryPiece
  {
  }

  /** The colouring piece a `coloring` field value names. */
  function ColoringPieceOfId(id: bv32): seq<PieceId>
  {
    if id == AttributeSolidColorShaderId then [AttributeSolidColorPiece]
    else if id == UniformSolidColorShaderId then [UniformSolidColorPiece]
    else if id == GradientShaderId then [GradientPiece]
    else if id == FastPatternShaderId then [FastPatternPiece]
    else if id == TransformedPatternShaderId then [TransformedPatternPiece]
    else []
  }

  /** The blend piece a `blending` field value names. */
  function BlendPieceOfId(id: bv32): seq<PieceId>
  {
    if id == BasicBlendShaderId then [BasicBlendPiece]
    else if id == ComplexBlendShaderId then [ComplexBlendPiece]
    else if id == NonseparableBlendShaderId then [NonseparableBlendPiece]
    else []
  }

  /** The pieces a hash names, read from its fields alone. */
  function PiecesOfHash(h: bv32): seq<PieceId>
  {
    [PrimaryPiece] + ColoringPieceOfId(HashColoring(h))
    + (if HashClipping(h) == ClipShaderId then [ClipPiece] else []) + BlendPieceOfId(HashBlending(h))
  }

  /** The `blending` field value of a composition. */
  function BlendHashId(op: CompositeOperator, mode: BlendMode): bv32
  {
    if BlendPiece(op, mode).Some? then PieceHashId(BlendPiece(op, mode).value) else NoBlendId
  }

  /** Fields narrower than their bit field are stored unchanged. */
  lemma SmallFieldsReadBack(blending: bv32, clipping: bv32, coloring: bv32, primary: bv32)
    requires blending < 4 && clipping < 2 && coloring < 16 && primary < 0x200_0000
    ensures HashBlending(PackShaderHash(blending, clipping, coloring, primary)) == blending
    ensures HashClipping(PackShaderHash(blending, clipping, coloring, primary)) == clipping
    ensures HashColoring(PackShaderHash(blending, clipping, coloring, primary)) == coloring
    ensures HashPrimary(PackShaderHash(blending, clipping, coloring, primary)) == primary
  {
  }

  /** The colouring field names exactly the colouring pieces added. */
  lemma ColoringIdNamesPieces(kind: ColoringType, options: bv32, fastPattern: bool)
    requires SingleSolidColoring(options)
    ensures ColoringHashId(kind, options, fastPattern) < 16
    ensures ColoringPieceOfId(ColoringHashId(kind, options, fastPattern)) == ColoringPieces(kind, options, fastPattern)
  {
  }

  /** The blending field names exactly the blend piece added. */
  lemma BlendIdNamesPiece(op: CompositeOperator, mode: BlendMode)
    ensures BlendHashId(op, mode) < 4
    ensures BlendPieceOfId(BlendHashId(op, mode)) == OptionalPiece(BlendPiece(op, mode))
  {
  }

  /** The hash determines the pieces: decoding the composed hash gives the
      composed pieces back. */
  lemma HashNamesPieces(c: CompositionInput)
    requires SingleSolidColoring(c.options) && c.primaryId < 0x200_0000
    ensures PiecesOfHash(ComposedHash(c)) == ComposedPieces(c)
    ensures HashPrimary(ComposedHash(c)) == c.primaryId
  {
    var blend := BlendHashId(c.op, c.mode);
    var clip := if c.clipped then ClipShaderId else NoClipId;
    var coloring := ColoringHashId(c.kind, c.options, c.fastPattern);
    ColoringIdNamesPieces(c.kind, c.options, c.fastPattern);
    BlendIdNamesPiece(c.op, c.mode);
    assert clip < 2;
    SmallFieldsReadBack(blend, clip, coloring, c.primaryId);
  }

  /** So two draws whose hashes agree use the same piece list and the same
      primary shader id: a cached program is reused only for the very
      combination it was compiled from. */
  lemma SameHashSameShader(c1: CompositionInput, c2: CompositionInput)
    requires SingleSolidColoring(c1.options) && SingleSolidColoring(c2.options)
    requires c1.primaryId < 0x200_0000 && c2.primaryId < 0x200_0000
    requires ComposedHash(c1) == ComposedHash(c2)
    ensures ComposedPieces(c1) == ComposedPieces(c2) && c1.primaryId == c2.primaryId
  {
    HashNamesPieces(c1);
    HashNamesPieces(c2);
  }

  /** Every primary shader id is non-zero, so the cache is never asked for
      hash 0, the mark of an unused entry. */
  lemma ComposedHashNonzero(c: CompositionInput)
    requires 1 <= c.primaryId <= TransformedImageShaderId
    ensures ComposedHash(c) != 0
  {
    var blend := BlendHashId(c.op, c.mode);
    var clip := if c.clipped then ClipShaderId else NoClipId;
    HashZeroIff(blend, clip, ColoringHashId(c.kind, c.options, c.fastPattern), c.primaryId);
    assert c.primaryId & 0x1FF_FFFF == c.primaryId;
  }

  // ---------------------------------------------------------------------
  // Composite operators and GL blend functions
  // ---------------------------------------------------------------------

  /** The GL blend factors the table uses. */
  datatype BlendFactor = Zero | One | SrcAlpha | OneMinusSrcAlpha | DstAlpha | OneMinusDstAlpha

  /** The `glBlendFunc(source, destination)` pair `flushBatchingQueue`
      chooses. Clear is not implemented and falls through to source-over;
      PlusDarker and Difference reach `ASSERT_NOT_REACHED` and set nothing. */
  function CompositeBlendFunction(op: CompositeOperator): Option<(BlendFactor, BlendFactor)>
  {
    match op
    case CompositeCopy => Some((One, Zero))
    case CompositeClear => Some((One, OneMinusSrcAlpha))
    case CompositeSourceOver => Some((One, OneMinusSrcAlpha))
    case CompositeSourceIn => Some((DstAlpha, Zero))
    case CompositeSourceOut => Some((OneMinusDstAlpha, Zero))
    case CompositeSourceAtop => Some((DstAlpha, OneMinusSrcAlpha))
    case CompositeDestinationOver => Some((OneMinusDstAlpha, One))
    case CompositeDestinationIn => Some((Zero, SrcAlpha))
    case CompositeDestinationOut => Some((Zero, OneMinusSrcAlpha))
    case CompositeDestinationAtop => Some((OneMinusDstAlpha, SrcAlpha))
    case CompositeXOR => Some((OneMinusDstAlpha, OneMinusSrcAlpha))
    case CompositePlusLighter => Some((One, One))
    case CompositePlusDarker => None
    case CompositeDifference => None
  }

  /**
   * The Porter-Duff description of an operator by the regions of the
   * picture it keeps: the source where the destination is absent, the
   * destination where the source is absent, and, where both are present,
   * the source, the destination, or (for plus-lighter) both added.
   */
  datatype Regions = Regions(sourceAlone: bool, destinationAlone: bool, sourceInBoth: bool, destinationInBoth: bool)

  /** The Porter-Duff regions of each operator, independent of GL. */
  function PorterDuffRegions(op: CompositeOperator): Option<Regions>
  {
    match op
    case CompositeClear => Some(Regions(false, false, false, false))
    case CompositeCopy => Some(Regions(true, false, true, false))
    case CompositeSourceOver => Some(Regions(true, true, true, false))
    case CompositeSourceIn => Some(Regions(false, false, true, false))
    case CompositeSourceOut => Some(Regions(true, false, false, false))
    case CompositeSourceAtop => Some(Regions(false, true, true, false))
    case CompositeDestinationOver => Some(Regions(true, true, false, true))
    case CompositeDestinationIn => Some(Regions(false, false, false, true))
    case CompositeDestinationOut => Some(Regions(false, true, false, false))
    case CompositeDestinationAtop => Some(Regions(true, false, false, true))
    case CompositeXOR => Some(Regions(true, true, false, false))
    case CompositePlusLighter => Some(Regions(true, true, true, true))
    case CompositePlusDarker => None
    case CompositeDifference => None
  }

  /** A colour's factor on premultiplied input: kept alone it is weighted by
      the other colour's absence, kept in the overlap by its presence. */
  function RegionFactor(alone: bool, inBoth: bool, otherAlpha: BlendFactor, otherAbsence: BlendFactor): BlendFactor
  {
    if alone && inBoth then One else if alone then otherAbsence else if inBoth then otherAlpha else Zero
  }

  function FactorsOfRegions(r: Regions): (BlendFactor, BlendFactor)
  {
    (RegionFactor(r.sourceAlone, r.sourceInBoth, DstAlpha, OneMinusDstAlpha),
     RegionFactor(r.destinationAlone, r.destinationInBoth, SrcAlpha, OneMinusSrcAlpha))
  }

  /** The table agrees with the Porter-Duff factors for every operator it
      implements; Clear instead gets source-over's pair. */
  lemma BlendTableIsPorterDuff(op: CompositeOperator)
    ensures op != CompositeClear ==>
      CompositeBlendFunction(op) == (if PorterDuffRegions(op).Some? then Some(FactorsOfRegions(PorterDuffRegions(op).value)) else None)
    ensures CompositeBlendFunction(CompositeClear) == CompositeBlendFunction(CompositeSourceOver)
    ensures CompositeBlendFunction(op).None? <==> op == CompositePlusDarker || op == CompositeDifference
  {
  }

  // ---------------------------------------------------------------------
  // ShaderCache
  // ---------------------------------------------------------------------

  const MaximumCachedShaders := 16

  /** A cache entry's compiled descriptor and its attribute count. */
  class ShaderData {
    const shaderData: array<int>
    var numberOfAttributes: nat

    /** A zero-initialised entry, as in the function-local static cache. */
    constructor ()
      ensures fresh(shaderData) && shaderData.Length == MaximumShaderDescriptorLength
      ensures forall i :: 0 <= i < shaderData.Length ==> shaderData[i] == 0
      ensures numberOfAttributes == 0
    {
      shaderData := new int[MaximumShaderDescriptorLength](_ => 0);
      numberOfAttributes := 0;
    }

    /** `isCompiled()`: slot 0 holds a program. */
    predicate IsCompiled()
      reads shaderData
    {
      shaderData.Length > 0 && shaderData[0] != 0
    }
  }

  /** A recency order of the 17 items: distinct item indexes, with the
      sentinel (item 16) last. */
  ghost predicate OrderValid(order: seq<nat>)
  {
    && |order| == MaximumCachedShaders + 1
    && order[MaximumCachedShaders] == MaximumCachedShaders
    && (forall i :: 0 <= i < |order| ==> order[i] <= MaximumCachedShaders)
    && (forall i, j :: 0 <= i < j < |order| ==> order[i] != order[j])
    && (forall k :: 0 <= k <= MaximumCachedShaders ==> k in order)
  }

  /** `moveToFront`: the item at position p goes to the head, the items
      before it move back by one, the rest stay. */
  function MoveToFront(order: seq<nat>, p: nat): (r: seq<nat>)
    requires p < |order|
  {
    [order[p]] + order[..p] + order[p + 1..]
  }

  /** Where the item at position j is after the move. */
  function MovedTo(p: nat, j: nat): nat
  {
    if j == p then 0 else if j < p then j + 1 else j
  }

  /** Where position i of the moved order was before the move. */
  function MovedFrom(p: nat, i: nat): nat
  {
    if i == 0 then p else if i <= p then i - 1 else i
  }

  /** Every position of the moved order holds the item from `MovedFrom`. */
  lemma MoveToFrontAt(order: seq<nat>, p: nat)
    requires p < |order|
    ensures |MoveToFront(order, p)| == |order|
    ensures forall i :: 0 <= i < |order| ==> MoveToFront(order, p)[i] == order[MovedFrom(p, i)]
  {
    var r := MoveToFront(order, p);
    forall i | 0 <= i < |order|
      ensures r[i] == order[MovedFrom(p, i)]
    {
      if i == 0 {
      } else if i <= p {
        assert r[i] == order[..p][i - 1];
      } else {
        assert r[i] == order[p + 1..][i - p - 1];
      }
    }
  }

  /** Moving an item other than the sentinel to the front keeps the order
      valid, puts the item at the head, and is the identity at the head. */
  lemma {:induction false} MoveToFrontKeepsOrder(order: seq<nat>, p: nat)
    requires OrderValid(order) && p < MaximumCachedShaders
    ensures OrderValid(MoveToFront(order, p))
    ensures MoveToFront(order, p)[0] == order[p]
    ensures p == 0 ==> MoveToFront(order, p) == order
  {
    MoveToFrontAt(order, p);
    var r := MoveToFront(order, p);
    forall i, j | 0 <= i < j < |r|
      ensures r[i] != r[j]
    {
      assert MovedFrom(p, i) != MovedFrom(p, j);
    }
    forall k | 0 <= k <= MaximumCachedShaders
      ensures k in r
    {
      assert k in order;
      var j :| 0 <= j < |order| && order[j] == k;
      assert r[MovedTo(p, j)] == k;
    }
    if p == 0 {
      assert r == [order[0]] + order[1..];
    }
  }

  /** The position of an item in the order. */
  function IndexOf(order: seq<nat>, item: nat): (p: nat)
    requires item in order
    ensures p < |order| && order[p] == item
    ensures forall q :: 0 <= q < p ==> order[q] != item
  {
    if order[0] == item then 0 else 1 + IndexOf(order[1..], item)
  }

  /** `programCache` maps every non-zero hash stored in a program item to
      that item, and nothing else. */
  ghost predicate MapConsistent(hashes: seq<int>, programCache: map<int, nat>)
    requires |hashes| == MaximumCachedShaders + 1
  {
    && (forall h :: h in programCache ==>
          h != 0 && programCache[h] < MaximumCachedShaders && hashes[programCache[h]] == h)
    && (forall k :: 0 <= k < MaximumCachedShaders && hashes[k] != 0 ==>
          hashes[k] in programCache && programCache[hashes[k]] == k)
  }

  /** Rebinding a program item to a new, unmapped hash keeps the map
      consistent once the item's old hash is unmapped. */
  lemma RemapKeepsConsistent(hashes: seq<int>, programCache: map<int, nat>, slot: nat, hash: int)
    requires |hashes| == MaximumCachedShaders + 1 && MapConsistent(hashes, programCache)
    requires slot < MaximumCachedShaders && hash != 0 && hash !in programCache
    ensures MapConsistent(hashes[slot := hash], (programCache - {hashes[slot]})[hash := slot])
  {
    var newHashes, newProgramCache := hashes[slot := hash], (programCache - {hashes[slot]})[hash := slot];
    forall h | h in newProgramCache
      ensures h != 0 && newProgramCache[h] < MaximumCachedShaders && newHashes[newProgramCache[h]] == h
    {
      if h != hash {
        assert h in programCache && h != hashes[slot];
        assert programCache[h] != slot;
      }
    }
    forall k | 0 <= k < MaximumCachedShaders && newHashes[k] != 0
      ensures newHashes[k] in newProgramCache && newProgramCache[newHashes[k]] == k
    {
      if k != slot {
        assert hashes[k] in programCache && programCache[hashes[k]] == k;
        assert hashes[k] != hash;
        assert hashes[k] != hashes[slot];
      }
    }
  }

  /** The hashes stored in the first n items. */
  ghost function StoredHashes(hashes: seq<int>, n: nat): set<int>
    requires n <= |hashes|
  {
    if n == 0 then {} else StoredHashes(hashes, n - 1) + {hashes[n - 1]}
  }

  lemma {:induction false} StoredHashesHave(hashes: seq<int>, n: nat, k: nat)
    requires k < n <= |hashes|
    ensures hashes[k] in StoredHashes(hashes, n)
  {
    if k < n - 1 {
      StoredHashesHave(hashes, n - 1, k);
    }
  }

  lemma {:induction false} StoredHashesCount(hashes: seq<int>, n: nat)
    requires n <= |hashes|
    ensures |StoredHashes(hashes, n)| <= n
  {
    if n > 0 {
      StoredHashesCount(hashes, n - 1);
    }
  }

  lemma SubsetCount<T>(a: set<T>, b: set<T>)
    requires a <= b
    ensures |a| <= |b|
  {
    assert b == a + (b - a);
  }

  /**
   * `ShaderCache`: items 0-15 hold programs, item 16 is the sentinel at
   * the tail of the recency list. `programCache` maps each non-zero hash
   * stored in an item to that item.
   */
  class ShaderCache {
    const items: seq<ShaderData>
    var hashes: seq<int>
    var order: seq<nat>
    var programCache: map<int, nat>

    /** The items and their descriptors, as sets. */
    ghost const ItemSet: set<ShaderData>
    ghost const Arrays: set<array<int>>

    ghost predicate Valid()
      reads this
    {
      && |items| == MaximumCachedShaders + 1 && |hashes| == MaximumCachedShaders + 1
      && (forall i :: 0 <= i < |items| ==> items[i].shaderData.Length == MaximumShaderDescriptorLength)
      && (forall i :: 0 <= i < |items| ==> items[i] in ItemSet && items[i].shaderData in Arrays)
      && (forall i, j :: 0 <= i < j < |items| ==> items[i] != items[j] && items[i].shaderData != items[j].shaderData)
      && OrderValid(order)
      && hashes[MaximumCachedShaders] == 0
      && MapConsistent(hashes, programCache)
    }

    /** `ShaderCache()`: items linked 0, 1, ..., 16 from the head, every
        hash 0 and no program compiled. */
    constructor ()
      ensures Valid() && fresh(ItemSet) && fresh(Arrays)
      ensures order == seq(MaximumCachedShaders + 1, i => i)
      ensures hashes == seq(MaximumCachedShaders + 1, i => 0) && programCache == map[]
      ensures forall i :: 0 <= i < |items| ==> !items[i].IsCompiled() && items[i].numberOfAttributes == 0
    {
      var created: seq<ShaderData> := [];
      ghost var itemSet: set<ShaderData> := {};
      ghost var arrays: set<array<int>> := {};
      while |created| < MaximumCachedShaders + 1
        invariant |created| <= MaximumCachedShaders + 1
        invariant (forall o :: o in itemSet ==> fresh(o)) && (forall o :: o in arrays ==> fresh(o))
        invariant forall i :: 0 <= i < |created| ==> created[i] in itemSet && created[i].shaderData in arrays
        invariant forall i :: 0 <= i < |created| ==>
          fresh(created[i]) && fresh(created[i].shaderData)
          && created[i].shaderData.Length == MaximumShaderDescriptorLength
          && created[i].shaderData[0] == 0 && created[i].numberOfAttributes == 0
        invariant forall i, j :: 0 <= i < j < |created| ==>
          created[i] != created[j] && created[i].shaderData != created[j].shaderData
      {
        var d := new ShaderData();
        created := created + [d];
        itemSet := itemSet + {d};
        arrays := arrays + {d.shaderData};
      }
      var initial: seq<nat> := seq(MaximumCachedShaders + 1, i => i);
      forall k | 0 <= k <= MaximumCachedShaders
        ensures k in initial
      {
        assert initial[k] == k;
      }
      items := created;
      ItemSet := itemSet;
      Arrays := arrays;
      hashes := seq(MaximumCachedShaders + 1, i => 0);
      order := initial;
      programCache := map[];
    }

    /** At most 16 hashes are mapped: the keys are hashes of distinct
        program items. */
    lemma CachedHashesBounded()
      requires Valid()
      ensures |programCache| <= MaximumCachedShaders
    {
      forall h | h in programCache
        ensures h in StoredHashes(hashes, MaximumCachedShaders)
      {
        StoredHashesHave(hashes, MaximumCachedShaders, programCache[h]);
      }
      StoredHashesCount(hashes, MaximumCachedShaders);
      SubsetCount(programCache.Keys, StoredHashes(hashes, MaximumCachedShaders));
    }

    /** The item before the sentinel is a program item. */
    lemma LeastRecentIsProgramItem()
      requires Valid()
      ensures order[MaximumCachedShaders - 1] < MaximumCachedShaders
    {
    }

    /**
     * `operator[](hash)`: a hit returns the mapped item; a miss takes the
     * least recently used item, deletes its program if compiled, unmaps its
     * old hash, maps the new one and marks the item uncompiled. Either way
     * the item moves to the front. `deleted` is the program passed to
     * `glDeleteProgram`.
     */
    method Get(hash: int) returns (slot: nat, deleted: Option<int>)
      requires Valid() && hash != 0
      modifies this`hashes, this`order, this`programCache, items[order[MaximumCachedShaders - 1]].shaderData
      ensures Valid() && slot < MaximumCachedShaders && hashes[slot] == hash && order[0] == slot
      ensures hash in programCache && programCache[hash] == slot && slot in old(order)
      ensures old(hash in programCache) ==>
        && slot == old(programCache[hash]) && deleted == None
        && hashes == old(hashes) && programCache == old(programCache)
        && order == MoveToFront(old(order), IndexOf(old(order), slot))
        && items[old(order[MaximumCachedShaders - 1])].shaderData[..] == old(items[order[MaximumCachedShaders - 1]].shaderData[..])
      ensures old(hash !in programCache) ==>
        && slot == old(order[MaximumCachedShaders - 1])
        && deleted == (if old(items[slot].shaderData[0]) != 0 then Some(old(items[slot].shaderData[0])) else None)
        && hashes == old(hashes)[slot := hash]
        && programCache == (old(programCache) - {old(hashes[slot])})[hash := slot]
        && order == MoveToFront(old(order), MaximumCachedShaders - 1)
        && items[slot].shaderData[..] == old(items[slot].shaderData[..])[0 := 0]
    {
      if hash in programCache {
        slot := programCache[hash];
        deleted := None;
      } else {
        slot := order[MaximumCachedShaders - 1];
        var data := items[slot].shaderData;
        deleted := if data[0] != 0 then Some(data[0]) else None;
        Remap(slot, hash);
        data[0] := 0;
      }
      LeastRecentIsProgramItem();
      MoveItemToFront(slot);
    }

    /** `moveToFront(item)` on a program item. */
    method MoveItemToFront(slot: nat)
      requires Valid() && slot < MaximumCachedShaders
      modifies this`order
      ensures Valid() && order[0] == slot && slot in old(order)
      ensures order == MoveToFront(old(order), IndexOf(old(order), slot))
      ensures slot == old(order[MaximumCachedShaders - 1]) ==> order == MoveToFront(old(order), MaximumCachedShaders - 1)
    {
      assert slot in order;
      var p := IndexOf(order, slot);
      MovePosition(slot, p);
      MoveToFrontKeepsOrder(order, p);
      order := MoveToFront(order, p);
    }

    /** A program item sits before the sentinel. */
    lemma MovePosition(slot: nat, p: nat)
      requires Valid() && slot < MaximumCachedShaders && p < |order| && order[p] == slot
      ensures p < MaximumCachedShaders
    {
    }

    /** On a miss: the slot's old hash is unmapped and the new hash mapped to it. */
    method Remap(slot: nat, hash: int)
      requires Valid() && slot < MaximumCachedShaders && hash != 0 && hash !in programCache
      modifies this`hashes, this`programCache
      ensures Valid()
      ensures hashes == old(hashes)[slot := hash]
      ensures programCache == (old(programCache) - {old(hashes[slot])})[hash := slot]
    {
      RemapKeepsConsistent(hashes, programCache, slot, hash);
      programCache := (programCache - {hashes[slot]})[hash := slot];
      hashes := hashes[slot := hash];
    }
  }
}
