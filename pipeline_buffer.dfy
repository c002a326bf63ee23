/**
 * `PlatformContextTyGL::PipelineBuffer` (PlatformContextTyGL.h, with
 * `beginAttributeAdding` and `flushBatchingQueue` from
 * ShaderPipelineTyGL.cpp): the batch of quads that share one combined
 * shader. Attributes are written into one float buffer with a stride of
 * `numberOfAttributes` floats per vertex, four vertices per quad.
 *
 * `nextAttribute` is an offset into `attributes` instead of a pointer.
 * GL calls are left out: a flush returns the draw it would issue, and the
 * `beforeFlushAction` callback's answer is a parameter. Shader pieces,
 * images, gradients and patterns are referenced by value or identity.
 */
module PipelineBufferTyGL {
  import opened Wrappers
  import opened GraphicsTypes
  import opened IntMath
  import opened PlatformContextTyGL
  import opened ShaderPipelineTyGL
  import T = TransformTyGL

  // ---------------------------------------------------------------------
  // Strided attribute layout
  // ---------------------------------------------------------------------

  /** Where vertex k's attributes start: `nextAttribute + k * numberOfAttributes`. */
  function VertexStart(base: int, stride: int, k: int): int
  {
    base + k * stride
  }

  /** Vertex k holds the tuple `t` at its start. */
  ghost predicate VertexHolds(s: seq<real>, base: int, stride: int, k: int, t: seq<real>)
  {
    forall c :: 0 <= c < |t| ==>
      0 <= VertexStart(base, stride, k) + c < |s| && s[VertexStart(base, stride, k) + c] == t[c]
  }

  /** Index i lies in the `width`-float slot of one of the first `count` vertices. */
  predicate InSlots(i: int, base: int, stride: int, width: int, count: nat)
  {
    count > 0 &&
      (|| InSlots(i, base, stride, width, count - 1)
       || VertexStart(base, stride, count - 1) <= i < VertexStart(base, stride, count - 1) + width)
  }

  /** The slots of the four vertices of a quad, written out. */
  lemma InFourSlots(i: int, base: int, stride: int, width: int)
    ensures InSlots(i, base, stride, width, 4) <==>
      (|| base <= i < base + width
       || base + stride <= i < base + stride + width
       || base + 2 * stride <= i < base + 2 * stride + width
       || base + 3 * stride <= i < base + 3 * stride + width)
  {
    assert VertexStart(base, stride, 0) == base;
    assert VertexStart(base, stride, 1) == base + stride;
    assert VertexStart(base, stride, 2) == base + 2 * stride;
    assert VertexStart(base, stride, 3) == base + 3 * stride;
    assert !InSlots(i, base, stride, width, 0);
    assert InSlots(i, base, stride, width, 1) <==> base <= i < base + width;
    assert InSlots(i, base, stride, width, 2) <==> InSlots(i, base, stride, width, 1) || base + stride <= i < base + stride + width;
    assert InSlots(i, base, stride, width, 3) <==> InSlots(i, base, stride, width, 2) || base + 2 * stride <= i < base + 2 * stride + width;
  }

  /** Later vertices start at least a whole stride after earlier ones. */
  lemma VertexStartsApart(base: int, stride: int, k: int, i: int)
    requires 0 <= k < i && stride > 0
    ensures VertexStart(base, stride, k) + stride <= VertexStart(base, stride, i)
  {
    assert VertexStart(base, stride, i) - VertexStart(base, stride, k) == (i - k) * stride;
    MulAtLeast(stride, i - k);
  }

  /** `hasFreeSpace(neededSpace)`, on the batch's counters. */
  predicate FreeSpace(nextAttribute: int, numberOfAttributes: int, quadCount: int, neededSpace: int)
  {
    && nextAttribute + (numberOfAttributes * 4) * (neededSpace + 1) <= MaximumNumberOfAttributes
    && quadCount + neededSpace < MaximumNumberOfUshortQuads
  }

  /** Free space for a number of extra quads is free space for fewer. */
  lemma FreeSpaceForFewer(nextAttribute: int, numberOfAttributes: nat, quadCount: int, neededSpace: int, fewer: int)
    requires 0 <= fewer <= neededSpace && FreeSpace(nextAttribute, numberOfAttributes, quadCount, neededSpace)
    ensures FreeSpace(nextAttribute, numberOfAttributes, quadCount, fewer)
  {
    var q := numberOfAttributes * 4;
    assert q * (neededSpace + 1) - q * (fewer + 1) == q * (neededSpace - fewer);
    assert q * (neededSpace - fewer) >= 0;
  }

  /** `hasFreeSpace(n)` promises room for n + 1 quads: one quad takes the
      four vertices of `numberOfAttributes` floats and one quad slot, and
      leaves room for n more. */
  lemma FreeSpaceCountsQuads(nextAttribute: int, numberOfAttributes: nat, quadCount: int, neededSpace: int)
    requires neededSpace >= 1 && FreeSpace(nextAttribute, numberOfAttributes, quadCount, neededSpace)
    ensures FreeSpace(nextAttribute + numberOfAttributes * 4, numberOfAttributes, quadCount + 1, neededSpace - 1)
  {
    var q := numberOfAttributes * 4;
    assert q * (neededSpace + 1) == q * neededSpace + q;
  }

  /** With free space, every slot of the next quad lies inside the buffer. */
  lemma FreeSpaceCoversQuad(nextAttribute: int, numberOfAttributes: nat, quadCount: int, width: int)
    requires FreeSpace(nextAttribute, numberOfAttributes, quadCount, 0) && width <= numberOfAttributes
    ensures nextAttribute + 3 * numberOfAttributes + width <= MaximumNumberOfAttributes
  {
  }

  // ---------------------------------------------------------------------
  // Batching checks
  // ---------------------------------------------------------------------

  /** `BeforeFlushAction`: a callback (absent when null) and its data pointer. */
  datatype BeforeFlushAction = BeforeFlushAction(callback: Option<nat>, data: nat)

  /** `hasSameBeforeFlushAction`. The source asserts that two present
      callbacks are the same function; only the data is compared. */
  function HasSameBeforeFlushAction(current: BeforeFlushAction, next: Option<BeforeFlushAction>): bool
  {
    if current.callback.None? then next.None?
    else if next.None? then false
    else current.data == next.value.data
  }

  /** Without a current callback only a draw without one batches; with one,
      a draw without a callback never batches and one with a callback
      batches exactly when the data agree. */
  lemma BeforeFlushActionsBatch(current: BeforeFlushAction, next: BeforeFlushAction)
    ensures HasSameBeforeFlushAction(current, None) <==> current.callback.None?
    ensures current.callback.None? ==> !HasSameBeforeFlushAction(current, Some(next))
    ensures current.callback.Some? ==> (HasSameBeforeFlushAction(current, Some(next)) <==> current.data == next.data)
    ensures current.callback.Some? ==> HasSameBeforeFlushAction(current, Some(current))
  {
  }

  /** `hasSameColor`: the batched coloring still matches the context's
      current one. A solid colour only has to agree when the primary
      shader reads it from a uniform. */
  function HasSameColor(current: Coloring, batched: Coloring, primaryOptions: bv32): bool
  {
    if current.kind != batched.kind then false
    else match batched.kind
      case SolidColoring => primaryOptions & UniformSolidColoringOption == 0 || batched.color == current.color
      case GradientColoring => batched.gradient == current.gradient
      case PatternColoring => batched.pattern == current.pattern
  }

  /** A coloring always matches itself, and a uniform solid colour, a
      gradient or a pattern matches only the same colour or source. */
  lemma SameColorMeansSameSource(current: Coloring, batched: Coloring, options: bv32)
    ensures HasSameColor(current, current, options)
    ensures HasSameColor(current, batched, options) ==> current.kind == batched.kind
    ensures (&& HasSameColor(current, batched, options) && batched.kind == SolidColoring
             && options & UniformSolidColoringOption != 0) ==> batched.color == current.color
    ensures HasSameColor(current, batched, options) && batched.kind == GradientColoring ==> batched.gradient == current.gradient
    ensures HasSameColor(current, batched, options) && batched.kind == PatternColoring ==> batched.pattern == current.pattern
  {
  }

  // ---------------------------------------------------------------------
  // Shader pieces
  // ---------------------------------------------------------------------

  /** The static secondary shader programs (`s_attributeSolidColorShaderProgram`
      and the others); their GLSL is not part of this model. */
  datatype PieceLibrary = PieceLibrary(
    attributeSolidColor: ShaderProgram,
    uniformSolidColor: ShaderProgram,
    gradient: ShaderProgram,
    fastPattern: ShaderProgram,
    transformedPattern: ShaderProgram,
    clip: ShaderProgram,
    basicBlend: ShaderProgram,
    complexBlend: ShaderProgram,
    nonseparableBlend: ShaderProgram)

  function ProgramOf(library: PieceLibrary, primary: ShaderProgram, p: PieceId): ShaderProgram
  {
    match p
    case PrimaryPiece => primary
    case AttributeSolidColorPiece => library.attributeSolidColor
    case UniformSolidColorPiece => library.uniformSolidColor
    case GradientPiece => library.gradient
    case FastPatternPiece => library.fastPattern
    case TransformedPatternPiece => library.transformedPattern
    case ClipPiece => library.clip
    case BasicBlendPiece => library.basicBlend
    case ComplexBlendPiece => library.complexBlend
    case NonseparableBlendPiece => library.nonseparableBlend
  }

  /** `combinedShader`: the programs of the pieces, in order. */
  function ProgramsOf(library: PieceLibrary, primary: ShaderProgram, pieces: seq<PieceId>): (r: seq<ShaderProgram>)
    ensures |r| == |pieces|
    ensures forall i :: 0 <= i < |pieces| ==> r[i] == ProgramOf(library, primary, pieces[i])
  {
    if |pieces| == 0 then [] else ProgramsOf(library, primary, pieces[..|pieces| - 1]) + [ProgramOf(library, primary, pieces[|pieces| - 1])]
  }

  /** The combined shader's descriptor fits the 16 slots of a cache entry. */
  predicate DescriptorFits(programs: seq<ShaderProgram>)
  {
    1 <= |programs| <= MaximumNumberOfShaderPieces && BlockStart(programs, |programs|) < MaximumShaderDescriptorLength
  }

  /** The attribute components of one program's argument list. */
  function VariableAttributes(variables: seq<ShaderVariable>): nat
  {
    if |variables| == 0 then 0 else
      var last := variables[|variables| - 1];
      VariableAttributes(variables[..|variables| - 1]) + (if last.qualifier == Attribute then last.components else 0)
  }

  /** `numberOfAttributes` of a combined shader: the components of every
      attribute (`a_`) argument of every piece; uniforms take none. */
  function AttributeCount(programs: seq<ShaderProgram>): nat
  {
    if |programs| == 0 then 0
    else AttributeCount(programs[..|programs| - 1]) + VariableAttributes(programs[|programs| - 1].variables)
  }

  /** The count of a combined shader is the sum of its parts' counts. */
  lemma {:induction false} AttributeCountAppend(a: seq<ShaderProgram>, b: seq<ShaderProgram>)
    ensures AttributeCount(a + b) == AttributeCount(a) + AttributeCount(b)
    decreases |b|
  {
    if |b| > 0 {
      var b1 := b[..|b| - 1];
      assert (a + b)[..|a + b| - 1] == a + b1;
      AttributeCountAppend(a, b1);
    } else {
      assert a + b == a;
    }
  }

  /** A program whose arguments are all uniforms adds no attributes. */
  lemma {:induction false} UniformsAddNoAttributes(variables: seq<ShaderVariable>)
    requires forall i :: 0 <= i < |variables| ==> variables[i].qualifier == Uniform
    ensures VariableAttributes(variables) == 0
    decreases |variables|
  {
    if |variables| > 0 {
      UniformsAddNoAttributes(variables[..|variables| - 1]);
    }
  }

  /** The counting loops of `beginAttributeAdding`. */
  method CountAttributes(programs: seq<ShaderProgram>) returns (n: nat)
    ensures n == AttributeCount(programs)
  {
    n := 0;
    var shader := 0;
    while shader < |programs|
      invariant 0 <= shader <= |programs|
      invariant n == AttributeCount(programs[..shader])
    {
      var arguments := programs[shader].variables;
      var i := 0;
      while i < |arguments|
        invariant 0 <= i <= |arguments|
        invariant n == AttributeCount(programs[..shader]) + VariableAttributes(arguments[..i])
      {
        assert arguments[..i + 1][..i] == arguments[..i];
        if arguments[i].qualifier == Attribute {
          n := n + arguments[i].components;
        }
        i := i + 1;
      }
      assert arguments[..i] == arguments;
      assert programs[..shader + 1][..shader] == programs[..shader];
      shader := shader + 1;
    }
    assert programs[..shader] == programs;
  }

  // ---------------------------------------------------------------------
  // Flushing
  // ---------------------------------------------------------------------

  /** The primitive of the draw call: a strip for a single quad, indexed
      triangles from the quad index buffer otherwise. */
  datatype Primitive = TriangleStrip(vertices: nat) | Triangles(indices: nat)

  /** What a flush draws with: the program, whether the destination is
      copied for blending, the blend function (absent when the operator
      reaches `ASSERT_NOT_REACHED`) and the primitive. */
  datatype Draw = Draw(program: int, copiesDestination: bool, blendFunction: Option<(BlendFactor, BlendFactor)>, primitive: Primitive)

  /** A flush either does not happen, is cancelled by the before-flush
      callback, or draws. */
  datatype Flush = NoFlush | FlushCancelled | Flushed(draw: Draw)

  function DrawOf(program: int, op: CompositeOperator, mode: BlendMode, quadCount: nat): Draw
  {
    Draw(program, mode != BlendModeNormal || op == CompositeDifference, CompositeBlendFunction(op),
         if quadCount == 1 then TriangleStrip(4) else Triangles(quadCount * 6))
  }

  /** The flush of a batch: cancelled when a callback is set and refuses. */
  function FlushOutcome(action: BeforeFlushAction, callbackAccepts: bool, program: int,
                        op: CompositeOperator, mode: BlendMode, quadCount: nat): Flush
  {
    if action.callback.Some? && !callbackAccepts then FlushCancelled else Flushed(DrawOf(program, op, mode, quadCount))
  }

  /** A draw copies the destination exactly when its shader has a blend
      piece, and its indexed triangles stay inside the quad index buffer. */
  lemma DrawMatchesShader(program: int, op: CompositeOperator, mode: BlendMode, quadCount: nat)
    requires quadCount <= MaximumNumberOfUshortQuads
    ensures DrawOf(program, op, mode, quadCount).copiesDestination <==> BlendPiece(op, mode).Some?
    ensures DrawOf(program, op, mode, quadCount).primitive.Triangles? ==>
      DrawOf(program, op, mode, quadCount).primitive.indices <= MaximumNumberOfUshortQuads * 6
  {
    BlendPieceIffBlended(op, mode);
  }

  /**
   * The draw state a batch takes from its context in the slow path of
   * `beginAttributeAdding`: the `context`, `primaryShader`,
   * `primaryShaderImage`, `beforeFlushAction`, `coloring`, `gradient`,
   * `pattern`, `complexFillTransform`, `clipMaskImage`,
   * `compositeOperator`, `blendMode` and `paintRect` fields of
   * `PipelineBuffer`, grouped as one value.
   */
  datatype DrawState = DrawState(
    context: PlatformContext?,
    primaryShader: Option<ShaderProgram>,
    primaryShaderImage: Option<nat>,
    beforeFlushAction: BeforeFlushAction,
    coloring: Coloring,
    gradient: Option<nat>,
    pattern: Option<nat>,
    complexFillTransform: (T.Type, T.Matrix),
    clipMaskImage: Option<nat>,
    compositeOperator: CompositeOperator,
    blendMode: BlendMode,
    /** (x, y, width, height). */
    paintRect: (int, int, int, int))

  /** The draw state of `PipelineBuffer()`: no context and no callback. */
  const InitialDraw := DrawState(null, None, None, BeforeFlushAction(None, 0), DefaultColoring,
                                 None, None, (T.Move, T.Identity), None, CompositeSourceOver, BlendModeNormal, (0, 0, 0, 0))

  /** The composition input the slow path of `beginAttributeAdding` reads
      from the new context. The fast pattern shader also needs integer
      translations of the fill and pattern transforms (`patternAligned`). */
  function CompositionOf(state: TyGLState, current: Coloring, newPrimaryShader: ShaderProgram, patternAligned: bool): CompositionInput
  {
    CompositionInput(
      newPrimaryShader.shaderId, newPrimaryShader.options, current.kind,
      state.transformKind == T.Move && patternAligned,
      state.clipMaskImage.Some?, state.compositeOperator, state.blendMode)
  }

  /** What the fast path of `beginAttributeAdding` compares of the
      batched and the new composition, as written: everything but the
      pattern shader choice, with the new blend mode normal. */
  predicate BatchChecksAsWritten(batched: CompositionInput, next: CompositionInput)
  {
    && batched.primaryId == next.primaryId && batched.options == next.options
    && batched.kind == next.kind && batched.clipped == next.clipped && batched.op == next.op
    && next.mode == BlendModeNormal
  }

  /** The comparison with the batched blend mode normal too. */
  predicate BatchChecks(batched: CompositionInput, next: CompositionInput)
  {
    BatchChecksAsWritten(batched, next) && batched.mode == BlendModeNormal
  }

  /** As written, a batch begun with a blend mode takes a later draw with
      the normal mode, although the two draws need different shaders. */
  lemma AsWrittenBatchesAcrossBlendModes()
    ensures var batched := CompositionInput(RectShaderId, UniformSolidColoringOption, SolidColoring, false, false,
                                            CompositeSourceOver, BlendModeMultiply);
            var next := batched.(mode := BlendModeNormal);
            && BatchChecksAsWritten(batched, next)
            && ComposedPieces(batched) != ComposedPieces(next)
            && ComposedHash(batched) != ComposedHash(next)
  {
    var batched := CompositionInput(RectShaderId, UniformSolidColoringOption, SolidColoring, false, false,
                                    CompositeSourceOver, BlendModeMultiply);
    var next := batched.(mode := BlendModeNormal);
    assert ComposedPieces(batched)[|ComposedPieces(batched)| - 1] == BasicBlendPiece;
    assert |ComposedPieces(batched)| != |ComposedPieces(next)|;
    HashFieldsReadBack(BlendHashId(batched.op, batched.mode), NoClipId, UniformSolidColorShaderId, RectShaderId);
    HashFieldsReadBack(BlendHashId(next.op, next.mode), NoClipId, UniformSolidColorShaderId, RectShaderId);
  }

  /** With the batch's blend mode compared too, a draw that passes the
      checks needs the batched shader, unless it is a pattern whose
      alignment changed. */
  lemma BatchChecksKeepShader(batched: CompositionInput, next: CompositionInput)
    requires BatchChecks(batched, next)
    ensures SameShader(batched, next)
  {
  }

  /** Two compositions select the same shader, pieces and hash, unless they
      are patterns that differ in whether the fast pattern shader applies. */
  ghost predicate SameShader(batched: CompositionInput, next: CompositionInput)
  {
    (batched.kind == PatternColoring ==> batched.fastPattern == next.fastPattern) ==>
      ComposedPieces(batched) == ComposedPieces(next) && ComposedHash(batched) == ComposedHash(next)
  }

  /** The copies of the slow path: the context, its state and current
      colouring, the shader and image of the draw and its before-flush
      action, whose callback is cleared when none is given. A gradient or
      pattern replaces the batched one and brings the context's transform;
      otherwise both stay. */
  function StartedDraw(d: DrawState, newContext: PlatformContext, state: TyGLState, current: Coloring,
                       newPrimaryShader: ShaderProgram, newPrimaryShaderImage: Option<nat>,
                       newPaintRect: (int, int, int, int), newBeforeFlushAction: Option<BeforeFlushAction>): DrawState
  {
    DrawState(
      newContext, Some(newPrimaryShader), newPrimaryShaderImage,
      if newBeforeFlushAction.Some? then newBeforeFlushAction.value else d.beforeFlushAction.(callback := None),
      current,
      if current.kind == GradientColoring then current.gradient else d.gradient,
      if current.kind == PatternColoring then current.pattern else d.pattern,
      if current.kind != SolidColoring then (state.transformKind, state.transform) else d.complexFillTransform,
      state.clipMaskImage, state.compositeOperator, state.blendMode, newPaintRect)
  }

  /** A start does not depend on the context or clip mask of the draw it
      replaces, so a reset before it changes nothing. */
  lemma StartedDrawAfterReset(d: DrawState, newContext: PlatformContext, state: TyGLState, current: Coloring,
                              newPrimaryShader: ShaderProgram, newPrimaryShaderImage: Option<nat>,
                              newPaintRect: (int, int, int, int), newBeforeFlushAction: Option<BeforeFlushAction>)
    ensures StartedDraw(d.(context := null, clipMaskImage := None), newContext, state, current, newPrimaryShader,
                        newPrimaryShaderImage, newPaintRect, newBeforeFlushAction)
         == StartedDraw(d, newContext, state, current, newPrimaryShader, newPrimaryShaderImage, newPaintRect,
                        newBeforeFlushAction)
  {
  }

  /** The fast path: a draw with an attribute solid colour takes the
      context's current colour; the paint rectangle is the new one. */
  function ContinuedDraw(d: DrawState, current: Coloring, options: bv32, newPaintRect: (int, int, int, int)): DrawState
  {
    d.(coloring := if d.coloring.kind == SolidColoring && options & AttributeSolidColoringOption != 0
                   then ChangeColor(d.coloring, current.color) else d.coloring,
       paintRect := newPaintRect)
  }

  /** The checks of the fast path of `beginAttributeAdding` as written,
      apart from the free space: the same context, shader, image, clip mask
      and operator, a normal blend mode in the new context, the same
      before-flush action and colour. The batch's own blend mode is not
      compared. */
  predicate DrawContinuesAsWritten(d: DrawState, newContext: PlatformContext, state: TyGLState, current: Coloring,
                                   newPrimaryShader: ShaderProgram, newPrimaryShaderImage: Option<nat>,
                                   newBeforeFlushAction: Option<BeforeFlushAction>)
  {
    && d.context == newContext
    && d.primaryShader == Some(newPrimaryShader)
    && d.primaryShaderImage == newPrimaryShaderImage
    && d.clipMaskImage == state.clipMaskImage
    && d.compositeOperator == state.compositeOperator
    && state.blendMode == BlendModeNormal
    && HasSameBeforeFlushAction(d.beforeFlushAction, newBeforeFlushAction)
    && HasSameColor(current, d.coloring, newPrimaryShader.options)
  }

  /** The same checks with the batch's blend mode normal too. */
  predicate DrawContinues(d: DrawState, newContext: PlatformContext, state: TyGLState, current: Coloring,
                          newPrimaryShader: ShaderProgram, newPrimaryShaderImage: Option<nat>,
                          newBeforeFlushAction: Option<BeforeFlushAction>)
  {
    DrawContinuesAsWritten(d, newContext, state, current, newPrimaryShader, newPrimaryShaderImage, newBeforeFlushAction)
    && d.blendMode == BlendModeNormal
  }

  /** The composition input of the batched shader. */
  function DrawComposition(d: DrawState, fastPattern: bool): CompositionInput
    requires d.primaryShader.Some?
  {
    CompositionInput(d.primaryShader.value.shaderId, d.primaryShader.value.options, d.coloring.kind, fastPattern,
                     d.clipMaskImage.Some?, d.compositeOperator, d.blendMode)
  }

  /** The fast-path checks compare exactly the composition inputs that
      `BatchChecksAsWritten` and `BatchChecks` ask for. */
  lemma DrawChecksComposition(d: DrawState, newContext: PlatformContext, state: TyGLState, current: Coloring,
                              newPrimaryShader: ShaderProgram, newPrimaryShaderImage: Option<nat>,
                              newBeforeFlushAction: Option<BeforeFlushAction>, fastPattern: bool, patternAligned: bool)
    requires DrawContinuesAsWritten(d, newContext, state, current, newPrimaryShader, newPrimaryShaderImage, newBeforeFlushAction)
    ensures BatchChecksAsWritten(DrawComposition(d, fastPattern), CompositionOf(state, current, newPrimaryShader, patternAligned))
    ensures DrawContinues(d, newContext, state, current, newPrimaryShader, newPrimaryShaderImage, newBeforeFlushAction) ==>
      BatchChecks(DrawComposition(d, fastPattern), CompositionOf(state, current, newPrimaryShader, patternAligned))
  {
    SameColorMeansSameSource(current, d.coloring, newPrimaryShader.options);
  }

  /** After the slow path, the batch's composition is the new draw's. */
  lemma StartedDrawComposition(d: DrawState, newContext: PlatformContext, state: TyGLState, current: Coloring,
                               newPrimaryShader: ShaderProgram, newPrimaryShaderImage: Option<nat>,
                               newPaintRect: (int, int, int, int), newBeforeFlushAction: Option<BeforeFlushAction>,
                               patternAligned: bool)
    ensures DrawComposition(StartedDraw(d, newContext, state, current, newPrimaryShader, newPrimaryShaderImage,
                                        newPaintRect, newBeforeFlushAction),
                            state.transformKind == T.Move && patternAligned)
            == CompositionOf(state, current, newPrimaryShader, patternAligned)
  {
  }

  /** Repeating the draw that started a batch passes the checks of the
      fast path exactly when its blend mode is normal. */
  lemma StartedDrawContinues(d: DrawState, newContext: PlatformContext, state: TyGLState, current: Coloring,
                             newPrimaryShader: ShaderProgram, newPrimaryShaderImage: Option<nat>,
                             newPaintRect: (int, int, int, int), newBeforeFlushAction: Option<BeforeFlushAction>)
    requires newBeforeFlushAction.Some? ==> newBeforeFlushAction.value.callback.Some?
    ensures state.blendMode == BlendModeNormal <==>
      DrawContinues(StartedDraw(d, newContext, state, current, newPrimaryShader, newPrimaryShaderImage,
                                newPaintRect, newBeforeFlushAction),
                    newContext, state, current, newPrimaryShader, newPrimaryShaderImage, newBeforeFlushAction)
  {
    SameColorMeansSameSource(current, current, newPrimaryShader.options);
  }

  /** The fast path keeps the batched composition. */
  lemma ContinuedDrawKeepsComposition(d: DrawState, current: Coloring, options: bv32, newPaintRect: (int, int, int, int),
                                      fastPattern: bool)
    requires d.primaryShader.Some?
    ensures DrawComposition(ContinuedDraw(d, current, options, newPaintRect), fastPattern) == DrawComposition(d, fastPattern)
  {
  }

  class PipelineBuffer {
    const attributes: array<real>
    /** The function-local static `shaderCache` of `beginAttributeAdding`. */
    const shaderCache: ShaderCache

    var draw: DrawState
    var compiledShader: array?<int>
    /** `combinedShader`, of which `shaderProgramCount` pieces are used. */
    var pieces: seq<PieceId>
    var shaderProgramCount: nat
    var numberOfAttributes: nat
    var quadCount: nat
    var nextAttribute: nat
    var textureIndex: nat
    /** What the batched shader was composed from. */
    ghost var composition: CompositionInput

    /** The buffer has `kMaximumNumberOfAttributes` floats, the cache is
        consistent, and a batch in progress has a descriptor, a primary
        shader, and a composition that agrees with its draw state. */
    ghost predicate Valid()
      reads this, shaderCache
    {
      && attributes.Length == MaximumNumberOfAttributes
      && shaderCache.Valid()
      && (draw.context != null ==> compiledShader != null && compiledShader.Length == MaximumShaderDescriptorLength)
      && (draw.context != null ==>
            && draw.primaryShader.Some? && composition == DrawComposition(draw, composition.fastPattern)
            && shaderProgramCount == |pieces|)
    }

    /** `PipelineBuffer()`. */
    constructor ()
      ensures Valid() && fresh(attributes) && fresh(shaderCache) && fresh(shaderCache.ItemSet) && fresh(shaderCache.Arrays)
      ensures draw == InitialDraw && quadCount == 0 && nextAttribute == 0 && textureIndex == 0
    {
      attributes := new real[MaximumNumberOfAttributes];
      shaderCache := new ShaderCache();
      draw := InitialDraw;
      compiledShader := null;
      pieces := [];
      shaderProgramCount := 0;
      numberOfAttributes := 0;
      quadCount := 0;
      nextAttribute := 0;
      textureIndex := 0;
      composition := CompositionInput(0, 0, SolidColoring, false, false, CompositeSourceOver, BlendModeNormal);
    }

    /** `hasFreeSpace(neededSpace)`. */
    predicate HasFreeSpace(neededSpace: int)
      reads this
    {
      FreeSpace(nextAttribute, numberOfAttributes, quadCount, neededSpace)
    }

    /** The 8-float `addAttribute`: pair k goes to vertex k and
        `nextAttribute` moves past the pair. */
    method AddAttribute(x0: real, y0: real, x1: real, y1: real, x2: real, y2: real, x3: real, y3: real)
      requires 2 <= numberOfAttributes && nextAttribute + 3 * numberOfAttributes + 2 <= attributes.Length
      modifies attributes, this`nextAttribute
      ensures nextAttribute == old(nextAttribute) + 2
      ensures VertexHolds(attributes[..], old(nextAttribute), numberOfAttributes, 0, [x0, y0])
      ensures VertexHolds(attributes[..], old(nextAttribute), numberOfAttributes, 1, [x1, y1])
      ensures VertexHolds(attributes[..], old(nextAttribute), numberOfAttributes, 2, [x2, y2])
      ensures VertexHolds(attributes[..], old(nextAttribute), numberOfAttributes, 3, [x3, y3])
      ensures forall i :: 0 <= i < attributes.Length && !InSlots(i, old(nextAttribute), numberOfAttributes, 2, 4) ==>
        attributes[i] == old(attributes[i])
    {
      var stride := numberOfAttributes;
      var base := nextAttribute;
      WriteTuple(base, [x0, y0]);
      WriteTuple(base + stride, [x1, y1]);
      WriteTuple(base + 2 * stride, [x2, y2]);
      WriteTuple(base + 3 * stride, [x3, y3]);
      nextAttribute := nextAttribute + 2;
      assert VertexStart(base, stride, 0) == base;
      forall i | 0 <= i < attributes.Length && !InSlots(i, base, stride, 2, 4)
        ensures attributes[i] == old(attributes[i])
      {
        InFourSlots(i, base, stride, 2);
      }
      assert VertexStart(base, stride, 1) == base + stride;
      assert VertexStart(base, stride, 2) == base + 2 * stride;
      assert VertexStart(base, stride, 3) == base + 3 * stride;
    }

    /** The 16-float `addAttribute`: four floats per vertex. */
    method AddAttribute16(x0: real, y0: real, z0: real, w0: real, x1: real, y1: real, z1: real, w1: real,
                          x2: real, y2: real, z2: real, w2: real, x3: real, y3: real, z3: real, w3: real)
      requires 4 <= numberOfAttributes && nextAttribute + 3 * numberOfAttributes + 4 <= attributes.Length
      modifies attributes, this`nextAttribute
      ensures nextAttribute == old(nextAttribute) + 4
      ensures VertexHolds(attributes[..], old(nextAttribute), numberOfAttributes, 0, [x0, y0, z0, w0])
      ensures VertexHolds(attributes[..], old(nextAttribute), numberOfAttributes, 1, [x1, y1, z1, w1])
      ensures VertexHolds(attributes[..], old(nextAttribute), numberOfAttributes, 2, [x2, y2, z2, w2])
      ensures VertexHolds(attributes[..], old(nextAttribute), numberOfAttributes, 3, [x3, y3, z3, w3])
      ensures forall i :: 0 <= i < attributes.Length && !InSlots(i, old(nextAttribute), numberOfAttributes, 4, 4) ==>
        attributes[i] == old(attributes[i])
    {
      var stride := numberOfAttributes;
      var base := nextAttribute;
      WriteTuple(base, [x0, y0, z0, w0]);
      WriteTuple(base + stride, [x1, y1, z1, w1]);
      WriteTuple(base + 2 * stride, [x2, y2, z2, w2]);
      WriteTuple(base + 3 * stride, [x3, y3, z3, w3]);
      nextAttribute := nextAttribute + 4;
      assert VertexStart(base, stride, 0) == base;
      forall i | 0 <= i < attributes.Length && !InSlots(i, base, stride, 4, 4)
        ensures attributes[i] == old(attributes[i])
      {
        InFourSlots(i, base, stride, 4);
      }
      assert VertexStart(base, stride, 1) == base + stride;
      assert VertexStart(base, stride, 2) == base + 2 * stride;
      assert VertexStart(base, stride, 3) == base + 3 * stride;
    }

    /** `attribute[0..|t|) = t` at one vertex. */
    method WriteTuple(at: nat, t: seq<real>)
      requires 1 <= |t| <= 4 && at + |t| <= attributes.Length
      modifies attributes
      ensures forall c :: 0 <= c < |t| ==> attributes[at + c] == t[c]
      ensures forall i :: 0 <= i < attributes.Length && !(at <= i < at + |t|) ==> attributes[i] == old(attributes[i])
    {
      attributes[at] := t[0];
      if |t| > 1 { attributes[at + 1] := t[1]; }
      if |t| > 2 { attributes[at + 2] := t[2]; }
      if |t| > 3 { attributes[at + 3] := t[3]; }
    }

    /** The three `addAttributeRepeated` overloads, for a tuple of 2, 3 or
        4 floats: every vertex gets the same tuple. */
    method AddAttributeRepeated(t: seq<real>)
      requires 2 <= |t| <= 4 && |t| <= numberOfAttributes
      requires nextAttribute + 3 * numberOfAttributes + |t| <= attributes.Length
      modifies attributes, this`nextAttribute
      ensures nextAttribute == old(nextAttribute) + |t|
      ensures forall k :: 0 <= k < 4 ==> VertexHolds(attributes[..], old(nextAttribute), numberOfAttributes, k, t)
      ensures forall i :: 0 <= i < attributes.Length && !InSlots(i, old(nextAttribute), numberOfAttributes, |t|, 4) ==>
        attributes[i] == old(attributes[i])
    {
      var base := nextAttribute;
      var stride := numberOfAttributes;
      var attribute := base;
      var i := 0;
      while i < 4
        invariant 0 <= i <= 4 && attribute == VertexStart(base, stride, i) && nextAttribute == base
        invariant forall k :: 0 <= k < i ==> VertexHolds(attributes[..], base, stride, k, t)
        invariant forall j :: 0 <= j < attributes.Length && !InSlots(j, base, stride, |t|, i) ==>
          attributes[j] == old(attributes[j])
      {
        RepeatedStep(base, stride, i, t);
        ghost var before := attributes[..];
        WriteTuple(attribute, t);
        forall k | 0 <= k <= i
          ensures VertexHolds(attributes[..], base, stride, k, t)
        {
          if k < i {
            assert VertexHolds(before, base, stride, k, t);
          }
        }
        attribute := attribute + stride;
        i := i + 1;
      }
      nextAttribute := nextAttribute + |t|;
    }

    /** Vertex i's slot is in bounds and clear of every earlier vertex's. */
    lemma RepeatedStep(base: nat, stride: nat, i: nat, t: seq<real>)
      requires i < 4 && 1 <= |t| <= stride && base + 3 * stride + |t| <= attributes.Length
      ensures VertexStart(base, stride, i) + |t| <= attributes.Length
      ensures VertexStart(base, stride, i + 1) == VertexStart(base, stride, i) + stride
      ensures forall k :: 0 <= k < i ==> VertexStart(base, stride, k) + |t| <= VertexStart(base, stride, i)
    {
      assert VertexStart(base, stride, i) <= base + 3 * stride by {
        assert i * stride <= 3 * stride;
      }
      forall k | 0 <= k < i
        ensures VertexStart(base, stride, k) + |t| <= VertexStart(base, stride, i)
      {
        VertexStartsApart(base, stride, k, i);
      }
    }

    /** `addAttributePosition`: the corners (left, bottom), (right, bottom),
        (left, top), (right, top) in vertex order. */
    method AddAttributePosition(left: real, bottom: real, right: real, top: real)
      requires 2 <= numberOfAttributes && nextAttribute + 3 * numberOfAttributes + 2 <= attributes.Length
      modifies attributes, this`nextAttribute
      ensures nextAttribute == old(nextAttribute) + 2
      ensures VertexHolds(attributes[..], old(nextAttribute), numberOfAttributes, 0, [left, bottom])
      ensures VertexHolds(attributes[..], old(nextAttribute), numberOfAttributes, 1, [right, bottom])
      ensures VertexHolds(attributes[..], old(nextAttribute), numberOfAttributes, 2, [left, top])
      ensures VertexHolds(attributes[..], old(nextAttribute), numberOfAttributes, 3, [right, top])
      ensures forall i :: 0 <= i < attributes.Length && !InSlots(i, old(nextAttribute), numberOfAttributes, 2, 4) ==>
        attributes[i] == old(attributes[i])
    {
      AddAttribute(left, bottom, right, bottom, left, top, right, top);
    }

    /** The fast-path checks of `beginAttributeAdding` as written. */
    predicate BatchContinuesAsWritten(newContext: PlatformContext, newPrimaryShader: ShaderProgram,
                                      newPrimaryShaderImage: Option<nat>, newBeforeFlushAction: Option<BeforeFlushAction>)
      reads this, newContext
    {
      && DrawContinuesAsWritten(draw, newContext, newContext.state, newContext.CurrentColoring(),
                                newPrimaryShader, newPrimaryShaderImage, newBeforeFlushAction)
      && HasFreeSpace(0)
    }

    /** The fast-path checks with the batch's blend mode compared too. */
    predicate BatchContinues(newContext: PlatformContext, newPrimaryShader: ShaderProgram,
                             newPrimaryShaderImage: Option<nat>, newBeforeFlushAction: Option<BeforeFlushAction>)
      reads this, newContext
    {
      && DrawContinues(draw, newContext, newContext.state, newContext.CurrentColoring(),
                       newPrimaryShader, newPrimaryShaderImage, newBeforeFlushAction)
      && HasFreeSpace(0)
    }

    /**
     * `flushBatchingQueue(reset)`: draws the batch unless the before-flush
     * callback refuses; then a reset drops the context and the clip mask,
     * and otherwise the batch restarts empty.
     */
    method FlushBatchingQueue(reset: bool, callbackAccepts: bool) returns (flush: Flush)
      requires Valid() && draw.context != null
      modifies this`draw, this`quadCount, this`nextAttribute, this`textureIndex
      ensures Valid()
      ensures flush == FlushOutcome(old(draw.beforeFlushAction), callbackAccepts, old(compiledShader[0]),
                                    old(draw.compositeOperator), old(draw.blendMode), old(quadCount))
      ensures reset ==>
        && draw == old(draw).(context := null, clipMaskImage := None)
        && quadCount == old(quadCount) && nextAttribute == old(nextAttribute) && textureIndex == old(textureIndex)
      ensures !reset ==>
        && draw == old(draw) && quadCount == 0 && nextAttribute == 0 && textureIndex == 0
    {
      if draw.beforeFlushAction.callback.Some? && !callbackAccepts {
        flush := FlushCancelled;
      } else {
        var program := compiledShader[0];
        var primitive := if quadCount == 1 then TriangleStrip(4) else Triangles(quadCount * 6);
        flush := Flushed(Draw(program, draw.blendMode != BlendModeNormal || draw.compositeOperator == CompositeDifference,
                              CompositeBlendFunction(draw.compositeOperator), primitive));
      }
      if reset {
        draw := draw.(context := null, clipMaskImage := None);
        return;
      }
      quadCount := 0;
      nextAttribute := 0;
      textureIndex := 0;
    }

    /** `flushBatchingQueueIfNeeded(reset)`: a flush when a batch is open. */
    method FlushBatchingQueueIfNeeded(reset: bool, callbackAccepts: bool) returns (flush: Flush)
      requires Valid()
      modifies this`draw, this`quadCount, this`nextAttribute, this`textureIndex
      ensures Valid()
      ensures old(draw.context) == null ==> flush == NoFlush && unchanged(this)
      ensures old(draw.context) != null ==>
        && flush == FlushOutcome(old(draw.beforeFlushAction), callbackAccepts, old(compiledShader[0]),
                                 old(draw.compositeOperator), old(draw.blendMode), old(quadCount))
        && (reset ==> draw == old(draw).(context := null, clipMaskImage := None))
        && (!reset ==> draw == old(draw) && quadCount == 0 && nextAttribute == 0 && textureIndex == 0)
    {
      flush := NoFlush;
      if draw.context != null {
        flush := FlushBatchingQueue(reset, callbackAccepts);
      }
    }

    /** Whether the cache holds a compiled program for the hash. */
    ghost predicate CachedAndCompiled(hash: int)
      reads shaderCache, shaderCache.ItemSet, shaderCache.Arrays
      requires shaderCache.Valid()
    {
      hash in shaderCache.programCache && shaderCache.items[shaderCache.programCache[hash]].IsCompiled()
    }

    /**
     * The cache lookup of `beginAttributeAdding`: a compiled entry gives
     * its attribute count; otherwise the entry is compiled from the pieces
     * and the count is recomputed and stored.
     */
    method SelectShader(hash: int, programs: seq<ShaderProgram>, compiler: ShaderCompiler)
      requires shaderCache.Valid() && hash != 0 && DescriptorFits(programs)
      modifies this`numberOfAttributes, this`compiledShader, shaderCache, shaderCache.ItemSet, shaderCache.Arrays
      ensures shaderCache.Valid()
      ensures compiledShader == shaderCache.items[shaderCache.order[0]].shaderData
      ensures compiledShader.Length == MaximumShaderDescriptorLength
      ensures shaderCache.hashes[shaderCache.order[0]] == hash
      ensures old(CachedAndCompiled(hash)) ==>
        numberOfAttributes == old(shaderCache.items[shaderCache.programCache[hash]].numberOfAttributes)
        && compiledShader == old(shaderCache.items[shaderCache.programCache[hash]].shaderData)
        && compiledShader[..] == old(shaderCache.items[shaderCache.programCache[hash]].shaderData[..])
      ensures !old(CachedAndCompiled(hash)) ==>
        && numberOfAttributes == AttributeCount(programs)
        && shaderCache.items[shaderCache.order[0]].numberOfAttributes == numberOfAttributes
        && (compiledShader[0] != 0 <==> compiler.program != 0 && CompilesAndLinks(compiler, programs))
        && (compiledShader[0] != 0 ==>
              compiledShader[0] == compiler.program && PiecesWritten(compiledShader[..], programs, compiler, |programs|))
    {
      var slot, deleted := shaderCache.Get(hash);
      var data := shaderCache.items[slot];
      if data.IsCompiled() {
        numberOfAttributes := data.numberOfAttributes;
      } else {
        var ok := CompileShaderInternal(data.shaderData, programs, compiler);
        var n := CountAttributes(programs);
        numberOfAttributes := n;
        data.numberOfAttributes := n;
      }
      compiledShader := data.shaderData;
    }

    /**
     * `beginAttributeAdding`. When the draw can join the batch only the
     * paint rectangle and, for attribute solid colours, the colour change.
     * Otherwise an open batch is flushed with `reset`, the new context's
     * state is copied in, the shader is composed from the pieces and
     * looked up in the cache, and compiled on a miss. `patternAligned`
     * stands for the integer checks on the fill and pattern transforms
     * that select the fast pattern shader.
     */
    method BeginAttributeAdding(newContext: PlatformContext, newPrimaryShader: ShaderProgram,
                                newPrimaryShaderImage: Option<nat>, newPaintRect: (int, int, int, int),
                                newBeforeFlushAction: Option<BeforeFlushAction>, library: PieceLibrary,
                                patternAligned: bool, compiler: ShaderCompiler, callbackAccepts: bool)
      returns (flush: Flush)
      requires Valid()
      requires newBeforeFlushAction.Some? ==> newBeforeFlushAction.value.callback.Some?
      requires SingleSolidColoring(newPrimaryShader.options)
      requires 1 <= newPrimaryShader.shaderId <= TransformedImageShaderId
      requires DescriptorFits(ProgramsOf(library, newPrimaryShader, ComposedPieces(
        CompositionOf(newContext.state, newContext.CurrentColoring(), newPrimaryShader, patternAligned))))
      modifies this, shaderCache, shaderCache.ItemSet, shaderCache.Arrays
      ensures Valid()
      ensures old(BatchContinues(newContext, newPrimaryShader, newPrimaryShaderImage, newBeforeFlushAction)) ==>
        && flush == NoFlush
        && draw == ContinuedDraw(old(draw), newContext.CurrentColoring(), newPrimaryShader.options, newPaintRect)
        && quadCount == old(quadCount) && nextAttribute == old(nextAttribute) && textureIndex == old(textureIndex)
        && pieces == old(pieces) && composition == old(composition)
        && compiledShader == old(compiledShader) && numberOfAttributes == old(numberOfAttributes)
        && unchanged(shaderCache)
        && SameShader(composition, CompositionOf(newContext.state, newContext.CurrentColoring(), newPrimaryShader, patternAligned))
      ensures !old(BatchContinues(newContext, newPrimaryShader, newPrimaryShaderImage, newBeforeFlushAction)) ==>
        && flush == (if old(draw.context) == null then NoFlush
                     else FlushOutcome(old(draw.beforeFlushAction), callbackAccepts, old(compiledShader[0]),
                                       old(draw.compositeOperator), old(draw.blendMode), old(quadCount)))
        && draw == StartedDraw(old(draw), newContext, newContext.state, newContext.CurrentColoring(),
                               newPrimaryShader, newPrimaryShaderImage, newPaintRect, newBeforeFlushAction)
        && quadCount == 0 && nextAttribute == 0 && textureIndex == 0
        && composition == CompositionOf(newContext.state, newContext.CurrentColoring(), newPrimaryShader, patternAligned)
        && pieces == ComposedPieces(composition)
        && compiledShader == shaderCache.items[shaderCache.order[0]].shaderData
        && shaderCache.hashes[shaderCache.order[0]] == ComposedHash(composition) as int
    {
      var state := newContext.state;
      var current := newContext.CurrentColoring();
      if BatchContinues(newContext, newPrimaryShader, newPrimaryShaderImage, newBeforeFlushAction) {
        ContinueBatch(newContext, state, current, newPrimaryShader, newPrimaryShaderImage, newPaintRect,
                      newBeforeFlushAction, patternAligned);
        flush := NoFlush;
      } else {
        flush := RestartBatch(newContext, newPrimaryShader, newPrimaryShaderImage, newPaintRect,
                              newBeforeFlushAction, library, patternAligned, compiler, callbackAccepts);
      }
    }

    /** The slow path of `beginAttributeAdding`: the open batch, if any, is
        flushed with `reset`, and a new batch starts. */
    method RestartBatch(newContext: PlatformContext, newPrimaryShader: ShaderProgram,
                        newPrimaryShaderImage: Option<nat>, newPaintRect: (int, int, int, int),
                        newBeforeFlushAction: Option<BeforeFlushAction>, library: PieceLibrary,
                        patternAligned: bool, compiler: ShaderCompiler, callbackAccepts: bool)
      returns (flush: Flush)
      requires Valid()
      requires newBeforeFlushAction.Some? ==> newBeforeFlushAction.value.callback.Some?
      requires 1 <= newPrimaryShader.shaderId <= TransformedImageShaderId
      requires DescriptorFits(ProgramsOf(library, newPrimaryShader, ComposedPieces(
        CompositionOf(newContext.state, newContext.CurrentColoring(), newPrimaryShader, patternAligned))))
      modifies this`draw, this`quadCount, this`nextAttribute, this`textureIndex, this`composition,
               this`pieces, this`shaderProgramCount, this`numberOfAttributes, this`compiledShader,
               shaderCache, shaderCache.ItemSet, shaderCache.Arrays
      ensures Valid()
      ensures flush == (if old(draw.context) == null then NoFlush
                     else FlushOutcome(old(draw.beforeFlushAction), callbackAccepts, old(compiledShader[0]),
                                       old(draw.compositeOperator), old(draw.blendMode), old(quadCount)))
      ensures draw == StartedDraw(old(draw), newContext, newContext.state, newContext.CurrentColoring(),
                               newPrimaryShader, newPrimaryShaderImage, newPaintRect, newBeforeFlushAction)
      ensures quadCount == 0 && nextAttribute == 0 && textureIndex == 0
      ensures composition == CompositionOf(newContext.state, newContext.CurrentColoring(), newPrimaryShader, patternAligned)
      ensures pieces == ComposedPieces(composition)
      ensures compiledShader == shaderCache.items[shaderCache.order[0]].shaderData
      ensures shaderCache.hashes[shaderCache.order[0]] == ComposedHash(composition) as int
    {
      var state, current := newContext.state, newContext.CurrentColoring();
      StartedDrawAfterReset(draw, newContext, state, current, newPrimaryShader, newPrimaryShaderImage,
                            newPaintRect, newBeforeFlushAction);
      flush := FlushBatchingQueueIfNeeded(true, callbackAccepts);
      StartBatch(newContext, state, current, newPrimaryShader, newPrimaryShaderImage,
                 newPaintRect, newBeforeFlushAction, library, patternAligned, compiler);
    }

    /** The fast path of `beginAttributeAdding`. */
    method ContinueBatch(newContext: PlatformContext, state: TyGLState, current: Coloring, newPrimaryShader: ShaderProgram,
                         newPrimaryShaderImage: Option<nat>, newPaintRect: (int, int, int, int),
                         newBeforeFlushAction: Option<BeforeFlushAction>, patternAligned: bool)
      requires Valid()
      requires DrawContinues(draw, newContext, state, current, newPrimaryShader, newPrimaryShaderImage, newBeforeFlushAction)
      modifies this`draw
      ensures Valid() && draw == ContinuedDraw(old(draw), current, newPrimaryShader.options, newPaintRect)
      ensures SameShader(composition, CompositionOf(state, current, newPrimaryShader, patternAligned))
    {
      DrawChecksComposition(draw, newContext, state, current, newPrimaryShader, newPrimaryShaderImage, newBeforeFlushAction,
                            composition.fastPattern, patternAligned);
      ContinuedDrawKeepsComposition(draw, current, newPrimaryShader.options, newPaintRect, composition.fastPattern);
      BatchChecksKeepShader(composition, CompositionOf(state, current, newPrimaryShader, patternAligned));
      draw := ContinuedDraw(draw, current, newPrimaryShader.options, newPaintRect);
    }

    /** The slow path of `beginAttributeAdding`, after the flush. The
        shader depends only on the new composition, so it is selected
        before the copies; the source copies first. */
    method StartBatch(newContext: PlatformContext, state: TyGLState, current: Coloring, newPrimaryShader: ShaderProgram,
                      newPrimaryShaderImage: Option<nat>, newPaintRect: (int, int, int, int),
                      newBeforeFlushAction: Option<BeforeFlushAction>, library: PieceLibrary,
                      patternAligned: bool, compiler: ShaderCompiler)
      requires Valid()
      requires newBeforeFlushAction.Some? ==> newBeforeFlushAction.value.callback.Some?
      requires 1 <= newPrimaryShader.shaderId <= TransformedImageShaderId
      requires DescriptorFits(ProgramsOf(library, newPrimaryShader,
                                         ComposedPieces(CompositionOf(state, current, newPrimaryShader, patternAligned))))
      modifies this`draw, this`quadCount, this`nextAttribute, this`textureIndex, this`composition,
               this`pieces, this`shaderProgramCount, this`numberOfAttributes, this`compiledShader,
               shaderCache, shaderCache.ItemSet, shaderCache.Arrays
      ensures Valid()
      ensures draw == StartedDraw(old(draw), newContext, state, current, newPrimaryShader, newPrimaryShaderImage,
                                  newPaintRect, newBeforeFlushAction)
      ensures quadCount == 0 && nextAttribute == 0 && textureIndex == 0
      ensures composition == CompositionOf(state, current, newPrimaryShader, patternAligned)
      ensures pieces == ComposedPieces(composition)
      ensures compiledShader == shaderCache.items[shaderCache.order[0]].shaderData
      ensures shaderCache.hashes[shaderCache.order[0]] == ComposedHash(composition) as int
    {
      var next := CompositionOf(state, current, newPrimaryShader, patternAligned);
      var started := StartedDraw(draw, newContext, state, current, newPrimaryShader, newPrimaryShaderImage,
                                 newPaintRect, newBeforeFlushAction);
      StartedDrawComposition(draw, newContext, state, current, newPrimaryShader, newPrimaryShaderImage, newPaintRect,
                             newBeforeFlushAction, patternAligned);
      ComposeShader(next, library, newPrimaryShader, compiler);
      SetDraw(started, next);
    }

    /** The copies of the slow path, once the shader is selected. */
    method SetDraw(started: DrawState, next: CompositionInput)
      requires attributes.Length == MaximumNumberOfAttributes && shaderCache.Valid()
      requires compiledShader != null && compiledShader.Length == MaximumShaderDescriptorLength
      requires shaderProgramCount == |pieces|
      requires started.primaryShader.Some? && next == DrawComposition(started, next.fastPattern)
      modifies this`draw, this`quadCount, this`nextAttribute, this`textureIndex, this`composition
      ensures Valid()
      ensures draw == started && composition == next
      ensures quadCount == 0 && nextAttribute == 0 && textureIndex == 0
    {
      draw := started;
      composition := next;
      quadCount := 0;
      nextAttribute := 0;
      textureIndex := 0;
    }

    /** The composition, lookup and compilation of the slow path. */
    method ComposeShader(composition: CompositionInput, library: PieceLibrary, primary: ShaderProgram, compiler: ShaderCompiler)
      requires shaderCache.Valid() && 1 <= composition.primaryId <= TransformedImageShaderId
      requires DescriptorFits(ProgramsOf(library, primary, ComposedPieces(composition)))
      modifies this`pieces, this`shaderProgramCount, this`numberOfAttributes, this`compiledShader,
               shaderCache, shaderCache.ItemSet, shaderCache.Arrays
      ensures shaderCache.Valid()
      ensures pieces == ComposedPieces(composition) && shaderProgramCount == |pieces|
      ensures compiledShader == shaderCache.items[shaderCache.order[0]].shaderData
      ensures compiledShader.Length == MaximumShaderDescriptorLength
      ensures shaderCache.hashes[shaderCache.order[0]] == ComposedHash(composition) as int
    {
      pieces := ComposedPieces(composition);
      shaderProgramCount := |pieces|;
      ComposedHashNonzero(composition);
      SelectShader(ComposedHash(composition) as int, ProgramsOf(library, primary, pieces), compiler);
    }

    /** The counter updates of `endAttributeAdding`: the attributes of the
        quad's first vertex were added, the other three vertices are skipped
        over, and the quad is counted. */
    method EndAttributeAdding()
      modifies this`nextAttribute, this`quadCount
      ensures nextAttribute == old(nextAttribute) + numberOfAttributes * 3 && quadCount == old(quadCount) + 1
    {
      nextAttribute := nextAttribute + numberOfAttributes * 3;
      quadCount := quadCount + 1;
    }
  }

  /** The compile and link oracles accept the combined source. */
  predicate CompilesAndLinks(compiler: ShaderCompiler, programs: seq<ShaderProgram>)
  {
    compiler.compilesVertex(VertexSources(programs))
    && compiler.compilesFragment(FragmentSources(programs))
    && compiler.links(VertexSources(programs), FragmentSources(programs))
  }
}
