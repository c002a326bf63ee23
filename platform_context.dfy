/**
 * `PlatformContextTyGL` (PlatformContextTyGL.h and .cpp): the drawing
 * state of a TyGL context, its save/restore stack and setters, the
 * `Coloring` value that names the current fill source, the shader program
 * descriptors and the two static helpers that lay out GPU-side tables:
 * the shader descriptor written by `compileShaderInternal` and the quad
 * index buffer written by `initQuadIndexes`.
 *
 * GL calls become an oracle (`ShaderCompiler`) or return values; floats are
 * `real`; gradients, patterns and images are referenced by identity (`nat`).
 */
module PlatformContextTyGL {
  import opened Wrappers
  import opened GraphicsTypes
  import opened IntMath
  import T = TransformTyGL
  import ClipRectTyGL

  const MaximumShaderDescriptorLength := 16

  /** Shader option bits (`kAttributeSolidColoring`, `kUniformSolidColoring`, `kComplexFill`). */
  const NoShaderOptions: bv32 := 0
  const AttributeSolidColoringOption: bv32 := 1
  const UniformSolidColoringOption: bv32 := 2
  const ComplexFillOption: bv32 := 4

  /** `PipelineBuffer` limits. */
  const MaximumNumberOfShaderPieces := 8
  const MaximumNumberOfAttributes := 65536
  const MaximumNumberOfUshortQuads := 65536 / 6
  const MaximumNumberOfPathAttributes := 16

  /** `ShaderProgram::ShaderID`: the primary shaders count from 1. */
  const LocalShaderId: bv32 := 0
  const BorderLineShaderId: bv32 := 1
  const BulletPointShaderId: bv32 := 2
  const FillColorShaderId: bv32 := 3
  const FontShaderId: bv32 := 4
  const ImageShaderId: bv32 := 5
  const RectShaderId: bv32 := 6
  const TransformedFontShaderId: bv32 := 7
  const TransformedImageShaderId: bv32 := 8

  /** Secondary shader ids: colouring, clipping and blending pieces. */
  const NoSolidColorShaderId: bv32 := 0
  const AttributeSolidColorShaderId: bv32 := 1
  const UniformSolidColorShaderId: bv32 := 2
  const GradientShaderId: bv32 := 3
  const FastPatternShaderId: bv32 := 4
  const TransformedPatternShaderId: bv32 := 5
  const NoClipId: bv32 := 0
  const ClipShaderId: bv32 := 1
  const NoBlendId: bv32 := 0
  const BasicBlendShaderId: bv32 := 1
  const ComplexBlendShaderId: bv32 := 2
  const NonseparableBlendShaderId: bv32 := 3

  /** A 32-bit ARGB colour. */
  type RGBA32 = c: int | 0 <= c < 0x1_0000_0000

  /** `Color::black`, opaque black. */
  const Black: RGBA32 := 0xFF00_0000

  // ---------------------------------------------------------------------
  // Coloring
  // ---------------------------------------------------------------------

  datatype ColoringType = SolidColoring | GradientColoring | PatternColoring

  /**
   * `PlatformContextTyGL::Coloring`: the fill source of a draw. The source
   * copies it by value into the state, the save stack and the pipeline
   * buffer, so it is a value here and each `set` returns the updated value.
   */
  datatype Coloring = Coloring(kind: ColoringType, color: RGBA32, gradient: Option<nat>, pattern: Option<nat>)

  /** `Coloring()`. */
  const DefaultColoring := Coloring(SolidColoring, Black, None, None)

  /** `Coloring(RGBA32)`. */
  function ColoringOfColor(color: RGBA32): Coloring
  {
    Coloring(SolidColoring, color, None, None)
  }

  /** `Coloring(RefPtr<Gradient>)`: the colour slot still holds black. */
  function ColoringOfGradient(gradient: nat): Coloring
  {
    Coloring(GradientColoring, Black, Some(gradient), None)
  }

  /** `Coloring(RefPtr<Pattern>)`. */
  function ColoringOfPattern(pattern: nat): Coloring
  {
    Coloring(PatternColoring, Black, None, Some(pattern))
  }

  /** `set(RGBA32)`: solid with that colour; the gradient is released but
      the pattern reference is kept. */
  function SetColor(c: Coloring, color: RGBA32): (r: Coloring)
    ensures r.kind == SolidColoring && r.color == color
    ensures r.gradient == None && r.pattern == c.pattern
  {
    Coloring(SolidColoring, color, None, c.pattern)
  }

  /** `set(RefPtr<Gradient>)`: the colour becomes 0 and the pattern is released. */
  function SetGradient(c: Coloring, gradient: nat): (r: Coloring)
    ensures r.kind == GradientColoring && r.color == 0
    ensures r.gradient == Some(gradient) && r.pattern == None
  {
    Coloring(GradientColoring, 0, Some(gradient), None)
  }

  /** `set(RefPtr<Pattern>)`: the colour becomes 0 and the gradient is released. */
  function SetPattern(c: Coloring, pattern: nat): (r: Coloring)
    ensures r.kind == PatternColoring && r.color == 0
    ensures r.gradient == None && r.pattern == Some(pattern)
  {
    Coloring(PatternColoring, 0, None, Some(pattern))
  }

  /** `changeColor`, which only a solid coloring accepts. */
  function ChangeColor(c: Coloring, color: RGBA32): (r: Coloring)
    requires c.kind == SolidColoring
    ensures r.kind == SolidColoring && r.color == color
    ensures r.gradient == c.gradient && r.pattern == c.pattern
  {
    Coloring(c.kind, color, c.gradient, c.pattern)
  }

  /**
   * The fill source the type names is present, and a gradient coloring
   * holds no pattern (and the reverse); this is what `gradient()` and
   * `pattern()` assert before they are read.
   */
  ghost predicate Consistent(c: Coloring)
  {
    && (c.kind == GradientColoring ==> c.gradient.Some? && c.pattern.None?)
    && (c.kind == PatternColoring ==> c.pattern.Some? && c.gradient.None?)
    && (c.kind == SolidColoring ==> c.gradient.None?)
  }

  /** Every constructor builds a consistent coloring and every setter keeps
      one consistent, whatever it starts from. */
  lemma ColoringsStayConsistent(c: Coloring, color: RGBA32, gradient: nat, pattern: nat)
    ensures Consistent(DefaultColoring) && Consistent(ColoringOfColor(color))
    ensures Consistent(ColoringOfGradient(gradient)) && Consistent(ColoringOfPattern(pattern))
    ensures Consistent(SetColor(c, color)) && Consistent(SetGradient(c, gradient)) && Consistent(SetPattern(c, pattern))
    ensures Consistent(c) && c.kind == SolidColoring ==> Consistent(ChangeColor(c, color))
  {
  }

  // ---------------------------------------------------------------------
  // Shader program descriptors
  // ---------------------------------------------------------------------

  /** A shader argument is a uniform (`u_` prefix) or an attribute (`a_`). */
  datatype Qualifier = Uniform | Attribute

  /** One entry of a shader's argument and component lists. */
  datatype ShaderVariable = ShaderVariable(qualifier: Qualifier, name: string, components: nat)

  /** `ShaderProgram`: options, id, the four GLSL text parts (empty for
      `TyGL_EMPTY_PROGRAM`) and the argument list. */
  datatype ShaderProgram = ShaderProgram(
    options: bv32,
    shaderId: bv32,
    vertexVariables: string,
    vertexShader: string,
    fragmentVariables: string,
    fragmentShader: string,
    variables: seq<ShaderVariable>)

  /** The GLSL text a program contributes to each part of a combined shader. */
  datatype TextKind = VertexVariables | VertexShader | FragmentVariables | FragmentShader

  function TextOf(p: ShaderProgram, kind: TextKind): string
  {
    match kind
    case VertexVariables => p.vertexVariables
    case VertexShader => p.vertexShader
    case FragmentVariables => p.fragmentVariables
    case FragmentShader => p.fragmentShader
  }

  /** An entry of the `shaderSource` array: a piece's text or one of the
      fixed strings that open and close `main` or set the precision. */
  datatype SourcePart = Piece(text: string) | MainOpen | VertexEpilogue | FragmentPrologue | FragmentEpilogue

  /** The non-empty texts of one kind, in program order. */
  function Texts(programs: seq<ShaderProgram>, kind: TextKind): (r: seq<SourcePart>)
    ensures |r| <= |programs|
  {
    if |programs| == 0 then []
    else
      var last := programs[|programs| - 1];
      Texts(programs[..|programs| - 1], kind) + (if TextOf(last, kind) != "" then [Piece(TextOf(last, kind))] else [])
  }

  /** The vertex shader source list. */
  function VertexSources(programs: seq<ShaderProgram>): seq<SourcePart>
  {
    Texts(programs, VertexVariables) + [MainOpen] + Texts(programs, VertexShader) + [VertexEpilogue]
  }

  /** The fragment shader source list. */
  function FragmentSources(programs: seq<ShaderProgram>): seq<SourcePart>
  {
    [FragmentPrologue] + Texts(programs, FragmentVariables) + [MainOpen] + Texts(programs, FragmentShader) + [FragmentEpilogue]
  }

  /** Both source lists fit the `kMaximumNumberOfShaderPieces * 2 + 3`
      entries of `shaderSource`. */
  lemma SourcesFit(programs: seq<ShaderProgram>)
    requires |programs| <= MaximumNumberOfShaderPieces
    ensures |VertexSources(programs)| <= 2 * |programs| + 2 <= MaximumNumberOfShaderPieces * 2 + 3
    ensures |FragmentSources(programs)| <= 2 * |programs| + 3 <= MaximumNumberOfShaderPieces * 2 + 3
  {
  }

  /** The GL compiler and linker, and the locations it assigns in the linked program. */
  datatype ShaderCompiler = ShaderCompiler(
    compilesVertex: seq<SourcePart> -> bool,
    compilesFragment: seq<SourcePart> -> bool,
    links: (seq<SourcePart>, seq<SourcePart>) -> bool,
    program: int,
    uniformLocation: string -> int,
    attribLocation: string -> int)

  /** `glGetUniformLocation` or `glGetAttribLocation`, by the name's prefix. */
  function Location(compiler: ShaderCompiler, v: ShaderVariable): int
  {
    if v.qualifier == Uniform then compiler.uniformLocation(v.name) else compiler.attribLocation(v.name)
  }

  /** The number of arguments of the given programs. */
  function ArgumentCount(programs: seq<ShaderProgram>): nat
  {
    if |programs| == 0 then 0 else ArgumentCount(programs[..|programs| - 1]) + |programs[|programs| - 1].variables|
  }

  /** Where piece `i`'s argument block starts in the descriptor: after the
      program slot, one offset slot per piece and the earlier blocks. */
  function BlockStart(programs: seq<ShaderProgram>, i: nat): nat
    requires i <= |programs|
  {
    1 + |programs| + ArgumentCount(programs[..i])
  }

  /** The blocks are consecutive, in piece order. */
  lemma BlocksConsecutive(programs: seq<ShaderProgram>, i: nat)
    requires i < |programs|
    ensures BlockStart(programs, i + 1) == BlockStart(programs, i) + |programs[i].variables|
    ensures BlockStart(programs, 0) == 1 + |programs|
  {
    assert programs[..i + 1][..i] == programs[..i];
    assert programs[..0] == [];
  }

  /** Builds one text list of the shader source, as the loops of
      `compileShaderInternal` do. */
  method CollectTexts(programs: seq<ShaderProgram>, kind: TextKind) returns (parts: seq<SourcePart>)
    ensures parts == Texts(programs, kind)
  {
    parts := [];
    var i := 0;
    while i < |programs|
      invariant 0 <= i <= |programs|
      invariant parts == Texts(programs[..i], kind)
    {
      assert programs[..i + 1][..i] == programs[..i];
      if TextOf(programs[i], kind) != "" {
        parts := parts + [Piece(TextOf(programs[i], kind))];
      }
      i := i + 1;
    }
    assert programs[..i] == programs;
  }

  /** Fills one piece's argument block with the locations of its arguments. */
  method WriteArgumentBlock(compiledShader: array<int>, start: nat, variables: seq<ShaderVariable>, compiler: ShaderCompiler)
    requires start + |variables| <= compiledShader.Length
    modifies compiledShader
    ensures forall j :: 0 <= j < |variables| ==> compiledShader[start + j] == Location(compiler, variables[j])
    ensures forall k :: 0 <= k < compiledShader.Length && !(start <= k < start + |variables|) ==>
      compiledShader[k] == old(compiledShader[k])
  {
    var offset := start;
    var j := 0;
    while j < |variables|
      invariant 0 <= j <= |variables| && offset == start + j
      invariant forall j1 :: 0 <= j1 < j ==> compiledShader[start + j1] == Location(compiler, variables[j1])
      invariant forall k :: 0 <= k < compiledShader.Length && !(start <= k < start + j) ==>
        compiledShader[k] == old(compiledShader[k])
    {
      compiledShader[offset] := Location(compiler, variables[j]);
      offset := offset + 1;
      j := j + 1;
    }
  }

  /**
   * The descriptor entries of the first n pieces hold what
   * `compileShaderInternal` writes: slot i + 1 the start of piece i's
   * argument block, and the block the locations of its arguments in order.
   * Entries past the end of `d` are not constrained.
   */
  ghost predicate PiecesWritten(d: seq<int>, programs: seq<ShaderProgram>, compiler: ShaderCompiler, n: nat)
    requires n <= |programs|
  {
    && (forall i :: 0 <= i < n && i + 1 < |d| ==> d[i + 1] == BlockStart(programs, i))
    && (forall i, j :: 0 <= i < n && 0 <= j < |programs[i].variables| && BlockStart(programs, i) + j < |d| ==>
          d[BlockStart(programs, i) + j] == Location(compiler, programs[i].variables[j]))
  }

  /** A descriptor long enough for all pieces: every offset slot and every
      block entry lies inside it, and each holds its value. */
  lemma DescriptorReadsBack(d: seq<int>, programs: seq<ShaderProgram>, compiler: ShaderCompiler)
    requires 1 <= |programs| && BlockStart(programs, |programs|) <= |d|
    requires PiecesWritten(d, programs, compiler, |programs|)
    ensures forall i :: 0 <= i < |programs| ==> d[i + 1] == BlockStart(programs, i)
    ensures forall i :: 0 <= i < |programs| ==>
      BlockStart(programs, i) + |programs[i].variables| <= BlockStart(programs, |programs|)
    ensures forall i, j :: 0 <= i < |programs| && 0 <= j < |programs[i].variables| ==>
      d[BlockStart(programs, i) + j] == Location(compiler, programs[i].variables[j])
  {
    EarlierBlocksEnd(programs, |programs|);
  }

  /**
   * `compileShaderInternal`: compiles and links the combined source of the
   * pieces; on success writes the program to slot 0 and the piece layout
   * (`PiecesWritten`) after it; on failure writes nothing, so slot 0 stays 0.
   */
  method CompileShaderInternal(compiledShader: array<int>, programs: seq<ShaderProgram>, compiler: ShaderCompiler)
    returns (ok: bool)
    requires compiledShader.Length > 0 && compiledShader[0] == 0
    requires 1 <= |programs| <= MaximumNumberOfShaderPieces
    requires BlockStart(programs, |programs|) <= compiledShader.Length
    requires BlockStart(programs, |programs|) < MaximumShaderDescriptorLength
    modifies compiledShader
    ensures ok <==> (compiler.compilesVertex(VertexSources(programs))
                     && compiler.compilesFragment(FragmentSources(programs))
                     && compiler.links(VertexSources(programs), FragmentSources(programs)))
    ensures !ok ==> compiledShader[..] == old(compiledShader[..])
    ensures ok ==> compiledShader[0] == compiler.program
    ensures ok ==> PiecesWritten(compiledShader[..], programs, compiler, |programs|)
    ensures forall k :: BlockStart(programs, |programs|) <= k < compiledShader.Length ==>
      compiledShader[k] == old(compiledShader[k])
  {
    var vertexVariables := CollectTexts(programs, VertexVariables);
    var vertexShader := CollectTexts(programs, VertexShader);
    var vertexSource := vertexVariables + [MainOpen] + vertexShader + [VertexEpilogue];
    if !compiler.compilesVertex(vertexSource) {
      return false;
    }
    var fragmentVariables := CollectTexts(programs, FragmentVariables);
    var fragmentShader := CollectTexts(programs, FragmentShader);
    var fragmentSource := [FragmentPrologue] + fragmentVariables + [MainOpen] + fragmentShader + [FragmentEpilogue];
    if !compiler.compilesFragment(fragmentSource) || !compiler.links(vertexSource, fragmentSource) {
      return false;
    }
    var i := 0;
    while i < |programs|
      invariant 0 <= i <= |programs|
      invariant compiledShader[0] == 0
      invariant PiecesWritten(compiledShader[..], programs, compiler, i)
      invariant forall k :: BlockStart(programs, i) <= k < compiledShader.Length ==>
        compiledShader[k] == old(compiledShader[k])
    {
      BlocksConsecutive(programs, i);
      BlockBefore(programs, i, |programs|);
      WritePiece(compiledShader, programs, i, compiler);
      i := i + 1;
    }
    ghost var d := compiledShader[..];
    compiledShader[0] := compiler.program;
    WrittenKeepsPieces(d, compiledShader[..], programs, compiler);
    ok := true;
  }

  /** One turn of the descriptor loop: piece i's offset slot and block. */
  method WritePiece(compiledShader: array<int>, programs: seq<ShaderProgram>, i: nat, compiler: ShaderCompiler)
    requires i < |programs| && BlockStart(programs, |programs|) <= compiledShader.Length
    requires PiecesWritten(compiledShader[..], programs, compiler, i)
    modifies compiledShader
    ensures PiecesWritten(compiledShader[..], programs, compiler, i + 1)
    ensures compiledShader[0] == old(compiledShader[0])
    ensures forall k :: BlockStart(programs, i + 1) <= k < compiledShader.Length ==>
      compiledShader[k] == old(compiledShader[k])
  {
    BlocksConsecutive(programs, i);
    BlockBefore(programs, i, |programs|);
    ghost var before := compiledShader[..];
    var start := BlockStart(programs, i);
    compiledShader[i + 1] := start;
    WriteArgumentBlock(compiledShader, start, programs[i].variables, compiler);
    PieceStep(before, compiledShader[..], programs, compiler, i);
  }

  /** Writing piece i's slot and block extends the layout of the first i
      pieces to i + 1 pieces without disturbing it. */
  lemma PieceStep(d: seq<int>, d1: seq<int>, programs: seq<ShaderProgram>, compiler: ShaderCompiler, i: nat)
    requires i < |programs| && |d1| == |d| && BlockStart(programs, |programs|) <= |d|
    requires BlockStart(programs, i) + |programs[i].variables| <= |d|
    requires PiecesWritten(d, programs, compiler, i)
    requires d1[i + 1] == BlockStart(programs, i)
    requires forall j :: 0 <= j < |programs[i].variables| ==>
      d1[BlockStart(programs, i) + j] == Location(compiler, programs[i].variables[j])
    requires forall k :: (0 <= k < |d| && k != i + 1 &&
      !(BlockStart(programs, i) <= k < BlockStart(programs, i) + |programs[i].variables|)) ==> d1[k] == d[k]
    ensures PiecesWritten(d1, programs, compiler, i + 1)
  {
    EarlierBlocksEnd(programs, i);
  }

  /** Setting slot 0 leaves the piece layout in place. */
  lemma WrittenKeepsPieces(d: seq<int>, d1: seq<int>, programs: seq<ShaderProgram>, compiler: ShaderCompiler)
    requires |d1| == |d| && forall k :: 0 < k < |d| ==> d1[k] == d[k]
    requires PiecesWritten(d, programs, compiler, |programs|)
    ensures PiecesWritten(d1, programs, compiler, |programs|)
  {
    assert forall i :: 0 <= i < |programs| ==> BlockStart(programs, i) > 0;
  }

  /** A later block starts no earlier than an earlier one ends. */
  lemma {:induction false} BlockBefore(programs: seq<ShaderProgram>, i: nat, n: nat)
    requires i < n <= |programs|
    ensures BlockStart(programs, i) + |programs[i].variables| <= BlockStart(programs, n)
    decreases n - i
  {
    BlocksConsecutive(programs, i);
    if i + 1 < n {
      BlockBefore(programs, i + 1, n);
      assert BlockStart(programs, i + 1) + |programs[i + 1].variables| <= BlockStart(programs, n);
    }
  }

  /** Every block before piece i ends by the start of piece i's block. */
  lemma EarlierBlocksEnd(programs: seq<ShaderProgram>, i: nat)
    requires i <= |programs|
    ensures forall i1 :: 0 <= i1 < i ==>
      BlockStart(programs, i1) + |programs[i1].variables| <= BlockStart(programs, i)
  {
    forall i1 | 0 <= i1 < i
      ensures BlockStart(programs, i1) + |programs[i1].variables| <= BlockStart(programs, i)
    {
      BlockBefore(programs, i1, i);
    }
  }

  // ---------------------------------------------------------------------
  // Quad indexes
  // ---------------------------------------------------------------------

  /** The six corners of the two triangles of a quad, of its four vertices. */
  function QuadCorner(k: int): int
    requires 0 <= k < 6
  {
    if k == 0 then 0 else if k == 1 || k == 3 then 1 else if k == 2 || k == 4 then 2 else 3
  }

  /** Entry i of the index buffer: each quad of six entries names the
      vertices of the previous quad plus 4. */
  function QuadIndex(i: nat): int
  {
    if i < 6 then QuadCorner(i) else QuadIndex(i - 6) + 4
  }

  /** Entry `6q + k` names corner k of quad q, whose vertices are 4q to 4q + 3. */
  lemma {:induction false} QuadIndexOf(q: nat, k: nat)
    requires k < 6
    ensures QuadIndex(6 * q + k) == 4 * q + QuadCorner(k)
    ensures 4 * q <= QuadIndex(6 * q + k) <= 4 * q + 3
  {
    if q > 0 {
      QuadIndexOf(q - 1, k);
    }
  }

  /** No entry exceeds its own position, so every entry of the buffer fits
      a `GLushort`. */
  lemma {:induction false} QuadIndexesFitUshort(i: nat)
    ensures 0 <= QuadIndex(i) <= i
    ensures i < MaximumNumberOfUshortQuads * 6 ==> QuadIndex(i) < 65536
  {
    if i >= 6 {
      QuadIndexesFitUshort(i - 6);
    }
  }

  /** The six entries of quad q. */
  method WriteQuad(quadIndexes: array<int>, current: nat, index: int, ghost q: nat)
    requires current == 6 * q && index == 4 * q && current + 6 <= quadIndexes.Length
    modifies quadIndexes
    ensures forall i :: 6 * q <= i < 6 * q + 6 ==> quadIndexes[i] == QuadIndex(i)
    ensures forall i :: 0 <= i < quadIndexes.Length && !(6 * q <= i < 6 * q + 6) ==> quadIndexes[i] == old(quadIndexes[i])
  {
    QuadIndexOf(q, 0);
    QuadIndexOf(q, 1);
    QuadIndexOf(q, 2);
    QuadIndexOf(q, 3);
    QuadIndexOf(q, 4);
    QuadIndexOf(q, 5);
    quadIndexes[current] := index;
    quadIndexes[current + 1] := index + 1;
    quadIndexes[current + 2] := index + 2;
    quadIndexes[current + 3] := index + 1;
    quadIndexes[current + 4] := index + 2;
    quadIndexes[current + 5] := index + 3;
  }

  /**
   * `initQuadIndexes`: quad q of the index buffer lists the triangles
   * (4q, 4q+1, 4q+2) and (4q+1, 4q+2, 4q+3), for `kMaximumNumberOfUshortQuads`
   * quads. The upload to the GL buffer object is left out; the buffer is
   * returned.
   */
  method InitQuadIndexes() returns (quadIndexes: array<int>)
    ensures fresh(quadIndexes) && quadIndexes.Length == MaximumNumberOfUshortQuads * 6
    ensures forall i :: 0 <= i < quadIndexes.Length ==> quadIndexes[i] == QuadIndex(i)
  {
    var bufferSize := MaximumNumberOfUshortQuads * 6;
    quadIndexes := new int[bufferSize];
    var currentQuad := 0;
    var index := 0;
    ghost var q: nat := 0;
    while currentQuad < bufferSize
      invariant currentQuad == 6 * q && index == 4 * q && currentQuad <= bufferSize
      invariant forall i :: 0 <= i < currentQuad ==> quadIndexes[i] == QuadIndex(i)
    {
      WriteQuad(quadIndexes, currentQuad, index, q);
      currentQuad := currentQuad + 6;
      index := index + 4;
      q := q + 1;
    }
  }

  // ---------------------------------------------------------------------
  // The drawing state
  // ---------------------------------------------------------------------

  /** `TyGLState`. The transform is kept as its type tag and matrix, the
      bounding clip rectangle as its edges (left, bottom, right, top). */
  datatype TyGLState = TyGLState(
    transformKind: T.Type,
    transform: T.Matrix,
    boundingClipRect: (int, int, int, int),
    clipMaskImage: Option<nat>,
    fillColoring: Coloring,
    strokeColoring: Coloring,
    strokeWidth: real,
    lineCapMode: LineCap,
    lineJoinMode: LineJoin,
    miterLimit: real,
    compositeOperator: CompositeOperator,
    blendMode: BlendMode)

  /** The state with a new transform matrix, its type re-detected. */
  function WithTransform(s: TyGLState, m: T.Matrix): TyGLState
  {
    TyGLState(T.DetectType(m), m, s.boundingClipRect, s.clipMaskImage, s.fillColoring, s.strokeColoring,
              s.strokeWidth, s.lineCapMode, s.lineJoinMode, s.miterLimit, s.compositeOperator, s.blendMode)
  }

  /** The transform's type tag describes its matrix. */
  ghost predicate TransformTagged(s: TyGLState)
  {
    s.transformKind == T.DetectType(s.transform)
  }

  /** What `m_coloring` points at: the state's fill coloring (after
      `resetColoring`) or a coloring handed to a single draw. */
  datatype ColoringSource = FillColoringOfState | GivenColoring(given: Coloring)

  class PlatformContext {
    /** The size of `m_targetTexture`. */
    const width: int
    const height: int
    var state: TyGLState
    var stack: seq<TyGLState>
    var coloringSource: ColoringSource

    /** Every saved and current transform is tagged by its matrix. */
    ghost predicate Valid()
      reads this
    {
      TransformTagged(state) && forall i :: 0 <= i < |stack| ==> TransformTagged(stack[i])
    }

    /** `*m_coloring`. */
    function CurrentColoring(): Coloring
      reads this
    {
      match coloringSource
      case FillColoringOfState => state.fillColoring
      case GivenColoring(c) => c
    }

    /**
     * `PlatformContextTyGL(targetTexture)`: the clip rectangle covers the
     * target, fill and stroke are solid black, the stroke is 1 wide with
     * butt caps and miter joins, and compositing is source-over with the
     * normal blend mode.
     */
    constructor (width: int, height: int)
      requires width >= 0 && height >= 0
      ensures Valid() && this.width == width && this.height == height
      ensures state.transformKind == T.Move && state.transform == T.Identity
      ensures state.boundingClipRect == (0, 0, width, height) && state.clipMaskImage == None
      ensures state.fillColoring == ColoringOfColor(Black) && state.strokeColoring == ColoringOfColor(Black)
      ensures state.strokeWidth == 1.0 && state.lineCapMode == ButtCap && state.lineJoinMode == MiterJoin
      ensures state.miterLimit == 0.0
      ensures state.compositeOperator == CompositeSourceOver && state.blendMode == BlendModeNormal
      ensures stack == [] && coloringSource == FillColoringOfState
    {
      var clip := new ClipRectTyGL.ClipRect();
      clip.SetDimension(width, height);
      this.width := width;
      this.height := height;
      state := TyGLState(T.Move, T.Identity, clip.Edges(), None,
                         SetColor(DefaultColoring, Black), SetColor(DefaultColoring, Black),
                         1.0, ButtCap, MiterJoin, 0.0, CompositeSourceOver, BlendModeNormal);
      stack := [];
      coloringSource := FillColoringOfState;
    }

    /** `save()`: pushes a copy of the state. */
    method Save()
      requires Valid()
      modifies this`stack
      ensures Valid() && stack == old(stack) + [state]
    {
      stack := stack + [state];
    }

    /** `restore()`: pops the last saved state into the current one. The
        source reads `m_stack.last()`, so the stack must not be empty. */
    method Restore()
      requires Valid() && |stack| > 0
      modifies this`state, this`stack
      ensures Valid()
      ensures state == old(stack[|stack| - 1]) && stack == old(stack[..|stack| - 1])
    {
      state := stack[|stack| - 1];
      stack := stack[..|stack| - 1];
    }

    /** `save()` followed by `restore()` leaves the state and the stack as they were. */
    method SaveThenRestore()
      requires Valid()
      modifies this`state, this`stack
      ensures Valid() && state == old(state) && stack == old(stack)
    {
      Save();
      Restore();
      assert old(stack) + [old(state)] == stack + [old(state)];
    }

    /** `setStrokeThickness`. */
    method SetStrokeThickness(thickness: real)
      modifies this`state
      ensures state == old(state).(strokeWidth := thickness)
    {
      state := state.(strokeWidth := thickness);
    }

    /** `setFillColor`, given `premultipliedARGBFromColor(color)`. */
    method SetFillColor(premultiplied: RGBA32)
      modifies this`state
      ensures state == old(state).(fillColoring := SetColor(old(state.fillColoring), premultiplied))
    {
      state := state.(fillColoring := SetColor(state.fillColoring, premultiplied));
    }

    /** `setStrokeColor`, given `premultipliedARGBFromColor(color)`. */
    method SetStrokeColor(premultiplied: RGBA32)
      modifies this`state
      ensures state == old(state).(strokeColoring := SetColor(old(state.strokeColoring), premultiplied))
    {
      state := state.(strokeColoring := SetColor(state.strokeColoring, premultiplied));
    }

    /** `setCompositeOperation`: the operator and the blend mode together. */
    method SetCompositeOperation(op: CompositeOperator, blendMode: BlendMode)
      modifies this`state
      ensures state == old(state).(compositeOperator := op, blendMode := blendMode)
    {
      state := state.(compositeOperator := op, blendMode := blendMode);
    }

    /** `setLineJoin`. */
    method SetLineJoin(joinMode: LineJoin)
      modifies this`state
      ensures state == old(state).(lineJoinMode := joinMode)
    {
      state := state.(lineJoinMode := joinMode);
    }

    /** `setLineCap`. */
    method SetLineCap(capMode: LineCap)
      modifies this`state
      ensures state == old(state).(lineCapMode := capMode)
    {
      state := state.(lineCapMode := capMode);
    }

    /** `setMiterLimit`. */
    method SetMiterLimit(miterLimit: real)
      modifies this`state
      ensures state == old(state).(miterLimit := miterLimit)
    {
      state := state.(miterLimit := miterLimit);
    }

    /** `translate(x, y)`, through `AffineTransform::translate`. */
    method Translate(x: real, y: real)
      requires Valid()
      modifies this`state
      ensures Valid()
      ensures state == WithTransform(old(state), T.Compose(old(state.transform), T.Translation(x, y)))
    {
      var t := new T.AffineTransform.FromMatrix(state.transform);
      t.Translate(x, y);
      state := WithTransform(state, t.transform);
    }

    /** `scale(sx, sy)`, through `AffineTransform::scale`. */
    method Scale(sx: real, sy: real)
      requires Valid()
      modifies this`state
      ensures Valid()
      ensures state == WithTransform(old(state), T.Compose(old(state.transform), T.Scaling(sx, sy)))
    {
      var t := new T.AffineTransform.FromMatrix(state.transform);
      t.Scale(sx, sy);
      state := WithTransform(state, t.transform);
    }

    /** `rotate(angle)`, given the cosine and sine of the angle. */
    method Rotate(cosAngle: real, sinAngle: real)
      requires Valid()
      modifies this`state
      ensures Valid()
      ensures state == WithTransform(old(state), T.Compose(old(state.transform), T.Rotation(cosAngle, sinAngle)))
    {
      var t := new T.AffineTransform.FromMatrix(state.transform);
      t.Rotate(cosAngle, sinAngle);
      state := WithTransform(state, t.transform);
    }

    /** `setTransform`: assignment from a matrix re-detects the type. */
    method SetTransform(m: T.Matrix)
      requires Valid()
      modifies this`state
      ensures Valid() && state == WithTransform(old(state), m)
    {
      state := WithTransform(state, m);
    }

    /** `multiplyTransform`: `*=` post-composes the matrix. */
    method MultiplyTransform(m: T.Matrix)
      requires Valid()
      modifies this`state
      ensures Valid() && state == WithTransform(old(state), T.Compose(old(state.transform), m))
    {
      var t := new T.AffineTransform.FromMatrix(state.transform);
      t.Multiply(m);
      state := WithTransform(state, t.transform);
    }

    /** `resetColoring()`: `m_coloring` points at the state's fill coloring again. */
    method ResetColoring()
      modifies this`coloringSource
      ensures coloringSource == FillColoringOfState && CurrentColoring() == state.fillColoring
    {
      coloringSource := FillColoringOfState;
    }

    /** `m_coloring = &coloring` in the draws that take their own coloring. */
    method UseColoring(coloring: Coloring)
      modifies this`coloringSource
      ensures CurrentColoring() == coloring
    {
      coloringSource := GivenColoring(coloring);
    }
  }
}
