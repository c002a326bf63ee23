# A Dafny model of WebKit bookkeeping cores

This project models, in Dafny, the sequential cores of a WebKit tree that
carries the TyGL 2-D graphics backend, and proves properties of the model.
Each source file of the core becomes one Dafny module (one `.dfy` file), in
the source's own form: pure generators and helpers become functions and
lemmas, and code that updates state in place becomes classes and methods
with loop invariants, proved against specification functions.

The cores are:

- **Inspector protocol code generators** (Python). The C++ backend
  dispatcher generator and the Objective-C frontend dispatcher generator
  turn a protocol schema of domains, commands, events and parameters into
  text. The text is modelled as a sequence of abstract lines. The type
  helpers the generators call, which live in files outside this model,
  are the functions of an oracle value (`CppTypeOracle`, `ObjCTypeOracle`).
- **TyGL renderer data structures** (C++). These are:
  - the skyline glyph-atlas packer and its texture atlas, and the texture
    font cache over it;
  - the bump arena, the clip rectangle, and the `min`/`max`/`clamp` helpers;
  - the affine transform and the path element list;
  - the trapezoid builder's red-black line tree;
  - the pipeline buffer's strided attribute writes, the platform context's
    state stack, quad indexes and shader descriptors;
  - the shader hash, shader composition and 16-entry LRU shader cache;
  - path-batch layout, gradient stop sorting and the stop texture, and the
    dash arithmetic of border lines.
- **WebCore and JavaScriptCore bookkeeping** (C++):
  - the memory cache's capacity arithmetic, size accounting and LRU lists;
  - the bytecode generator's labels, jump patching, compare-and-jump
    fusion, register and label reclamation, constant pools, exception
    handlers and switch jump tables;
  - the CSS selector compiler's function-type lattice, `:nth-child`
    filters, attribute matchers and backtracking actions;
  - resource-request serialisation, `WTF::Ref`, the `arguments`
    slow-argument table, SVG animation type rules, glyph-metric
    memoisation in `Font`, and font cache key packing.
- **JavaScript helpers**: `RemoteObject.js` of the Web Inspector (typing,
  property and collection requests, `arrayLength`) and the test-matrix
  generator of the HTTP cache layout tests (`cache-test.js`).

Floating-point values are modelled as `real`, so arithmetic on them is
exact. C++ integer widths are modelled where the code depends on them:
`uint32` with explicit wrap-around in the memory cache, `bv32` in the
shader hash and font cache key, and an explicit 32-bit wrap in the
`:nth-child` test. GPU calls, FreeType, IPC, clocks and the inspector's
backend agents become parameters, oracles or returned records.

## Model

| member | source | states |
|---|---|---|
| TyGLDefs.Max | Source/WebCore/platform/graphics/tygl/TyGLDefs.h:37 | the result is one of the arguments and at least both |
| TyGLDefs.Min | Source/WebCore/platform/graphics/tygl/TyGLDefs.h:38 | the result is one of the arguments and at most both |
| TyGLDefs.MaxReal | Source/WebCore/platform/graphics/tygl/TyGLDefs.h:40 | the float maximum is one of the arguments and at least both |
| TyGLDefs.MinReal | Source/WebCore/platform/graphics/tygl/TyGLDefs.h:41 | the float minimum is one of the arguments and at most both |
| TyGLDefs.Clamp | Source/WebCore/platform/graphics/tygl/TyGLDefs.h:43 | the result never exceeds maxValue; in a non-empty range it lies inside it, a value inside is kept, one below gives minValue and one above gives maxValue |
| TyGLDefs.ClampEmptyRange | Source/WebCore/platform/graphics/tygl/TyGLDefs.h:43 | with minValue > maxValue the upper bound wins |
| TyGLDefs.ClampMonotone | Source/WebCore/platform/graphics/tygl/TyGLDefs.h:43 | clamping preserves the order of values |
| TyGLDefs.ClampIdempotent | Source/WebCore/platform/graphics/tygl/TyGLDefs.h:43 | clamping a clamped value into the same non-empty range changes nothing |
| ClipRectTyGL.ClipRect.Edges | Source/WebCore/platform/graphics/tygl/ClipRectTyGL.h:45-48 | the integer edges in the order left, bottom, right, top |
| ClipRectTyGL.ClipRect.constructor | Source/WebCore/platform/graphics/tygl/ClipRectTyGL.cpp:34-45 | every edge 0, float edges mirroring the integer ones |
| ClipRectTyGL.ClipRect.FromEdges | Source/WebCore/platform/graphics/tygl/ClipRectTyGL.cpp:47-60 | the given ordered edges, float edges mirroring them |
| ClipRectTyGL.ClipRect.CreateRect | Source/WebCore/platform/graphics/tygl/ClipRectTyGL.h:40-43 | the clip of an IntRect has edges x, y, maxX, maxY |
| ClipRectTyGL.ClipRect.MirrorEdges | Source/WebCore/platform/graphics/tygl/ClipRectTyGL.cpp:71-74 | the float edges become the integer edges |
| ClipRectTyGL.ClipRect.Intersect | Source/WebCore/platform/graphics/tygl/ClipRectTyGL.cpp:62-75 | the edges become the sequentially clamped edges (right and top clamped against the already updated left and bottom), mirrored in floats, and an ordered clip stays ordered |
| ClipRectTyGL.ClipRect.IntersectRect | Source/WebCore/platform/graphics/tygl/ClipRectTyGL.h:56-59 | intersecting with an IntRect intersects with its edges x, y, maxX, maxY |
| ClipRectTyGL.ClipRect.Assign | Source/WebCore/platform/graphics/tygl/ClipRectTyGL.cpp:77-88 | assignment stores x, y, maxX, maxY, mirrored in floats, with no ordering check |
| ClipRectTyGL.ClipRect.SetDimension | Source/WebCore/platform/graphics/tygl/ClipRectTyGL.cpp:90-103 | the clip becomes (0, 0, width, height) |
| ClipRectTyGL.ClipRect.Intersects | Source/WebCore/platform/graphics/tygl/ClipRectTyGL.h:61-64 | true only when the open rectangles' edges interleave, and for proper rectangles exactly when the two intervals overlap on both axes |
| ClipRectTyGL.ClipRect.IntersectsRect | Source/WebCore/platform/graphics/tygl/ClipRectTyGL.h:66-69 | a FloatRect intersects the clip exactly when the box from its x, y to its maxX, maxY does |
| ClipRectTyGL.ClipRect.Size | Source/WebCore/platform/graphics/tygl/ClipRectTyGL.h:75-78 | the size is (right - left, top - bottom), non-negative for an ordered clip |
| ClipRectTyGL.IntersectEdges | Source/WebCore/platform/graphics/tygl/ClipRectTyGL.cpp:66-69 | the clamped edges of an ordered clip lie inside it and stay ordered |
| ClipRectTyGL.IntersectIsIntersection | Source/WebCore/platform/graphics/tygl/ClipRectTyGL.cpp:62-75 | for overlapping rectangles intersect yields exactly their intersection (max of the lower edges, min of the upper) |
| ClipRectTyGL.IntersectWithContaining | Source/WebCore/platform/graphics/tygl/ClipRectTyGL.cpp:62-75 | intersecting with a containing rectangle changes nothing |
| ClipRectTyGL.OverlapMeansCommonPoint | Source/WebCore/platform/graphics/tygl/ClipRectTyGL.h:61-64 | the interval test holds exactly when the open intervals have a common point |
| ClipRectTyGL.TouchingDoesNotIntersect | Source/WebCore/platform/graphics/tygl/ClipRectTyGL.h:61-64 | rectangles that only share an edge do not intersect |
| ArenaTyGL.Block.constructor | Source/WebCore/platform/graphics/tygl/ArenaTyGL.h:46-52 | a new block has no successor |
| ArenaTyGL.Place | Source/WebCore/platform/graphics/tygl/ArenaTyGL.cpp:32-44 | a request that does not fit after the fill starts a new block; the new fill is the offset plus the size |
| ArenaTyGL.PlacementInBlock | Source/WebCore/platform/graphics/tygl/ArenaTyGL.cpp:32-44 | a request no larger than a block lands inside one block and the fill stays within the block |
| ArenaTyGL.FillAfter | Source/WebCore/platform/graphics/tygl/ArenaTyGL.cpp:32-44 | a run of allocations never goes back to an earlier block |
| ArenaTyGL.Allocations | Source/WebCore/platform/graphics/tygl/ArenaTyGL.cpp:32-44 | one allocation per request, of the requested length, never in a block before the starting one |
| ArenaTyGL.AllocationsDisjoint | Source/WebCore/platform/graphics/tygl/ArenaTyGL.cpp:32-44 | every allocation of a run lies within its block, blocks are used in order, allocations sharing a block do not overlap, and those in the starting block begin at or after its fill |
| ArenaTyGL.ConsecutiveContiguous | Source/WebCore/platform/graphics/tygl/ArenaTyGL.cpp:40-41 | two allocations in the same block are adjacent |
| ArenaTyGL.Arena.constructor | Source/WebCore/platform/graphics/tygl/ArenaTyGL.cpp:46-51 | a new arena has one fresh empty block that is both first and last |
| ArenaTyGL.Arena.Alloc | Source/WebCore/platform/graphics/tygl/ArenaTyGL.cpp:32-44 | the block and offset are the placement of the request; a new block is linked after the last and becomes the last; the first block never changes and a request no larger than a block fits |
| ArenaTyGL.Arena.Destroy | Source/WebCore/platform/graphics/tygl/ArenaTyGL.cpp:53-60 | the destructor loop releases every block of the chain, in order, and leaves first null |
| FontTextureAtlasSkyline.Seeded | Source/WebCore/platform/graphics/tygl/FontTextureAtlasTyGL.cpp:118-124 | an empty node list is seeded with the node (1, 0, width - 2, 1), which is a skyline; a non-empty one is kept |
| FontTextureAtlasSkyline.SumWidthsSpan | Source/WebCore/platform/graphics/tygl/FontTextureAtlasTyGL.cpp:51-62 | the widths of contiguous nodes from one on add up to the distance from its left edge to the last right edge |
| FontTextureAtlasSkyline.LeftEdgesIncrease | Source/WebCore/platform/graphics/tygl/FontTextureAtlasTyGL.cpp:51-62 | in a skyline each node lies right of every earlier one |
| FontTextureAtlasSkyline.FitFromSpan | Source/WebCore/platform/graphics/tygl/FontTextureAtlasTyGL.cpp:49-64 | the loop of `fit` returns -1 exactly when some node under the region (or the start) reaches the atlas top with the region added; otherwise the highest bottom among the nodes under the region, at least the starting y and below the top |
| FontTextureAtlasSkyline.FitPlacement | Source/WebCore/platform/graphics/tygl/FontTextureAtlasTyGL.cpp:39-65 | `fit` fails exactly when the region runs past the right border or some node under it would push it past the top; on success the region fits below the top and y is the highest bottom of the nodes it spans |
| FontTextureAtlasSkyline.FitEmptyWidth | Source/WebCore/platform/graphics/tygl/FontTextureAtlasTyGL.cpp:46-64 | a region of width zero or less skips the loop: -1 past the right border, else the node's own bottom with no height check |
| FontTextureAtlasSkyline.ProfileSpan | Source/WebCore/platform/graphics/tygl/FontTextureAtlasTyGL.cpp:51-62 | contiguous nodes give one column entry per column they cover |
| FontTextureAtlasSkyline.ProfileColumn | Source/WebCore/platform/graphics/tygl/FontTextureAtlasTyGL.cpp:53 | a column's entry is the bottom of the node covering it |
| FontTextureAtlasSkyline.CoveringNode | Source/WebCore/platform/graphics/tygl/FontTextureAtlasTyGL.cpp:51-62 | every column between the outer edges lies under some node |
| FontTextureAtlasSkyline.FitColumns | Source/WebCore/platform/graphics/tygl/FontTextureAtlasTyGL.cpp:39-65 | a fitted y is at least every column under the region and equal to one of them |
| FontTextureAtlasSkyline.Moved | Source/WebCore/platform/graphics/tygl/FontTextureAtlasTyGL.cpp:97-99 | a node shrunk against the previous right edge starts there and keeps its right and bottom edges |
| FontTextureAtlasSkyline.ShrinkMovedForm | Source/WebCore/platform/graphics/tygl/FontTextureAtlasTyGL.cpp:94-102 | the first node overlapped but not covered is moved right and the loop stops |
| FontTextureAtlasSkyline.ShrinkMovedSkyline | Source/WebCore/platform/graphics/tygl/FontTextureAtlasTyGL.cpp:94-102 | moving that node keeps a skyline |
| FontTextureAtlasSkyline.ShrinkMovedProfile | Source/WebCore/platform/graphics/tygl/FontTextureAtlasTyGL.cpp:94-102 | moving that node cuts off exactly the columns the previous node covers |
| FontTextureAtlasSkyline.ShrinkStep | Source/WebCore/platform/graphics/tygl/FontTextureAtlasTyGL.cpp:90-107 | with no node left or no overlap the list is unchanged; a covered node is removed and the loop goes on |
| FontTextureAtlasSkyline.ShrinkReadyAfterRemoval | Source/WebCore/platform/graphics/tygl/FontTextureAtlasTyGL.cpp:104-106 | removing a covered node keeps the conditions the loop starts from |
| FontTextureAtlasSkyline.RemovedDrop | Source/WebCore/platform/graphics/tygl/FontTextureAtlasTyGL.cpp:104-106 | dropping a covered node's columns leaves the following nodes' columns cut from the same edge |
| FontTextureAtlasSkyline.ShrinkSkyline | Source/WebCore/platform/graphics/tygl/FontTextureAtlasTyGL.cpp:85-108 | `shrinkNodes` after the inserted node leaves a skyline |
| FontTextureAtlasSkyline.ShrinkProfile | Source/WebCore/platform/graphics/tygl/FontTextureAtlasTyGL.cpp:85-108 | after `shrinkNodes` the columns are the prefix's followed by the rest's with the overlapped columns cut off |
| FontTextureAtlasSkyline.Widened | Source/WebCore/platform/graphics/tygl/FontTextureAtlasTyGL.cpp:77 | widening a node keeps its left and bottom edges and moves its right edge by the extra width |
| FontTextureAtlasSkyline.MergeAt | Source/WebCore/platform/graphics/tygl/FontTextureAtlasTyGL.cpp:76-78 | merging two neighbours removes one node |
| FontTextureAtlasSkyline.MergeAtEntries | Source/WebCore/platform/graphics/tygl/FontTextureAtlasTyGL.cpp:76-78 | after a merge the nodes before are kept, the merged node is widened and the later ones shift down by one |
| FontTextureAtlasSkyline.MergeAtProfile | Source/WebCore/platform/graphics/tygl/FontTextureAtlasTyGL.cpp:76-78 | merging neighbours of the same bottom keeps every column |
| FontTextureAtlasSkyline.MergeAtContiguous | Source/WebCore/platform/graphics/tygl/FontTextureAtlasTyGL.cpp:76-78 | a merge keeps the nodes contiguous |
| FontTextureAtlasSkyline.MergeAtSkyline | Source/WebCore/platform/graphics/tygl/FontTextureAtlasTyGL.cpp:76-80 | a merge keeps the skyline, its columns, and the bottoms up to the merged node |
| FontTextureAtlasSkyline.MergeAtShape | Source/WebCore/platform/graphics/tygl/FontTextureAtlasTyGL.cpp:76-78 | a merge of any two neighbours keeps the skyline shape |
| FontTextureAtlasSkyline.MergeSkyline | Source/WebCore/platform/graphics/tygl/FontTextureAtlasTyGL.cpp:67-83 | `mergeNodes` keeps the skyline and every column, and leaves no two neighbours with the same bottom |
| FontTextureAtlasSkyline.SelectBest | Source/WebCore/platform/graphics/tygl/FontTextureAtlasTyGL.cpp:114-140 | the search finds no candidate exactly when no node fits; otherwise the kept candidate fits, no fitting node is better (lower bottom, then narrower) and every earlier fitting node is worse, with region x the node's x and region y its fit |
| FontTextureAtlasSkyline.SpliceColumns | Source/WebCore/platform/graphics/tygl/FontTextureAtlasTyGL.cpp:145-150 | replacing w columns by a constant raises exactly those columns |
| FontTextureAtlasSkyline.PlacedReady | Source/WebCore/platform/graphics/tygl/FontTextureAtlasTyGL.cpp:145-148 | inserting the region before the best node gives the list `shrinkNodes` expects |
| FontTextureAtlasSkyline.PlacedShape | Source/WebCore/platform/graphics/tygl/FontTextureAtlasTyGL.cpp:145-150 | after insert, shrink and merge the nodes form a skyline with no equal neighbours whose columns under the region are its bottom |
| FontTextureAtlasSkyline.SplitColumns | Source/WebCore/platform/graphics/tygl/FontTextureAtlasTyGL.cpp:145 | the columns left of node b are x - 1 and those from it on reach the right border |
| FontTextureAtlasSkyline.PlacedColumns | Source/WebCore/platform/graphics/tygl/FontTextureAtlasTyGL.cpp:145-150 | placing a region raises exactly the columns under it to its bottom edge and keeps every other column |
| FontTextureAtlasSkyline.AllocateSpec | Source/WebCore/platform/graphics/tygl/FontTextureAtlasTyGL.cpp:110-154 | `region` returns (-1, -1, 0, 0) with the nodes unchanged exactly when no node fits; otherwise the region at the best node's x and fitted y, inside the 1-pixel border, resting on the highest column under it; afterwards the nodes are a skyline without equal neighbours whose columns under the region are its bottom and all others unchanged |
| FontTextureAtlasTyGL.RaiseKeepsRegions | Source/WebCore/platform/graphics/tygl/FontTextureAtlasTyGL.cpp:145-150 | raising the columns under a new region that rests on them keeps every earlier region under the profile and disjoint from the new one |
| FontTextureAtlasTyGL.AreaAppend | Source/WebCore/platform/graphics/tygl/FontTextureAtlasTyGL.cpp:152 | one more region adds its area |
| FontTextureAtlasTyGL.AllocationKeepsRegions | Source/WebCore/platform/graphics/tygl/FontTextureAtlasTyGL.cpp:110-154 | a successful `region` keeps the skyline, returns a region inside the border that overlaps no earlier region, and adds width times height to the allocated area |
| FontTextureAtlasTyGL.RowColumn | Source/WebCore/platform/graphics/tygl/FontTextureAtlasTyGL.cpp:173-183 | row q, column rem of a store w bytes wide is byte q * w + rem and no other |
| FontTextureAtlasTyGL.GlyphCell | Source/WebCore/platform/graphics/tygl/FontTextureAtlasTyGL.cpp:173-183 | glyph byte (r, c) goes to store byte (y + r) * width + x + c and is read from bitmap byte r * stride + c |
| FontTextureAtlasTyGL.GlyphInBounds | Source/WebCore/platform/graphics/tygl/FontTextureAtlasTyGL.cpp:165-183 | a glyph inside the border writes only store bytes that exist and reads only bitmap bytes it holds |
| FontTextureAtlasTyGL.RowsLeft | Source/WebCore/platform/graphics/tygl/FontTextureAtlasTyGL.cpp:174-176 | with a positive stride another row is left exactly while fewer than height rows were copied |
| FontTextureAtlasTyGL.PaintByte | Source/WebCore/platform/graphics/tygl/FontTextureAtlasTyGL.cpp:179-180 | copying the next byte of a row extends the painted part by that byte |
| FontTextureAtlasTyGL.PaintRow | Source/WebCore/platform/graphics/tygl/FontTextureAtlasTyGL.cpp:182-183 | a finished row starts the next one |
| FontTextureAtlasTyGL.PaintedAll | Source/WebCore/platform/graphics/tygl/FontTextureAtlasTyGL.cpp:176-184 | after every row exactly the glyph's bytes come from the bitmap and all other bytes keep their value |
| FontTextureAtlasTyGL.GlyphWithinBounds | Source/WebCore/platform/graphics/tygl/FontTextureAtlasTyGL.cpp:165-168 | every byte of a glyph inside the border lies in the store and reads a byte the bitmap holds |
| FontTextureAtlasTyGL.NextRow | Source/WebCore/platform/graphics/tygl/FontTextureAtlasTyGL.cpp:182-183 | skipping the rest of a row lands on the next row in the store and in the bitmap |
| FontTextureAtlasTyGL.DisjointGlyphsDoNotShareBytes | Source/WebCore/platform/graphics/tygl/FontTextureAtlasTyGL.cpp:173-183 | glyphs copied into disjoint regions touch no common store byte |
| FontTextureAtlasTyGL.FontTextureAtlas.constructor | Source/WebCore/platform/graphics/tygl/FontTextureAtlasTyGL.h:58-64 | the store holds (width * height + 3) / 4 zeroed 32-bit words, there are no nodes, no used memory, nothing dirty |
| FontTextureAtlasTyGL.FontTextureAtlas.Fit | Source/WebCore/platform/graphics/tygl/FontTextureAtlasTyGL.cpp:39-65 | the loop computes the skyline fit function |
| FontTextureAtlasTyGL.FontTextureAtlas.MergeNodes | Source/WebCore/platform/graphics/tygl/FontTextureAtlasTyGL.cpp:67-83 | the loop computes the merge of equal-bottom neighbours and changes nothing else |
| FontTextureAtlasTyGL.FontTextureAtlas.ShrinkNodes | Source/WebCore/platform/graphics/tygl/FontTextureAtlasTyGL.cpp:85-108 | the loop computes the shrink of the nodes after the inserted one and changes nothing else |
| FontTextureAtlasTyGL.FontTextureAtlas.SearchCandidates | Source/WebCore/platform/graphics/tygl/FontTextureAtlasTyGL.cpp:114-140 | the candidate loop returns the best index and region of the selection function |
| FontTextureAtlasTyGL.FontTextureAtlas.Place | Source/WebCore/platform/graphics/tygl/FontTextureAtlasTyGL.cpp:145-152 | inserting, shrinking and merging give the allocation function's nodes; used memory grows by the region's area; the region lies inside the border and overlaps no earlier region |
| FontTextureAtlasTyGL.FontTextureAtlas.Region | Source/WebCore/platform/graphics/tygl/FontTextureAtlasTyGL.cpp:110-154 | `region` seeds an empty atlas, then agrees with the allocation function; on failure nothing is allocated, on success the area is counted and the region is new, inside the border and disjoint from earlier ones |
| FontTextureAtlasTyGL.FontTextureAtlas.CopyRow | Source/WebCore/platform/graphics/tygl/FontTextureAtlasTyGL.cpp:176-183 | one row of the glyph is copied and both offsets advance by the region width |
| FontTextureAtlasTyGL.FontTextureAtlas.CopyGlyphBitmapToRegion | Source/WebCore/platform/graphics/tygl/FontTextureAtlasTyGL.cpp:156-193 | with depth 1 exactly the glyph's bytes are copied from the bitmap into the store and the atlas is dirty; any other depth changes nothing |
| FontTextureAtlasTyGL.FontTextureAtlas.Update | Source/WebCore/platform/graphics/tygl/FontTextureAtlasTyGL.cpp:195-204 | an upload happens exactly when the atlas was dirty, after which it is clean |
| TextureFontTyGL.MetricsFor | Source/WebCore/platform/graphics/tygl/TextureFontTyGL.cpp:74-79 | the cached metrics hold the bitmap's size and bearing and the region's position, and the texture region is that rectangle divided by the atlas size |
| TextureFontTyGL.GrowSpec | Source/WebCore/platform/graphics/tygl/TextureFontTyGL.cpp:158-159 | the inner loop doubles the side to the first square holding the reserved space: the result is the side doubled, its square holds the space, and half of it would not (unless no doubling happened) |
| TextureFontTyGL.DoublingOfDouble | Source/WebCore/platform/graphics/tygl/TextureFontTyGL.cpp:158-166 | a side doubled from twice a base is doubled from the base |
| TextureFontTyGL.AtlasSizeSpec | Source/WebCore/platform/graphics/tygl/TextureFontTyGL.cpp:146-171 | `calculateAtlasSize` stops at a count of 32, 16, 8, 4 or 2 with a square side, doubled from 64, holding that many characters, no larger than 1024 unless the count reached 2, and minimal unless it is 64 or the 1024 restart value |
| TextureFontTyGL.DoublingFrom1024 | Source/WebCore/platform/graphics/tygl/TextureFontTyGL.cpp:166 | a side doubled from 1024 is doubled from 64 |
| TextureFontTyGL.AtlasSideBounded | Source/WebCore/platform/graphics/tygl/TextureFontTyGL.cpp:156-159 | when the reserved space fits in 32 bits, so does the side, which lies between 64 and 92682 |
| TextureFontTyGL.DoublingAtLeast | Source/WebCore/platform/graphics/tygl/TextureFontTyGL.cpp:158-159 | doubling never makes a side smaller |
| TextureFontTyGL.ExpandedSizeSpec | Source/WebCore/platform/graphics/tygl/TextureFontTyGL.cpp:97-122 | `expandAtlas` doubles the height up to 4096 while the height is below it, then the width the same way, and reports the empty size exactly when both are at the maximum; a new size is strictly larger and stays within the maximum |
| TextureFontTyGL.TextureFont.constructor | Source/WebCore/platform/graphics/tygl/TextureFontTyGL.cpp:41-52 | a font starts with no atlas and no cached glyphs |
| TextureFontTyGL.TextureFont.CalculateAtlasSize | Source/WebCore/platform/graphics/tygl/TextureFontTyGL.cpp:146-171 | the do/while loop returns a square whose side is the atlas plan's |
| TextureFontTyGL.TextureFont.CreateAtlas | Source/WebCore/platform/graphics/tygl/TextureFontTyGL.cpp:85-95 | an existing atlas is kept with its glyphs; otherwise a fresh empty atlas of the calculated size is created |
| TextureFontTyGL.TextureFont.Glyph | Source/WebCore/platform/graphics/tygl/TextureFontTyGL.cpp:41-83 | a cached code returns its metrics unchanged; a load failure returns empty metrics and FreeType's error; AtlasFullError (with empty metrics) is returned exactly when the seeded skyline allocation of the bitmap size plus one finds no room, and the node list becomes the allocation's; otherwise the glyph's metrics are cached and its reserved region, one pixel wider and taller, is added disjoint from every earlier one |
| TextureFontTyGL.TextureFont.PlaceGlyph | Source/WebCore/platform/graphics/tygl/TextureFontTyGL.cpp:59-82 | after a successful load the glyph is rejected as AtlasFullError exactly when the seeded skyline allocation of the bitmap size plus one finds no room, with the node list becoming the allocation's; otherwise it is copied into a new disjoint region and cached |
| TextureFontTyGL.TextureFont.ExpandAtlas | Source/WebCore/platform/graphics/tygl/TextureFontTyGL.cpp:97-144 | expansion fails exactly when the size cannot grow, keeping atlas and cache; otherwise a fresh atlas of the expanded size replaces it and every code the cache held is re-requested once, in a returned order; request i turns the node list trail[i] into trail[i + 1] by the seeded skyline allocation, starting from the empty list and ending at the atlas's nodes; a code is refused exactly when its allocation found no room at its turn, and every other old code is cached again |
| TextureFontTyGL.TextureFont.RequestAll | Source/WebCore/platform/graphics/tygl/TextureFontTyGL.cpp:134-141 | on a fresh atlas with no nodes and an empty cache, every given code is requested exactly once in the returned order, each turn's node list following from the previous one by the seeded skyline allocation; the refused codes are exactly those whose turn found no room, and all other codes end up cached |
| TextureFontTyGL.TextureFont.RequestAgain | Source/WebCore/platform/graphics/tygl/TextureFontTyGL.cpp:138-140 | re-requesting a rendered code that is no longer cached is refused exactly when the seeded skyline allocation finds no room, the node list becoming the allocation's; it adds exactly that code to the cache when not refused and leaves the cache keys alone when refused, leaving the atlas object in place |
| TransformTyGL.DetectType | Source/WebCore/platform/graphics/tygl/TransformTyGL.cpp:34-43 | the type is Move exactly when the linear part is the identity |
| TransformTyGL.ComposeMaps | Source/WebCore/platform/graphics/tygl/TransformTyGL.cpp:45-62 | the product `multiply` computes maps a point as the argument and then the old transform do |
| TransformTyGL.MapDeterminesMatrix | Source/WebCore/platform/graphics/tygl/TransformTyGL.h:88-96 | two matrices that map every point alike are equal |
| TransformTyGL.IdentityMapsAlike | Source/WebCore/platform/graphics/tygl/TransformTyGL.cpp:32 | `kIdentity` maps every point to itself |
| TransformTyGL.InverseIsInverse | Source/WebCore/platform/graphics/tygl/TransformTyGL.cpp:95-118 | for a non-singular transform the inverse matrix composed with it either way round is the identity, for Move and Affine alike |
| TransformTyGL.InverseEntries | Source/WebCore/platform/graphics/tygl/TransformTyGL.cpp:104-115 | each entry divided by the determinant is the adjugate scaled by one over it |
| TransformTyGL.AdjugateRight | Source/WebCore/platform/graphics/tygl/TransformTyGL.cpp:108-115 | the matrix times its scaled adjugate is the identity |
| TransformTyGL.AdjugateLeft | Source/WebCore/platform/graphics/tygl/TransformTyGL.cpp:108-115 | the scaled adjugate times the matrix is the identity |
| TransformTyGL.MoveIsNonSingular | Source/WebCore/platform/graphics/tygl/TransformTyGL.cpp:98-102 | a Move has determinant 1, so its negated translation is its inverse |
| TransformTyGL.SingularInverse | Source/WebCore/platform/graphics/tygl/TransformTyGL.cpp:104-106 | a singular transform has no inverse, and `inverse()` returns the identity |
| TransformTyGL.DeterminantOfProduct | Source/WebCore/platform/graphics/tygl/TransformTyGL.cpp:45-62 | the determinant of a product is the product of the determinants |
| TransformTyGL.Floor | Source/WebCore/platform/graphics/tygl/TransformTyGL.h:72 | floor returns the whole number at most x and within one of it |
| TransformTyGL.Ceil | Source/WebCore/platform/graphics/tygl/TransformTyGL.h:75 | ceil returns the whole number at least x and within one of it |
| TransformTyGL.Min4 | Source/WebCore/platform/graphics/tygl/TransformTyGL.h:70-72 | the least of four numbers |
| TransformTyGL.Max4 | Source/WebCore/platform/graphics/tygl/TransformTyGL.h:73-75 | the greatest of four numbers |
| TransformTyGL.OutboundRect | Source/WebCore/platform/graphics/tygl/TransformTyGL.h:68-83 | the rectangle holds all four points and each edge is within one unit of the nearest point |
| TransformTyGL.BoundsOf | Source/WebCore/platform/graphics/tygl/TransformTyGL.h:82 | the rectangle's edges are the given whole numbers |
| TransformTyGL.MappedCorners | Source/WebCore/platform/graphics/tygl/TransformTyGL.h:126-132 | four corners, each the rectangle's corner mapped by the matrix |
| TransformTyGL.MoveBoundsAgree | Source/WebCore/platform/graphics/tygl/TransformTyGL.h:105-123 | for a Move and a rectangle of non-negative size the shortcut's rounded edges equal the `outboundRect` of the moved corners |
| TransformTyGL.MoveMaps | Source/WebCore/platform/graphics/tygl/TransformTyGL.h:90-91 | a Move maps a point by adding the translation, as the full formula does |
| TransformTyGL.ComposeEntries | Source/WebCore/platform/graphics/tygl/TransformTyGL.cpp:52-59 | the product's entries, with the translation part updated only when the argument has one |
| TransformTyGL.AffineTransform.constructor | Source/WebCore/platform/graphics/tygl/TransformTyGL.h:48-52 | the default transform is the identity tagged Move |
| TransformTyGL.AffineTransform.FromMatrix | Source/WebCore/platform/graphics/tygl/TransformTyGL.h:54-58 | the transform holds the given matrix and a type tag consistent with it |
| TransformTyGL.AffineTransform.IsIdentity | Source/WebCore/platform/graphics/tygl/TransformTyGL.h:63-66 | true exactly when the matrix is the identity |
| TransformTyGL.AffineTransform.Apply | Source/WebCore/platform/graphics/tygl/TransformTyGL.h:88-96 | a point is mapped by the matrix, the Move shortcut included |
| TransformTyGL.AffineTransform.ApplyRect | Source/WebCore/platform/graphics/tygl/TransformTyGL.h:98-138 | the four corners are mapped in the order (left, bottom), (right, bottom), (left, top), (right, top); no rectangle is returned unless asked for; otherwise the `outboundRect` of the corners for an affine transform or a rectangle of non-negative size, and for every Move the first corner rounded down and the last corner rounded up |
| TransformTyGL.AffineTransform.Assign | Source/WebCore/platform/graphics/tygl/TransformTyGL.h:140-144 | type and matrix are copied |
| TransformTyGL.AffineTransform.AssignMatrix | Source/WebCore/platform/graphics/tygl/TransformTyGL.h:146-150 | the matrix is set and its type detected |
| TransformTyGL.AffineTransform.Multiply | Source/WebCore/platform/graphics/tygl/TransformTyGL.cpp:45-62 | the new matrix is the old one times the argument, with the type detected |
| TransformTyGL.AffineTransform.Translate | Source/WebCore/platform/graphics/tygl/TransformTyGL.cpp:64-74 | translating equals multiplying by the translation matrix, and a Move stays a Move |
| TransformTyGL.AffineTransform.Scale | Source/WebCore/platform/graphics/tygl/TransformTyGL.cpp:76-80 | scaling multiplies by the scaling matrix |
| TransformTyGL.AffineTransform.Rotate | Source/WebCore/platform/graphics/tygl/TransformTyGL.cpp:82-88 | rotating multiplies by the rotation matrix of the given cosine and sine |
| TransformTyGL.AffineTransform.InverseAsWritten | Source/WebCore/platform/graphics/tygl/TransformTyGL.cpp:95-118 | the source's inverse: the inverse matrix, but always tagged Move |
| TransformTyGL.AffineTransform.Inverse | Source/WebCore/platform/graphics/tygl/TransformTyGL.cpp:95-118 | the inverse matrix with its type detected, so the result is consistent and, when non-singular, composes with the transform to the identity |
| TransformTyGL.InverseTagMismatch | Source/WebCore/platform/graphics/tygl/TransformTyGL.cpp:95-118 | the source's inverse of scale(2, 2) is tagged Move, so `apply` leaves (1, 1) in place while its matrix maps it to (0.5, 0.5) |
| PathTyGL.LastStart | Source/WebCore/platform/graphics/tygl/PathTyGL.h:242-283 | the index found is an element that starts a subpath |
| PathTyGL.LastStartIsLast | Source/WebCore/platform/graphics/tygl/PathTyGL.h:242-283 | it is the last such element, and when none is found no element starts a subpath |
| PathTyGL.Appended | Source/WebCore/platform/graphics/tygl/PathTyGL.cpp:44-56 | appending keeps the subpath start an element of the list |
| PathTyGL.MoveToSpec | Source/WebCore/platform/graphics/tygl/PathTyGL.h:235-243 | `moveTo`, stated on the element list: keeps the subpath start an element |
| PathTyGL.LineToSpec | Source/WebCore/platform/graphics/tygl/PathTyGL.h:245-257 | after `addLineTo` the path ends at the given point |
| PathTyGL.CurveStart | Source/WebCore/platform/graphics/tygl/PathTyGL.h:261-271 | an element-less path first gets a MoveTo to the first control point that starts the subpath; any other path is unchanged |
| PathTyGL.QuadSpec | Source/WebCore/platform/graphics/tygl/PathTyGL.h:259-266 | `addQuadCurveTo` appends the curve, after a MoveTo to the control point on an element-less path, and the path stops being empty |
| PathTyGL.BezierSpec | Source/WebCore/platform/graphics/tygl/PathTyGL.h:268-275 | `addBezierCurveTo` appends the curve, after a MoveTo to the first control point on an element-less path, and the path stops being empty |
| PathTyGL.CloseSpec | Source/WebCore/platform/graphics/tygl/PathTyGL.h:277-284 | `closeSubpath` leaves `isEmpty` alone |
| PathTyGL.Fmod | Source/WebCore/platform/graphics/tygl/PathTyGL.cpp:74-86 | `fmod` by a full turn keeps the sign of x, is less than a turn in size, and leaves a value under a turn unchanged |
| PathTyGL.Wrap | Source/WebCore/platform/graphics/tygl/PathTyGL.cpp:82-88 | an angle reduced and wrapped lies in [0, 2 pi) |
| PathTyGL.NormalizeAngles | Source/WebCore/platform/graphics/tygl/PathTyGL.cpp:72-101 | the normalised end lies at most a turn after the start when clockwise and at most a turn before it when anticlockwise; the start is reduced, and in the third case lies in [0, 2 pi], as the code asserts |
| PathTyGL.NormalizeWithinTurn | Source/WebCore/platform/graphics/tygl/PathTyGL.cpp:80-94 | clockwise angles within the first turn, start before end, are kept |
| PathTyGL.ArcSpec | Source/WebCore/platform/graphics/tygl/PathTyGL.cpp:58-105 | `addArc` keeps every earlier element; a zero radius or equal angles only add `lineTo(start)`; otherwise it ends with an ArcTo of the given centre, radii and direction, normalised angles and no transform, whose end lies on the ellipse at the end angle, right after an element ending at the start point |
| PathTyGL.JoinStart | Source/WebCore/platform/graphics/tygl/PathTyGL.cpp:69-70 | after the join the path ends at the arc's start |
| PathTyGL.NewArc | Source/WebCore/platform/graphics/tygl/PathTyGL.h:136-148 | a new ArcTo has the identity transform |
| PathTyGL.NewArcOnCircle | Source/WebCore/platform/graphics/tygl/PathTyGL.h:136-165 | a new ArcTo's end point is where its final transform takes the end angle |
| PathTyGL.RectSidesSpec | Source/WebCore/platform/graphics/tygl/PathTyGL.cpp:449-454 | the three `addLineTo` calls of `addRect` keep the subpath start an element |
| PathTyGL.RectOutline | Source/WebCore/platform/graphics/tygl/PathTyGL.cpp:446-456 | a rectangle with non-zero sides appends MoveTo(x, y), LineTo(x + w, y), LineTo(x + w, y + h), LineTo(x, y + h) and a CloseSubpath back to (x, y), replacing a trailing MoveTo |
| PathTyGL.RectZeroWidth | Source/WebCore/platform/graphics/tygl/PathTyGL.cpp:446-456 | with zero width the repeated corner is dropped by the `addLineTo` check and only a zero-length LineTo after the MoveTo remains |
| PathTyGL.RectMoveStarts | Source/WebCore/platform/graphics/tygl/PathTyGL.cpp:448 | the rectangle's MoveTo follows the kept elements and starts the new subpath |
| PathTyGL.CloneStep | Source/WebCore/platform/graphics/tygl/PathTyGL.cpp:467-491 | the corrected replay step of the Findings row for `clone`: every element but an ArcTo is replayed through the builder of its type, and an ArcTo is copied whole, transform included; a MoveTo leaves the path non-empty. The source's step is CloneStepAsWritten |
| PathTyGL.Replay | Source/WebCore/platform/graphics/tygl/PathTyGL.cpp:458-496 | replaying a list that starts with a MoveTo gives a path with elements |
| PathTyGL.CloneStepAsWritten | Source/WebCore/platform/graphics/tygl/PathTyGL.cpp:486-490 | the source's replay step differs only for an ArcTo, which goes through `addArc` |
| PathTyGL.ReplayAsWritten | Source/WebCore/platform/graphics/tygl/PathTyGL.cpp:458-496 | the path the source's `clone` builds keeps the subpath start an element |
| PathTyGL.Transformed | Source/WebCore/platform/graphics/tygl/PathTyGL.cpp:511-534 | every stored point of the element is mapped by the matrix and its type kept |
| PathTyGL.TransformedFinal | Source/WebCore/platform/graphics/tygl/PathTyGL.h:158-165 | the final transform of a transformed arc is the old one preceded by the map |
| PathTyGL.ComposeAssociative | Source/WebCore/platform/graphics/tygl/PathTyGL.h:156 | matrix products are associative |
| PathTyGL.TransformedAsWritten | Source/WebCore/platform/graphics/tygl/PathTyGL.cpp:529-533 | the source's `multiply` puts the new map after the arc's old transform |
| PathTyGL.MapElements | Source/WebCore/platform/graphics/tygl/PathTyGL.cpp:511-537 | every element of the list is transformed |
| PathTyGL.TransformSpec | Source/WebCore/platform/graphics/tygl/PathTyGL.cpp:498-538 | `transform` keeps the number of elements, the subpath start and `isEmpty` |
| PathTyGL.LastStartOfKinds | Source/WebCore/platform/graphics/tygl/PathTyGL.cpp:511-537 | lists of the same element types have their subpath starts at the same places |
| PathTyGL.AppendedWellFormed | Source/WebCore/platform/graphics/tygl/PathTyGL.cpp:44-56 | the longer list is well formed exactly when the list is and the new element fits it |
| PathTyGL.NoDrawingAppend | Source/WebCore/platform/graphics/tygl/PathTyGL.h:255-273 | the longer list draws nothing exactly when the list does not and the new element only starts a subpath |
| PathTyGL.NoRepeatedAppend | Source/WebCore/platform/graphics/tygl/PathTyGL.h:252-253 | the longer list repeats no line exactly when the list does not and the new element does not |
| PathTyGL.ShapedAppend | Source/WebCore/platform/graphics/tygl/PathTyGL.h:277-284 | the longer list is shaped exactly when the list is and the new element fits it |
| PathTyGL.ClosingKept | Source/WebCore/platform/graphics/tygl/PathTyGL.h:283 | a CloseSubpath of the longer list still returns to its subpath start |
| PathTyGL.WellFormedIsShaped | Source/WebCore/platform/graphics/tygl/PathTyGL.h:235-284 | a list built element by element is shaped: every CloseSubpath returns to the start of its subpath |
| PathTyGL.WellFormedStarts | Source/WebCore/platform/graphics/tygl/PathTyGL.h:247-271 | a well-formed list starts with a MoveTo |
| PathTyGL.NoDrawingMeans | Source/WebCore/platform/graphics/tygl/PathTyGL.h:192 | a path is empty exactly when every element only starts a subpath (see also lines 255, 264, 273 of the same file) |
| PathTyGL.NoRepeatedMeans | Source/WebCore/platform/graphics/tygl/PathTyGL.h:252-253 | no LineTo after anything but a MoveTo ends where the element before it does |
| PathTyGL.AppendedKeeps | Source/WebCore/platform/graphics/tygl/PathTyGL.cpp:44-56 | appending an element that fits keeps the builders' invariants, and a non-repeating LineTo keeps `NoRepeatedLine` |
| PathTyGL.AppendedArcs | Source/WebCore/platform/graphics/tygl/PathTyGL.cpp:44-56 | appending keeps every arc's end on its ellipse |
| PathTyGL.MoveToKeeps | Source/WebCore/platform/graphics/tygl/PathTyGL.h:235-243 | `moveTo` keeps the builders' invariants |
| PathTyGL.ReplaceMoveKeeps | Source/WebCore/platform/graphics/tygl/PathTyGL.h:237-240 | moving a trailing MoveTo keeps the shape, the subpath start, emptiness and no repeated line |
| PathTyGL.MoveToArcs | Source/WebCore/platform/graphics/tygl/PathTyGL.h:235-243 | `moveTo` keeps every arc on its ellipse |
| PathTyGL.LineToKeeps | Source/WebCore/platform/graphics/tygl/PathTyGL.h:245-257 | `addLineTo` keeps the builders' invariants |
| PathTyGL.LineToArcs | Source/WebCore/platform/graphics/tygl/PathTyGL.h:245-257 | `addLineTo` keeps every arc on its ellipse |
| PathTyGL.CurveKeeps | Source/WebCore/platform/graphics/tygl/PathTyGL.h:259-275 | the curve builders keep the builders' invariants |
| PathTyGL.CurveArcs | Source/WebCore/platform/graphics/tygl/PathTyGL.h:259-275 | the curve builders keep every arc on its ellipse |
| PathTyGL.CloseKeeps | Source/WebCore/platform/graphics/tygl/PathTyGL.h:277-284 | `closeSubpath` keeps the builders' invariants |
| PathTyGL.CloseArcs | Source/WebCore/platform/graphics/tygl/PathTyGL.h:277-284 | `closeSubpath` keeps every arc on its ellipse |
| PathTyGL.ArcKeeps | Source/WebCore/platform/graphics/tygl/PathTyGL.cpp:58-105 | `addArc` keeps the builders' invariants and `NoRepeatedLine` |
| PathTyGL.ArcArcs | Source/WebCore/platform/graphics/tygl/PathTyGL.cpp:58-105 | `addArc` keeps every arc on its ellipse, the new one included |
| PathTyGL.TransformKeeps | Source/WebCore/platform/graphics/tygl/PathTyGL.cpp:498-538 | `transform` keeps the builders' invariants, and a non-singular matrix keeps `NoRepeatedLine` |
| PathTyGL.MapKeeps | Source/WebCore/platform/graphics/tygl/PathTyGL.cpp:511-537 | mapping every element keeps the list well formed and what draws |
| PathTyGL.TransformArcs | Source/WebCore/platform/graphics/tygl/PathTyGL.cpp:529-533 | the corrected `transform` of the Findings row keeps every arc on its ellipse; the source's `transform` does not (AsWrittenUnitArcOffCircle) |
| PathTyGL.MapInjective | Source/WebCore/platform/graphics/tygl/PathTyGL.cpp:516 | a non-singular matrix maps distinct points to distinct points |
| PathTyGL.PrefixKeeps | Source/WebCore/platform/graphics/tygl/PathTyGL.cpp:467-494 | a prefix of a well-formed list is well formed and keeps `NoRepeatedLine` |
| PathTyGL.ReplayPrefix | Source/WebCore/platform/graphics/tygl/PathTyGL.cpp:458-496 | replaying a well-formed list gives it back with the subpath start and emptiness the builders keep |
| PathTyGL.ReplayLast | Source/WebCore/platform/graphics/tygl/PathTyGL.cpp:467-491 | the builder of the last element's type appends exactly that element |
| PathTyGL.ReplayNext | Source/WebCore/platform/graphics/tygl/PathTyGL.cpp:467-494 | replaying one more element extends the replayed prefix |
| PathTyGL.CloneReproduces | Source/WebCore/platform/graphics/tygl/PathTyGL.cpp:458-496 | every path the builders and non-singular transforms produce is reproduced by replaying it |
| PathTyGL.UnitArcPath | Source/WebCore/platform/graphics/tygl/PathTyGL.cpp:58-105 | the unit arc added to an empty path gives a MoveTo to its start and the arc |
| PathTyGL.ReplayAsWrittenUnitArc | Source/WebCore/platform/graphics/tygl/PathTyGL.cpp:486-490 | replaying as the source does a MoveTo away from the unit arc's start and the arc adds a LineTo back and keeps no arc transform |
| PathTyGL.TranslatedUnitArc | Source/WebCore/platform/graphics/tygl/PathTyGL.cpp:529-533 | translating the unit arc path gives the arc the translation as its transform |
| PathTyGL.CloneAsWrittenLosesArcTransform | Source/WebCore/platform/graphics/tygl/PathTyGL.cpp:458-496 | the source's `clone` of a translated unit arc rebuilds the arc untransformed and joins it with a LineTo |
| PathTyGL.TransformedKeepsArc | Source/WebCore/platform/graphics/tygl/PathTyGL.cpp:529-533 | the corrected `transform` keeps an arc's end on its ellipse |
| PathTyGL.MisplacedUnitArcTransform | Source/WebCore/platform/graphics/tygl/PathTyGL.cpp:532 | with the map on the wrong side, translating by (10, 0) and scaling by 2 gives the final transform (2, 0, 0, 2, 10, 0) |
| PathTyGL.UnitArc | Source/WebCore/platform/graphics/tygl/PathTyGL.cpp:104 | the unit arc from angle 0 to angle 1 `addArc` builds |
| PathTyGL.UnitArcOnCircle | Source/WebCore/platform/graphics/tygl/PathTyGL.h:136-148 | the unit arc lies on its circle |
| PathTyGL.TransformedTwiceKeepsArc | Source/WebCore/platform/graphics/tygl/PathTyGL.cpp:529-533 | the corrected `transform`, applied twice, keeps an arc on its circle |
| PathTyGL.AsWrittenUnitArcOffCircle | Source/WebCore/platform/graphics/tygl/PathTyGL.cpp:532 | the source's `transform`, translating the unit arc and then scaling it, leaves its end off its ellipse |
| PathTyGL.CurveIsLineSegment | Source/WebCore/platform/graphics/tygl/PathTyGL.cpp:201-239 | a cubic counts as a line exactly when both control points are within the tolerance 1 of the chord's line and of its widened bounding box |
| PathTyGL.ChordControlsAreLine | Source/WebCore/platform/graphics/tygl/PathTyGL.cpp:201-239 | a cubic whose control points lie on its chord counts as a line |
| PathTyGL.OnChord | Source/WebCore/platform/graphics/tygl/PathTyGL.cpp:213-238 | a point between the chord's ends is on its line and in its box |
| PathTyGL.QuadBezier | Source/WebCore/platform/graphics/tygl/PathTyGL.cpp:287-300 | t above 1 is clamped, giving the end point; t = 0 gives the start |
| PathTyGL.CubicBezier | Source/WebCore/platform/graphics/tygl/PathTyGL.cpp:322-337 | t above 1 is clamped, giving the end point; t = 0 gives the start |
| PathTyGL.SplitHalvesFollowCurve | Source/WebCore/platform/graphics/tygl/PathTyGL.cpp:248-265 | in one coordinate the two halves at t follow the curve at t / 2 and (1 + t) / 2 |
| PathTyGL.MapElement | Source/WebCore/platform/graphics/tygl/PathTyGL.cpp:512-533 | one element mapped as the corrected `transform` of the Findings row does: points as the source maps them, an arc's transform with the map before it (the source puts it after, TransformedAsWritten) |
| PathTyGL.PrecededBy | Source/WebCore/platform/graphics/tygl/PathTyGL.cpp:532 | the correction of the Findings row for line 532: the product with the map before the arc's transform, where the source's `multiply` gives the product with the map after it (TransformedAsWritten) |
| PathTyGL.Halves | Source/WebCore/platform/graphics/tygl/PathTyGL.cpp:248-265 | one coordinate of the split: seven values |
| PathTyGL.SplitPoints | Source/WebCore/platform/graphics/tygl/PathTyGL.cpp:241-285 | seven points |
| PathTyGL.SplitPointsFollowCurve | Source/WebCore/platform/graphics/tygl/PathTyGL.cpp:241-285 | `splitCurve` keeps p[0], moves p[3] to p[6], puts the curve's midpoint halfway between p[2] and p[4], and each half follows its half of the original curve |
| PathTyGL.SplitAt | Source/WebCore/platform/graphics/tygl/PathTyGL.cpp:241-285 | both halves follow the original curve at a given t |
| PathTyGL.SplitMeets | Source/WebCore/platform/graphics/tygl/PathTyGL.cpp:255-257 | the halves meet at the curve's value at 1/2 |
| PathTyGL.SplitCurve | Source/WebCore/platform/graphics/tygl/PathTyGL.cpp:241-285 | the array's first seven points become the split points and the rest are unchanged |
| PathTyGL.SplitXs | Source/WebCore/platform/graphics/tygl/PathTyGL.cpp:248-265 | the x coordinates are split, the y coordinates kept |
| PathTyGL.SplitYs | Source/WebCore/platform/graphics/tygl/PathTyGL.cpp:267-284 | the y coordinates are split, the x coordinates kept |
| PathTyGL.PathData.constructor | Source/WebCore/platform/graphics/tygl/PathTyGL.h:187-194 | a new path has no elements, no subpath start and is empty |
| PathTyGL.PathData.IsEmpty | Source/WebCore/platform/graphics/tygl/PathTyGL.h:205 | `isEmpty` is true exactly when no element draws |
| PathTyGL.PathData.Alloc | Source/WebCore/platform/graphics/tygl/PathTyGL.cpp:44-56 | the element is linked after the last one; the first element stays |
| PathTyGL.PathData.MoveTo | Source/WebCore/platform/graphics/tygl/PathTyGL.h:235-243 | the path becomes `moveTo`'s state and keeps its invariants |
| PathTyGL.PathData.AddLineTo | Source/WebCore/platform/graphics/tygl/PathTyGL.h:245-257 | the path becomes `addLineTo`'s state and keeps its invariants |
| PathTyGL.PathData.AddQuadCurveTo | Source/WebCore/platform/graphics/tygl/PathTyGL.h:259-266 | the path becomes `addQuadCurveTo`'s state and keeps its invariants |
| PathTyGL.PathData.AddBezierCurveTo | Source/WebCore/platform/graphics/tygl/PathTyGL.h:268-275 | the path becomes `addBezierCurveTo`'s state and keeps its invariants |
| PathTyGL.PathData.CloseSubpath | Source/WebCore/platform/graphics/tygl/PathTyGL.h:277-284 | the path becomes `closeSubpath`'s state and keeps its invariants |
| PathTyGL.PathData.AddArc | Source/WebCore/platform/graphics/tygl/PathTyGL.cpp:58-105 | the path becomes `addArc`'s state and keeps its invariants |
| PathTyGL.PathData.AddRect | Source/WebCore/platform/graphics/tygl/PathTyGL.cpp:446-456 | the path becomes `addRect`'s state and keeps its invariants |
| PathTyGL.PathData.AddRectSides | Source/WebCore/platform/graphics/tygl/PathTyGL.cpp:449-454 | the three sides are added |
| PathTyGL.PathData.CopyArc | Source/WebCore/platform/graphics/tygl/PathTyGL.cpp:104 | the arc is appended with its transform |
| PathTyGL.PathData.AddElement | Source/WebCore/platform/graphics/tygl/PathTyGL.cpp:467-491 | the corrected step of `clone` (CloneStep): every element but an ArcTo replayed through the builder of its type, an ArcTo copied with its transform by CopyArc, where the source calls `addArc` |
| PathTyGL.PathData.Clone | Source/WebCore/platform/graphics/tygl/PathTyGL.cpp:458-496 | the corrected `clone` of the Findings row: the copy is every element replayed in order by CloneStep, so a path the builders produced comes back unchanged; the source's `clone` is ReplayAsWritten, which loses an arc's transform (CloneAsWrittenLosesArcTransform) |
| PathTyGL.PathData.Transform | Source/WebCore/platform/graphics/tygl/PathTyGL.cpp:498-538 | the corrected `transform` of the Findings row: every element is mapped in place by MapElement, arcs with the map before their transform, and the path keeps its invariants; the source's product is TransformedAsWritten |
| TrapezoidBuilderTyGL.SetRed | Source/WebCore/platform/graphics/tygl/TrapezoidBuilderTyGL.h:59-68 | `setRed` sets bit 0 and keeps every other bit |
| TrapezoidBuilderTyGL.SetBlack | Source/WebCore/platform/graphics/tygl/TrapezoidBuilderTyGL.h:59-69 | `setBlack` clears bit 0 and keeps every other bit |
| TrapezoidBuilderTyGL.ClearInprecise | Source/WebCore/platform/graphics/tygl/TrapezoidBuilderTyGL.h:60-71 | `clearInprecise` clears bits 0 and 1 and keeps the direction bits |
| TrapezoidBuilderTyGL.SetBottomInprecise | Source/WebCore/platform/graphics/tygl/TrapezoidBuilderTyGL.h:60-72 | `setBottomInprecise` sets bit 0, making the line inprecise, and keeps the other bits |
| TrapezoidBuilderTyGL.Split | Source/WebCore/platform/graphics/tygl/TrapezoidBuilderTyGL.h:63-85 | a flag word is the direction bits times 4 plus bits 1 and 0 |
| TrapezoidBuilderTyGL.ShiftInpreciseBitMoves | Source/WebCore/platform/graphics/tygl/TrapezoidBuilderTyGL.h:74-82 | `shiftInpreciseBit` sets bit 1 to the old bit 0, clears bit 0 and keeps the direction bits |
| TrapezoidBuilderTyGL.ColourKeepsDirection | Source/WebCore/platform/graphics/tygl/TrapezoidBuilderTyGL.h:67-85 | changing the colour leaves `direction()` and `isOddDirection()` alone |
| TrapezoidBuilderTyGL.DirectionAccumulates | Source/WebCore/platform/graphics/tygl/TrapezoidBuilderTyGL.h:63-85 | adding directionDown or directionUp adds +1 or -1 to `direction()`, flips `isOddDirection()` and keeps the colour |
| TrapezoidBuilderTyGL.OddDirectionIsParity | Source/WebCore/platform/graphics/tygl/TrapezoidBuilderTyGL.h:84-85 | `isOddDirection` is the parity of the winding count |
| TrapezoidBuilderTyGL.NewFlags | Source/WebCore/platform/graphics/tygl/TrapezoidBuilderTyGL.cpp:319 | a new line's flags `direction or kRed` are red with winding +1 or -1 |
| TrapezoidBuilderTyGL.Blacken | Source/WebCore/platform/graphics/tygl/TrapezoidBuilderTyGL.cpp:323-367 | `setBlack` on a root leaves it black |
| TrapezoidBuilderTyGL.RotationsKeepOrder | Source/WebCore/platform/graphics/tygl/TrapezoidBuilderTyGL.cpp:85-133 | `rotateLeft` and `rotateRight` keep the in-order sequence of lines |
| TrapezoidBuilderTyGL.RecolourKeepsContents | Source/WebCore/platform/graphics/tygl/TrapezoidBuilderTyGL.cpp:336-346 | recolouring a node keeps the tree's contents |
| TrapezoidBuilderTyGL.PlugFrame | Source/WebCore/platform/graphics/tygl/TrapezoidBuilderTyGL.cpp:85-133 | rebuilding the tree through one more parent is rebuilding from the parent's subtree |
| TrapezoidBuilderTyGL.PlugKeepsContents | Source/WebCore/platform/graphics/tygl/TrapezoidBuilderTyGL.cpp:332-366 | replacing a subtree by one with the same contents keeps the whole tree's contents |
| TrapezoidBuilderTyGL.SortedJoin | Source/WebCore/platform/graphics/tygl/TrapezoidBuilderTyGL.cpp:288-306 | lines below a node, the node, then lines above it form a sorted sequence |
| TrapezoidBuilderTyGL.SortedSplit | Source/WebCore/platform/graphics/tygl/TrapezoidBuilderTyGL.cpp:288-306 | in a sorted sequence the lines before a node are below it and those after are above |
| TrapezoidBuilderTyGL.InsertedBelow | Source/WebCore/platform/graphics/tygl/TrapezoidBuilderTyGL.cpp:288-306 | inserting a line no greater than x into lines no greater than x keeps them so |
| TrapezoidBuilderTyGL.InsertedAbove | Source/WebCore/platform/graphics/tygl/TrapezoidBuilderTyGL.cpp:288-306 | inserting a line no smaller than x into lines no smaller than x keeps them so |
| TrapezoidBuilderTyGL.InsertedSorted | Source/WebCore/platform/graphics/tygl/TrapezoidBuilderTyGL.cpp:288-330 | insertion keeps the tree a binary search tree on (topY, topX, slope) |
| TrapezoidBuilderTyGL.InsertedAddsLine | Source/WebCore/platform/graphics/tygl/TrapezoidBuilderTyGL.cpp:308-330 | without a duplicate on the search path insertion adds exactly the new line |
| TrapezoidBuilderTyGL.InsertedMergesLine | Source/WebCore/platform/graphics/tygl/TrapezoidBuilderTyGL.cpp:293-298 | with a duplicate on the search path only that one line gains the direction; the other lines and the order are unchanged |
| TrapezoidBuilderTyGL.ContentsBlacken | Source/WebCore/platform/graphics/tygl/TrapezoidBuilderTyGL.cpp:367 | blackening the root keeps the contents |
| TrapezoidBuilderTyGL.PlugRoot | Source/WebCore/platform/graphics/tygl/TrapezoidBuilderTyGL.cpp:332-367 | the root of a rebuilt tree is the outermost parent's line |
| TrapezoidBuilderTyGL.PlugTwoFrames | Source/WebCore/platform/graphics/tygl/TrapezoidBuilderTyGL.cpp:333-364 | rebuilding through parent and grandparent |
| TrapezoidBuilderTyGL.FilteredMembers | Source/WebCore/platform/graphics/tygl/TrapezoidBuilderTyGL.cpp:496-500 | the filtered list holds exactly the lines the fill rule counts |
| TrapezoidBuilderTyGL.FilteredAppend | Source/WebCore/platform/graphics/tygl/TrapezoidBuilderTyGL.cpp:496-500 | one more line adds it to the filtered list exactly when the rule counts it |
| TrapezoidBuilderTyGL.AfterFrame | Source/WebCore/platform/graphics/tygl/TrapezoidBuilderTyGL.cpp:502-519 | the lines after a node in in-order |
| TrapezoidBuilderTyGL.Leftmost | Source/WebCore/platform/graphics/tygl/TrapezoidBuilderTyGL.cpp:486-505 | descending left reaches a node without a left child without changing what remains to visit |
| TrapezoidBuilderTyGL.Climb | Source/WebCore/platform/graphics/tygl/TrapezoidBuilderTyGL.cpp:509-519 | climbing while the node is its parent's right child skips only visited lines |
| TrapezoidBuilderTyGL.ComputeLineList | Source/WebCore/platform/graphics/tygl/TrapezoidBuilderTyGL.cpp:482-531 | `computeLineList` returns the in-order lines with non-zero winding (nonzero rule) or odd winding (even-odd rule), in order |
| TrapezoidBuilderTyGL.RoundF | Source/WebCore/platform/graphics/tygl/TrapezoidBuilderTyGL.cpp:154-155 | `roundf` is the nearest integer, halfway cases away from zero |
| TrapezoidBuilderTyGL.RoundFMonotone | Source/WebCore/platform/graphics/tygl/TrapezoidBuilderTyGL.cpp:154-155 | rounding keeps the order |
| TrapezoidBuilderTyGL.Oriented | Source/WebCore/platform/graphics/tygl/TrapezoidBuilderTyGL.cpp:137-147 | the end points are ordered by y, and directionUp is used exactly when they were swapped |
| TrapezoidBuilderTyGL.Prepare | Source/WebCore/platform/graphics/tygl/TrapezoidBuilderTyGL.cpp:135-163 | nothing is inserted exactly when everything is clipped, the rounded top and bottom are equal, or the line lies outside the vertical clip; a surviving line has topY below bottomY and overlaps the clip, with directionUp exactly when it was swapped |
| TrapezoidBuilderTyGL.NewLine | Source/WebCore/platform/graphics/tygl/TrapezoidBuilderTyGL.cpp:308-319 | the new line holds the clipped end points and slope and is red with the edge's direction |
| TrapezoidBuilderTyGL.ClampToRange | Source/WebCore/platform/graphics/tygl/TrapezoidBuilderTyGL.cpp:76-83 | the value clamped into [min, max]; a value already inside is kept |
| TrapezoidBuilderTyGL.ClampToRangeIsClamp | Source/WebCore/platform/graphics/tygl/TrapezoidBuilderTyGL.cpp:76-83 | on a non-empty range `clampToRange` agrees with `clamp` of TyGLDefs.h |
| TrapezoidBuilderTyGL.Descend | Source/WebCore/platform/graphics/tygl/TrapezoidBuilderTyGL.cpp:286-306 | the descent stops at an empty child or at a line with the same end points, and insertion there rebuilds the same tree as inserting at the root |
| TrapezoidBuilderTyGL.RecolourStep | Source/WebCore/platform/graphics/tygl/TrapezoidBuilderTyGL.cpp:335-355 | the recolouring step keeps the tree's contents |
| TrapezoidBuilderTyGL.RotationStepContents | Source/WebCore/platform/graphics/tygl/TrapezoidBuilderTyGL.cpp:340-363 | the rotation step keeps the tree's contents |
| TrapezoidBuilderTyGL.FixUp | Source/WebCore/platform/graphics/tygl/TrapezoidBuilderTyGL.cpp:332-367 | the fix-up loop ends with a black root and the same contents |
| TrapezoidBuilderTyGL.TrapezoidBuilder.constructor | Source/WebCore/platform/graphics/tygl/TrapezoidBuilderTyGL.cpp:44-64 | the clip edges are scaled to anti-aliased units, the bottom edge of the clip rectangle is the top, everything is clipped exactly when top is not above bottom or left is not left of right, and the tree is empty |
| TrapezoidBuilderTyGL.TrapezoidBuilder.InsertIntoTree | Source/WebCore/platform/graphics/tygl/TrapezoidBuilderTyGL.cpp:285-367 | the tree stays sorted with a black root; its contents are those of the insertion, and a duplicate only adds its direction |
| TrapezoidBuilderTyGL.TrapezoidBuilder.InsertLine | Source/WebCore/platform/graphics/tygl/TrapezoidBuilderTyGL.cpp:135-367 | a line discarded by the early exits leaves the tree unchanged; an edge that crosses the clip's left edge first has its vertical part at that edge inserted by a recursive `insertLine` (lines 218-236, 251-269), and then the clipped remainder, if any, joins the tree or a duplicate absorbs its direction |
| TrapezoidBuilderTyGL.TrapezoidBuilder.LineList | Source/WebCore/platform/graphics/tygl/TrapezoidBuilderTyGL.cpp:891 | the line list for the builder's fill rule |
| TrapezoidBuilderTyGL.ReappendedMoves | Source/WebCore/platform/graphics/tygl/TrapezoidBuilderTyGL.h:147-165 | `updateBottomAndReappend` leaves the entry last with its new bottom and old top and slopes, and the other entries in order |
| TrapezoidBuilderTyGL.MergeCoversBoth | Source/WebCore/platform/graphics/tygl/TrapezoidBuilderTyGL.h:167-172 | a merged trapezoid keeps the candidate's top, takes the new piece's bottom, and both pieces share its slopes |
| TrapezoidBuilderTyGL.TrapezoidChain.constructor | Source/WebCore/platform/graphics/tygl/TrapezoidBuilderTyGL.h:130-133 | the sentinel starts an empty list |
| TrapezoidBuilderTyGL.TrapezoidChain.CreateAndAppend | Source/WebCore/platform/graphics/tygl/TrapezoidBuilderTyGL.h:118-128 | the trapezoid, which must have ordered edges and not be empty, is appended, and the count grows by one |
| TrapezoidBuilderTyGL.TrapezoidChain.UpdateBottomAndReappend | Source/WebCore/platform/graphics/tygl/TrapezoidBuilderTyGL.h:147-165 | the list becomes the reappended list; the count is unchanged |
| PlatformContextTyGL.SetColor | Source/WebCore/platform/graphics/tygl/PlatformContextTyGL.h:173-178 | setting a colour makes the coloring solid with that colour and releases the gradient; the pattern reference is kept |
| PlatformContextTyGL.SetGradient | Source/WebCore/platform/graphics/tygl/PlatformContextTyGL.h:180-186 | setting a gradient makes the coloring a gradient one holding that gradient, with colour 0 and no pattern |
| PlatformContextTyGL.SetPattern | Source/WebCore/platform/graphics/tygl/PlatformContextTyGL.h:188-194 | setting a pattern makes the coloring a pattern one holding that pattern, with colour 0 and no gradient |
| PlatformContextTyGL.ChangeColor | Source/WebCore/platform/graphics/tygl/PlatformContextTyGL.h:196-200 | only a solid coloring accepts a new colour; its kind and fill references stay as they were |
| PlatformContextTyGL.ColoringsStayConsistent | Source/WebCore/platform/graphics/tygl/PlatformContextTyGL.h:141-200 | every constructor builds a coloring whose kind matches the reference it holds, and every setter keeps that true from any start, so the asserts in gradient() and pattern() hold |
| PlatformContextTyGL.Texts | Source/WebCore/platform/graphics/tygl/PlatformContextTyGL.cpp:161-169 | the non-empty texts of one kind contribute at most one source entry per piece |
| PlatformContextTyGL.SourcesFit | Source/WebCore/platform/graphics/tygl/PlatformContextTyGL.cpp:155-170 | with at most kMaximumNumberOfShaderPieces pieces, both the vertex and the fragment source lists fit the shaderSource array of 2 * pieces + 3 entries |
| PlatformContextTyGL.CollectTexts | Source/WebCore/platform/graphics/tygl/PlatformContextTyGL.cpp:161-190 | the loop that gathers one part of the shader source yields exactly the non-empty texts of that kind in piece order |
| PlatformContextTyGL.BlocksConsecutive | Source/WebCore/platform/graphics/tygl/PlatformContextTyGL.cpp:216-219 | the first argument block starts after the program slot and one offset slot per piece, and each block starts where the previous one ends |
| PlatformContextTyGL.WriteArgumentBlock | Source/WebCore/platform/graphics/tygl/PlatformContextTyGL.cpp:220-231 | a piece's block receives the uniform or attribute location of each argument in order, and no other descriptor entry changes |
| PlatformContextTyGL.DescriptorReadsBack | Source/WebCore/platform/graphics/tygl/PlatformContextTyGL.cpp:216-234 | in a written descriptor, slot i + 1 holds the start of piece i's block, every block lies inside the used part and holds its arguments' locations |
| PlatformContextTyGL.CompileShaderInternal | Source/WebCore/platform/graphics/tygl/PlatformContextTyGL.cpp:146-246 | succeeds exactly when both shaders compile and the program links; on failure the descriptor is untouched, on success slot 0 holds the program and the piece layout follows it; entries past the layout never change |
| PlatformContextTyGL.WritePiece | Source/WebCore/platform/graphics/tygl/PlatformContextTyGL.cpp:217-232 | one turn of the descriptor loop extends the layout of the first i pieces to i + 1 pieces and leaves slot 0 and the later entries alone |
| PlatformContextTyGL.PieceStep | Source/WebCore/platform/graphics/tygl/PlatformContextTyGL.cpp:217-232 | writing piece i's offset slot and argument block keeps the layout already written for the earlier pieces |
| PlatformContextTyGL.WrittenKeepsPieces | Source/WebCore/platform/graphics/tygl/PlatformContextTyGL.cpp:235 | storing the program in slot 0 last leaves the piece layout intact |
| PlatformContextTyGL.BlockBefore | Source/WebCore/platform/graphics/tygl/PlatformContextTyGL.cpp:216-232 | a later piece's block starts no earlier than an earlier piece's block ends, so blocks never overlap |
| PlatformContextTyGL.EarlierBlocksEnd | Source/WebCore/platform/graphics/tygl/PlatformContextTyGL.cpp:216-232 | every block before piece i ends by the start of piece i's block |
| PlatformContextTyGL.QuadIndexOf | Source/WebCore/platform/graphics/tygl/PlatformContextTyGL.cpp:258-268 | entry 6q + k of the index buffer is corner k of the two triangles of quad q, a vertex between 4q and 4q + 3 |
| PlatformContextTyGL.QuadIndexesFitUshort | Source/WebCore/platform/graphics/tygl/PlatformContextTyGL.cpp:250-268 | no entry exceeds its position, so every entry of the kMaximumNumberOfUshortQuads quads fits a GLushort |
| PlatformContextTyGL.WriteQuad | Source/WebCore/platform/graphics/tygl/PlatformContextTyGL.cpp:260-265 | the six entries of quad q hold its two triangles and no other entry changes |
| PlatformContextTyGL.InitQuadIndexes | Source/WebCore/platform/graphics/tygl/PlatformContextTyGL.cpp:248-268 | the buffer has kMaximumNumberOfUshortQuads * 6 entries and each quad q lists the triangles (4q, 4q+1, 4q+2) and (4q+1, 4q+2, 4q+3) |
| PlatformContextTyGL.PlatformContext.constructor | Source/WebCore/platform/graphics/tygl/PlatformContextTyGL.cpp:45-62 | a new context clips to the whole target, fills and strokes solid black with a stroke 1 wide, butt caps, miter joins, miter limit 0, source-over and the normal blend mode, an identity transform, an empty save stack and the fill coloring current |
| PlatformContextTyGL.PlatformContext.Save | Source/WebCore/platform/graphics/tygl/PlatformContextTyGL.cpp:84-87 | the current state is pushed onto the save stack and keeps its tagged transform |
| PlatformContextTyGL.PlatformContext.Restore | Source/WebCore/platform/graphics/tygl/PlatformContextTyGL.cpp:89-93 | on a non-empty stack the last saved state becomes current and is popped |
| PlatformContextTyGL.PlatformContext.SaveThenRestore | Source/WebCore/platform/graphics/tygl/PlatformContextTyGL.cpp:84-93 | a save followed by a restore leaves the state and the stack as they were |
| PlatformContextTyGL.PlatformContext.SetStrokeThickness | Source/WebCore/platform/graphics/tygl/PlatformContextTyGL.cpp:95-98 | only the stroke width changes |
| PlatformContextTyGL.PlatformContext.SetFillColor | Source/WebCore/platform/graphics/tygl/PlatformContextTyGL.cpp:100-103 | only the fill coloring changes, to solid with the premultiplied colour |
| PlatformContextTyGL.PlatformContext.SetStrokeColor | Source/WebCore/platform/graphics/tygl/PlatformContextTyGL.cpp:105-108 | only the stroke coloring changes, to solid with the premultiplied colour |
| PlatformContextTyGL.PlatformContext.SetCompositeOperation | Source/WebCore/platform/graphics/tygl/PlatformContextTyGL.cpp:110-114 | the composite operator and the blend mode change together and nothing else does |
| PlatformContextTyGL.PlatformContext.SetLineJoin | Source/WebCore/platform/graphics/tygl/PlatformContextTyGL.cpp:116-119 | only the line join mode changes |
| PlatformContextTyGL.PlatformContext.SetLineCap | Source/WebCore/platform/graphics/tygl/PlatformContextTyGL.cpp:121-124 | only the line cap mode changes |
| PlatformContextTyGL.PlatformContext.SetMiterLimit | Source/WebCore/platform/graphics/tygl/PlatformContextTyGL.cpp:126-129 | only the miter limit changes |
| PlatformContextTyGL.PlatformContext.Translate | Source/WebCore/platform/graphics/tygl/PlatformContextTyGL.cpp:131-134 | the transform becomes the old one composed with the translation, with its type tag re-detected; nothing else changes |
| PlatformContextTyGL.PlatformContext.Scale | Source/WebCore/platform/graphics/tygl/PlatformContextTyGL.cpp:136-139 | the transform becomes the old one composed with the scaling, its type tag re-detected; nothing else changes |
| PlatformContextTyGL.PlatformContext.Rotate | Source/WebCore/platform/graphics/tygl/PlatformContextTyGL.cpp:141-144 | the transform becomes the old one composed with the rotation, its type tag re-detected; nothing else changes |
| PlatformContextTyGL.PlatformContext.SetTransform | Source/WebCore/platform/graphics/tygl/PlatformContextTyGL.h:253 | the transform becomes the given matrix with its type tag re-detected |
| PlatformContextTyGL.PlatformContext.MultiplyTransform | Source/WebCore/platform/graphics/tygl/PlatformContextTyGL.h:254 | the transform becomes the old one composed with the given matrix, its type tag re-detected |
| PlatformContextTyGL.PlatformContext.ResetColoring | Source/WebCore/platform/graphics/tygl/PlatformContextTyGL.h:555 | the current coloring is the state's fill coloring again |
| PlatformContextTyGL.PlatformContext.UseColoring | Source/WebCore/platform/graphics/tygl/ShaderPathTyGL.cpp:405 | a draw that brings its own coloring makes it the current one |
| PipelineBufferTyGL.InFourSlots | Source/WebCore/platform/graphics/tygl/PlatformContextTyGL.h:410-426 | a buffer index lies in one of a quad's four vertex slots exactly when it lies in the slot at nextAttribute plus 0, 1, 2 or 3 strides |
| PipelineBufferTyGL.VertexStartsApart | Source/WebCore/platform/graphics/tygl/PlatformContextTyGL.h:410-426 | a later vertex of the quad starts at least one whole stride after an earlier one, so their slots do not overlap |
| PipelineBufferTyGL.FreeSpaceForFewer | Source/WebCore/platform/graphics/tygl/PlatformContextTyGL.h:404-408 | room for a number of further quads is room for any smaller number |
| PipelineBufferTyGL.FreeSpaceCountsQuads | Source/WebCore/platform/graphics/tygl/PlatformContextTyGL.h:404-408 | after one quad is added (four strides further and one more quad counted), room for n further quads leaves room for n - 1 |
| PipelineBufferTyGL.FreeSpaceCoversQuad | Source/WebCore/platform/graphics/tygl/PlatformContextTyGL.h:404-408 | when hasFreeSpace() holds, every attribute slot of the next quad lies inside the kMaximumNumberOfAttributes floats |
| PipelineBufferTyGL.BeforeFlushActionsBatch | Source/WebCore/platform/graphics/tygl/PlatformContextTyGL.h:375-383 | without a batched callback only a draw with no callback batches; with one, a draw batches exactly when the data pointers agree, and the batched action always matches itself |
| PipelineBufferTyGL.SameColorMeansSameSource | Source/WebCore/platform/graphics/tygl/PlatformContextTyGL.h:385-402 | a coloring always matches itself; a match has the same kind; a uniform solid colour matches only the same colour, and a gradient or pattern only the same gradient or pattern |
| PipelineBufferTyGL.ProgramsOf | Source/WebCore/platform/graphics/tygl/ShaderPipelineTyGL.cpp:187-279 | the combined shader has one program per piece, each the primary shader or the static secondary program the piece names |
| PipelineBufferTyGL.AttributeCountAppend | Source/WebCore/platform/graphics/tygl/ShaderPipelineTyGL.cpp:291-299 | the attribute count of a combined shader is the sum of the counts of its parts |
| PipelineBufferTyGL.UniformsAddNoAttributes | Source/WebCore/platform/graphics/tygl/ShaderPipelineTyGL.cpp:294-298 | a program whose arguments are all uniforms adds no attribute components |
| PipelineBufferTyGL.CountAttributes | Source/WebCore/platform/graphics/tygl/ShaderPipelineTyGL.cpp:281-299 | the counting loops sum the components of every attribute argument of every piece and skip the uniforms |
| PipelineBufferTyGL.DrawMatchesShader | Source/WebCore/platform/graphics/tygl/ShaderPipelineTyGL.cpp:391-452 | a flush copies the destination exactly when the shader has a blend piece, and its indexed triangles read only inside the quad index buffer |
| PipelineBufferTyGL.AsWrittenBatchesAcrossBlendModes | Source/WebCore/platform/graphics/tygl/ShaderPipelineTyGL.cpp:140-148 | counterexample: a batch begun with the multiply blend mode passes the fast-path checks for a following normal-mode draw, although the two draws need different pieces and hashes |
| PipelineBufferTyGL.BatchChecksKeepShader | Source/WebCore/platform/graphics/tygl/ShaderPipelineTyGL.cpp:140-153 | when the fast-path checks also require the batch's own blend mode to be normal, a continued draw needs the same pieces and hash as the batch (up to the fast-pattern choice) |
| PipelineBufferTyGL.DrawChecksComposition | Source/WebCore/platform/graphics/tygl/ShaderPipelineTyGL.cpp:140-148 | the fast-path checks on the draw state compare exactly the composition inputs of the batched and the new shader |
| PipelineBufferTyGL.StartedDrawComposition | Source/WebCore/platform/graphics/tygl/ShaderPipelineTyGL.cpp:157-173 | after the slow path copies the context's state, the batch's composition is that of the new draw |
| PipelineBufferTyGL.StartedDrawContinues | Source/WebCore/platform/graphics/tygl/ShaderPipelineTyGL.cpp:136-173 | repeating the draw that started a batch passes the fast-path checks exactly when its blend mode is normal |
| PipelineBufferTyGL.ContinuedDrawKeepsComposition | Source/WebCore/platform/graphics/tygl/ShaderPipelineTyGL.cpp:149-151 | the fast path changes only the colour and the paint rectangle, so the batched composition stays |
| PipelineBufferTyGL.PipelineBuffer.constructor | Source/WebCore/platform/graphics/tygl/PlatformContextTyGL.h:356-360 | a new buffer has no context and no before-flush callback, and an empty batch |
| PipelineBufferTyGL.PipelineBuffer.AddAttribute | Source/WebCore/platform/graphics/tygl/PlatformContextTyGL.h:410-426 | the pair for vertex k is written at nextAttribute + k strides, nextAttribute moves on by 2, and nothing outside the four slots changes |
| PipelineBufferTyGL.PipelineBuffer.AddAttribute16 | Source/WebCore/platform/graphics/tygl/PlatformContextTyGL.h:428-454 | the four floats for vertex k are written at nextAttribute + k strides, nextAttribute moves on by 4, and nothing outside the four slots changes |
| PipelineBufferTyGL.PipelineBuffer.WriteTuple | Source/WebCore/platform/graphics/tygl/PlatformContextTyGL.h:459-463 | a tuple is written at one vertex and nothing else changes |
| PipelineBufferTyGL.PipelineBuffer.AddAttributeRepeated | Source/WebCore/platform/graphics/tygl/PlatformContextTyGL.h:456-490 | all four vertices get the same 2, 3 or 4 floats, nextAttribute moves on by the tuple's size, and nothing outside the four slots changes |
| PipelineBufferTyGL.PipelineBuffer.RepeatedStep | Source/WebCore/platform/graphics/tygl/PlatformContextTyGL.h:459-463 | each vertex's slot of the repeated loop is in bounds, one stride past the previous one, and clear of every earlier vertex's slot |
| PipelineBufferTyGL.PipelineBuffer.AddAttributePosition | Source/WebCore/platform/graphics/tygl/PlatformContextTyGL.h:647-650 | the corners (left, bottom), (right, bottom), (left, top) and (right, top) go to vertices 0 to 3 through addAttribute (lines 410-426), advancing the write position by two and changing no other slot |
| PipelineBufferTyGL.PipelineBuffer.FlushBatchingQueue | Source/WebCore/platform/graphics/tygl/ShaderPipelineTyGL.cpp:374-464 | the batch is drawn with its program, blend function and primitive unless the callback refuses; a reset then drops the context and clip mask, otherwise the batch restarts empty |
| PipelineBufferTyGL.PipelineBuffer.FlushBatchingQueueIfNeeded | Source/WebCore/platform/graphics/tygl/PlatformContextTyGL.h:367-371 | without a context nothing happens; with one, the flush happens as above |
| PipelineBufferTyGL.PipelineBuffer.SelectShader | Source/WebCore/platform/graphics/tygl/ShaderPipelineTyGL.cpp:281-305 | a compiled cache entry gives its descriptor and stored attribute count; on a miss the entry is compiled from the pieces and the count recomputed and stored; the entry used is at the front of the cache |
| PipelineBufferTyGL.PipelineBuffer.BeginAttributeAdding | Source/WebCore/platform/graphics/tygl/ShaderPipelineTyGL.cpp:131-306 | a draw that passes the fast-path checks changes only the colour and paint rectangle and keeps the shader; any other draw flushes the open batch with reset, copies the new context's state, and selects the shader for its pieces by their hash |
| PipelineBufferTyGL.PipelineBuffer.RestartBatch | Source/WebCore/platform/graphics/tygl/ShaderPipelineTyGL.cpp:155-306 | the slow path: the open batch, if any, is flushed with reset and a new empty batch starts with the new draw's state and shader |
| PipelineBufferTyGL.PipelineBuffer.ContinueBatch | Source/WebCore/platform/graphics/tygl/ShaderPipelineTyGL.cpp:149-152 | the fast path updates the colour and paint rectangle and the batch keeps a shader that fits the new draw |
| PipelineBufferTyGL.PipelineBuffer.StartBatch | Source/WebCore/platform/graphics/tygl/ShaderPipelineTyGL.cpp:157-305 | the new batch is empty, holds the new draw's state, and its shader is the cache entry for the composed hash |
| PipelineBufferTyGL.PipelineBuffer.SetDraw | Source/WebCore/platform/graphics/tygl/ShaderPipelineTyGL.cpp:157-178 | the copied state and the empty counters of a new batch |
| PipelineBufferTyGL.PipelineBuffer.ComposeShader | Source/WebCore/platform/graphics/tygl/ShaderPipelineTyGL.cpp:180-305 | the combined shader's pieces are those the composition asks for, and the descriptor is the cache entry for their hash |
| PipelineBufferTyGL.PipelineBuffer.EndAttributeAdding | Source/WebCore/platform/graphics/tygl/ShaderPipelineTyGL.cpp:321-322 | after a quad, nextAttribute skips the other three vertices and the quad is counted |
| ShaderPipelineTyGL.HashFieldsReadBack | Source/WebCore/platform/graphics/tygl/ShaderPipelineTyGL.cpp:37-48 | each bit field of ShaderHash reads back what was stored in it, truncated to its 2, 1, 4 or 25 bits |
| ShaderPipelineTyGL.HashRepacks | Source/WebCore/platform/graphics/tygl/ShaderPipelineTyGL.cpp:37-48 | the four fields cover the whole 32-bit word: packing the fields of any hash gives it back |
| ShaderPipelineTyGL.HashZeroIff | Source/WebCore/platform/graphics/tygl/ShaderPipelineTyGL.cpp:37-48 | a packed hash is 0 exactly when every truncated field is 0 |
| ShaderPipelineTyGL.BlendPieceIffBlended | Source/WebCore/platform/graphics/tygl/ShaderPipelineTyGL.cpp:243-279 | a blend piece is added exactly when the blend mode is not normal or the operator is difference, the same condition under which a flush copies the destination |
| ShaderPipelineTyGL.ComposedPiecesFit | Source/WebCore/platform/graphics/tygl/ShaderPipelineTyGL.cpp:184-279 | with at most one solid colouring option the combined shader starts with the primary shader, has at most four pieces and never repeats the primary |
| ShaderPipelineTyGL.SmallFieldsReadBack | Source/WebCore/platform/graphics/tygl/ShaderPipelineTyGL.cpp:37-48 | values narrower than their field are stored unchanged |
| ShaderPipelineTyGL.ColoringIdNamesPieces | Source/WebCore/platform/graphics/tygl/ShaderPipelineTyGL.cpp:191-232 | the coloring field after the colouring branch names exactly the colouring pieces that were added |
| ShaderPipelineTyGL.BlendIdNamesPiece | Source/WebCore/platform/graphics/tygl/ShaderPipelineTyGL.cpp:243-279 | the blending field names exactly the blend piece that was added |
| ShaderPipelineTyGL.HashNamesPieces | Source/WebCore/platform/graphics/tygl/ShaderPipelineTyGL.cpp:181-279 | decoding the composed hash gives back the composed pieces and the primary shader id, so the hash identifies the combination |
| ShaderPipelineTyGL.SameHashSameShader | Source/WebCore/platform/graphics/tygl/ShaderPipelineTyGL.cpp:181-284 | two compositions with the same hash have the same pieces and primary shader, so a cached program is reused only for the combination it was compiled from |
| ShaderPipelineTyGL.ComposedHashNonzero | Source/WebCore/platform/graphics/tygl/ShaderPipelineTyGL.cpp:68-69 | every primary shader id is non-zero, so the cache is never asked for hash 0, the mark of an unused entry |
| ShaderPipelineTyGL.BlendTableIsPorterDuff | Source/WebCore/platform/graphics/tygl/ShaderPipelineTyGL.cpp:403-444 | the glBlendFunc table agrees with the Porter-Duff factors of each operator it implements; clear gets source-over's pair, and plus-darker and difference set nothing |
| ShaderPipelineTyGL.ShaderData.constructor | Source/WebCore/platform/graphics/tygl/ShaderPipelineTyGL.cpp:54-60 | a cache entry starts zeroed and uncompiled |
| ShaderPipelineTyGL.MoveToFrontAt | Source/WebCore/platform/graphics/tygl/ShaderPipelineTyGL.cpp:114-124 | moving position p to the front puts that item first, shifts the earlier items back by one and leaves the later ones in place |
| ShaderPipelineTyGL.MoveToFrontKeepsOrder | Source/WebCore/platform/graphics/tygl/ShaderPipelineTyGL.cpp:114-124 | moving a program item to the front keeps the recency list a permutation with the sentinel last, puts the item at the head, and does nothing when it is already there |
| ShaderPipelineTyGL.IndexOf | Source/WebCore/platform/graphics/tygl/ShaderPipelineTyGL.cpp:114-124 | the position of an item in the recency list holds that item, and no earlier position does |
| ShaderPipelineTyGL.RemapKeepsConsistent | Source/WebCore/platform/graphics/tygl/ShaderPipelineTyGL.cpp:94-97 | unmapping the evicted item's old hash and mapping the new hash to it keeps the map in step with the items' hashes |
| ShaderPipelineTyGL.StoredHashesHave | Source/WebCore/platform/graphics/tygl/ShaderPipelineTyGL.cpp:107-112 | a hash stored in one of the first n items is among their stored hashes |
| ShaderPipelineTyGL.StoredHashesCount | Source/WebCore/platform/graphics/tygl/ShaderPipelineTyGL.cpp:107-112 | n items store at most n different hashes |
| ShaderPipelineTyGL.ShaderCache.constructor | Source/WebCore/platform/graphics/tygl/ShaderPipelineTyGL.cpp:62-79 | a new cache links the 17 items 0 to 16 from the head, every hash is 0, no item is compiled and no hash is mapped |
| ShaderPipelineTyGL.ShaderCache.CachedHashesBounded | Source/WebCore/platform/graphics/tygl/ShaderPipelineTyGL.cpp:50-52 | at most kMaximumCachedShaders hashes are ever mapped |
| ShaderPipelineTyGL.ShaderCache.LeastRecentIsProgramItem | Source/WebCore/platform/graphics/tygl/ShaderPipelineTyGL.cpp:91 | the item just before the sentinel, the one a miss evicts, is a program item |
| ShaderPipelineTyGL.ShaderCache.Get | Source/WebCore/platform/graphics/tygl/ShaderPipelineTyGL.cpp:81-104 | a hit returns the mapped item and only moves it to the front; a miss evicts the least recently used item, deletes its program if compiled, remaps the hashes, marks the item uncompiled and moves it to the front |
| ShaderPipelineTyGL.ShaderCache.MoveItemToFront | Source/WebCore/platform/graphics/tygl/ShaderPipelineTyGL.cpp:114-124 | the item moves to the head of the recency list and the list stays valid |
| ShaderPipelineTyGL.ShaderCache.MovePosition | Source/WebCore/platform/graphics/tygl/ShaderPipelineTyGL.cpp:114-124 | a program item always sits before the sentinel in the recency list |
| ShaderPipelineTyGL.ShaderCache.Remap | Source/WebCore/platform/graphics/tygl/ShaderPipelineTyGL.cpp:94-97 | on a miss the evicted item's old hash is unmapped and the new hash is mapped to it |
| CppBackendDispatcher.DomainsToGenerate | Source/JavaScriptCore/inspector/scripts/codegen/generate_cpp_backend_dispatcher_implementation.py:47-48 | the generated domains are exactly those of the input that have at least one command |
| CppBackendDispatcher.DomainNames | Source/JavaScriptCore/inspector/scripts/codegen/generate_cpp_backend_dispatcher_implementation.py:77-82 | one destructor name per generated domain, in order |
| CppBackendDispatcher.DomainSections | Source/JavaScriptCore/inspector/scripts/codegen/generate_cpp_backend_dispatcher_implementation.py:71 | one guarded section per generated domain, in order, holding that domain's implementations |
| CppBackendDispatcher.ElseCasesRoute | Source/JavaScriptCore/inspector/scripts/codegen/generate_cpp_backend_dispatcher_implementation.py:108-110 | the else-if chain for a command list calls the same-named handler for a known method name and none for an unknown one |
| CppBackendDispatcher.ChainedCasesRoute | Source/JavaScriptCore/inspector/scripts/codegen/generate_cpp_backend_dispatcher_implementation.py:104-110 | the chained router of a command list calls the same-named handler for a known method name and none for an unknown one |
| CppBackendDispatcher.TableEntriesRoute | Source/JavaScriptCore/inspector/scripts/codegen/generate_cpp_backend_dispatcher_implementation.py:119-126 | the lookup table of a command list yields the same-named member for a known method name and none for an unknown one |
| CppBackendDispatcher.RouterResolvesByName | Source/JavaScriptCore/inspector/scripts/codegen/generate_cpp_backend_dispatcher_implementation.py:92-95 | whichever router shape a domain gets, a known method name reaches the same-named handler and an unknown one reaches none |
| CppBackendDispatcher.RouterShapesAgree | Source/JavaScriptCore/inspector/scripts/codegen/generate_cpp_backend_dispatcher_implementation.py:92-133 | the chained router and the lookup table route every method name the same way, so the five-command threshold changes only the shape |
| CppBackendDispatcher.ElseCasesShape | Source/JavaScriptCore/inspector/scripts/codegen/generate_cpp_backend_dispatcher_implementation.py:108-110 | the else-if chain has two lines per command, the test of its name followed by the call of that name |
| CppBackendDispatcher.ChainedRouterShape | Source/JavaScriptCore/inspector/scripts/codegen/generate_cpp_backend_dispatcher_implementation.py:104-110 | the chained router tests the command names in declared order, if first and else if after, each followed by the same-named call |
| CppBackendDispatcher.TableShape | Source/JavaScriptCore/inspector/scripts/codegen/generate_cpp_backend_dispatcher_implementation.py:119-126 | the lookup table has one entry per command, in declared order, mapping the command name to the same-named member of the domain's dispatcher |
| CppBackendDispatcher.CommandPartsHaveNoRouter | Source/JavaScriptCore/inspector/scripts/codegen/generate_cpp_backend_dispatcher_implementation.py:97-100 | the per-command parts contain no router |
| CppBackendDispatcher.OneRouterPerDomain | Source/JavaScriptCore/inspector/scripts/codegen/generate_cpp_backend_dispatcher_implementation.py:84-102 | every domain's implementations hold exactly one router, second after the constructor, chained for at most five commands and a lookup table otherwise |
| CppBackendDispatcher.DomainSectionsMembers | Source/JavaScriptCore/inspector/scripts/codegen/generate_cpp_backend_dispatcher_implementation.py:71 | a section is among the domain sections exactly when it is the guarded section of one of the domains |
| CppBackendDispatcher.OnlyDomainsWithCommandsAreGenerated | Source/JavaScriptCore/inspector/scripts/codegen/generate_cpp_backend_dispatcher_implementation.py:47-73 | the output has a dispatcher section for every domain with commands, every such section comes from a domain with commands, and a domain without commands gets none |
| CppBackendDispatcher.ExtractionDeclarations | Source/JavaScriptCore/inspector/scripts/codegen/generate_cpp_backend_dispatcher_implementation.py:175-195 | every call parameter is extracted once, in declared order; an optional one first declares its found flag and passes its address as the success argument, a required one passes none |
| CppBackendDispatcher.ForwardedCallArguments | Source/JavaScriptCore/inspector/scripts/codegen/generate_cpp_backend_dispatcher_implementation.py:181-203 | one forwarded argument per call parameter, in order and by name; optional ones are guarded by their found flag; reference types are passed with copyRef(), other optional ones by address |
| CppBackendDispatcher.WrittenHead | Source/JavaScriptCore/inspector/scripts/codegen/generate_cpp_backend_dispatcher_implementation.py:217-236 | one return parameter's lines write one value when it is required or holds a value and none otherwise, independent of the lines that follow |
| CppBackendDispatcher.WrittenGuarded | Source/JavaScriptCore/inspector/scripts/codegen/generate_cpp_backend_dispatcher_implementation.py:226-232 | a guard line lets the write after it run exactly when the guarded variable holds a value |
| CppBackendDispatcher.WrittenSet | Source/JavaScriptCore/inspector/scripts/codegen/generate_cpp_backend_dispatcher_implementation.py:233-236 | an unguarded write always runs |
| CppBackendDispatcher.EmissionWritesRequiredAndPresent | Source/JavaScriptCore/inspector/scripts/codegen/generate_cpp_backend_dispatcher_implementation.py:139-158 | the result lines write, in order and under its own name, every required return value and every optional one that holds a value; only a required enum goes through its protocol constant and only a wrapped optional through getValue() |
| CppBackendDispatcher.EmissionKeys | Source/JavaScriptCore/inspector/scripts/codegen/generate_cpp_backend_dispatcher_implementation.py:217-236 | the keys the result lines can write are the return parameter names, in order |
| CppBackendDispatcher.AsyncCallbackShape | Source/JavaScriptCore/inspector/scripts/codegen/generate_cpp_backend_dispatcher_implementation.py:135-166 | the callback class of an async command is named after the command, takes the return parameters and writes them with the same rule as the synchronous path |
| CppBackendDispatcher.OutDeclarationsAreDeclarations | Source/JavaScriptCore/inspector/scripts/codegen/generate_cpp_backend_dispatcher_implementation.py:225 | one out-variable declaration per return parameter, in order |
| CppBackendDispatcher.EmitLinesAreEmits | Source/JavaScriptCore/inspector/scripts/codegen/generate_cpp_backend_dispatcher_implementation.py:217-236 | each result-writing line of the model becomes one line of the implementation, in order |
| CppBackendDispatcher.BeforeAgentQuiet | Source/JavaScriptCore/inspector/scripts/codegen/generate_cpp_backend_dispatcher_implementation.py:252-275 | nothing before the agent call sends a response or writes a result; the alternate dispatcher call occurs once, guarded by its test and followed by a return; an async command creates its callback last |
| CppBackendDispatcher.BeforeAgentSilent | Source/JavaScriptCore/inspector/scripts/codegen/generate_cpp_backend_dispatcher_implementation.py:252-275 | no line before the agent call sends a response or writes a result |
| CppBackendDispatcher.CompletionQuiet | Source/JavaScriptCore/inspector/scripts/codegen/generate_cpp_backend_dispatcher_implementation.py:278-292 | the completion never calls the agent or the alternate dispatcher, and for an async command it neither responds nor writes a result |
| CppBackendDispatcher.CommandLinesAt | Source/JavaScriptCore/inspector/scripts/codegen/generate_cpp_backend_dispatcher_implementation.py:252-294 | a command's implementation is the lines before the agent call, the call, a blank line, the completion and the closing brace |
| CppBackendDispatcher.AlternateDispatcherShortCircuits | Source/JavaScriptCore/inspector/scripts/codegen/generate_cpp_backend_dispatcher_implementation.py:197-203 | the alternate dispatcher is called, and returns, before the agent call, with the call id and the same forwarded arguments the agent receives after the error string; each call occurs once |
| CppBackendDispatcher.AsyncCommandCompletion | Source/JavaScriptCore/inspector/scripts/codegen/generate_cpp_backend_dispatcher_implementation.py:205-214 | an async command passes its callback last, creates it just before the agent call, on error disables it, reports a server error and returns, and never responds or writes a result itself |
| CppBackendDispatcher.SyncCompletionResponds | Source/JavaScriptCore/inspector/scripts/codegen/generate_cpp_backend_dispatcher_implementation.py:278-292 | the completion of a synchronous command sends the response last and once |
| CppBackendDispatcher.SyncCompletionWrites | Source/JavaScriptCore/inspector/scripts/codegen/generate_cpp_backend_dispatcher_implementation.py:282-292 | the completion of a synchronous command writes results only after its opening test and before the response |
| CppBackendDispatcher.SyncCompletionOpens | Source/JavaScriptCore/inspector/scripts/codegen/generate_cpp_backend_dispatcher_implementation.py:282-289 | with return values the completion opens with the no-error test, braced when there are several, followed by the result lines |
| CppBackendDispatcher.SyncCommandResponds | Source/JavaScriptCore/inspector/scripts/codegen/generate_cpp_backend_dispatcher_implementation.py:252-294 | a synchronous command sends exactly one response, as its last statement |
| CppBackendDispatcher.SyncCommandWritesAfterTest | Source/JavaScriptCore/inspector/scripts/codegen/generate_cpp_backend_dispatcher_implementation.py:278-292 | a synchronous command writes a result only after the agent call and the no-error test, and before the response |
| ObjCFrontendDispatcher.DomainsToGenerate | Source/JavaScriptCore/inspector/scripts/codegen/generate_objc_frontend_dispatcher_implementation.py:47-48 | the generated domains are exactly those the event-dispatcher filter accepts |
| ObjCFrontendDispatcher.DomainImplementations | Source/JavaScriptCore/inspector/scripts/codegen/generate_objc_frontend_dispatcher_implementation.py:66 | one implementation section per generated domain |
| ObjCFrontendDispatcher.DomainImplementationsAt | Source/JavaScriptCore/inspector/scripts/codegen/generate_objc_frontend_dispatcher_implementation.py:66 | section i is the implementation of domain i |
| ObjCFrontendDispatcher.PointerParametersMembers | Source/JavaScriptCore/inspector/scripts/codegen/generate_objc_frontend_dispatcher_implementation.py:106-114 | the filtered parameters are exactly those with the given optionality whose type is an ObjC pointer type |
| ObjCFrontendDispatcher.SentParameters | Source/JavaScriptCore/inspector/scripts/codegen/generate_objc_frontend_dispatcher_implementation.py:146-155 | a message carries at most one value per declared parameter |
| ObjCFrontendDispatcher.DomainSelection | Source/JavaScriptCore/inspector/scripts/codegen/generate_objc_frontend_dispatcher_implementation.py:62-68 | the output is the license first and only there, the prelude, one section per accepted domain in order, and the postlude |
| ObjCFrontendDispatcher.NoEventsNoText | Source/JavaScriptCore/inspector/scripts/codegen/generate_objc_frontend_dispatcher_implementation.py:70-72 | a domain's implementation is empty exactly when it has no events |
| ObjCFrontendDispatcher.EventsInOrder | Source/JavaScriptCore/inspector/scripts/codegen/generate_objc_frontend_dispatcher_implementation.py:91-93 | the dispatcher class has one method per event, in declared order |
| ObjCFrontendDispatcher.SignaturesAppend | Source/JavaScriptCore/inspector/scripts/codegen/generate_objc_frontend_dispatcher_implementation.py:91-93 | the methods of two runs of lines are those of the first followed by those of the second |
| ObjCFrontendDispatcher.NoSignatures | Source/JavaScriptCore/inspector/scripts/codegen/generate_objc_frontend_dispatcher_implementation.py:100-130 | lines that are not method signatures contribute no method |
| ObjCFrontendDispatcher.EventSignatureOnlyFirst | Source/JavaScriptCore/inspector/scripts/codegen/generate_objc_frontend_dispatcher_implementation.py:97-131 | the implementation of one event declares exactly one method, its signature |
| ObjCFrontendDispatcher.ChecksForAreChecks | Source/JavaScriptCore/inspector/scripts/codegen/generate_objc_frontend_dispatcher_implementation.py:107-120 | the lines generated for the pointer parameters are all parameter checks |
| ObjCFrontendDispatcher.WritesAreWrites | Source/JavaScriptCore/inspector/scripts/codegen/generate_objc_frontend_dispatcher_implementation.py:146-155 | the lines generated for the parameters' values are all writes or their guards |
| ObjCFrontendDispatcher.CheckBlockQuiet | Source/JavaScriptCore/inspector/scripts/codegen/generate_objc_frontend_dispatcher_implementation.py:106-123 | the check block holds only parameter checks and the blank line after them |
| ObjCFrontendDispatcher.MessageQuiet | Source/JavaScriptCore/inspector/scripts/codegen/generate_objc_frontend_dispatcher_implementation.py:125-128 | building the message sends nothing |
| ObjCFrontendDispatcher.MiddleLinesQuiet | Source/JavaScriptCore/inspector/scripts/codegen/generate_objc_frontend_dispatcher_implementation.py:101-128 | nothing between the signature and the send sends a message or declares a method |
| ObjCFrontendDispatcher.EventBodyQuiet | Source/JavaScriptCore/inspector/scripts/codegen/generate_objc_frontend_dispatcher_implementation.py:100-130 | no line of a method body is a signature |
| ObjCFrontendDispatcher.EventBodyShape | Source/JavaScriptCore/inspector/scripts/codegen/generate_objc_frontend_dispatcher_implementation.py:97-131 | only the first line of an event's implementation is a signature |
| ObjCFrontendDispatcher.SignatureShape | Source/JavaScriptCore/inspector/scripts/codegen/generate_objc_frontend_dispatcher_implementation.py:133-141 | an event without parameters gives "- (void)" and its name; otherwise the name, "With", the first pair with its first letter upper-cased, then the other pairs |
| ObjCFrontendDispatcher.MessageMethod | Source/JavaScriptCore/inspector/scripts/codegen/generate_objc_frontend_dispatcher_implementation.py:125-126 | the message is created first and its method is the domain name, a dot and the event name |
| ObjCFrontendDispatcher.ChannelGuardFirst | Source/JavaScriptCore/inspector/scripts/codegen/generate_objc_frontend_dispatcher_implementation.py:100-130 | a null frontend channel returns before any message is built; the send is the last statement and occurs once |
| ObjCFrontendDispatcher.ChecksOfParameters | Source/JavaScriptCore/inspector/scripts/codegen/generate_objc_frontend_dispatcher_implementation.py:107-120 | every pointer parameter gets one presence check under its ObjC name |
| ObjCFrontendDispatcher.ArrayChecksOfParameters | Source/JavaScriptCore/inspector/scripts/codegen/generate_objc_frontend_dispatcher_implementation.py:110-120 | an element-type check is added exactly for the array parameters whose element class carries the ObjC prefix |
| ObjCFrontendDispatcher.CheckedNamesAppend | Source/JavaScriptCore/inspector/scripts/codegen/generate_objc_frontend_dispatcher_implementation.py:107-120 | the checked names of two runs of lines are those of the first followed by those of the second |
| ObjCFrontendDispatcher.ArrayCheckedAppend | Source/JavaScriptCore/inspector/scripts/codegen/generate_objc_frontend_dispatcher_implementation.py:110-120 | the array-checked names of two runs of lines are those of the first followed by those of the second |
| ObjCFrontendDispatcher.RequiredChecksFirst | Source/JavaScriptCore/inspector/scripts/codegen/generate_objc_frontend_dispatcher_implementation.py:106-120 | every required-parameter check precedes every optional-parameter check |
| ObjCFrontendDispatcher.CheckedNamesOfChecks | Source/JavaScriptCore/inspector/scripts/codegen/generate_objc_frontend_dispatcher_implementation.py:106-120 | the presence checks cover the required pointer parameters in declared order, then the optional ones in declared order |
| ObjCFrontendDispatcher.CheckKinds | Source/JavaScriptCore/inspector/scripts/codegen/generate_objc_frontend_dispatcher_implementation.py:107-120 | a list of required parameters gets only required checks, and a list of optional ones only optional checks |
| ObjCFrontendDispatcher.ParamsOnlyWithParameters | Source/JavaScriptCore/inspector/scripts/codegen/generate_objc_frontend_dispatcher_implementation.py:127-128 | a params object is built, right after the method, and attached last exactly when the event has parameters |
| ObjCFrontendDispatcher.ParamsWritten | Source/JavaScriptCore/inspector/scripts/codegen/generate_objc_frontend_dispatcher_implementation.py:146-155 | the params object receives every required parameter and each optional one that is present, in declared order |
| MemoryCacheModel.DeadCapacityClamped | Source/WebCore/loader/cache/MemoryCache.cpp:197-204 | the dead capacity is the space live resources leave free when that lies between the minimum and maximum dead capacities, and the nearer bound otherwise |
| MemoryCacheModel.CapacitiesAddUp | Source/WebCore/loader/cache/MemoryCache.cpp:206-210 | when the bounds are ordered as setCapacities asserts, the live and dead capacities add up to the total exactly, with no unsigned wrap-around |
| MemoryCacheModel.PruneTargetBelowCapacity | Source/WebCore/loader/cache/MemoryCache.cpp:280 | the prune target, the capacity times .95f truncated to unsigned, never exceeds the capacity and is strictly below any non-zero capacity |
| MemoryCacheModel.FragmentOnlyStrippedFromHttp | Source/WebCore/loader/cache/MemoryCache.cpp:90-102 | only an HTTP-family URL loses its fragment; the protocol and the rest of the URL are always kept, and any other URL comes back unchanged |
| MemoryCacheModel.RemoveFragmentIdempotent | Source/WebCore/loader/cache/MemoryCache.cpp:90-102 | normalising a URL twice is the same as normalising it once |
| MemoryCacheModel.HttpFragmentsShareKey | Source/WebCore/loader/cache/MemoryCache.cpp:90-102 | HTTP URLs that differ only in their fragment share one cache key |
| MemoryCacheModel.AdjustAllowedNoUnderflow | Source/WebCore/loader/cache/MemoryCache.cpp:628-637 | a decrease the adjustSize assertion admits never takes the unsigned total below zero |
| MemoryCacheModel.AddSizeAsInt | Source/WebCore/loader/cache/MemoryCache.cpp:549 | adding an unsigned size that passed through an int parameter is the same unsigned addition |
| MemoryCacheModel.Cached | Source/WebCore/loader/cache/MemoryCache.cpp:117 | setInCache(true) marks the resource as in the cache and keeps its access count, size and clients |
| MemoryCacheModel.MemoryCache.constructor | Source/WebCore/loader/cache/MemoryCache.cpp:63-73 | a new cache is enabled, not pruning, has the default 8 MiB capacity with dead capacities from 0 to the default, no sizes, no sessions and empty LRU lists |
| MemoryCacheModel.MemoryCache.Track | Source/WebCore/loader/cache/MemoryCache.cpp:462-463 | a newly constructed resource is not in the cache, has never been accessed and has null list links, so it is on no list |
| MemoryCacheModel.MemoryCache.RemoveFromLRUList | Source/WebCore/loader/cache/MemoryCache.cpp:460-505 | a never-accessed resource is left alone; a listed one is unlinked from its list with its neighbours joined and the list's ends fixed, and every other resource keeps its place; an unlisted one only grows the list vector |
| MemoryCacheModel.MemoryCache.InsertInLRUList | Source/WebCore/loader/cache/MemoryCache.cpp:507-537 | the resource becomes the head of the list its size per access selects, before the old head, and becomes the tail of a list that was empty; every other resource keeps its place |
| MemoryCacheModel.MemoryCache.AdjustSize | Source/WebCore/loader/cache/MemoryCache.cpp:628-637 | the live or the dead total, and only that one, changes by delta with unsigned wrap-around |
| MemoryCacheModel.MemoryCache.CountFirstAccess | Source/WebCore/loader/cache/MemoryCache.cpp:547-549 | on its first access a resource's size is added to the live total when it has clients and to the dead total otherwise; later accesses change neither |
| MemoryCacheModel.MemoryCache.ResourceAccessed | Source/WebCore/loader/cache/MemoryCache.cpp:539-556 | the access count goes up by one, the sizes are counted on the first access, and the resource ends at the head of the LRU list for its new size per access, with every other resource kept in place |
| MemoryCacheModel.MemoryCache.Add | Source/WebCore/loader/cache/MemoryCache.cpp:104-123 | a disabled cache adds nothing and returns false; otherwise the resource is stored under its URL in its session's map, marked as in the cache and accessed, and true is returned |
| MemoryCacheModel.MemoryCache.PruneDeadResourcesToSize | Source/WebCore/loader/cache/MemoryCache.cpp:345-353 | a dead sweep runs exactly when no prune is running and the target is 0 or the dead size exceeds it |
| MemoryCacheModel.MemoryCache.PruneLiveResourcesToSize | Source/WebCore/loader/cache/MemoryCache.cpp:285-289 | a live sweep runs exactly when no prune is running |
| MemoryCacheModel.MemoryCache.SetCapacities | Source/WebCore/loader/cache/MemoryCache.cpp:406-414 | the three bounds replace the old ones and the cache is then pruned |
| MemoryCacheModel.PruneTargetsBelowCapacities | Source/WebCore/loader/cache/MemoryCache.cpp:274-283 | every sweep prune() asks for aims no higher than its capacity, strictly below a non-zero one, and prune() never destroys the decoded data of all live resources |
| MemoryCacheModel.PruneIdle | Source/WebCore/loader/cache/MemoryCache.cpp:722-729 | on the fast path, or while a prune runs, prune() does nothing |
| MemoryCacheModel.PruneMakesProgress | Source/WebCore/loader/cache/MemoryCache.cpp:722-729 | when the cache is over its capacity or its dead size over the maximum and no prune is running, prune() starts at least one sweep |
| MemoryCacheLru.Grown | Source/WebCore/loader/cache/MemoryCache.cpp:455-456 | growing the list vector to index + 1 keeps every existing list and adds empty ones only, and never shrinks it |
| MemoryCacheLru.QueueKey | Source/WebCore/loader/cache/MemoryCache.cpp:450-451 | the size per access, with an access count of zero counted as one, never exceeds the resource's size |
| MemoryCacheLru.LruListFor | Source/WebCore/loader/cache/MemoryCache.cpp:448-458 | the list chosen is the fastLog2 of size over access count, and the vector has grown just enough that the index is in range, its old lists untouched |
| MemoryCacheLru.ThreadedGrown | Source/WebCore/loader/cache/MemoryCache.cpp:455-456 | growing the vector keeps every list threaded through the next and prev links and the positions exact |
| MemoryCacheLru.CacheInvGrown | Source/WebCore/loader/cache/MemoryCache.cpp:455-456 | growing the vector keeps the whole cache invariant: lists threaded, positions exact, each listed resource in the list its size and access count select |
| MemoryCacheLru.CacheInvTracked | Source/WebCore/loader/cache/MemoryCache.cpp:462-463 | a new resource, in no list and with null links, can join the cache without breaking the invariant |
| MemoryCacheLru.CacheInvUnlistedChanged | Source/WebCore/loader/cache/MemoryCache.cpp:548-552 | a resource in no list may change its access count and flags while the invariant still holds |
| MemoryCacheLru.CacheInvUnlistedOrSame | Source/WebCore/loader/cache/MemoryCache.cpp:548-552 | changing a resource keeps the invariant when the resource is in no list or is left as it was |
| MemoryCacheLru.UnlinkResource | Source/WebCore/loader/cache/MemoryCache.cpp:460-505 | removeFromLRUList: a never-accessed resource changes nothing; an accessed resource in no list only grows the vector; a listed resource leaves exactly its own list at its position, and that list's ends and neighbour links are rejoined; in every case afterwards the invariant holds, the resource is in no list with null links, and every other resource keeps its list and order |
| MemoryCacheLru.UnlinkLinks | Source/WebCore/loader/cache/MemoryCache.cpp:487-504 | the pointer surgery: the resource's links become null, the successor points back to the predecessor and the predecessor on to the successor, and the head or tail moves when the resource was at that end |
| MemoryCacheLru.HeadWhenNoLinks | Source/WebCore/loader/cache/MemoryCache.cpp:490-491 | a listed resource with both links null is the head of its list, so the early return only fires for resources in no list |
| MemoryCacheLru.CacheInvUnlink | Source/WebCore/loader/cache/MemoryCache.cpp:460-505 | taking a listed resource out keeps the invariant, removes it from the positions with null links and keeps the order of the rest |
| MemoryCacheLru.UnlinkKeepsCacheFacts | Source/WebCore/loader/cache/MemoryCache.cpp:493-504 | unlinking keeps every resource in the link maps and every remaining listed resource in the list its size and access count select |
| MemoryCacheLru.ThreadedUnlink | Source/WebCore/loader/cache/MemoryCache.cpp:493-504 | unlinking the resource at its position leaves every list described by its head, tail and links, with the resource in none |
| MemoryCacheLru.UnlinkReady | Source/WebCore/loader/cache/MemoryCache.cpp:487-488 | a listed resource sits at its recorded position in a described list, and removing it from the positions keeps the others' order |
| MemoryCacheLru.UnlinkPositionsExact | Source/WebCore/loader/cache/MemoryCache.cpp:493-504 | after removal the positions record exactly the resources still listed |
| MemoryCacheLru.UnlinkPositions | Source/WebCore/loader/cache/MemoryCache.cpp:493-504 | after removal every listed resource's position is its list and its new index in that list |
| MemoryCacheLru.UnlinkPlaced | Source/WebCore/loader/cache/MemoryCache.cpp:493-504 | after removal every recorded position holds its resource |
| MemoryCacheLru.UnlinkNullLinks | Source/WebCore/loader/cache/MemoryCache.cpp:493-494 | after removal every resource in no list, the removed one included, has null links |
| MemoryCacheLru.UnlinkKeepsOtherList | Source/WebCore/loader/cache/MemoryCache.cpp:496-504 | unlinking in one list leaves every other list described by its old head, tail and links |
| MemoryCacheLru.DistinctWhenPositioned | Source/WebCore/loader/cache/MemoryCache.cpp:478-484 | a list whose elements are recorded at their own indexes holds no resource twice |
| MemoryCacheLru.ListUnlinked | Source/WebCore/loader/cache/MemoryCache.cpp:493-504 | the list the resource leaves is described, after the surgery, by its new ends and links |
| MemoryCacheLru.UnlinkedEndsDescribe | Source/WebCore/loader/cache/MemoryCache.cpp:498-504 | the new head and tail are the first and last elements of the shortened list |
| MemoryCacheLru.UnlinkedStillListed | Source/WebCore/loader/cache/MemoryCache.cpp:496-502 | every resource left in the list keeps both of its links |
| MemoryCacheLru.UnlinkedNextLinks | Source/WebCore/loader/cache/MemoryCache.cpp:501-502 | every remaining element's next link is its successor in the shortened list |
| MemoryCacheLru.UnlinkedPrevLinks | Source/WebCore/loader/cache/MemoryCache.cpp:496-497 | every remaining element's prev link is its predecessor in the shortened list |
| MemoryCacheLru.UnlinkedNextBefore | Source/WebCore/loader/cache/MemoryCache.cpp:501-502 | elements before the predecessor keep their successor |
| MemoryCacheLru.UnlinkedNextJoin | Source/WebCore/loader/cache/MemoryCache.cpp:501-502 | the predecessor's successor becomes the removed resource's successor |
| MemoryCacheLru.UnlinkedNextAfter | Source/WebCore/loader/cache/MemoryCache.cpp:501-502 | elements after the removed resource keep their successor |
| MemoryCacheLru.UnlinkedPrevBefore | Source/WebCore/loader/cache/MemoryCache.cpp:496-497 | elements before the removed resource keep their predecessor |
| MemoryCacheLru.UnlinkedPrevJoin | Source/WebCore/loader/cache/MemoryCache.cpp:496-497 | the successor's predecessor becomes the removed resource's predecessor |
| MemoryCacheLru.UnlinkedPrevAfter | Source/WebCore/loader/cache/MemoryCache.cpp:496-497 | elements after the successor keep their predecessor |
| MemoryCacheLru.PushResource | Source/WebCore/loader/cache/MemoryCache.cpp:507-523 | insertInLRUList: the resource becomes the first element of the list its size and access count select, grown into existence if need be; the old head points back to it, it becomes the tail of an empty list, the invariant holds and every other resource keeps its order |
| MemoryCacheLru.PushKeepsCacheFacts | Source/WebCore/loader/cache/MemoryCache.cpp:514-522 | pushing keeps every resource in the link maps and puts the pushed resource in the list it selects |
| MemoryCacheLru.ThreadedPush | Source/WebCore/loader/cache/MemoryCache.cpp:516-522 | pushing a resource in no list at the head of a list leaves every list described, with that resource first |
| MemoryCacheLru.ListPushed | Source/WebCore/loader/cache/MemoryCache.cpp:516-522 | the list pushed onto is described by its new ends and links, with the resource in front of the old elements |
| MemoryCacheLru.PushedNextAt | Source/WebCore/loader/cache/MemoryCache.cpp:516 | after the push every element's next link is its successor in the longer list |
| MemoryCacheLru.PushedPrevAt | Source/WebCore/loader/cache/MemoryCache.cpp:517-518 | after the push every element's prev link is its predecessor in the longer list |
| MemoryCacheLru.PushKeepsOtherList | Source/WebCore/loader/cache/MemoryCache.cpp:516-519 | pushing onto one list leaves every other list described |
| MemoryCacheLru.PushPositionsExact | Source/WebCore/loader/cache/MemoryCache.cpp:519 | after the push the positions again record exactly the listed resources, the others moved one place back |
| MemoryCacheLru.PushNullLinks | Source/WebCore/loader/cache/MemoryCache.cpp:510 | after the push every resource still in no list keeps null links |
| MemoryCacheLru.ThreadedUnlinkedJoins | Source/WebCore/loader/cache/MemoryCache.cpp:510 | a resource in no list may join the link maps with null links without disturbing any list |
| MemoryCacheLru.ListLinkedWithout | Source/WebCore/loader/cache/MemoryCache.cpp:510 | setting null links on a resource outside a list does not change that list's description |
| MemoryCacheLru.ListLinkedFrame | Source/WebCore/loader/cache/MemoryCache.cpp:478-484 | a list keeps its description when the links of its own elements do not change |
| MemoryCacheLru.OrderKeptWithout | Source/WebCore/loader/cache/MemoryCache.cpp:543-545 | removing a resource from the positions keeps every other resource's list and relative order |
| MemoryCacheLru.OrderKeptSame | Source/WebCore/loader/cache/MemoryCache.cpp:463-464 | an unchanged position map keeps every resource's order |
| MemoryCacheLru.OrderKeptWith | Source/WebCore/loader/cache/MemoryCache.cpp:516-519 | pushing a resource at a head keeps every other resource's list and relative order |
| MemoryCacheLru.OrderKeptTrans | Source/WebCore/loader/cache/MemoryCache.cpp:545-555 | order kept through two steps is kept through both |
| MemoryCacheLru.RemovedAt | Source/WebCore/loader/cache/MemoryCache.cpp:493-504 | the list without one element is one shorter |
| MemoryCacheLru.Accessed | Source/WebCore/loader/cache/MemoryCache.cpp:552 | increaseAccessCount adds one to the access count and keeps the size and the in-cache flag |
| MemoryCacheLru.AccessResource | Source/WebCore/loader/cache/MemoryCache.cpp:539-556 | resourceAccessed: the resource's access count goes up by one, it ends at the head of the list its new count selects, the invariant holds and every other resource keeps its list and order |
| FontCacheKey.DefaultKey | Source/WebCore/platform/graphics/FontCache.h:70-74 | the explicit constructor keeps the given size and sets weight and flags to zero |
| FontCacheKey.MakeFlagKey | Source/WebCore/platform/graphics/FontCache.h:80-87 | when the four one-bit fields are 0 or 1 and the width variant fits in 28 bits, every field can be read back out of its own bits of the flag key |
| FontCacheKey.KeyOf | Source/WebCore/platform/graphics/FontCache.h:75-79 | the key built from a description holds its pixel size, its weight and its flag key |
| FontCacheKey.FlagKeyInjective | Source/WebCore/platform/graphics/FontCache.h:80-87 | descriptions whose flag fields fit and share a flag key agree on all five flag fields |
| FontCacheKey.FlagKeyOverlapsOutsideBits | Source/WebCore/platform/graphics/FontCache.h:80-87 | outside those ranges the shifted fields overlap: an italic value of 2 gives the same flag key as an orientation of 1 |
| FontCacheKey.Equal | Source/WebCore/platform/graphics/FontCache.h:88-91 | operator== holds exactly when the two keys are equal |
| FontCacheKey.NotEqual | Source/WebCore/platform/graphics/FontCache.h:92-95 | operator!= holds exactly when the two keys differ |
| FontCacheKey.KeysEqualIffFieldsAgree | Source/WebCore/platform/graphics/FontCache.h:75-91 | two descriptions with fitting flags get equal keys if and only if they agree on every field the key reads |
| FontCacheKey.DefaultKeyMatches | Source/WebCore/platform/graphics/FontCache.h:70-91 | a default key equals a description's key if and only if the description has that size, weight 0 and every flag field 0 |
| FontGlyphMetrics.Font.constructor | Source/WebCore/platform/graphics/Font.h:216 | a new font has empty width and bounds caches, no bounds map yet, and the given data sources and zero-width space glyph |
| FontGlyphMetrics.Font.IsZeroWidthSpaceGlyph | Source/WebCore/platform/graphics/Font.h:163 | a glyph is the zero-width space glyph if and only if it equals the stored one and is not glyph 0 |
| FontGlyphMetrics.Font.WidthForGlyph | Source/WebCore/platform/graphics/Font.h:335-359 | the zero-width space glyph has width 0 and leaves the cache alone; any other glyph gets the SVG width first, then the vertical advance, then the platform width; a cached width is returned with the cache unchanged, and an uncached one is stored; every cached width stays the one the font's data gives |
| FontGlyphMetrics.Font.BoundsForGlyph | Source/WebCore/platform/graphics/Font.h:316-333 | the zero-width space glyph gets the empty rect; any other glyph gets its platform bounds; a cached entry leaves the map alone, and otherwise the map is created when missing and the bounds stored |
| FontGlyphMetrics.Font.SizePerUnit | Source/WebCore/platform/graphics/Font.h:134 | a font without unitsPerEm returns the platform size, and otherwise the result times unitsPerEm is the platform size |
| FontGlyphMetrics.Font.SetSpaceWidths | Source/WebCore/platform/graphics/Font.h:149-153 | the space width and the adjusted space width both become the given width |
| FontGlyphMetrics.WidthForGlyphTwice | Source/WebCore/platform/graphics/Font.h:335-359 | asking twice for a glyph's width gives the same answer, and a known width is cached after the first call |
| FontGlyphMetrics.BoundsForGlyphTwice | Source/WebCore/platform/graphics/Font.h:316-333 | asking twice for a glyph's bounds gives the same answer, and any glyph but the zero-width space is in the bounds map after the first call |
| WtfRef.RefCounted.constructor | Source/WTF/wtf/Ref.h:157-161 | a newly created object holds the one reference that adoptRef takes over, and is alive |
| WtfRef.RefCounted.Ref | Source/WTF/wtf/Ref.h:52 | the ref() a Ref calls on a live object adds exactly one reference |
| WtfRef.RefCounted.Deref | Source/WTF/wtf/Ref.h:46 | the deref() a Ref calls removes exactly one reference, and the object is deleted exactly when the count reaches zero |
| WtfRef.Ref.constructor | Source/WTF/wtf/Ref.h:49-53 | Ref(T&) points at the object and adds exactly one reference to it |
| WtfRef.Ref.Adopt | Source/WTF/wtf/Ref.h:135-139 | the adopting constructor points at the object without touching its count |
| WtfRef.Ref.Move | Source/WTF/wtf/Ref.h:59-63 | move construction takes the other's pointer and leaves the other null, with no count change |
| WtfRef.Ref.Destroy | Source/WTF/wtf/Ref.h:43-47 | the destructor of a non-null Ref removes exactly one reference, deleting the object when that was the last; a moved-from Ref changes nothing |
| WtfRef.Ref.AssignObject | Source/WTF/wtf/Ref.h:72-80 | assigning an object refs the new one before dereffing the old one: the Ref points at the new object, a different new object gains one reference and the old loses one, and assigning the object already held leaves its count unchanged and it alive |
| WtfRef.Ref.MoveAssign | Source/WTF/wtf/Ref.h:86-93 | move assignment removes one reference from the old object, takes the other's pointer and leaves the other null, with no count change on the new object |
| WtfRef.Ref.CopyRef | Source/WTF/wtf/Ref.h:118-123 | copyRef returns a new Ref to the same object, which gains exactly one reference |
| WtfRef.Ref.LeakRef | Source/WTF/wtf/Ref.h:125-130 | leakRef returns the object and nulls the pointer, without dereffing |
| WtfRef.Ref.Replace | Source/WTF/wtf/Ref.h:144-149 | replace installs the other reference's object, leaves the other null and returns the old object adopted, with no count changes |
| WtfRef.AdoptRef | Source/WTF/wtf/Ref.h:157-163 | adoptRef wraps the object in a new Ref without ref-ing it |
| WtfRef.CopyThenDrop | Source/WTF/wtf/Ref.h:43-53 | copying a Ref and dropping the copy leaves the count as it was and the object alive |
| WtfRef.AdoptThenDrop | Source/WTF/wtf/Ref.h:43-47 | a new object adopted into a Ref is deleted, with count zero, when that Ref is dropped |
| WtfRef.MoveThenDrop | Source/WTF/wtf/Ref.h:43-63 | moving a Ref into a new one and dropping both removes exactly one reference, since the moved-from Ref is null |
| WtfRef.SelfAssign | Source/WTF/wtf/Ref.h:72-80 | assigning a Ref the object it already holds keeps that object alive with its count unchanged, even when it holds the only reference |
| JscArguments.Arguments.constructor | Source/JavaScriptCore/runtime/Arguments.h:193-196 | a new arguments object has no slow-argument data yet, over the given frame registers and environment |
| JscArguments.Arguments.IsArgument | Source/JavaScriptCore/runtime/Arguments.h:254-261 | an index is an argument if and only if it is below the argument count and the table, when there is one, does not mark it deleted |
| JscArguments.Arguments.IsDeletedArgument | Source/JavaScriptCore/runtime/Arguments.h:243-252 | an index is a deleted argument if and only if it is below the argument count and the table exists and marks it deleted, so never without a table |
| JscArguments.Arguments.ArgumentStorage | Source/JavaScriptCore/runtime/Arguments.h:263-275 | without a table an argument lives at the frame register its offset names; with one, at the entry's register unless the entry is captured, and then in the lexical environment at the entry's index less the capture offset |
| JscArguments.Arguments.AllocateSlowArguments | Source/JavaScriptCore/runtime/Arguments.h:203-217 | an existing table is left as it is; otherwise a table with one normal entry per argument, each at its frame offset, is created |
| JscArguments.Arguments.TryDeleteArgument | Source/JavaScriptCore/runtime/Arguments.h:219-226 | deletion fails and changes nothing for a non-argument; otherwise the table exists, the entry is marked deleted so the index is no longer an argument but a deleted one, and every other entry keeps its old or fresh value |
| JscArguments.Arguments.TrySetArgument | Source/JavaScriptCore/runtime/Arguments.h:228-234 | setting fails and writes nothing for a non-argument; otherwise the value is stored exactly where the argument lives, in the frame or in the environment, and reading the argument back gives it |
| JscArguments.Arguments.TryGetArgument | Source/JavaScriptCore/runtime/Arguments.h:236-241 | a non-argument reads as the empty value, and an argument reads as the value at its storage |
| JscArguments.ArgumentOrDeleted | Source/JavaScriptCore/runtime/Arguments.h:243-261 | below the argument count an index is exactly one of an argument and a deleted argument |
| JscArguments.AllocateTwice | Source/JavaScriptCore/runtime/Arguments.h:203-206 | allocating the table twice leaves the table the first allocation built |
| JscArguments.AllocateKeepsStorage | Source/JavaScriptCore/runtime/Arguments.h:213-216 | building the table changes no argument's storage: each still lives at the frame register its offset names |
| SvgAnimateElement.DetermineAnimatedPropertyType | Source/WebCore/svg/SVGAnimateElementBase.cpp:58-85 | no listed type gives unknown; otherwise the result is the first listed type or unknown, and exactly the first listed type when the element may animate it; animateColor only ever yields colour, and a transform list only for animateTransform |
| SvgAnimateElement.SupportsAddition | Source/WebCore/svg/SVGAnimateElementBase.cpp:369-397 | addition is unsupported exactly for boolean, enumeration, preserveAspectRatio, string and unknown |
| SvgAnimateElement.IsAdditive | Source/WebCore/svg/SVGAnimateElementBase.cpp:399-407 | a by or from-by animation of a type without addition is never additive; otherwise the base element's additive flag decides |
| SvgAnimateElement.NormalizedPercentage | Source/WebCore/svg/SVGAnimateElementBase.cpp:109-113 | set forces the percentage to 1; discrete mode maps below one half to 0 and the rest to 1; otherwise the percentage is unchanged, and the result stays in [0, 1] |
| SvgAnimateElement.NormalizedPercentageIdempotent | Source/WebCore/svg/SVGAnimateElementBase.cpp:109-113 | normalising a percentage twice gives what normalising once gives |
| SvgAnimateElement.SVGAnimateElementBase.constructor | Source/WebCore/svg/SVGAnimateElementBase.cpp:38-43 | a new element animates strings, has no target and no animator, and holds no parsed values |
| SvgAnimateElement.SVGAnimateElementBase.ResetAnimatedPropertyType | Source/WebCore/svg/SVGAnimateElementBase.cpp:431-439 | the from, to and end-of-duration values and the animator are dropped, and the property type becomes the target's determined type, or string without a target |
| SvgAnimateElement.SVGAnimateElementBase.SetTargetElement | Source/WebCore/svg/SVGAnimateElementBase.cpp:419-423 | setting a target stores it and resets the property type and the parsed values, leaving mode and calc mode alone |
| SvgAnimateElement.SVGAnimateElementBase.CalculateToAtEndOfDurationValue | Source/WebCore/svg/SVGAnimateElementBase.cpp:130-136 | fails and changes nothing exactly for the empty string; otherwise the animator exists and the end-of-duration value is parsed from the string with the element's property type |
| SvgAnimateElement.SVGAnimateElementBase.CalculateFromAndByValues | Source/WebCore/svg/SVGAnimateElementBase.cpp:150-169 | fails and changes nothing without a target, for a non-additive by animation, and for a from-by animation of a type without addition; otherwise the animator exists and the from and to values are parsed from the two strings |
| SvgAnimateElement.SVGAnimateElementBase.CalculateAnimatedValue | Source/WebCore/svg/SVGAnimateElementBase.cpp:87-128 | without a target nothing is computed; otherwise the animator is handed the normalised percentage |
| SvgAnimateElement.NonAdditiveByAnimationFails | Source/WebCore/svg/SVGAnimateElementBase.cpp:156-161 | a by or from-by animation of a type without addition never builds its values and leaves them as they were |
| ResourceRequestCoding.Wire | Source/WebCore/platform/network/ResourceRequestBase.h:265-279 | the wire form of a request is exactly nine tokens, one per streamed field, in declaration order |
| ResourceRequestCoding.ReadFrom | Source/WebCore/platform/network/ResourceRequestBase.h:281-322 | once k reads have succeeded, the count of successful reads is between k and nine, and beyond k only as far as there are tokens |
| ResourceRequestCoding.FieldsRead | Source/WebCore/platform/network/ResourceRequestBase.h:281-322 | the number of reads that succeed never exceeds nine or the number of tokens |
| ResourceRequestCoding.WireKinds | Source/WebCore/platform/network/ResourceRequestBase.h:265-322 | each token of an encoding has the kind the read at that place asks for |
| ResourceRequestCoding.WireReadsFrom | Source/WebCore/platform/network/ResourceRequestBase.h:281-322 | reading an encoding, whatever follows it, succeeds on every remaining field |
| ResourceRequestCoding.WireDecodes | Source/WebCore/platform/network/ResourceRequestBase.h:265-322 | decoding an encoding, whatever follows it, reads all nine fields and restores exactly the encoded request's fields, whatever the target held before |
| ResourceRequestCoding.OverwrittenKeepsLater | Source/WebCore/platform/network/ResourceRequestBase.h:285-321 | reads that stop after the k-th leave the later fields (priority, allowCookies, method) as they were |
| ResourceRequestCoding.FailedDecodeKeepsUnread | Source/WebCore/platform/network/ResourceRequestBase.h:285-321 | a decoding that fails part-way has overwritten the fields read before the failure and left the rest, at least the priority, as they were |
| ResourceRequestCoding.Encoder.constructor | Source/WebCore/platform/network/ResourceRequestBase.h:265 | a new encoder has written nothing |
| ResourceRequestCoding.Encoder.Encode | Source/WebCore/platform/network/ResourceRequestBase.h:268-278 | each encoder write appends exactly one token |
| ResourceRequestCoding.Decoder.constructor | Source/WebCore/platform/network/ResourceRequestBase.h:281 | a new decoder reads from the first token |
| ResourceRequestCoding.Decoder.Decode | Source/WebCore/platform/network/ResourceRequestBase.h:285-321 | a read succeeds if and only if a token of the asked kind is next, then returns it and moves one token on; a failed read moves nowhere |
| ResourceRequestCoding.ResourceRequestBase.constructor | Source/WebCore/platform/network/ResourceRequestBase.h:181-201 | a request from a URL has the given cache policy and timeout, method GET, no headers, no body, allowCookies set, priority low, no first-party URL and every report flag false |
| ResourceRequestCoding.ResourceRequestBase.EncodeWithoutPlatformData | Source/WebCore/platform/network/ResourceRequestBase.h:265-279 | without a body and with the platform request not updated, encoding appends exactly the wire form of the nine fields, and never the body |
| ResourceRequestCoding.ResourceRequestBase.DecodeField | Source/WebCore/platform/network/ResourceRequestBase.h:285-321 | one field's read: it succeeds exactly when the token it asks for is there, then stores it; a failed read ends the decoding with nothing more stored |
| ResourceRequestCoding.ResourceRequestBase.DecodeWithoutPlatformData | Source/WebCore/platform/network/ResourceRequestBase.h:281-322 | decoding succeeds if and only if all nine reads succeed; the fields are those the successful reads overwrite, in order, and the decoder moves past exactly the tokens read |
| ResourceRequestCoding.EncodeThenDecode | Source/WebCore/platform/network/ResourceRequestBase.h:265-322 | encoding one request and decoding the tokens into another succeeds and gives the second request the first one's nine fields |
| CacheTestMatrix.MergeStep | LayoutTests/http/tests/cache/resources/cache-test.js:108-113 | handling one more name of the component extends the partial merge by exactly that name: appended after ", " to a truthy value, stored otherwise |
| CacheTestMatrix.MergeFields | LayoutTests/http/tests/cache/resources/cache-test.js:106-114 | the loop over the component's names, in any order, yields the merged field |
| CacheTestMatrix.MergedMeaning | LayoutTests/http/tests/cache/resources/cache-test.js:106-114 | a name is in the merge exactly when it is in the field or the component; a truthy value gets the component's value appended after ", ", a missing or empty one is replaced, and names only the field has keep their value |
| CacheTestMatrix.MergedUnits | LayoutTests/http/tests/cache/resources/cache-test.js:106-114 | merging into an empty field copies the component, and merging an empty component changes nothing |
| CacheTestMatrix.AddStep | LayoutTests/http/tests/cache/resources/cache-test.js:133-137 | adding one more field of a component extends the partial test by exactly that field, merged into what the test held or into a fresh object |
| CacheTestMatrix.AddStepKeys | LayoutTests/http/tests/cache/resources/cache-test.js:133-137 | adding a field adds its name to the test's fields and no other |
| CacheTestMatrix.AddStepHere | LayoutTests/http/tests/cache/resources/cache-test.js:134-136 | the added field holds the component's headers merged into the test's old headers for it, or into a fresh object when the test had none |
| CacheTestMatrix.AddStepElsewhere | LayoutTests/http/tests/cache/resources/cache-test.js:133-137 | adding a field leaves every other field of the test unchanged |
| CacheTestMatrix.AddStepAt | LayoutTests/http/tests/cache/resources/cache-test.js:133-137 | every field of the extended test is present with the same headers in the one-step extension |
| CacheTestMatrix.AddComponentFields | LayoutTests/http/tests/cache/resources/cache-test.js:133-137 | the loop over the component's fields, in any order, merges the component into the test |
| CacheTestMatrix.Digits | LayoutTests/http/tests/cache/resources/cache-test.js:127-132 | a test number has one digit per dimension |
| CacheTestMatrix.BuildCombinesDigits | LayoutTests/http/tests/cache/resources/cache-test.js:127-138 | the test the inner loop builds is the combination of the components the number's mixed-radix digits pick, one per dimension, and those digits are a valid choice |
| CacheTestMatrix.CountPositive | LayoutTests/http/tests/cache/resources/cache-test.js:120-122 | the test count is positive exactly when no dimension is empty |
| CacheTestMatrix.CountAppend | LayoutTests/http/tests/cache/resources/cache-test.js:121-122 | each step of the counting loop multiplies the count by the size of the next dimension |
| CacheTestMatrix.DigitsEncode | LayoutTests/http/tests/cache/resources/cache-test.js:124-132 | the digits of a test number below the count are a choice of components that encodes back to that number |
| CacheTestMatrix.EncodeDigits | LayoutTests/http/tests/cache/resources/cache-test.js:124-132 | every choice of one component per dimension encodes to a number below the count whose digits are that choice |
| CacheTestMatrix.EveryCombinationOnce | LayoutTests/http/tests/cache/resources/cache-test.js:116-142 | every combination of one component per dimension is made by exactly one test number below the count |
| CacheTestMatrix.DigitFormula | LayoutTests/http/tests/cache/resources/cache-test.js:128-131 | the component picked in dimension i is the test number divided by the product of the earlier dimension sizes, modulo the size of dimension i |
| CacheTestMatrix.NestedDivision | LayoutTests/http/tests/cache/resources/cache-test.js:131 | flooring division by one size after another is flooring division by their product |
| CacheTestMatrix.GenerateTests | LayoutTests/http/tests/cache/resources/cache-test.js:116-142 | the tests number the product of the dimension sizes (none when a dimension is empty), and test t is the combination the digits of t pick |
| CacheTestMatrix.BuildTest | LayoutTests/http/tests/cache/resources/cache-test.js:125-138 | the inner loop builds the test for the given number, starting from an empty object |
| CacheTestMatrix.CacheTest.constructor | LayoutTests/http/tests/cache/resources/cache-test.js:27-29 | the unique counter starts at zero and the measured server clock offset is kept |
| CacheTestMatrix.CacheTest.MakeHeaderValue | LayoutTests/http/tests/cache/resources/cache-test.js:30-39 | now(0) and now(100) give the adjusted current time, the second 100 seconds later; unique() gives the counter in decimal and advances it; any other value comes back unchanged and only unique() moves the counter |
| CacheTestMatrix.UniqueTwice | LayoutTests/http/tests/cache/resources/cache-test.js:36-37 | two unique() expansions in a row give different header values |
| InspectorRemoteObject.RemoteObjectType | Source/WebInspectorUI/UserInterface/Protocol/RemoteObject.js:77-87 | null gives "null", any value that is neither an object nor a function gives its typeof, and an object or function gives its own type property, possibly undefined |
| InspectorRemoteObject.Construct | Source/WebInspectorUI/UserInterface/Protocol/RemoteObject.js:31-48 | `new RemoteObject(...)` throws a TypeError exactly for a primitive (no truthy object id) with no truthy description whose value is a symbol, where `value + ""` throws; otherwise it returns a fresh object built as the constructor row states |
| InspectorRemoteObject.RemoteObject.constructor | Source/WebInspectorUI/UserInterface/Protocol/RemoteObject.js:31-48 | for the arguments on which the constructor completes (Construct gives the TypeError on the others): type and subtype are kept; a handle (truthy object id) keeps its id, description and preview and has children unless it is a symbol, while a primitive has no id and no children, keeps its value, and is described by the given description when truthy and by the value converted to a string otherwise |
| InspectorRemoteObject.FromPrimitiveValue | Source/WebInspectorUI/UserInterface/Protocol/RemoteObject.js:50-53 | a TypeError exactly when the value is a symbol; otherwise a fresh primitive remote object whose type is the typeof of the value, with no subtype and no children, described by the value converted to a string |
| InspectorRemoteObject.RemoteObject.IsCollectionType | Source/WebInspectorUI/UserInterface/Protocol/RemoteObject.js:231-234 | true exactly for the subtypes map, set and weakmap |
| InspectorRemoteObject.RemoteObject.IsWeakCollection | Source/WebInspectorUI/UserInterface/Protocol/RemoteObject.js:236-239 | a weak collection is a collection type |
| InspectorRemoteObject.RemoteObject.WeakCollectionObjectGroup | Source/WebInspectorUI/UserInterface/Protocol/RemoteObject.js:313-316 | the group name ends in "-WeakMap" |
| InspectorRemoteObject.JsonEscapeRoundTrip | Source/WebInspectorUI/UserInterface/Protocol/RemoteObject.js:315 | the string escaping of JSON.stringify loses nothing: the escaped text reads back as the original string |
| InspectorRemoteObject.WeakGroupsDistinct | Source/WebInspectorUI/UserInterface/Protocol/RemoteObject.js:313-316 | remote objects with different object ids get different weak-collection object groups |
| InspectorRemoteObject.RemoteObject.GetCollectionEntries | Source/WebInspectorUI/UserInterface/Protocol/RemoteObject.js:241-258 | a start that is not a number becomes 0 and a count that is not a number becomes 100; a weak collection is fetched into its own object group and any other collection into the group "" |
| InspectorRemoteObject.RemoteObject.GetProperties | Source/WebInspectorUI/UserInterface/Protocol/RemoteObject.js:135-140 | a primitive or a symbol gets no properties without asking the backend, and exactly those; otherwise the request is for the object's id, and asks for all properties to filter locally exactly when own-and-getter properties are wanted from a backend that cannot select them, passing the flags through otherwise |
| InspectorRemoteObject.FirstBracketedDigitsLeftmost | Source/WebInspectorUI/UserInterface/Protocol/RemoteObject.js:305 | the match found for /\[([0-9]+)\]/ is a bracketed run of digits and no match starts earlier; when none is found the description has none |
| InspectorRemoteObject.RemoteObject.ArrayLength | Source/WebInspectorUI/UserInterface/Protocol/RemoteObject.js:300-309 | a non-array gives 0; an array gives the integer in the first bracketed digits of its description, 0 when there are none, and fails when it has no description |
| InspectorRemoteObject.ArrayLengthReadsCount | Source/WebInspectorUI/UserInterface/Protocol/RemoteObject.js:300-309 | an array description of a bracket-free name followed by "[n]" gives n |
| DecimalText.DecimalStringDigits | LayoutTests/http/tests/cache/resources/cache-test.js:37 | the string concatenation of a non-negative number writes only decimal digits |
| DecimalText.DecimalStringParses | Source/WebInspectorUI/UserInterface/Protocol/RemoteObject.js:308 | reading a number's decimal string back in base 10 gives the number |
| DecimalText.DecimalStringInjective | LayoutTests/http/tests/cache/resources/cache-test.js:37 | different counter values give different decimal strings |
| InspectorSchema.UpperChar | Source/JavaScriptCore/inspector/scripts/codegen/generate_objc_frontend_dispatcher_implementation.py:140 | a lower-case ASCII letter becomes its upper-case letter and any other character is unchanged |
| InspectorSchema.Ucfirst | Source/JavaScriptCore/inspector/scripts/codegen/generate_objc_frontend_dispatcher_implementation.py:140 | the result has the same length, its first character upper-cased and the rest kept |
| MemoryCacheModel.MemoryCache.CacheAndAccess | Source/WebCore/loader/cache/MemoryCache.cpp:118-120 | the resource is marked in the cache and accessed: its size moves into the live or dead total on its first access, and it heads the LRU list its access count selects |
| ObjCFrontendDispatcher.ValuesExported | Source/JavaScriptCore/inspector/scripts/codegen/generate_objc_frontend_dispatcher_implementation.py:146-153 | there is one exported value per parameter, and parameter k's value is the export expression for its type applied to its name, dereferenced as (*name) when it is optional |
| JscBytecodeGenerator.BytecodeGenerator.constructor | Source/JavaScriptCore/bytecompiler/BytecodeGenerator.cpp:160-181 | a new generator has emitted nothing, has no labels, callee registers, scopes or try ranges, and counts its last opcode as op_end, which is complete |
| JscBytecodeGenerator.UnlinkedSimpleJumpTable.constructor | Source/JavaScriptCore/bytecompiler/BytecodeGenerator.cpp:2568 | a new switch jump table has min 0 and no branch offsets |
| SelectorCompiler.NthChildFilters.constructor | Source/WebCore/cssjit/SelectorCompiler.cpp:447 | a fresh fragment has no plain and no of-selector nth-child filters, and zero internal specificity |
| SelectorCompiler.WrapInt32 | Source/WebCore/cssjit/SelectorCompiler.cpp:3866-3890 | a 32-bit subtraction result: an in-range value is itself, any other is congruent to the exact value modulo 2^32 |
| SelectorCompiler.IncrementUInt32 | Source/WebCore/cssjit/SelectorCompiler.cpp:1280-1311 | `unsigned + 1` is the successor below UINT_MAX and wraps UINT_MAX to 0 |
| SelectorCompiler.MostRestrictiveFunctionType | Source/WebCore/cssjit/SelectorCompiler.cpp:98-103 | `std::max` of two function types is one of them and at least as restrictive as both (see also lines 387-390 of the same file) |
| SelectorCompiler.RankInjective | Source/WebCore/cssjit/SelectorCompiler.cpp:98-103 | distinct enumerators have distinct underlying values |
| SelectorCompiler.MostRestrictiveCommutesAndAssociates | Source/WebCore/cssjit/SelectorCompiler.cpp:387-390 | combining function types is commutative and associative |
| SelectorCompiler.MostRestrictiveUnitAndZero | Source/WebCore/cssjit/SelectorCompiler.cpp:98-103 | SimpleSelectorChecker is neutral, CannotCompile absorbs, and combining a type with itself gives it back (see also lines 387-390 of the same file) |
| SelectorCompiler.Kept | Source/WebCore/cssjit/SelectorCompiler.cpp:459-510 | the subselectors kept are at most those given and all compiled to a matching checker |
| SelectorCompiler.CombinedTypeIsMaximum | Source/WebCore/cssjit/SelectorCompiler.cpp:465-506 | the list's type is at least the context's type and every kept subselector's type, and is one of them |
| SelectorCompiler.NthChildTypeRespectsContext | Source/WebCore/cssjit/SelectorCompiler.cpp:449-519 | outside querySelector a `:nth-child` never gets the simple checker, and its type is a checker, CannotMatchAnything or CannotCompile |
| SelectorCompiler.AddNthChildType | Source/WebCore/cssjit/SelectorCompiler.cpp:449-519 | returns the modelled type: an unparsable or a<=0,b<1 filter cannot match anything; a plain filter is appended to the simple cases; a list with a subselector that cannot compile, or whose specificities differ in a rule collector, cannot compile; a list with nothing kept cannot match anything; otherwise the filter with the kept subselectors is appended and the internal specificity becomes the first kept one's |
| SelectorCompiler.CompileSelectorList | Source/WebCore/cssjit/SelectorCompiler.cpp:459-513 | the loop over subselectors returns CannotCompile on the first that cannot compile or on a specificity mismatch, else the combined type of those kept, which it also returns with the first kept specificity |
| SelectorCompiler.NoPositionBelowOne | Source/WebCore/cssjit/SelectorCompiler.cpp:454-457 | with a <= 0 and b < 1 no 1-based position is an+b, so CannotMatchAnything is sound |
| SelectorCompiler.AlwaysSatisfiedSelectsEveryElement | Source/WebCore/cssjit/SelectorCompiler.cpp:3518-3524 | a filter the test reports as always satisfied (a = 1, b in {0, 1}) selects every position |
| SelectorCompiler.AlwaysSatisfiedIsConservative | Source/WebCore/cssjit/SelectorCompiler.cpp:3518-3524 | the test is not an if-and-only-if: 1n-1 selects every position but is not reported |
| SelectorCompiler.ModuloIsZeroDivides | Source/WebCore/cssjit/SelectorCompiler.cpp:2378-2388 | each branch of `moduloIsZero` (skip for ±1, low bit for ±2, truncated remainder otherwise) passes exactly the dividends the divisor divides |
| SelectorCompiler.NthFilterTestCorrect | Source/WebCore/cssjit/SelectorCompiler.cpp:3866-3890 | the generated test on a 32-bit counter passes exactly when counter = an+b for some n >= 0, as section 6.6.5.2 of CSS Selectors Level 3 defines, whenever counter - b fits in 32 bits (see also lines 2378-2388 of the same file) |
| SelectorCompiler.FoldString | Source/WebCore/cssjit/SelectorCompiler.cpp:2813-2814 | the folded string has the same length and folds each character |
| SelectorCompiler.HyphenMatcherMeetsSelectorsLevel3 | Source/WebCore/cssjit/SelectorCompiler.cpp:2810-2827 | the dash-match attribute selector matches exactly when the value equals val or starts with val followed by '-', compared under the case sensitivity (section 6.3.1 of CSS Selectors Level 3) |
| SelectorCompiler.Find | Source/WebCore/cssjit/SelectorCompiler.cpp:2838-2841 | the first occurrence at or after the start position; None means there is none |
| SelectorCompiler.AttributeValueSpaceSeparatedListContains | Source/WebCore/cssjit/SelectorCompiler.cpp:2829-2851 | the search loop returns true exactly when val occurs with the start or an HTML space before it and the end or an HTML space after it (see also lines 978-985 of the same file) |
| SelectorCompiler.EqualTagNamesSymmetric | Source/WebCore/cssjit/SelectorCompiler.cpp:1368-1403 | `equalTagNames` does not depend on the order of its arguments, and a tag name is never strictly unequal to itself |
| SelectorCompiler.PatternEqualsItself | Source/WebCore/cssjit/SelectorCompiler.cpp:1405-1417 | a tag-name pattern not under :not is equal to itself |
| SelectorCompiler.LargestMatchingPrefix | Source/WebCore/cssjit/SelectorCompiler.cpp:1421-1443 | the prefix size found is at most the maximum |
| SelectorCompiler.LargestMatchingPrefixIsLargest | Source/WebCore/cssjit/SelectorCompiler.cpp:1421-1443 | the size found matches and no larger size up to the maximum does |
| SelectorCompiler.ComputeBacktrackingStartOffsetInChain | Source/WebCore/cssjit/SelectorCompiler.cpp:1421-1443 | the nested loops return the chain size minus the largest matching prefix size, between size - maxPrefixSize and size |
| SelectorCompiler.SolversShareOneTable | Source/WebCore/cssjit/SelectorCompiler.cpp:1280-1311 | the descendant and adjacent solvers classify a start the same way: no restart, at the current element, at the next one, or at the tail |
| SelectorCompiler.FarStartIsTail | Source/WebCore/cssjit/SelectorCompiler.cpp:1280-1295 | a valid start above the parent or below the current element sends the descendant walker to the tail |
| SelectorCompiler.SolveBacktrackingAction | Source/WebCore/cssjit/SelectorCompiler.cpp:1314-1360 | only the three actions change; Rightmost and Descendant fragments are unchanged; each other relation gets its actions from the solvers as the source branches, including a direct adjacent without an indirect adjacent on the right copying its traversal action to the tag-name action |
| SelectorCompiler.SolveBacktrackingActionIdempotent | Source/WebCore/cssjit/SelectorCompiler.cpp:1325-1360 | solving a solved fragment again changes nothing |
| JscBytecodeGenerator.Patched | Source/JavaScriptCore/bytecompiler/BytecodeGenerator.cpp:52-59 | patching keeps the stream's length |
| JscBytecodeGenerator.PatchedLands | Source/JavaScriptCore/bytecompiler/BytecodeGenerator.cpp:52-59 | after `setLocation` every recorded jump whose operand word no later jump reuses holds the distance from its jump to the label, and no other word changes |
| JscBytecodeGenerator.BytecodeGenerator.SetLocation | Source/JavaScriptCore/bytecompiler/BytecodeGenerator.cpp:52-59 | the label is placed and the stream becomes the patched stream of its recorded jumps; no other label changes |
| JscBytecodeGenerator.BytecodeGenerator.Bind | Source/JavaScriptCore/bytecompiler/BytecodeGenerator.cpp:760-763 | a placed label yields location minus the jump's start and is unchanged; a forward label yields 0 and records the jump |
| JscBytecodeGenerator.ReclaimedMeaning | Source/JavaScriptCore/bytecompiler/BytecodeGenerator.cpp:616-648 | reclaiming pops only unreferenced entries from the end, leaves a referenced last entry (or nothing), and is idempotent |
| JscBytecodeGenerator.Reclaim | Source/JavaScriptCore/bytecompiler/BytecodeGenerator.cpp:618-619 | the reclaiming while loop leaves the vector with its trailing unreferenced entries popped |
| JscBytecodeGenerator.RoundUpToMultipleOf | Source/JavaScriptCore/bytecompiler/BytecodeGenerator.cpp:610 | the rounded count is a multiple of the alignment, at least the count and less than one alignment more |
| JscBytecodeGenerator.BytecodeGenerator.NewRegister | Source/JavaScriptCore/bytecompiler/BytecodeGenerator.cpp:607-614 | appends the local numbered by the vector's size, and the callee register count becomes the larger of the old count and the new size rounded up to the stack alignment |
| JscBytecodeGenerator.BytecodeGenerator.NewTemporary | Source/JavaScriptCore/bytecompiler/BytecodeGenerator.cpp:616-625 | the registers become the reclaimed vector plus exactly one new temporary, which is returned; the callee count covers it, never shrinks and stays aligned |
| JscBytecodeGenerator.BytecodeGenerator.NewLabel | Source/JavaScriptCore/bytecompiler/BytecodeGenerator.cpp:639-648 | the labels become the reclaimed vector plus exactly one unplaced label, whose index is returned |
| JscBytecodeGenerator.BytecodeGenerator.NewLabelScope | Source/JavaScriptCore/bytecompiler/BytecodeGenerator.cpp:627-637 | the scopes become the reclaimed vector plus one scope of the type and name with a new break label, and a new continue label only for a loop |
| JscBytecodeGenerator.Innermost | Source/JavaScriptCore/bytecompiler/BytecodeGenerator.cpp:2209-2227 | the found scope passes the test and no scope inside it does; None means no scope below the bound passes |
| JscBytecodeGenerator.NearestLoopFrom | Source/JavaScriptCore/bytecompiler/BytecodeGenerator.cpp:2252-2264 | the loop found is at or inside the starting scope and no scope between them is a loop; None means no loop from there in |
| JscBytecodeGenerator.BytecodeGenerator.BreakTarget | Source/JavaScriptCore/bytecompiler/BytecodeGenerator.cpp:2190-2230 | after reclaiming, an empty name gives the innermost scope that is not a plain label, another name the innermost scope with that name, and None when there is none |
| JscBytecodeGenerator.BytecodeGenerator.ContinueTarget | Source/JavaScriptCore/bytecompiler/BytecodeGenerator.cpp:2232-2265 | after reclaiming, an empty name gives the innermost loop; another name gives the loop nearest to (at or inside) the innermost scope with that name, None when that scope has no loop inside it or no scope has the name |
| JscBytecodeGenerator.BytecodeGenerator.EmitOpcode | Source/JavaScriptCore/bytecompiler/BytecodeGenerator.cpp:671-680 | the opcode is appended and becomes the last opcode |
| JscBytecodeGenerator.BytecodeGenerator.AppendOperand | Source/JavaScriptCore/bytecompiler/BytecodeGenerator.cpp:763 | one operand word is appended |
| JscBytecodeGenerator.BytecodeGenerator.EmitBinaryOp | Source/JavaScriptCore/bytecompiler/BytecodeGenerator.cpp:1091-1103 | the opcode, destination and both sources are appended, followed by the operand types exactly for bitor, bitand, bitxor, add, mul, sub and div; a compare leaves the stream ready for fusion |
| JscBytecodeGenerator.BytecodeGenerator.EmitJumpIfTrue | Source/JavaScriptCore/bytecompiler/BytecodeGenerator.cpp:748-856 | a less/lesseq/greater/greatereq whose destination is `cond`, a temporary nothing refers to, is rewound (4 words) and replaced by the fused jump on its sources; an eq_null/neq_null is fused likewise (3 words) only for a forward target; otherwise `jtrue cond` is appended; in every case the last word is the bound target offset (see also lines 709-738 of the same file, the rewind helpers) |
| JscBytecodeGenerator.BytecodeGenerator.EmitLabel | Source/JavaScriptCore/bytecompiler/BytecodeGenerator.cpp:650-669 | the label is placed at the end of the stream with its jumps patched; a new jump target is recorded and fusion disabled unless that location is already the last jump target |
| JscBytecodeGenerator.ForwardJumpLands | Source/JavaScriptCore/bytecompiler/BytecodeGenerator.cpp:52-59 | the jump returned, emitted to an unplaced label, has its opcode four words back over a fused compare, three back over a fused null test or at the old end of the stream, its operand as the last word, and that operand holds the distance to the label once `emitLabel` places it (see also lines 650-669, 748-856 of the same file) |
| JscBytecodeGenerator.BackwardJumpLands | Source/JavaScriptCore/bytecompiler/BytecodeGenerator.cpp:748-856 | the jump returned, emitted to a placed label, sits where the fusion puts it (as for ForwardJumpLands), has its operand as the last word, holds the distance to the label at once, and changes no label |
| JscBytecodeGenerator.BytecodeGenerator.AddConstant | Source/JavaScriptCore/bytecompiler/BytecodeGenerator.cpp:1010-1018 | a known identifier returns its index and changes nothing; a new one is appended to the code block at the index `numberOfIdentifiers()`, which is returned; the map and the identifier vector stay inverse |
| JscBytecodeGenerator.AddConstantTwice | Source/JavaScriptCore/bytecompiler/BytecodeGenerator.cpp:1010-1018 | adding an identifier twice returns the same index and adds at most one identifier |
| JscBytecodeGenerator.BytecodeGenerator.AddConstantEmptyValue | Source/JavaScriptCore/bytecompiler/BytecodeGenerator.cpp:1020-1032 | the empty value gets one constant, created on first use and cached; the same slot is returned ever after |
| JscBytecodeGenerator.BytecodeGenerator.AddConstantValue | Source/JavaScriptCore/bytecompiler/BytecodeGenerator.cpp:1034-1048 | a value whose encoding was seen returns its existing constant and adds nothing; a new encoding is appended at the next offset; the register of a constant is FirstConstantRegisterIndex plus its offset and holds the value |
| JscBytecodeGenerator.HandlersForMeaning | Source/JavaScriptCore/bytecompiler/BytecodeGenerator.cpp:74-109 | the handlers emitted are exactly the try ranges whose end lies after their start |
| JscBytecodeGenerator.BytecodeGenerator.AddExceptionHandlers | Source/JavaScriptCore/bytecompiler/BytecodeGenerator.cpp:74-109 | the loop over try ranges appends one handler per non-empty range, in order |
| JscBytecodeGenerator.UnlinkedSimpleJumpTable.Add | Source/JavaScriptCore/bytecompiler/BytecodeGenerator.cpp:2539 | stores the offset at the key unless the key already has one |
| JscBytecodeGenerator.FilledTable | Source/JavaScriptCore/bytecompiler/BytecodeGenerator.cpp:2533-2541 | filling keeps the table's size |
| JscBytecodeGenerator.FirstClause | Source/JavaScriptCore/bytecompiler/BytecodeGenerator.cpp:2533-2541 | the first clause with the value, or None when no clause has it |
| JscBytecodeGenerator.FilledTableJumpsToFirstClause | Source/JavaScriptCore/bytecompiler/BytecodeGenerator.cpp:2503-2542 | every key of the filled table holds the offset of the first clause with value min + key, and 0 when no clause has it |
| JscBytecodeGenerator.PrepareJumpTableForSwitch | Source/JavaScriptCore/bytecompiler/BytecodeGenerator.cpp:2528-2542 | sets min, sizes the table to max - min + 1 zeros and adds each clause's offset at key value - min |
| ShaderPathTyGL.VertexNumbersPickCorners | Source/WebCore/platform/graphics/tygl/ShaderPathTyGL.cpp:78-107 | a trapezoid's four vertices are numbered 0, 3, 2, 5, so the fill-path shader puts them at four distinct corners: even vertices at the bottom, the first two on the left |
| ShaderPathTyGL.WriteVertex | Source/WebCore/platform/graphics/tygl/ShaderPathTyGL.cpp:180-188 | one loop iteration stores its eight floats at the pointer and changes nothing else |
| ShaderPathTyGL.SetupAttributes | Source/WebCore/platform/graphics/tygl/ShaderPathTyGL.cpp:176-190 | the 32 floats at the start hold the four vertices: vertex number, channel, both y edges minus offsetY and the four x corners minus offsetX; nothing outside those 32 floats changes |
| ShaderPathTyGL.AlphaTextureBatchLimitIsMinimum | Source/WebCore/platform/graphics/tygl/ShaderPathTyGL.cpp:221 | the batch size is min(kMaximumNumberOfUshortQuads, kMaximumNumberOfAttributes / 32), the same as the path batch limit for a scratch area at offset 0 |
| ShaderPathTyGL.BatchDrawsCoverEveryTrapezoid | Source/WebCore/platform/graphics/tygl/ShaderPathTyGL.cpp:218-240 | the batch draws cover exactly the trapezoid count, and every draw covers between 1 and the limit |
| ShaderPathTyGL.RasteriseTrapezoid | Source/WebCore/platform/graphics/tygl/ShaderPathTyGL.cpp:219-226 | the trapezoid is in slot trapezoidIndex; the index advances, or, once the batch is full, one draw of limit*6 indices is issued and the index resets to 0; only that slot changes |
| ShaderPathTyGL.FillPathAlphaTexture | Source/WebCore/platform/graphics/tygl/ShaderPathTyGL.cpp:192-241 | a shader that fails to compile draws nothing and writes nothing; otherwise the draws are the batch draws of all trapezoids, the last batch's trapezoids stay in slot order in channel 3, and nothing past one batch's scratch area is written |
| ShaderPathTyGL.PathOffsets | Source/WebCore/platform/graphics/tygl/ShaderPathTyGL.cpp:283-298 | offsetY[i] is the stacked height of all bands before path i's band of four; maxWidth is the widest path; maxHeight is the total height of all bands |
| ShaderPathTyGL.PathFitsItsBand | Source/WebCore/platform/graphics/tygl/ShaderPathTyGL.cpp:286-296 | a path's rows end before the next band begins |
| ShaderPathTyGL.PathInsideLayout | Source/WebCore/platform/graphics/tygl/ShaderPathTyGL.cpp:286-298 | every path's rows lie within [0, total height) |
| ShaderPathTyGL.PathLayoutSeparatesPaths | Source/WebCore/platform/graphics/tygl/ShaderPathTyGL.cpp:286-296 | two paths in one band take different channels (i & 3), and two paths on one channel cover disjoint rows |
| ShaderPathTyGL.BandsAndChannels | Source/WebCore/platform/graphics/tygl/ShaderPathTyGL.cpp:289-296 | the band and channel arithmetic: earlier paths are in the same or an earlier band, one band never repeats a channel, and a repeated channel starts a later band |
| ShaderPathTyGL.TileAlignedRoundsUp | Source/WebCore/platform/graphics/tygl/ShaderPathTyGL.cpp:326-328 | the scissor size is a multiple of 16, at least the size and less than 16 more |
| ShaderPathTyGL.RasterisePaths | Source/WebCore/platform/graphics/tygl/ShaderPathTyGL.cpp:334-360 | every trapezoid of path i goes to channel i & 3, shifted into path i's band; the trapezoid count carries across paths, so the draws are the batch draws of all the batch's trapezoids; only the scratch area after the quads changes |
| ShaderPathTyGL.WriteTextureVertex | Source/WebCore/platform/graphics/tygl/ShaderPathTyGL.cpp:371-389 | one stanza: x (right-hand vertices only), y and channel of one vertex; nothing else changes |
| ShaderPathTyGL.WriteQuadTextureCoordinates | Source/WebCore/platform/graphics/tygl/ShaderPathTyGL.cpp:365-390 | the four vertices of one path quad, through a pointer advancing by the stride |
| ShaderPathTyGL.WriteTextureCoordinates | Source/WebCore/platform/graphics/tygl/ShaderPathTyGL.cpp:363-391 | the texture coordinates of every path quad name its band rows (offsetY/2048, plus height/2048 for the bottom) and its channel; the left vertices keep their x; only the quad area changes |
| ShaderPathTyGL.RasteriseAndMapPaths | Source/WebCore/platform/graphics/tygl/ShaderPathTyGL.cpp:320-391 | the draws of the whole batch, with the quads' texture coordinates intact after rasterising, since the scratch area starts after the quads |
| ShaderPathTyGL.PathBeforeFlushAction | Source/WebCore/platform/graphics/tygl/ShaderPathTyGL.cpp:276-393 | fails exactly when the texture or shader is missing and then changes nothing; otherwise gives the batch draws, a scissor of the tile-aligned widest path and total height, and texture coordinates pointing each quad at its band offset and channel |
| ShaderPathTyGL.FillPathKeepsBatchInSlots | Source/WebCore/platform/graphics/tygl/ShaderPathTyGL.cpp:410-433 | only paths that are neither empty nor rectangles join the batch; a batch below 16 stays below 16, and it is flushed exactly when the new path fills the last slot |
| GradientTyGL.StableSortedIsStableSort | Source/WebCore/platform/graphics/tygl/GradientTyGL.cpp:37-48 | the reference sort yields stops in ascending offset order, the same multiset of stops, and for every offset the stops with that offset in their original order (stability) |
| GradientTyGL.StableSortedOfSorted | Source/WebCore/platform/graphics/tygl/GradientTyGL.cpp:47-48 | sorting stops already in order leaves them unchanged |
| GradientTyGL.StableSortedIdempotent | Source/WebCore/platform/graphics/tygl/GradientTyGL.cpp:44-49 | sorting a second time changes nothing |
| GradientTyGL.InsertSameStops | Source/WebCore/platform/graphics/tygl/GradientTyGL.cpp:48 | one insertion step keeps exactly the stops it was given plus the inserted one |
| GradientTyGL.InsertKeepsSorted | Source/WebCore/platform/graphics/tygl/GradientTyGL.cpp:48 | one insertion step keeps a sorted list sorted |
| GradientTyGL.InsertKeepsEqualOffsetsInOrder | Source/WebCore/platform/graphics/tygl/GradientTyGL.cpp:48 | one insertion step puts the new stop after every earlier stop with the same offset |
| GradientTyGL.WithOffsetAppend | Source/WebCore/platform/graphics/tygl/GradientTyGL.cpp:48 | the stops with a given offset in a concatenation are those of each part, in order |
| GradientTyGL.SortStops | Source/WebCore/platform/graphics/tygl/GradientTyGL.cpp:47-48 | the sorting pass over the stop list computes the reference stable sort |
| GradientTyGL.Gradient.constructor | Source/WebCore/platform/graphics/tygl/GradientTyGL.cpp:44 | a gradient starts with its stops and the sorted flag clear, so the first getStops sorts |
| GradientTyGL.Gradient.GetStops | Source/WebCore/platform/graphics/tygl/GradientTyGL.cpp:42-51 | a sorted gradient returns its stops unchanged; otherwise the stops become their stable sort, the flag is set and the sorted stops are returned |
| GradientTyGL.GetStopsTwice | Source/WebCore/platform/graphics/tygl/GradientTyGL.cpp:42-51 | two calls return the same list, sorted and a permutation of the original stops |
| ShaderGradientTyGL.NormalizeStops | Source/WebCore/platform/graphics/tygl/ShaderGradientTyGL.cpp:193-206 | the insert/append on the copied stop vector computes the padded stop list |
| ShaderGradientTyGL.NormalizedSpansUnitRange | Source/WebCore/platform/graphics/tygl/ShaderGradientTyGL.cpp:193-207 | a non-empty stop list pads to at least two stops starting at offset 0 and ending at offset 1, with the original stops in order in the middle and each added stop a copy of its neighbour's colour |
| ShaderGradientTyGL.NormalizedOfSpanning | Source/WebCore/platform/graphics/tygl/ShaderGradientTyGL.cpp:198-206 | stops that already start at 0 and end at 1 are not padded |
| ShaderGradientTyGL.NormalizedStopsAreUnit | Source/WebCore/platform/graphics/tygl/ShaderGradientTyGL.cpp:198-206 | padding keeps all offsets and colour components inside [0, 1] |
| ShaderGradientTyGL.FillStopArrays | Source/WebCore/platform/graphics/tygl/ShaderGradientTyGL.cpp:207-220 | distance i is stop i's offset and colours 4i to 4i+3 are its red, green, blue and alpha |
| ShaderGradientTyGL.StopTextureLargeEnough | Source/WebCore/platform/graphics/tygl/ShaderGradientTyGL.cpp:44-51 | the texture used is at least as wide as the stop count and two rows high, and a cached texture that is big enough is kept |
| ShaderGradientTyGL.ScaledFitsByte | Source/WebCore/platform/graphics/tygl/ShaderGradientTyGL.cpp:56-64 | a component in [0, 1] scaled by 255 converts to a byte in [0, 255] |
| ShaderGradientTyGL.WriteStopPixel | Source/WebCore/platform/graphics/tygl/ShaderGradientTyGL.cpp:56-64 | one iteration writes pixel i of both rows as grey level plus opaque alpha and BGRA colour, changing no other byte |
| ShaderGradientTyGL.WriteBytes | Source/WebCore/platform/graphics/tygl/ShaderGradientTyGL.cpp:56-64 | four consecutive bytes take the given values and the rest of the upload is unchanged |
| ShaderGradientTyGL.StopPixelKept | Source/WebCore/platform/graphics/tygl/ShaderGradientTyGL.cpp:55-65 | writing one pixel column leaves every other column's bytes intact |
| ShaderGradientTyGL.PrepareStopPointInfoTexture | Source/WebCore/platform/graphics/tygl/ShaderGradientTyGL.cpp:42-65 | the texture is recreated exactly when missing or too small, and the upload holds every stop's grey level in row 0 and its BGRA colour in row 1, all bytes in range |
| ShaderGradientTyGL.StopArraysInUnitRange | Source/WebCore/platform/graphics/tygl/ShaderGradientTyGL.cpp:209-220 | arrays filled from stops in [0, 1] hold only values in [0, 1] |
| ShaderGradientTyGL.SortedStopsAreUnit | Source/WebCore/platform/graphics/tygl/ShaderGradientTyGL.cpp:195 | sorting keeps every stop in [0, 1] |
| ShaderGradientTyGL.UploadStops | Source/WebCore/platform/graphics/tygl/ShaderGradientTyGL.cpp:207-229 | for padded stops the first grey level of the upload is 0 and the last is 255 |
| ShaderGradientTyGL.GradientStopTexture | Source/WebCore/platform/graphics/tygl/ShaderGradientTyGL.cpp:187-229 | the upload is built from the gradient's sorted and padded stops |
| GraphicsContextTyGL.CDivisionOfNatural | Source/WebCore/platform/graphics/tygl/GraphicsContextTyGL.cpp:99-100 | on a non-negative distance and a positive width C's truncating `/` and `%` are Euclidean quotient and remainder |
| GraphicsContextTyGL.UnitPatternOffset | Source/WebCore/platform/graphics/tygl/GraphicsContextTyGL.cpp:103-105 | a pattern width of 1 gives offset 1 whatever the distance |
| GraphicsContextTyGL.SegmentsOfNatural | Source/WebCore/platform/graphics/tygl/GraphicsContextTyGL.cpp:99-100 | for distance = w·q + r the source's remainder is r and its segment count is q |
| GraphicsContextTyGL.OffsetFromParts | Source/WebCore/platform/graphics/tygl/GraphicsContextTyGL.cpp:94-121 | the offset of a line of q whole dashes plus r pixels is the four-case formula on q and r |
| GraphicsContextTyGL.PatternOffsetCases | Source/WebCore/platform/graphics/tygl/GraphicsContextTyGL.cpp:99-120 | for a non-negative distance: flag "n odd, flipped when r ≠ 0"; flag and r ≠ 0 gives w − r + r/2, flag and r = 0 gives w/2, no flag and r ≠ 0 gives (w − r)/2, otherwise 0 |
| GraphicsContextTyGL.EightyByThirty | Source/WebCore/platform/graphics/tygl/GraphicsContextTyGL.cpp:97-98 | distance 80 with width 30 gives offset 20 |
| GraphicsContextTyGL.PatternOffsetWithinDash | Source/WebCore/platform/graphics/tygl/GraphicsContextTyGL.cpp:94-121 | for a non-negative distance the offset lies between 0 and the pattern width |
| GraphicsContextTyGL.PatternOffsetPeriodic | Source/WebCore/platform/graphics/tygl/GraphicsContextTyGL.cpp:94-121 | adding two pattern widths to the distance leaves the offset unchanged |
| GraphicsContextTyGL.WholeDashesOffset | Source/WebCore/platform/graphics/tygl/GraphicsContextTyGL.cpp:107-117 | a line of k whole dashes starts half a dash in for odd k and at 0 for even k |
| GraphicsContextTyGL.LineThickness | Source/WebCore/platform/graphics/tygl/GraphicsContextTyGL.cpp:134-136 | the thickness used is at least 1 and is the truncated float when that is at least 1 |
| GraphicsContextTyGL.PatternOnlyForDotsAndDashes | Source/WebCore/platform/graphics/tygl/GraphicsContextTyGL.cpp:138-142 | the pattern width is non-zero exactly for dotted and dashed strokes |
| GraphicsContextTyGL.LineDrawsShape | Source/WebCore/platform/graphics/tygl/GraphicsContextTyGL.cpp:130-180 | NoStroke draws nothing; solid lines issue one draw and dotted or dashed lines three; every draw has the stroke colour, thickness at least 1 and the pattern width as dash length |
| GraphicsContextTyGL.SolidLineIsOneDraw | Source/WebCore/platform/graphics/tygl/GraphicsContextTyGL.cpp:150-180 | without a pattern the only draw is the whole line, undashed, between the two points converted to integers |
| GraphicsContextTyGL.TruncatedOffset | Source/WebCore/platform/graphics/tygl/GraphicsContextTyGL.cpp:180 | converting an integer point moved by whole pixels to an integer point changes nothing |
| GraphicsContextTyGL.HorizontalSideOverlapsCorners | Source/WebCore/platform/graphics/tygl/GraphicsContextTyGL.cpp:155-180 | on a horizontal patterned line between integer points the side overlaps each corner piece by 2 pixels and stays on the line's row |
| GraphicsContextTyGL.VerticalSideOverlapsCorners | Source/WebCore/platform/graphics/tygl/GraphicsContextTyGL.cpp:157-180 | on a vertical patterned line the side overlaps each (one pixel longer) corner piece by 3 pixels and stays on the line's column |
| GraphicsContextTyGL.SideDashStartsWithinDash | Source/WebCore/platform/graphics/tygl/GraphicsContextTyGL.cpp:165-180 | when the line can hold both corner squares the side's dash offset lies within one dash |
| GraphicsContextTyGL.DrawLine | Source/WebCore/platform/graphics/tygl/GraphicsContextTyGL.cpp:123-181 | the draws issued are those of the reference `LineDraws` |
| GraphicsContextTyGL.DrawCornerPieces | Source/WebCore/platform/graphics/tygl/GraphicsContextTyGL.cpp:168-178 | the two corner-piece draws of a patterned line |
| GraphicsContextTyGL.PolygonSpec | Source/WebCore/platform/graphics/tygl/GraphicsContextTyGL.cpp:199-212 | the path state after moveTo the first point, addLineTo each later point and addLineTo the first |
| GraphicsContextTyGL.LinesTo | Source/WebCore/platform/graphics/tygl/GraphicsContextTyGL.cpp:205-206 | addLineTo applied to each point in turn keeps the subpath index valid |
| GraphicsContextTyGL.PathFromConvexPolygon | Source/WebCore/platform/graphics/tygl/GraphicsContextTyGL.cpp:199-212 | the returned path is valid and its state is `PolygonSpec` of the points |
| GraphicsContextTyGL.Lines | Source/WebCore/platform/graphics/tygl/GraphicsContextTyGL.cpp:205-206 | one LineTo per point |
| GraphicsContextTyGL.LinesToAppends | Source/WebCore/platform/graphics/tygl/GraphicsContextTyGL.cpp:205-206 | after a MoveTo, lines to points that each differ from the one before are all appended |
| GraphicsContextTyGL.PolygonOutline | Source/WebCore/platform/graphics/tygl/GraphicsContextTyGL.cpp:199-212 | for points without repeats (last also differing from first) the path is exactly MoveTo(p0), LineTo(p1..p(n-1)), LineTo(p0), starts its subpath at 0 and is not empty |
| GraphicsContextTyGL.PolygonClosed | Source/WebCore/platform/graphics/tygl/GraphicsContextTyGL.cpp:199-212 | for any points the path is well formed, starts with MoveTo(p0) and ends at p0 |
| GraphicsContextTyGL.LinesToKeep | Source/WebCore/platform/graphics/tygl/GraphicsContextTyGL.cpp:205-206 | adding lines keeps the path's invariants |
| GraphicsContextTyGL.LinesToKeepFirst | Source/WebCore/platform/graphics/tygl/GraphicsContextTyGL.cpp:205-206 | adding lines keeps the first element |

## Left out

Left out across the whole model:

- GPU I/O. Every `gl*` call, texture upload, shader source and program compilation is absent. A flush returns the draw it would issue, a compiled program is an identity, and `compileShader` is the `ShaderCompiler` oracle.
- Floating point. Floats are `real`, so rounding, NaN and infinities are not modelled. `cos`, `sin` and the `circle` function of paths are parameters.
- Integer widths. Unless a model says otherwise, integers are unbounded; 32-bit wrap-around is modelled only where a model says so.
- Assertions. The source's `ASSERT`s (and `RELEASE_ASSERT`s) are rendered as `requires` on the members that model the asserting code, except where a line below names an exception (PathTyGL.CloseSpec). Examples are `ASSERT(quadCount >= 1)` in ShaderPathTyGL, `ASSERT(npoints >= 1)` in `pathFromConvexPolygon`, and the ordered edges of the ClipRect constructor. What the source would do when a debug assertion is compiled out is not modelled.
- Code this model does not see becomes parameters or oracle functions. This covers the schema loader and the type helpers of the generators (models.py, generator.py, cpp_generator.py, objc_generator.py and their templates). It also covers FreeType's `FT_Load_Glyph`, `WTF::fastLog2`, `CallFrame::argumentOffset`, the SVG animators, and the inspector's `RuntimeAgent`.
- Time, randomness and the network. The clock and `toUTCString` of `cache-test.js` are parameters. Its XHR, timer, server-date and result-printing code is left out. So are the asynchronous callbacks of `RemoteObject.js`.

Left out per model, and contracts stated weaker than the source promises:

- FontTextureAtlasTyGL.FontTextureAtlas.Region: requires a region of at least 1 by 1. The source's `region` does not reject a zero width or height, and what it does with one is not modelled. Its only caller, `TextureFont::glyph` (TextureFontTyGL.cpp:63), asks for the bitmap size plus one, so every call the source makes meets the requires.
- FontTextureAtlasTyGL.FontTextureAtlas.Place: requires the same 1 by 1 minimum as Region, for the same reason.
- FontTextureAtlasTyGL.RaiseKeepsRegions: the region disjointness proof assumes a region of at least 1 by 1, as in Region.
- FontTextureAtlasTyGL.AllocationKeepsRegions: assumes w, h >= 1, as in Region.
- FontTextureAtlasTyGL.FontTextureAtlas.Update: the GL texture upload is not modelled; Update only reports whether it would upload.
- ShaderGradientTyGL.PrepareStopPointInfoTexture: requires every distance and colour component to lie in [0, 1]. The source converts `255 * v` to `GLubyte`, and that conversion is undefined behaviour in C++ for values outside [0, 256). Out-of-range stops are therefore not modelled.
- ShaderGradientTyGL.WriteStopPixel: the same [0, 1] requirement as PrepareStopPointInfoTexture.
- ShaderGradientTyGL.UploadStops: requires colour stops with offset and components in [0, 1], for the same reason.
- ShaderGradientTyGL.GradientStopTexture: requires the gradient's stops in [0, 1], for the same reason.
- ShaderGradientTyGL.StopArraysInUnitRange: is stated only for stops in [0, 1].
- ShaderGradientTyGL.NormalizedStopsAreUnit: is stated only for stops in [0, 1].
- ShaderGradientTyGL.SortedStopsAreUnit: is stated only for stops in [0, 1].
- SelectorCompiler.NthFilterTestCorrect: proves that the generated `an+b` test agrees with the CSS definition only when `counter - b` fits in 32 bits. The generated code subtracts in 32-bit registers. NthFilterTestPasses models that wrap itself for every input, but where the subtraction wraps the model does not say whether the test agrees with the definition.
- TextureFontTyGL.TextureFont.CreateAtlas: requires `(maxCharWidth + 1) * (fontHeight + 1) * 32` to fit in a 32-bit `int`. Beyond that the source's signed `int` product overflows, which is undefined behaviour in C++, so the overflow is not modelled.
- TextureFontTyGL.TextureFont.CalculateAtlasSize: computes with unbounded integers. It agrees with the source whenever the reserved-space product fits in an `int`, which CreateAtlas requires.
- TextureFontTyGL: `calculateBoundingBox` and the glyph bitmap rasterisation inside FreeType are not modelled; a glyph load is an oracle returning a bitmap or an error code.
- ClipRectTyGL.ClipRect: converting an `int` edge to a float edge is taken to be exact. That holds for edges below 2^24 in magnitude; larger edges would round in the source.
- ArenaTyGL.Arena.Alloc: the block size is `2048 - sizeof(void*)` (ArenaTyGL.h:34), fixed here at 2040 for a 64-bit target (`PointerSize = 8`). A 32-bit build would have 2044-byte blocks. The bytes inside a block are not modelled.
- InspectorSchema.Ucfirst: upper-cases ASCII letters only. Python's `str.upper` maps every Unicode lower-case letter. Protocol names are ASCII identifiers, so the generated text does not differ.
- InspectorSchema.UpperChar: ASCII only, for the same reason as Ucfirst.
- SelectorCompiler.Fold: case-insensitive comparison folds the ASCII letters A-Z only. The source's case-insensitive attribute matchers, in code this model does not see, also fold non-ASCII letters.
- TransformTyGL.AffineTransform.Rotate: `cos` and `sin` of the angle are parameters.
- PathTyGL: `addArcTo`, the sweep and flattening of the arc `addArc` records, `boundingBox`, `bezierBoundingBox` and `calculateRoots` are left out. They are floating-point geometry. The angle normalisation of `addArc` (PathTyGL.cpp:72-101) is modelled, by NormalizeAngles and NormalizeWithinTurn.
- PathTyGL.CloseSpec: does not require `!m_isEmpty` when a subpath is open, although `closeSubpath` asserts it (PathTyGL.h:282). A MoveTo followed directly by `closeSubpath` reaches that assertion, and no code of this model keeps a caller from doing so. The model closes the subpath there as a release build does.
- PathTyGL.PathData.CloseSubpath: the same exception to the assertion as CloseSpec.
- PathTyGL.CloneStep: states the corrected step of the Findings row for PathTyGL.cpp:486-490, which copies an ArcTo with its transform. The source's step replays it through `addArc` and drops the transform; that behaviour is CloneStepAsWritten and ReplayAsWritten.
- PathTyGL.PathData.AddElement: the same correction as CloneStep, through CopyArc.
- PathTyGL.PathData.Clone: the copy is the corrected replay. The source's `clone` is ReplayAsWritten, and CloneAsWrittenLosesArcTransform shows a path it does not reproduce.
- PathTyGL.TransformArcs: proves that the corrected `transform` of the Findings row for PathTyGL.cpp:529-533 keeps arcs on their ellipse. The source's `transform` does not (AsWrittenUnitArcOffCircle).
- PathTyGL.MapElement: gives an arc the transform PrecededBy computes, the correction; the source's `arcToElement->multiply(transform)` (PathTyGL.h:156) is TransformedAsWritten.
- PathTyGL.PrecededBy: computes the map composed before the arc's transform, the correction of PathTyGL.cpp:532, where the source composes it after (TransformedAsWritten).
- PathTyGL.PathData.Transform: maps arcs by MapElement, the correction; the source's product is TransformedAsWritten.
- TrapezoidBuilderTyGL: the clipping arithmetic of `insertLine`, the flattening of curves and arcs, and `createTrapezoids`, `updateActiveLineSet` and `checkIntersection` are left out. What the clipping settles on (the rows of the vertical line at the clip's left edge and the clipped remainder) is an input. InsertLine requires of it that a line already on the clip's left edge is not split again, as the source's rounding guarantees.
- TrapezoidBuilderTyGL.TrapezoidBuilder.InsertIntoTree: proves the tree stays sorted, keeps its contents, and keeps a black root, but not that it keeps equal black heights.
- TrapezoidBuilderTyGL.MergeCoversBoth: states the merged trapezoid's corners and slopes and that its edges are ordered. It does not state that the merged area is the union of the two pieces, which would need the float edge arithmetic. It also does not state that the result is non-empty: the source's comment (TrapezoidBuilderTyGL.h:150) admits that empty trapezoids occur.
- PlatformContextTyGL: `createGLContext`, the GL calls of `compileShaderInternal` and `compileShader`, premultiplication of colours (a parameter), the shader-variable setters and the per-draw setters are left out.
- PipelineBufferTyGL: `addTrapezoidList` and `strideLength` are left out. Pattern alignment is a parameter. The attribute-pointer set-up of `endAttributeAdding` is not modelled.
- PipelineBufferTyGL.PipelineBuffer.StartBatch: selects the shader before copying the drawing state, while the source copies first. The shader depends only on the new composition, so the final state is the same.
- MemoryCacheModel.MemoryCache.PruneDeadResourcesToSize: models the entry guards only (MemoryCache.cpp:345-353). The eviction sweep over the LRU lists that follows is left out; the function returns the pass it would run.
- MemoryCacheModel.MemoryCache.PruneLiveResourcesToSize: models the entry guard only (MemoryCache.cpp:285-289). The sweep over live decoded data that follows is left out; the function returns the pass it would run.
- MemoryCacheModel: real time, worker-thread posting and `SecurityOrigin` are left out. So are the cache operations other than the capacity arithmetic, URL normalisation, `add`, `adjustSize`, `resourceAccessed`, the LRU lists and `prune`, which are modelled.
- JscBytecodeGenerator: only the opcodes the modelled operations look at are distinguished; any other is `OtherOp`. The emit functions that only append one instruction, `emitLoad` and the rest of the emitters, and everything after `generate` hands the code block on, are left out.
- SelectorCompiler: the `generate*` machine-code emission and register allocation are left out. A generated test is the predicate it computes.
- InspectorRemoteObject.RemoteObject.constructor: requires arguments on which `value + ""` does not throw, because a Dafny constructor cannot fail. InspectorRemoteObject.Construct is the `new` expression for every argument, and returns the TypeError.
- InspectorRemoteObject: numbers are integers, and the backend calls return the request they would send. `setPropertyValue`, `callFunction`, `release` and `pushNodeToFrontend` are RPC wrappers and are left out.

## Findings

| source | as written | input that shows it | evidently intended | confidence | as-written member | corrected member |
|---|---|---|---|---|---|---|
| Source/WebCore/platform/graphics/tygl/TransformTyGL.cpp:97-117 | `inverse()` starts from the default transform, which is tagged Move, and sets only the matrix entries, so an Affine transform's inverse keeps the Move tag | `scale(2, 2)`: the inverse matrix halves a point, but a Move-tagged `apply` only adds the zero translation and leaves (1, 1) at (1, 1) | the inverse's type re-detected from its matrix, as `operator=(Transform)` does. The bug is latent: the visible callers use only the matrix, or go through `multiply`, which re-detects the type (TransformTyGL.cpp:61) | not executed | TransformTyGL.InverseTagMismatch (with TransformTyGL.AffineTransform.InverseAsWritten) | TransformTyGL.InverseIsInverse (with TransformTyGL.AffineTransform.Inverse) |
| Source/WebCore/platform/graphics/tygl/ShaderPipelineTyGL.cpp:140-148 | the fast path of `beginAttributeAdding` checks that the new draw's blend mode is normal, but not the blend mode of the batch it joins | a solid rectangle drawn with blend mode multiply, then the same rectangle with the normal mode: the second draw joins the batch and is drawn with the multiply shader, whose pieces and hash differ | the batch's own blend mode compared too, so a draw joins a batch only when it needs the batched shader | not executed | PipelineBufferTyGL.AsWrittenBatchesAcrossBlendModes (with PipelineBufferTyGL.BatchChecksAsWritten and PipelineBufferTyGL.PipelineBuffer.BatchContinuesAsWritten) | PipelineBufferTyGL.BatchChecksKeepShader (with PipelineBufferTyGL.BatchChecks and PipelineBufferTyGL.PipelineBuffer.BatchContinues) |
| Source/WebCore/platform/graphics/tygl/PathTyGL.cpp:486-490 | `clone` replays an ArcTo through `addArc` from its centre, radii and angles, dropping the arc's transform | the unit arc translated by (10, 0): the original's arc carries the translation, but the copy rebuilds it untransformed, joined by a LineTo from the translated start | the copy keeps the arc element as it is, transform included, so that the clone draws the same path | not executed | PathTyGL.CloneAsWrittenLosesArcTransform (with PathTyGL.ReplayAsWritten and PathTyGL.CloneStepAsWritten) | PathTyGL.CloneReproduces (with PathTyGL.CloneStep) |
| Source/WebCore/platform/graphics/tygl/PathTyGL.cpp:529-533 | `transform` maps an arc's end point and then calls `multiply`, which post-composes the new map after the arc's old transform (`m_transform *= transform`, PathTyGL.h:156) instead of before it | the unit arc translated by (10, 0) and then scaled by 2: the arc's final transform takes u to 2u + (10, 0), while its end point goes to 2u + (20, 0), so the arc leaves its circle | the new map composed before the arc's transform, so that the arc keeps ending on its transformed circle | not executed | PathTyGL.AsWrittenUnitArcOffCircle (with PathTyGL.TransformedAsWritten and PathTyGL.MisplacedUnitArcTransform) | PathTyGL.TransformedTwiceKeepsArc (with PathTyGL.Transformed) |
