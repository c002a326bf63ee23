/**
 * The skyline of `TyGL::FontTextureAtlasTyGL` (FontTextureAtlasTyGL.cpp):
 * `m_nodes` is a left-to-right row of rectangles whose bottoms
 * (`y + height`) form the lowest free row of every column of the atlas.
 * This module gives the value-level meaning of the node operations
 * (`fit`, `shrinkNodes`, `mergeNodes`, the candidate search of `region`)
 * and proves what they keep; the class in font_texture_atlas.dfy runs
 * the loops of the source and is proved against these functions.
 *
 * The skyline is read as a profile: one entry per atlas column from
 * x = 1 to x = width - 2, holding the bottom of the node above it.
 */
module FontTextureAtlasSkyline {
  import opened TyGLDefs
  import opened Geometry

  /** `INT_MAX`, the initial best height and width of `region`. */
  const IntMax: int := 2147483647

  /** Each node starts where the previous one ends. */
  predicate Contiguous(nodes: seq<IntRect>)
  {
    forall k :: 0 <= k < |nodes| - 1 ==> nodes[k].MaxX() == nodes[k + 1].x
  }

  /** Every node is at least one column wide and one row high, at y >= 0. */
  predicate WellFormedNodes(nodes: seq<IntRect>)
  {
    forall k :: 0 <= k < |nodes| ==> nodes[k].width > 0 && nodes[k].y >= 0 && nodes[k].height >= 1
  }

  /** The shape `m_nodes` keeps once seeded: contiguous nodes from x = 1
      to x = atlasWidth - 1. */
  predicate Skyline(nodes: seq<IntRect>, atlasWidth: int)
  {
    |nodes| > 0
    && nodes[0].x == 1
    && nodes[|nodes| - 1].MaxX() == atlasWidth - 1
    && Contiguous(nodes)
    && WellFormedNodes(nodes)
  }

  /** The node list `region` starts from: an empty list is seeded with
      `(1, 0, width - 2, 1)`. */
  function Seeded(nodes: seq<IntRect>, atlasWidth: int): (r: seq<IntRect>)
    ensures |nodes| > 0 ==> r == nodes
    ensures |nodes| == 0 ==> r == [IntRect(1, 0, atlasWidth - 2, 1)]
    ensures atlasWidth >= 3 && (|nodes| == 0 || Skyline(nodes, atlasWidth)) ==> Skyline(r, atlasWidth)
  {
    if |nodes| == 0 then [IntRect(1, 0, atlasWidth - 2, 1)] else nodes
  }

  /** The widths of the nodes from index `k` on, added up. */
  function SumWidths(nodes: seq<IntRect>, k: int): int
    requires 0 <= k <= |nodes|
    decreases |nodes| - k
  {
    if k == |nodes| then 0 else nodes[k].width + SumWidths(nodes, k + 1)
  }

  /** Contiguous nodes from `k` on cover exactly the columns up to the
      right edge of the last node. */
  lemma {:induction false} SumWidthsSpan(nodes: seq<IntRect>, k: int)
    requires Contiguous(nodes) && 0 <= k < |nodes|
    ensures SumWidths(nodes, k) == nodes[|nodes| - 1].MaxX() - nodes[k].x
    decreases |nodes| - k
  {
    if k < |nodes| - 1 {
      SumWidthsSpan(nodes, k + 1);
    }
  }

  /** Left edges grow from node to node. */
  lemma {:induction false} LeftEdgesIncrease(nodes: seq<IntRect>, a: int, b: int)
    requires Contiguous(nodes) && WellFormedNodes(nodes)
    requires 0 <= a < b < |nodes|
    ensures nodes[a].MaxX() <= nodes[b].x
    decreases b - a
  {
    if a + 1 < b {
      LeftEdgesIncrease(nodes, a + 1, b);
    }
  }

  // ---------------------------------------------------------------------
  // fit
  // ---------------------------------------------------------------------

  /** The loop of `fit` from node `k` on, with `widthLeft` columns still
      to span and `y` the highest bottom met so far. */
  function FitFrom(nodes: seq<IntRect>, k: int, widthLeft: int, y: int, regionHeight: int, atlasHeight: int): int
    requires 0 <= k <= |nodes| && widthLeft <= SumWidths(nodes, k)
    decreases |nodes| - k
  {
    if widthLeft <= 0 then y
    else
      var y1 := if nodes[k].MaxY() > y then nodes[k].MaxY() else y;
      if y1 + regionHeight >= atlasHeight then -1
      else FitFrom(nodes, k + 1, widthLeft - nodes[k].width, y1, regionHeight, atlasHeight)
  }

  /** `fit(index, regionWidth, regionHeight)`: the lowest y at which a
      region at the left edge of node `index` clears every node it spans,
      or -1. */
  function Fit(nodes: seq<IntRect>, index: int, regionWidth: int, regionHeight: int,
               atlasWidth: int, atlasHeight: int): int
    requires Skyline(nodes, atlasWidth) && 0 <= index < |nodes|
  {
    if nodes[index].x + regionWidth >= atlasWidth then -1
    else
      SumWidthsSpan(nodes, index);
      FitFrom(nodes, index, regionWidth, nodes[index].MaxY(), regionHeight, atlasHeight)
  }

  /** What the loop of `fit` computes from node `k` on, where `end` is the
      right edge of the region: the highest bottom among `y` and the nodes
      the region spans, or -1 when some of them leaves no room below the
      top of the atlas. */
  lemma {:induction false} FitFromSpan(nodes: seq<IntRect>, k: int, widthLeft: int, y: int,
                                       regionHeight: int, atlasHeight: int, end: int)
    requires Contiguous(nodes) && WellFormedNodes(nodes)
    requires 0 <= k <= |nodes| && widthLeft <= SumWidths(nodes, k)
    requires k < |nodes| ==> widthLeft == end - nodes[k].x
    requires k == |nodes| ==> widthLeft <= 0
    requires y >= 0
    ensures FitFrom(nodes, k, widthLeft, y, regionHeight, atlasHeight) == -1
         || FitFrom(nodes, k, widthLeft, y, regionHeight, atlasHeight) >= y
    ensures FitFrom(nodes, k, widthLeft, y, regionHeight, atlasHeight) >= 0 ==>
      forall j :: k <= j < |nodes| && nodes[j].x < end ==>
        nodes[j].MaxY() <= FitFrom(nodes, k, widthLeft, y, regionHeight, atlasHeight)
    ensures FitFrom(nodes, k, widthLeft, y, regionHeight, atlasHeight) >= 0 ==>
      FitFrom(nodes, k, widthLeft, y, regionHeight, atlasHeight) == y
      || exists j :: k <= j < |nodes| && nodes[j].x < end
           && nodes[j].MaxY() == FitFrom(nodes, k, widthLeft, y, regionHeight, atlasHeight)
    ensures FitFrom(nodes, k, widthLeft, y, regionHeight, atlasHeight) >= 0 && widthLeft > 0 ==>
      FitFrom(nodes, k, widthLeft, y, regionHeight, atlasHeight) + regionHeight < atlasHeight
    ensures FitFrom(nodes, k, widthLeft, y, regionHeight, atlasHeight) == -1 <==>
      widthLeft > 0
      && (y + regionHeight >= atlasHeight
          || exists j :: k <= j < |nodes| && nodes[j].x < end && nodes[j].MaxY() + regionHeight >= atlasHeight)
    decreases |nodes| - k
  {
    if widthLeft > 0 {
      var y1 := if nodes[k].MaxY() > y then nodes[k].MaxY() else y;
      if y1 + regionHeight < atlasHeight {
        var rest := widthLeft - nodes[k].width;
        if k + 1 < |nodes| {
          assert nodes[k].MaxX() == nodes[k + 1].x;
        }
        FitFromSpan(nodes, k + 1, rest, y1, regionHeight, atlasHeight, end);
        if rest <= 0 {
          forall j | k < j < |nodes| ensures end <= nodes[j].x {
            LeftEdgesIncrease(nodes, k, j);
          }
        }
      }
    } else {
      forall j | k < j < |nodes| ensures end <= nodes[j].x {
        LeftEdgesIncrease(nodes, k, j);
      }
    }
  }

  /** `fit` for a region at least one column wide: the result is -1
      exactly when the region would reach the right border or some node
      it spans leaves too little height; otherwise it is the bottom of one
      of the spanned nodes, no spanned node reaches above it, and the
      region ends below the top of the atlas. */
  lemma FitPlacement(nodes: seq<IntRect>, index: int, regionWidth: int, regionHeight: int,
                     atlasWidth: int, atlasHeight: int)
    requires Skyline(nodes, atlasWidth) && 0 <= index < |nodes| && regionWidth > 0
    ensures Fit(nodes, index, regionWidth, regionHeight, atlasWidth, atlasHeight) >= 0
         || Fit(nodes, index, regionWidth, regionHeight, atlasWidth, atlasHeight) == -1
    ensures Fit(nodes, index, regionWidth, regionHeight, atlasWidth, atlasHeight) == -1 <==>
      nodes[index].x + regionWidth >= atlasWidth
      || exists j :: index <= j < |nodes| && nodes[j].x < nodes[index].x + regionWidth
           && nodes[j].MaxY() + regionHeight >= atlasHeight
    ensures Fit(nodes, index, regionWidth, regionHeight, atlasWidth, atlasHeight) >= 0 ==>
      nodes[index].x + regionWidth < atlasWidth
      && Fit(nodes, index, regionWidth, regionHeight, atlasWidth, atlasHeight) + regionHeight < atlasHeight
      && (forall j :: index <= j < |nodes| && nodes[j].x < nodes[index].x + regionWidth ==>
            nodes[j].MaxY() <= Fit(nodes, index, regionWidth, regionHeight, atlasWidth, atlasHeight))
      && (exists j :: index <= j < |nodes| && nodes[j].x < nodes[index].x + regionWidth
            && nodes[j].MaxY() == Fit(nodes, index, regionWidth, regionHeight, atlasWidth, atlasHeight))
  {
    if nodes[index].x + regionWidth < atlasWidth {
      SumWidthsSpan(nodes, index);
      FitFromSpan(nodes, index, regionWidth, nodes[index].MaxY(), regionHeight, atlasHeight,
                  nodes[index].x + regionWidth);
    }
  }

  /** A region of width zero or less skips the loop of `fit`: the bottom
      of the node itself is returned without any height check. */
  lemma FitEmptyWidth(nodes: seq<IntRect>, index: int, regionWidth: int, regionHeight: int,
                      atlasWidth: int, atlasHeight: int)
    requires Skyline(nodes, atlasWidth) && 0 <= index < |nodes| && regionWidth <= 0
    ensures Fit(nodes, index, regionWidth, regionHeight, atlasWidth, atlasHeight)
         == if nodes[index].x + regionWidth >= atlasWidth then -1 else nodes[index].MaxY()
  {
  }

  // ---------------------------------------------------------------------
  // The skyline as a profile of columns
  // ---------------------------------------------------------------------

  /** `n` copies of `v` (none when `n <= 0`). */
  function Repeat(v: int, n: int): (r: seq<int>)
    ensures |r| == if n > 0 then n else 0
    ensures forall i :: 0 <= i < |r| ==> r[i] == v
    decreases n
  {
    if n <= 0 then [] else [v] + Repeat(v, n - 1)
  }

  /** The bottom of the skyline in every column the nodes cover, from the
      left edge of the first node on. */
  function Profile(nodes: seq<IntRect>): seq<int>
    decreases |nodes|
  {
    if |nodes| == 0 then [] else Repeat(nodes[0].MaxY(), nodes[0].width) + Profile(nodes[1..])
  }

  /** `s` without its first `n` entries. */
  function Drop(s: seq<int>, n: int): (r: seq<int>)
  {
    if n <= 0 then s else if n >= |s| then [] else s[n..]
  }

  lemma RepeatAdd(v: int, a: int, b: int)
    requires a >= 0 && b >= 0
    ensures Repeat(v, a) + Repeat(v, b) == Repeat(v, a + b)
  {
    assert |Repeat(v, a) + Repeat(v, b)| == |Repeat(v, a + b)|;
  }

  lemma {:induction false} ProfileAppend(a: seq<IntRect>, b: seq<IntRect>)
    ensures Profile(a + b) == Profile(a) + Profile(b)
    decreases |a|
  {
    if |a| == 0 {
      assert a + b == b;
    } else {
      assert (a + b)[1..] == a[1..] + b;
      ProfileAppend(a[1..], b);
    }
  }

  lemma ProfileOfThree(a: seq<IntRect>, b: seq<IntRect>, c: seq<IntRect>)
    ensures Profile(a + b + c) == Profile(a) + Profile(b) + Profile(c)
  {
    ProfileAppend(a + b, c);
    ProfileAppend(a, b);
  }

  lemma ProfileSingle(n: IntRect)
    ensures Profile([n]) == Repeat(n.MaxY(), n.width)
  {
    assert [n][1..] == [];
  }

  lemma ProfilePair(n1: IntRect, n2: IntRect)
    ensures Profile([n1, n2]) == Repeat(n1.MaxY(), n1.width) + Repeat(n2.MaxY(), n2.width)
  {
    assert [n1, n2] == [n1] + [n2];
    ProfileAppend([n1], [n2]);
    ProfileSingle(n1);
    ProfileSingle(n2);
  }

  /** Contiguous nodes give one profile entry per column they cover. */
  lemma {:induction false} ProfileSpan(nodes: seq<IntRect>)
    requires Contiguous(nodes) && WellFormedNodes(nodes) && |nodes| > 0
    ensures |Profile(nodes)| == nodes[|nodes| - 1].MaxX() - nodes[0].x
    decreases |nodes|
  {
    if |nodes| > 1 {
      assert nodes[0].MaxX() == nodes[1].x;
      ProfileSpan(nodes[1..]);
    }
  }

  /** The profile entry of a column is the bottom of the node covering it. */
  lemma ProfileColumn(nodes: seq<IntRect>, k: int, p: int)
    requires Contiguous(nodes) && WellFormedNodes(nodes)
    requires 0 <= k < |nodes| && nodes[k].x <= p < nodes[k].MaxX()
    ensures 0 <= p - nodes[0].x < |Profile(nodes)|
    ensures Profile(nodes)[p - nodes[0].x] == nodes[k].MaxY()
  {
    PrefixColumns(nodes, k);
    assert nodes == nodes[..k] + nodes[k..];
    ProfileAppend(nodes[..k], nodes[k..]);
    var tail := nodes[k..];
    assert tail[0] == nodes[k];
    assert Profile(tail) == Repeat(nodes[k].MaxY(), nodes[k].width) + Profile(tail[1..]);
    var c := p - nodes[0].x;
    assert Profile(nodes)[c] == Profile(tail)[c - |Profile(nodes[..k])|];
  }

  /** The nodes before node `k` cover the columns from the first node's left edge to node `k`'s. */
  lemma PrefixColumns(nodes: seq<IntRect>, k: int)
    requires Contiguous(nodes) && WellFormedNodes(nodes) && 0 <= k < |nodes|
    ensures |Profile(nodes[..k])| == nodes[k].x - nodes[0].x
  {
    if k > 0 {
      ContiguousSlice(nodes, 0, k);
      assert nodes[..k][k - 1] == nodes[k - 1] && nodes[..k][0] == nodes[0];
      assert nodes[k - 1].MaxX() == nodes[k].x;
      ProfileSpan(nodes[..k]);
    } else {
      assert nodes[..k] == [];
    }
  }

  /** Every column between the outer edges is covered by some node. */
  lemma {:induction false} CoveringNode(nodes: seq<IntRect>, p: int) returns (k: int)
    requires Contiguous(nodes) && WellFormedNodes(nodes) && |nodes| > 0
    requires nodes[0].x <= p < nodes[|nodes| - 1].MaxX()
    ensures 0 <= k < |nodes| && nodes[k].x <= p < nodes[k].MaxX()
    decreases |nodes|
  {
    if p < nodes[0].MaxX() {
      k := 0;
    } else {
      assert nodes[0].MaxX() == nodes[1].x;
      var k1 := CoveringNode(nodes[1..], p);
      k := k1 + 1;
    }
  }

  /** `fit` in terms of columns: no column under a fitted region is
      higher than the returned y, and some column is exactly that high. */
  lemma FitColumns(nodes: seq<IntRect>, index: int, w: int, h: int, aw: int, ah: int)
    requires Skyline(nodes, aw) && 0 <= index < |nodes| && w > 0
    requires Fit(nodes, index, w, h, aw, ah) >= 0
    ensures 1 <= nodes[index].x && nodes[index].x - 1 + w <= |Profile(nodes)|
    ensures forall c :: nodes[index].x - 1 <= c < nodes[index].x - 1 + w ==>
      Profile(nodes)[c] <= Fit(nodes, index, w, h, aw, ah)
    ensures exists c :: (nodes[index].x - 1 <= c < nodes[index].x - 1 + w
      && Profile(nodes)[c] == Fit(nodes, index, w, h, aw, ah))
  {
    var y := Fit(nodes, index, w, h, aw, ah);
    FitPlacement(nodes, index, w, h, aw, ah);
    ProfileSpan(nodes);
    if index > 0 {
      LeftEdgesIncrease(nodes, 0, index);
    }
    forall c | nodes[index].x - 1 <= c < nodes[index].x - 1 + w
      ensures Profile(nodes)[c] <= y
    {
      var k := CoveringNode(nodes, c + 1);
      if k < index {
        LeftEdgesIncrease(nodes, k, index);
      }
      ProfileColumn(nodes, k, c + 1);
    }
    var j :| index <= j < |nodes| && nodes[j].x < nodes[index].x + w && nodes[j].MaxY() == y;
    if index < j {
      LeftEdgesIncrease(nodes, index, j);
    }
    ProfileColumn(nodes, j, nodes[j].x);
  }

  /** Two contiguous runs that meet form one contiguous run. */
  lemma ContiguousConcat(a: seq<IntRect>, b: seq<IntRect>)
    requires Contiguous(a) && Contiguous(b)
    requires |a| > 0 && |b| > 0 ==> a[|a| - 1].MaxX() == b[0].x
    ensures Contiguous(a + b)
  {
    forall k | 0 <= k < |a + b| - 1 ensures (a + b)[k].MaxX() == (a + b)[k + 1].x {
      if k < |a| - 1 {
        assert (a + b)[k] == a[k] && (a + b)[k + 1] == a[k + 1];
      } else if k == |a| - 1 {
        assert (a + b)[k] == a[k] && (a + b)[k + 1] == b[0];
      } else {
        assert (a + b)[k] == b[k - |a|] && (a + b)[k + 1] == b[k + 1 - |a|];
      }
    }
  }

  /** A slice of a contiguous run is contiguous. */
  lemma ContiguousSlice(nodes: seq<IntRect>, lo: int, hi: int)
    requires Contiguous(nodes) && 0 <= lo <= hi <= |nodes|
    ensures Contiguous(nodes[lo..hi])
  {
    forall k | 0 <= k < hi - lo - 1 ensures nodes[lo..hi][k].MaxX() == nodes[lo..hi][k + 1].x {
      assert nodes[lo..hi][k] == nodes[lo + k] && nodes[lo..hi][k + 1] == nodes[lo + k + 1];
    }
  }

  // ---------------------------------------------------------------------
  // shrinkNodes
  // ---------------------------------------------------------------------

  /** The loop of `shrinkNodes(index)`: each node that starts left of the
      right edge of its predecessor is moved to that edge and narrowed; a
      node left without width is removed and the next one is looked at in
      its place; the loop stops at the first node that did not overlap or
      that kept some width. */
  function ShrinkFrom(nodes: seq<IntRect>, index: int): seq<IntRect>
    requires 1 <= index <= |nodes|
    decreases |nodes| - index
  {
    if index == |nodes| then nodes
    else
      var node, prevRight := nodes[index], nodes[index - 1].MaxX();
      if node.x >= prevRight then nodes
      else
        var shrinkOffset := prevRight - node.x;
        var moved := IntRect(node.x + shrinkOffset, node.y, node.width - shrinkOffset, node.height);
        if moved.width > 0 then nodes[index := moved]
        else ShrinkFrom(nodes[..index] + nodes[index + 1..], index)
  }

  lemma DropRepeat(v: int, w: int, s: seq<int>, n: int)
    requires 0 < w <= n
    ensures Drop(Repeat(v, w) + s, n) == Drop(s, n - w)
  {
    if n - w > 0 && n - w < |s| {
      assert (Repeat(v, w) + s)[n..] == s[n - w..];
    }
  }

  lemma DropRepeatPart(v: int, w: int, s: seq<int>, n: int)
    requires 0 < n < w
    ensures Drop(Repeat(v, w) + s, n) == Repeat(v, w - n) + s
  {
    assert |Drop(Repeat(v, w) + s, n)| == |Repeat(v, w - n) + s|;
  }

  /** The node `shrinkNodes` makes of a node overlapped by `prevRight`: moved to
      `prevRight` and narrowed by as much. */
  function Moved(node: IntRect, prevRight: int): (r: IntRect)
    ensures r.x == prevRight && r.MaxX() == node.MaxX() && r.MaxY() == node.MaxY()
  {
    var shrinkOffset := prevRight - node.x;
    IntRect(node.x + shrinkOffset, node.y, node.width - shrinkOffset, node.height)
  }

  /** The case of `shrinkNodes` where the first overlapping node keeps
      some width: that node is replaced by its moved version. */
  lemma ShrinkMovedForm(pre: seq<IntRect>, tail: seq<IntRect>)
    requires |pre| > 0 && |tail| > 0
    requires tail[0].x < pre[|pre| - 1].MaxX() < tail[0].MaxX()
    ensures ShrinkFrom(pre + tail, |pre|) == pre + ([Moved(tail[0], pre[|pre| - 1].MaxX())] + tail[1..])
  {
    var s := pre + tail;
    var moved := Moved(tail[0], pre[|pre| - 1].MaxX());
    assert s[|pre|] == tail[0] && s[|pre| - 1] == pre[|pre| - 1];
    assert ShrinkFrom(s, |pre|) == s[|pre| := moved];
    forall k | 0 <= k < |s| ensures s[|pre| := moved][k] == (pre + ([moved] + tail[1..]))[k] {
      if k > |pre| {
        assert s[k] == tail[k - |pre|] == tail[1..][k - |pre| - 1];
      }
    }
  }

  lemma ShrinkMovedSkyline(pre: seq<IntRect>, tail: seq<IntRect>, aw: int)
    requires |pre| > 0 && pre[0].x == 1 && Contiguous(pre) && WellFormedNodes(pre)
    requires |tail| > 0 && Contiguous(tail) && WellFormedNodes(tail) && tail[|tail| - 1].MaxX() == aw - 1
    requires tail[0].x < pre[|pre| - 1].MaxX() < tail[0].MaxX()
    ensures Skyline(ShrinkFrom(pre + tail, |pre|), aw)
  {
    ShrinkMovedForm(pre, tail);
    var moved, rest := Moved(tail[0], pre[|pre| - 1].MaxX()), tail[1..];
    ContiguousSlice(tail, 1, |tail|);
    ContiguousConcat([moved], rest);
    ContiguousConcat(pre, [moved] + rest);
    var r := pre + ([moved] + rest);
    forall k | 0 <= k < |r| ensures r[k].width > 0 && r[k].y >= 0 && r[k].height >= 1 {
      if k > |pre| {
        assert r[k] == tail[k - |pre|];
      }
    }
    if |rest| > 0 {
      assert r[|r| - 1] == tail[|tail| - 1];
    }
  }

  lemma ShrinkMovedProfile(pre: seq<IntRect>, tail: seq<IntRect>)
    requires |pre| > 0 && |tail| > 0
    requires tail[0].x < pre[|pre| - 1].MaxX() < tail[0].MaxX()
    ensures Profile(ShrinkFrom(pre + tail, |pre|)) == Profile(pre) + Drop(Profile(tail), pre[|pre| - 1].MaxX() - tail[0].x)
  {
    ShrinkMovedForm(pre, tail);
    var node := tail[0];
    var moved, rest := Moved(node, pre[|pre| - 1].MaxX()), tail[1..];
    ProfileAppend(pre, [moved] + rest);
    ProfileAppend([moved], rest);
    ProfileSingle(moved);
    assert Profile(tail) == Repeat(node.MaxY(), node.width) + Profile(rest);
    DropRepeatPart(node.MaxY(), node.width, Profile(rest), pre[|pre| - 1].MaxX() - node.x);
  }

  /** The three ways `shrinkNodes` treats the node after the prefix: none
      left, no overlap, or overlapped entirely and removed. */
  lemma ShrinkStep(pre: seq<IntRect>, tail: seq<IntRect>)
    requires |pre| > 0
    ensures |tail| == 0 ==> ShrinkFrom(pre + tail, |pre|) == pre
    ensures |tail| > 0 && tail[0].x >= pre[|pre| - 1].MaxX() ==> ShrinkFrom(pre + tail, |pre|) == pre + tail
    ensures |tail| > 0 && tail[0].x < pre[|pre| - 1].MaxX() && tail[0].MaxX() <= pre[|pre| - 1].MaxX() ==>
      ShrinkFrom(pre + tail, |pre|) == ShrinkFrom(pre + tail[1..], |pre|)
  {
    var s := pre + tail;
    if |tail| == 0 {
      assert s == pre;
    } else {
      assert s[|pre|] == tail[0] && s[|pre| - 1] == pre[|pre| - 1];
      assert s[..|pre|] + s[|pre| + 1..] == pre + tail[1..];
    }
  }

  /** The conditions under which `shrinkNodes` repairs a skyline: the
      nodes before `index` are a contiguous skyline prefix ending at
      `prevRight`, and the nodes from `index` on are contiguous, start at
      or left of `prevRight` and end at the right border. */
  predicate ShrinkReady(pre: seq<IntRect>, tail: seq<IntRect>, aw: int)
  {
    |pre| > 0 && pre[0].x == 1 && Contiguous(pre) && WellFormedNodes(pre)
    && Contiguous(tail) && WellFormedNodes(tail)
    && pre[|pre| - 1].MaxX() <= aw - 1
    && (|tail| > 0 ==> tail[0].x <= pre[|pre| - 1].MaxX() && tail[|tail| - 1].MaxX() == aw - 1)
    && (|tail| == 0 ==> pre[|pre| - 1].MaxX() == aw - 1)
  }

  /** Removing an entirely overlapped node keeps the conditions. */
  lemma ShrinkReadyAfterRemoval(pre: seq<IntRect>, tail: seq<IntRect>, aw: int)
    requires ShrinkReady(pre, tail, aw) && |tail| > 0
    requires tail[0].MaxX() <= pre[|pre| - 1].MaxX()
    ensures ShrinkReady(pre, tail[1..], aw)
    ensures |tail| == 1 ==> pre[|pre| - 1].MaxX() == tail[0].MaxX()
  {
    ContiguousSlice(tail, 1, |tail|);
    if |tail| > 1 {
      assert tail[0].MaxX() == tail[1].x;
    }
  }

  /** Cutting off the columns of an entirely overlapped first node leaves the
      columns of the nodes after it, cut off from the same right edge. */
  lemma RemovedDrop(tail: seq<IntRect>, prevRight: int)
    requires |tail| > 0 && tail[0].width > 0
    requires tail[0].x < prevRight && tail[0].MaxX() <= prevRight
    requires |tail| > 1 ==> tail[1].x == tail[0].MaxX()
    ensures Drop(Profile(tail), prevRight - tail[0].x)
         == Drop(Profile(tail[1..]), if |tail| > 1 then prevRight - tail[1].x else 0)
  {
    var node, rest := tail[0], tail[1..];
    var n := prevRight - node.x;
    assert Profile(tail) == Repeat(node.MaxY(), node.width) + Profile(rest);
    DropRepeat(node.MaxY(), node.width, Profile(rest), n);
    if |rest| == 0 {
      assert Profile(rest) == [];
      assert Drop(Profile(rest), n - node.width) == [];
    } else {
      assert n - node.width == prevRight - tail[1].x;
    }
  }

  /** `shrinkNodes` turns a ready node list into a skyline. */
  lemma {:induction false} ShrinkSkyline(pre: seq<IntRect>, tail: seq<IntRect>, aw: int)
    requires ShrinkReady(pre, tail, aw)
    ensures Skyline(ShrinkFrom(pre + tail, |pre|), aw)
    decreases |tail|
  {
    ShrinkStep(pre, tail);
    if |tail| > 0 {
      var prevRight := pre[|pre| - 1].MaxX();
      if tail[0].x >= prevRight {
        ContiguousConcat(pre, tail);
      } else if tail[0].MaxX() > prevRight {
        ShrinkMovedSkyline(pre, tail, aw);
      } else {
        ShrinkReadyAfterRemoval(pre, tail, aw);
        ShrinkSkyline(pre, tail[1..], aw);
      }
    }
  }

  /** The profile after `shrinkNodes`: the prefix's, followed by the
      rest's with the columns the prefix overlaps cut off. */
  lemma {:induction false} ShrinkProfile(pre: seq<IntRect>, tail: seq<IntRect>, aw: int)
    requires ShrinkReady(pre, tail, aw)
    ensures Profile(ShrinkFrom(pre + tail, |pre|))
         == Profile(pre) + Drop(Profile(tail), if |tail| > 0 then pre[|pre| - 1].MaxX() - tail[0].x else 0)
    decreases |tail|
  {
    ShrinkStep(pre, tail);
    if |tail| > 0 {
      var node, prevRight := tail[0], pre[|pre| - 1].MaxX();
      if node.x >= prevRight {
        ProfileAppend(pre, tail);
      } else if node.MaxX() > prevRight {
        ShrinkMovedProfile(pre, tail);
      } else {
        ShrinkReadyAfterRemoval(pre, tail, aw);
        ShrinkProfile(pre, tail[1..], aw);
        RemovedDrop(tail, prevRight);
      }
    } else {
      assert Profile(tail) == [];
    }
  }

  // ---------------------------------------------------------------------
  // mergeNodes
  // ---------------------------------------------------------------------

  /** `setWidth(width + extra)` on a node. */
  function Widened(node: IntRect, extra: int): (r: IntRect)
    ensures r.x == node.x && r.MaxY() == node.MaxY() && r.MaxX() == node.MaxX() + extra
  {
    IntRect(node.x, node.y, node.width + extra, node.height)
  }

  /** Node `i` widened by the width of node `i + 1`, which is removed. */
  function MergeAt(nodes: seq<IntRect>, i: int): (r: seq<IntRect>)
    requires 0 <= i < |nodes| - 1
    ensures |r| == |nodes| - 1
  {
    nodes[..i] + [Widened(nodes[i], nodes[i + 1].width)] + nodes[i + 2..]
  }

  /** The loop of `mergeNodes` from node `i` on: a node whose bottom equals
      its successor's absorbs it and is compared with its new successor;
      otherwise the loop moves on. */
  function MergeFrom(nodes: seq<IntRect>, i: int): seq<IntRect>
    requires 0 <= i <= |nodes|
    decreases 2 * |nodes| - i
  {
    if i >= |nodes| - 1 then nodes
    else if nodes[i].MaxY() == nodes[i + 1].MaxY() then MergeFrom(MergeAt(nodes, i), i)
    else MergeFrom(nodes, i + 1)
  }

  /** No two neighbouring nodes have the same bottom. */
  predicate NoEqualNeighbours(nodes: seq<IntRect>)
  {
    forall k :: 0 <= k < |nodes| - 1 ==> nodes[k].MaxY() != nodes[k + 1].MaxY()
  }

  lemma MergeAtEntries(nodes: seq<IntRect>, i: int)
    requires 0 <= i < |nodes| - 1
    ensures forall k :: 0 <= k < |nodes| - 1 ==>
      MergeAt(nodes, i)[k]
      == (if k < i then nodes[k]
          else if k == i then Widened(nodes[i], nodes[i + 1].width)
          else nodes[k + 1])
  {
    var a, b := nodes[..i] + [Widened(nodes[i], nodes[i + 1].width)], nodes[i + 2..];
    forall k | 0 <= k < |nodes| - 1
      ensures (a + b)[k] == (if k < i then nodes[k]
          else if k == i then Widened(nodes[i], nodes[i + 1].width)
          else nodes[k + 1])
    {
      if k <= i {
        assert (a + b)[k] == a[k];
      } else {
        assert (a + b)[k] == b[k - i - 1];
      }
    }
  }

  /** A node list is its nodes before `i`, nodes `i` and `i + 1`, and the rest. */
  lemma PairSplit(nodes: seq<IntRect>, i: int)
    requires 0 <= i < |nodes| - 1
    ensures nodes == nodes[..i] + [nodes[i], nodes[i + 1]] + nodes[i + 2..]
  {
    assert nodes == nodes[..i] + nodes[i..];
    assert nodes[i..] == [nodes[i], nodes[i + 1]] + nodes[i + 2..];
  }

  lemma MergeAtProfile(nodes: seq<IntRect>, i: int)
    requires WellFormedNodes(nodes) && 0 <= i < |nodes| - 1
    requires nodes[i].MaxY() == nodes[i + 1].MaxY()
    ensures Profile(MergeAt(nodes, i)) == Profile(nodes)
  {
    var merged := Widened(nodes[i], nodes[i + 1].width);
    var pair := [nodes[i], nodes[i + 1]];
    PairSplit(nodes, i);
    assert Profile(pair) == Profile([merged]) by {
      ProfilePair(nodes[i], nodes[i + 1]);
      ProfileSingle(merged);
      RepeatAdd(merged.MaxY(), nodes[i].width, nodes[i + 1].width);
    }
    ProfileOfThree(nodes[..i], pair, nodes[i + 2..]);
    ProfileOfThree(nodes[..i], [merged], nodes[i + 2..]);
  }

  lemma MergeAtContiguous(nodes: seq<IntRect>, i: int)
    requires Contiguous(nodes) && 0 <= i < |nodes| - 1
    ensures Contiguous(MergeAt(nodes, i))
  {
    var merged := Widened(nodes[i], nodes[i + 1].width);
    ContiguousSlice(nodes, 0, i);
    ContiguousSlice(nodes, i + 2, |nodes|);
    if i > 0 {
      assert nodes[..i][i - 1] == nodes[i - 1];
    }
    ContiguousConcat(nodes[..i], [merged]);
    assert nodes[i].MaxX() == nodes[i + 1].x;
    if i + 2 < |nodes| {
      assert nodes[i + 1].MaxX() == nodes[i + 2].x;
      assert nodes[i + 2..][0] == nodes[i + 2];
    }
    ContiguousConcat(nodes[..i] + [merged], nodes[i + 2..]);
  }

  /** Merging two neighbours of the same bottom keeps the skyline and its
      profile, and the bottoms up to the merged node. */
  lemma MergeAtSkyline(nodes: seq<IntRect>, i: int, aw: int)
    requires Skyline(nodes, aw) && 0 <= i < |nodes| - 1
    requires nodes[i].MaxY() == nodes[i + 1].MaxY()
    ensures Skyline(MergeAt(nodes, i), aw)
    ensures Profile(MergeAt(nodes, i)) == Profile(nodes)
    ensures forall k :: 0 <= k <= i ==> MergeAt(nodes, i)[k].MaxY() == nodes[k].MaxY()
  {
    MergeAtProfile(nodes, i);
    MergeAtShape(nodes, i, aw);
    MergeAtEntries(nodes, i);
  }

  lemma MergeAtShape(nodes: seq<IntRect>, i: int, aw: int)
    requires Skyline(nodes, aw) && 0 <= i < |nodes| - 1
    ensures Skyline(MergeAt(nodes, i), aw)
  {
    MergeAtContiguous(nodes, i);
    MergeAtEntries(nodes, i);
  }

  /** `mergeNodes` keeps the skyline and its profile and leaves no two
      neighbours with the same bottom. */
  lemma {:induction false} MergeSkyline(nodes: seq<IntRect>, i: int, aw: int)
    requires Skyline(nodes, aw) && 0 <= i <= |nodes|
    requires forall k :: 0 <= k < i && k < |nodes| - 1 ==> nodes[k].MaxY() != nodes[k + 1].MaxY()
    ensures Skyline(MergeFrom(nodes, i), aw)
    ensures Profile(MergeFrom(nodes, i)) == Profile(nodes)
    ensures NoEqualNeighbours(MergeFrom(nodes, i))
    decreases 2 * |nodes| - i
  {
    if i < |nodes| - 1 {
      if nodes[i].MaxY() == nodes[i + 1].MaxY() {
        MergeAtSkyline(nodes, i, aw);
        var r := MergeAt(nodes, i);
        forall k | 0 <= k < i && k < |r| - 1 ensures r[k].MaxY() != r[k + 1].MaxY() {
          assert r[k].MaxY() == nodes[k].MaxY() && r[k + 1].MaxY() == nodes[k + 1].MaxY();
        }
        MergeSkyline(r, i, aw);
      } else {
        MergeSkyline(nodes, i + 1, aw);
      }
    }
  }

  // ---------------------------------------------------------------------
  // region
  // ---------------------------------------------------------------------

  /** The candidate `region` keeps while it walks the nodes. */
  datatype Choice = Choice(bestIndex: int, bestHeight: int, bestWidth: int, regionX: int, regionY: int)

  /** The order in which `region` prefers candidates: lower `y + height`
      first, and on equal heights the narrower node. */
  predicate Better(height1: int, width1: int, height2: int, width2: int)
  {
    height1 < height2 || (height1 == height2 && width1 < width2)
  }

  /** The candidate search of `region` over the first `n` nodes. */
  function Select(nodes: seq<IntRect>, n: int, w: int, h: int, aw: int, ah: int): Choice
    requires Skyline(nodes, aw) && 0 <= n <= |nodes|
    decreases n
  {
    if n == 0 then Choice(-1, IntMax, IntMax, 0, 0)
    else
      var c := Select(nodes, n - 1, w, h, aw, ah);
      var y := Fit(nodes, n - 1, w, h, aw, ah);
      if y >= 0 && Better(y + h, nodes[n - 1].width, c.bestHeight, c.bestWidth)
      then Choice(n - 1, y + h, nodes[n - 1].width, nodes[n - 1].x, y)
      else c
  }

  /** The candidate search finds nothing exactly when no node fits the
      region; otherwise it picks a fitting node whose `(y + height, node
      width)` is least, the first one among equals, and the region goes to
      that node's x and fitted y. */
  lemma {:induction false} SelectBest(nodes: seq<IntRect>, n: int, w: int, h: int, aw: int, ah: int)
    requires Skyline(nodes, aw) && 0 <= n <= |nodes| && w > 0 && ah <= IntMax
    ensures Select(nodes, n, w, h, aw, ah).bestIndex == -1 <==>
      forall j :: 0 <= j < n ==> Fit(nodes, j, w, h, aw, ah) < 0
    ensures Select(nodes, n, w, h, aw, ah).bestIndex == -1 ==>
      Select(nodes, n, w, h, aw, ah) == Choice(-1, IntMax, IntMax, 0, 0)
    ensures Select(nodes, n, w, h, aw, ah).bestIndex != -1 ==>
      var c := Select(nodes, n, w, h, aw, ah);
      0 <= c.bestIndex < n
      && Fit(nodes, c.bestIndex, w, h, aw, ah) >= 0
      && c.regionY == Fit(nodes, c.bestIndex, w, h, aw, ah)
      && c.regionX == nodes[c.bestIndex].x
      && c.bestHeight == c.regionY + h
      && c.bestWidth == nodes[c.bestIndex].width
      && (forall j :: 0 <= j < n && Fit(nodes, j, w, h, aw, ah) >= 0 ==>
            !Better(Fit(nodes, j, w, h, aw, ah) + h, nodes[j].width, c.bestHeight, c.bestWidth))
      && (forall j :: 0 <= j < c.bestIndex && Fit(nodes, j, w, h, aw, ah) >= 0 ==>
            Better(c.bestHeight, c.bestWidth, Fit(nodes, j, w, h, aw, ah) + h, nodes[j].width))
    decreases n
  {
    if n > 0 {
      SelectBest(nodes, n - 1, w, h, aw, ah);
      FitPlacement(nodes, n - 1, w, h, aw, ah);
    }
  }

  /** The node list after a region is placed at node `bestIndex`: the
      region is inserted as a node, the following nodes are shrunk, and
      equal neighbours are merged. */
  function Placed(nodes: seq<IntRect>, bestIndex: int, region: IntRect): seq<IntRect>
    requires 0 <= bestIndex < |nodes|
  {
    MergeFrom(ShrinkFrom(nodes[..bestIndex] + [region] + nodes[bestIndex..], bestIndex + 1), 0)
  }

  /** Columns `[start, start + w)` of a profile raised to `v`. */
  lemma SpliceColumns(a: seq<int>, t: seq<int>, v: int, w: int)
    requires 0 < w <= |t|
    ensures |a + Repeat(v, w) + Drop(t, w)| == |a + t|
    ensures forall c :: 0 <= c < |a + t| ==>
      (a + Repeat(v, w) + Drop(t, w))[c] == if |a| <= c < |a| + w then v else (a + t)[c]
  {
    var r := a + Repeat(v, w) + Drop(t, w);
    forall c | 0 <= c < |a + t|
      ensures r[c] == if |a| <= c < |a| + w then v else (a + t)[c]
    {
      if c < |a| {
        assert r[c] == a[c];
      } else if c < |a| + w {
        assert r[c] == Repeat(v, w)[c - |a|];
      } else {
        assert r[c] == Drop(t, w)[c - |a| - w];
      }
    }
  }

  lemma PlacedReady(nodes: seq<IntRect>, b: int, region: IntRect, aw: int)
    requires Skyline(nodes, aw) && 0 <= b < |nodes|
    requires region.x == nodes[b].x && region.width >= 1 && region.height >= 1 && region.y >= 0
    requires region.MaxX() <= aw - 1
    ensures ShrinkReady(nodes[..b] + [region], nodes[b..], aw)
  {
    ContiguousSlice(nodes, 0, b);
    ContiguousSlice(nodes, b, |nodes|);
    if b > 0 {
      assert nodes[..b][b - 1] == nodes[b - 1];
      assert nodes[b - 1].MaxX() == nodes[b].x;
    }
    ContiguousConcat(nodes[..b], [region]);
    var pre := nodes[..b] + [region];
    assert pre[|pre| - 1] == region;
    assert nodes[b..][0] == nodes[b];
  }

  /** Placing a region keeps the skyline and leaves no equal neighbours;
      its profile is the columns left of the region, the region's bottom
      across its width, and the rest. */
  lemma PlacedShape(nodes: seq<IntRect>, b: int, region: IntRect, aw: int)
    requires Skyline(nodes, aw) && 0 <= b < |nodes|
    requires region.x == nodes[b].x && region.width >= 1 && region.height >= 1 && region.y >= 0
    requires region.MaxX() <= aw - 1
    ensures Skyline(Placed(nodes, b, region), aw)
    ensures NoEqualNeighbours(Placed(nodes, b, region))
    ensures Profile(Placed(nodes, b, region))
         == Profile(nodes[..b]) + Repeat(region.MaxY(), region.width) + Drop(Profile(nodes[b..]), region.width)
  {
    var pre, tail := nodes[..b] + [region], nodes[b..];
    PlacedReady(nodes, b, region, aw);
    assert pre + tail == nodes[..b] + [region] + nodes[b..];
    ShrinkSkyline(pre, tail, aw);
    ShrinkProfile(pre, tail, aw);
    MergeSkyline(ShrinkFrom(pre + tail, |pre|), 0, aw);
    assert tail[0] == nodes[b];
    ProfileAppend(nodes[..b], [region]);
    ProfileSingle(region);
  }

  /** In a skyline the columns left of node `b` are as many as its x
      says, and the columns from node `b` on reach the right border. */
  lemma SplitColumns(nodes: seq<IntRect>, b: int, aw: int)
    requires Skyline(nodes, aw) && 0 <= b < |nodes|
    ensures |Profile(nodes[..b])| == nodes[b].x - 1
    ensures |Profile(nodes[b..])| == aw - 1 - nodes[b].x
    ensures Profile(nodes) == Profile(nodes[..b]) + Profile(nodes[b..])
  {
    LeftColumns(nodes, b, aw);
    RightColumns(nodes, b, aw);
    assert nodes == nodes[..b] + nodes[b..];
    ProfileAppend(nodes[..b], nodes[b..]);
  }

  lemma LeftColumns(nodes: seq<IntRect>, b: int, aw: int)
    requires Skyline(nodes, aw) && 0 <= b < |nodes|
    ensures |Profile(nodes[..b])| == nodes[b].x - 1
  {
    PrefixColumns(nodes, b);
  }

  lemma RightColumns(nodes: seq<IntRect>, b: int, aw: int)
    requires Skyline(nodes, aw) && 0 <= b < |nodes|
    ensures |Profile(nodes[b..])| == aw - 1 - nodes[b].x
  {
    ContiguousSlice(nodes, b, |nodes|);
    assert nodes[b..][0] == nodes[b];
    assert nodes[b..][|nodes| - b - 1] == nodes[|nodes| - 1];
    ProfileSpan(nodes[b..]);
  }

  /** Placing a region raises exactly the columns under it to its bottom
      edge and keeps every other column. */
  lemma PlacedColumns(nodes: seq<IntRect>, b: int, region: IntRect, aw: int)
    requires Skyline(nodes, aw) && 0 <= b < |nodes|
    requires region.x == nodes[b].x && region.width >= 1 && region.height >= 1 && region.y >= 0
    requires region.MaxX() <= aw - 1
    ensures |Profile(Placed(nodes, b, region))| == |Profile(nodes)|
    ensures forall c :: 0 <= c < |Profile(nodes)| ==>
      Profile(Placed(nodes, b, region))[c]
      == if region.x - 1 <= c < region.MaxX() - 1 then region.MaxY() else Profile(nodes)[c]
  {
    PlacedShape(nodes, b, region, aw);
    SplitColumns(nodes, b, aw);
    SpliceColumns(Profile(nodes[..b]), Profile(nodes[b..]), region.MaxY(), region.width);
  }

  /** What `region` returns when no node fits. */
  const NoRegion: IntRect := IntRect(-1, -1, 0, 0)

  /** `region(w, h)` on an already seeded skyline: the region handed out
      (or `NoRegion`) and the node list afterwards. */
  function Allocate(nodes: seq<IntRect>, w: int, h: int, aw: int, ah: int): (IntRect, seq<IntRect>)
    requires Skyline(nodes, aw) && w >= 1 && h >= 1 && ah <= IntMax
  {
    var c := Select(nodes, |nodes|, w, h, aw, ah);
    if c.bestIndex == -1 then (NoRegion, nodes)
    else
      SelectBest(nodes, |nodes|, w, h, aw, ah);
      var region := IntRect(c.regionX, c.regionY, w, h);
      (region, Placed(nodes, c.bestIndex, region))
  }

  /** `region` fails exactly when no node fits, and then keeps the nodes.
      Otherwise the region has the requested size, lies inside the border
      of the atlas, rests on the skyline (no column under it is higher
      than its y, and one column is exactly that high), sits at the node
      the candidate search chose, and the columns under it are raised to
      its bottom edge while every other column stays. */
  lemma AllocateSpec(nodes: seq<IntRect>, w: int, h: int, aw: int, ah: int)
    requires Skyline(nodes, aw) && w >= 1 && h >= 1 && ah <= IntMax
    ensures Allocate(nodes, w, h, aw, ah).0 == NoRegion <==>
      forall j :: 0 <= j < |nodes| ==> Fit(nodes, j, w, h, aw, ah) < 0
    ensures Allocate(nodes, w, h, aw, ah).0 == NoRegion ==> Allocate(nodes, w, h, aw, ah).1 == nodes
    ensures Allocate(nodes, w, h, aw, ah).0 != NoRegion ==>
      var region, after := Allocate(nodes, w, h, aw, ah).0, Allocate(nodes, w, h, aw, ah).1;
      var best := Select(nodes, |nodes|, w, h, aw, ah).bestIndex;
      0 <= best < |nodes|
      && region == IntRect(nodes[best].x, Fit(nodes, best, w, h, aw, ah), w, h)
      && 1 <= region.x && region.MaxX() <= aw - 1 && 1 <= region.y && region.MaxY() <= ah - 1
      && Skyline(after, aw) && NoEqualNeighbours(after)
      && region.MaxX() - 1 <= |Profile(nodes)| == |Profile(after)|
      && (forall c :: region.x - 1 <= c < region.MaxX() - 1 ==> Profile(nodes)[c] <= region.y)
      && (exists c :: region.x - 1 <= c < region.MaxX() - 1 && Profile(nodes)[c] == region.y)
      && (forall c :: 0 <= c < |Profile(nodes)| ==>
            Profile(after)[c] == if region.x - 1 <= c < region.MaxX() - 1 then region.MaxY() else Profile(nodes)[c])
  {
    SelectBest(nodes, |nodes|, w, h, aw, ah);
    var c := Select(nodes, |nodes|, w, h, aw, ah);
    if c.bestIndex != -1 {
      var region := IntRect(c.regionX, c.regionY, w, h);
      FitPlacement(nodes, c.bestIndex, w, h, aw, ah);
      FitColumns(nodes, c.bestIndex, w, h, aw, ah);
      PlacedShape(nodes, c.bestIndex, region, aw);
      PlacedColumns(nodes, c.bestIndex, region, aw);
    }
  }
}
