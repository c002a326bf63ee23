/**
 * The insertion phase of the TyGL trapezoid builder
 * (TrapezoidBuilderTyGL.h and TrapezoidBuilderTyGL.cpp).
 *
 * Path edges become `Line` records kept in a red-black tree ordered by
 * (topY, topX, slope). The colour of a node is bit 0 of
 * `flagsAndDirection`; the bits from 2 upwards accumulate the winding
 * direction (4 for a downward edge, -4 for an upward one). Once every edge
 * is inserted, `computeLineList` walks the tree in order and keeps the
 * lines that the fill rule counts.
 *
 * The tree is modelled as a value: a node is `Node(line, left, right)` and
 * the parent pointers of the source are replaced by a zipper, the list of
 * `Frame`s from the current node up to the root. Floats are `real`.
 */
module TrapezoidBuilderTyGL {
  import opened Wrappers
  import opened Geometry
  import TyGLDefs
  import ClipRectTyGL

  /** `kAntiAliasing`, which is `ANTIALIAS_LEVEL` (TrapezoidListTyGL.h). */
  const AntiAliasing: int := 16

  // ------------------------------------------------------------------
  // The flag word of a line. `flagsAndDirection` is a two's-complement
  // integer; Dafny's `/` and `%` by a positive constant are floor division
  // and a non-negative remainder, so `f % 2` is bit 0, `(f / 2) % 2` is
  // bit 1 and `f / 4` is the arithmetic shift `f >> 2`.
  // ------------------------------------------------------------------

  const DirectionShift: int := 2
  const DirectionDown: int := 4
  const DirectionUp: int := -4

  /** `isRed`: bit 0 (`kRed`). */
  predicate IsRed(flags: int)
  {
    flags % 2 == 1
  }

  /** `setRed`: `flags | kRed`. */
  function SetRed(flags: int): (r: int)
    ensures IsRed(r)
    ensures r / 2 == flags / 2
  {
    if flags % 2 == 0 then flags + 1 else flags
  }

  /** `setBlack`: `flags & ~kRed`. */
  function SetBlack(flags: int): (r: int)
    ensures !IsRed(r)
    ensures r / 2 == flags / 2
  {
    flags - flags % 2
  }

  /** `isInprecise`: bit 0 or bit 1 (`kInpreciseBits`). */
  predicate IsInprecise(flags: int)
  {
    flags % 4 != 0
  }

  /** `clearInprecise`: `flags & ~kInpreciseBits`. */
  function ClearInprecise(flags: int): (r: int)
    ensures !IsInprecise(r)
    ensures r / 4 == flags / 4
  {
    flags - flags % 4
  }

  /** `setBottomInprecise`: `flags | kBottomInprecise`, the same bit as `kRed`. */
  function SetBottomInprecise(flags: int): (r: int)
    ensures IsInprecise(r)
    ensures r % 2 == 1 && r / 2 == flags / 2
  {
    SetRed(flags)
  }

  /**
   * `shiftInpreciseBit`: clear bit 1, increment, clear bit 0. The
   * increment carries bit 0 into bit 1.
   */
  function ShiftInpreciseBit(flags: int): int
  {
    var cleared := flags - ((flags / 2) % 2) * 2;
    var incremented := cleared + 1;
    incremented - incremented % 2
  }

  /** `direction()`: `flagsAndDirection >> directionShift`. */
  function Direction(flags: int): int
  {
    flags / 4
  }

  /** `isOddDirection()`: bit 2. */
  predicate IsOddDirection(flags: int)
  {
    (flags / 4) % 2 == 1
  }

  /** Division by 4 of a word written as `4 * q + r`. */
  lemma Quot4(n: int, q: int, r: int)
    requires n == 4 * q + r && 0 <= r < 4
    ensures n / 4 == q && n % 4 == r
  {
  }

  /** Division by 2 of a word written as `2 * q + r`. */
  lemma Quot2(n: int, q: int, r: int)
    requires n == 2 * q + r && 0 <= r < 2
    ensures n / 2 == q && n % 2 == r
  {
  }

  /** A flag word as the direction bits `q` and the low two bits `b1`, `b0`. */
  lemma Split(flags: int) returns (q: int, b1: int, b0: int)
    ensures 0 <= b1 < 2 && 0 <= b0 < 2 && flags == 4 * q + 2 * b1 + b0
    ensures flags / 4 == q && flags % 2 == b0 && (flags / 2) % 2 == b1
  {
    q := flags / 4;
    var r := flags % 4;
    Quot4(flags, q, r);
    b1, b0 := r / 2, r % 2;
    Quot2(flags, 2 * q + b1, b0);
    Quot2(2 * q + b1, q, b1);
  }

  /** `shiftInpreciseBit` moves bit 0 to bit 1, clears bit 0 and keeps the direction bits. */
  lemma ShiftInpreciseBitMoves(flags: int)
    ensures ShiftInpreciseBit(flags) % 2 == 0
    ensures (ShiftInpreciseBit(flags) / 2) % 2 == flags % 2
    ensures ShiftInpreciseBit(flags) / 4 == flags / 4
  {
    var q, b1, b0 := Split(flags);
    var incremented := 4 * q + b0 + 1;
    assert ShiftInpreciseBit(flags) == incremented - incremented % 2;
    if b0 == 0 {
      Quot2(incremented, 2 * q, 1);
      Quot4(4 * q, q, 0);
      Quot2(4 * q, 2 * q, 0);
      Quot2(2 * q, q, 0);
    } else {
      Quot2(incremented, 2 * q + 1, 0);
      Quot4(4 * q + 2, q, 2);
      Quot2(4 * q + 2, 2 * q + 1, 0);
      Quot2(2 * q + 1, q, 1);
    }
  }

  /** Changing the colour leaves the direction and its parity alone. */
  lemma ColourKeepsDirection(flags: int)
    ensures Direction(SetRed(flags)) == Direction(flags)
    ensures Direction(SetBlack(flags)) == Direction(flags)
    ensures IsOddDirection(SetRed(flags)) == IsOddDirection(flags)
    ensures IsOddDirection(SetBlack(flags)) == IsOddDirection(flags)
  {
    var q, b1, b0 := Split(flags);
    Quot4(4 * q + 2 * b1 + 1, q, 2 * b1 + 1);
    Quot4(4 * q + 2 * b1, q, 2 * b1);
  }

  /**
   * Adding `directionDown` or `directionUp` to the flag word adds +1 or -1
   * to `direction()`, flips `isOddDirection()` and keeps the colour bit, so
   * repeated additions count the winding of coincident edges.
   */
  lemma DirectionAccumulates(flags: int, direction: int)
    requires direction == DirectionDown || direction == DirectionUp
    ensures Direction(flags + direction) == Direction(flags) + direction / 4
    ensures IsOddDirection(flags + direction) == !IsOddDirection(flags)
    ensures IsRed(flags + direction) == IsRed(flags)
    ensures SetBlack(flags + direction) == SetBlack(flags) + direction
  {
    var q, b1, b0 := Split(flags);
    var k := if direction == DirectionDown then 1 else -1;
    assert direction / 4 == k;
    Quot4(flags + direction, q + k, 2 * b1 + b0);
    Quot2(flags + direction, 2 * (q + k) + b1, b0);
    var e := (q + k) % 2;
    var f := q % 2;
    Quot2(q + k, (q + k) / 2, e);
    Quot2(q, q / 2, f);
    assert e != f;
  }

  /** `isOddDirection` is the parity of the accumulated winding count. */
  lemma OddDirectionIsParity(flags: int)
    ensures IsOddDirection(flags) <==> Direction(flags) % 2 != 0
  {
  }

  /** The flag word of a new line, `direction | kRed`: red, winding +1 or -1. */
  function NewFlags(direction: int): (r: int)
    requires direction == DirectionDown || direction == DirectionUp
    ensures IsRed(r)
    ensures Direction(r) == direction / 4
    ensures r == direction + 1
  {
    SetRed(direction)
  }

  // ------------------------------------------------------------------
  // Lines and the tree
  // ------------------------------------------------------------------

  /** The tree-phase fields of `TrapezoidBuilder::Line`. */
  datatype Line = Line(topY: int, topX: int, bottomY: int, bottomX: int,
                       originalTopY: real, originalTopX: real, slope: real,
                       flagsAndDirection: int)

  function WithFlags(l: Line, flags: int): (r: Line)
    ensures r.flagsAndDirection == flags
  {
    Line(l.topY, l.topX, l.bottomY, l.bottomX, l.originalTopY, l.originalTopX, l.slope, flags)
  }

  /** The line with its colour bit cleared: everything the tree order and the winding see. */
  function Uncoloured(l: Line): Line
  {
    WithFlags(l, SetBlack(l.flagsAndDirection))
  }

  /** `current->flagsAndDirection += direction`. */
  function AddDirection(l: Line, direction: int): Line
  {
    WithFlags(l, l.flagsAndDirection + direction)
  }

  /** `s_sentinelLine` is `Sentinel`; its flag word is 0, so it is black. */
  datatype Tree = Sentinel | Node(line: Line, left: Tree, right: Tree)

  predicate IsRedNode(t: Tree)
  {
    t.Node? && IsRed(t.line.flagsAndDirection)
  }

  /** `t->setBlack()` on the root of `t`. */
  function Blacken(t: Tree): (r: Tree)
    ensures !IsRedNode(r)
  {
    match t
    case Sentinel => Sentinel
    case Node(l, a, b) => Node(WithFlags(l, SetBlack(l.flagsAndDirection)), a, b)
  }

  /** `t->setRed()` on the root line. */
  function Redden(l: Line): Line
  {
    WithFlags(l, SetRed(l.flagsAndDirection))
  }

  /** The in-order sequence of a tree's lines, as stored. */
  function InOrder(t: Tree): seq<Line>
  {
    match t
    case Sentinel => []
    case Node(l, a, b) => InOrder(a) + [l] + InOrder(b)
  }

  /** The in-order sequence with colours cleared: the tree's contents. */
  function Contents(t: Tree): seq<Line>
  {
    match t
    case Sentinel => []
    case Node(l, a, b) => Contents(a) + [Uncoloured(l)] + Contents(b)
  }

  /** `rotateLeft`: the right child moves up, its left subtree moves across. */
  function RotateLeft(t: Tree): Tree
  {
    match t
    case Node(x, a, Node(y, b, c)) => Node(y, Node(x, a, b), c)
    case _ => t
  }

  /** `rotateRight`: the left child moves up, its right subtree moves across. */
  function RotateRight(t: Tree): Tree
  {
    match t
    case Node(y, Node(x, a, b), c) => Node(x, a, Node(y, b, c))
    case _ => t
  }

  /** Rotations keep the in-order sequence, so the tree stays ordered. */
  lemma RotationsKeepOrder(t: Tree)
    ensures InOrder(RotateLeft(t)) == InOrder(t)
    ensures InOrder(RotateRight(t)) == InOrder(t)
    ensures Contents(RotateLeft(t)) == Contents(t)
    ensures Contents(RotateRight(t)) == Contents(t)
  {
  }

  lemma RecolourKeepsContents(l: Line, a: Tree, b: Tree)
    ensures Contents(Node(Redden(l), a, b)) == Contents(Node(l, a, b))
    ensures Contents(Blacken(Node(l, a, b))) == Contents(Node(l, a, b))
  {
  }

  // ------------------------------------------------------------------
  // The zipper: the path from a node up to the root.
  // ------------------------------------------------------------------

  /**
   * One step of the path: the parent's line, whether the child is its left
   * child, and the child's sibling.
   */
  datatype Frame = Frame(wentLeft: bool, line: Line, sibling: Tree)

  /** The parent subtree rebuilt around a child. */
  function Wrap(child: Tree, f: Frame): Tree
  {
    if f.wentLeft then Node(f.line, child, f.sibling) else Node(f.line, f.sibling, child)
  }

  /** The whole tree rebuilt from a node and its path (innermost frame first). */
  function Plug(t: Tree, path: seq<Frame>): Tree
    decreases |path|
  {
    if |path| == 0 then t else Plug(Wrap(t, path[0]), path[1..])
  }

  lemma PlugFrame(t: Tree, f: Frame, path: seq<Frame>)
    ensures Plug(t, [f] + path) == Plug(Wrap(t, f), path)
  {
    assert ([f] + path)[1..] == path;
  }

  /** Replacing a subtree by one with the same contents keeps the whole tree's contents. */
  lemma {:induction false} PlugKeepsContents(t1: Tree, t2: Tree, path: seq<Frame>)
    requires Contents(t1) == Contents(t2)
    ensures Contents(Plug(t1, path)) == Contents(Plug(t2, path))
    decreases |path|
  {
    if |path| > 0 {
      PlugKeepsContents(Wrap(t1, path[0]), Wrap(t2, path[0]), path[1..]);
    }
  }

  // ------------------------------------------------------------------
  // The tree order and binary-search-tree insertion
  // ------------------------------------------------------------------

  /** The lexicographic (topY, topX, slope) order that `insertLine` descends by. */
  predicate KeyLess(a: Line, b: Line)
  {
    a.topY < b.topY || (a.topY == b.topY && (a.topX < b.topX || (a.topX == b.topX && a.slope < b.slope)))
  }

  /** The duplicate test of `insertLine`: equal top and bottom end points. */
  predicate SameEdges(a: Line, b: Line)
  {
    a.topY == b.topY && a.topX == b.topX && a.bottomY == b.bottomY && a.bottomX == b.bottomX
  }

  /** Ordered by (topY, topX, slope), equal keys in any order. */
  predicate Sorted(s: seq<Line>)
  {
    forall i, j :: 0 <= i < j < |s| ==> !KeyLess(s[j], s[i])
  }

  /**
   * Unbalanced insertion along the search path of `insertLine`: a node with
   * the same end points absorbs the direction; otherwise the new line
   * becomes a leaf, left of every node it is smaller than.
   */
  function Inserted(t: Tree, nl: Line, direction: int): Tree
  {
    match t
    case Sentinel => Node(nl, Sentinel, Sentinel)
    case Node(l, a, b) =>
      if SameEdges(nl, l) then Node(AddDirection(l, direction), a, b)
      else if KeyLess(nl, l) then Node(l, Inserted(a, nl, direction), b)
      else Node(l, a, Inserted(b, nl, direction))
  }

  /** Whether the search path of `nl` meets a line with the same end points. */
  predicate Merges(t: Tree, nl: Line)
  {
    match t
    case Sentinel => false
    case Node(l, a, b) =>
      SameEdges(nl, l) || (if KeyLess(nl, l) then Merges(a, nl) else Merges(b, nl))
  }

  predicate AllBelow(s: seq<Line>, x: Line)
  {
    forall y :: y in s ==> !KeyLess(x, y)
  }

  predicate AllAbove(s: seq<Line>, x: Line)
  {
    forall y :: y in s ==> !KeyLess(y, x)
  }

  lemma SortedJoin(a: seq<Line>, x: Line, b: seq<Line>)
    requires Sorted(a) && Sorted(b) && AllBelow(a, x) && AllAbove(b, x)
    ensures Sorted(a + [x] + b)
  {
    var s := a + [x] + b;
    forall i, j | 0 <= i < j < |s|
      ensures !KeyLess(s[j], s[i])
    {
      if j < |a| {
        assert s[i] == a[i] && s[j] == a[j];
      } else if i > |a| {
        assert s[i] == b[i - |a| - 1] && s[j] == b[j - |a| - 1];
      } else if i == |a| {
        assert s[j] in b;
      } else if j == |a| {
        assert s[i] in a;
      } else {
        assert s[i] in a && s[j] in b;
      }
    }
  }

  lemma SortedSplit(a: seq<Line>, x: Line, b: seq<Line>)
    requires Sorted(a + [x] + b)
    ensures Sorted(a) && Sorted(b) && AllBelow(a, x) && AllAbove(b, x)
  {
    var s := a + [x] + b;
    forall i, j | 0 <= i < j < |a|
      ensures !KeyLess(a[j], a[i])
    {
      assert s[i] == a[i] && s[j] == a[j];
    }
    forall i, j | 0 <= i < j < |b|
      ensures !KeyLess(b[j], b[i])
    {
      assert s[|a| + 1 + i] == b[i] && s[|a| + 1 + j] == b[j];
    }
    forall y | y in a
      ensures !KeyLess(x, y)
    {
      var i :| 0 <= i < |a| && a[i] == y;
      assert s[i] == y && s[|a|] == x;
    }
    forall y | y in b
      ensures !KeyLess(y, x)
    {
      var i :| 0 <= i < |b| && b[i] == y;
      assert s[|a| + 1 + i] == y && s[|a|] == x;
    }
  }

  /** Inserting a line no greater than `x` into lines no greater than `x` keeps them so. */
  lemma {:induction false} InsertedBelow(t: Tree, nl: Line, direction: int, x: Line)
    requires AllBelow(Contents(t), x) && !KeyLess(x, nl)
    ensures AllBelow(Contents(Inserted(t, nl, direction)), x)
  {
    match t
    case Sentinel =>
    case Node(l, a, b) =>
      if SameEdges(nl, l) {
        forall y | y in Contents(Inserted(t, nl, direction))
          ensures !KeyLess(x, y)
        {
          if y !in Contents(a) && y !in Contents(b) {
            assert Uncoloured(l) in Contents(t);
          }
        }
      } else if KeyLess(nl, l) {
        InsertedBelow(a, nl, direction, x);
      } else {
        InsertedBelow(b, nl, direction, x);
      }
  }

  lemma {:induction false} InsertedAbove(t: Tree, nl: Line, direction: int, x: Line)
    requires AllAbove(Contents(t), x) && !KeyLess(nl, x)
    ensures AllAbove(Contents(Inserted(t, nl, direction)), x)
  {
    match t
    case Sentinel =>
    case Node(l, a, b) =>
      if SameEdges(nl, l) {
        forall y | y in Contents(Inserted(t, nl, direction))
          ensures !KeyLess(y, x)
        {
          if y !in Contents(a) && y !in Contents(b) {
            assert Uncoloured(l) in Contents(t);
          }
        }
      } else if KeyLess(nl, l) {
        InsertedAbove(a, nl, direction, x);
      } else {
        InsertedAbove(b, nl, direction, x);
      }
  }

  /** Insertion keeps the tree a binary search tree on (topY, topX, slope). */
  lemma {:induction false} InsertedSorted(t: Tree, nl: Line, direction: int)
    requires Sorted(Contents(t))
    ensures Sorted(Contents(Inserted(t, nl, direction)))
  {
    match t
    case Sentinel =>
    case Node(l, a, b) =>
      SortedSplit(Contents(a), Uncoloured(l), Contents(b));
      if SameEdges(nl, l) {
        assert Uncoloured(AddDirection(l, direction)).topY == Uncoloured(l).topY;
        SortedJoin(Contents(a), Uncoloured(AddDirection(l, direction)), Contents(b));
      } else if KeyLess(nl, l) {
        InsertedSorted(a, nl, direction);
        InsertedBelow(a, nl, direction, Uncoloured(l));
        SortedJoin(Contents(Inserted(a, nl, direction)), Uncoloured(l), Contents(b));
      } else {
        InsertedSorted(b, nl, direction);
        InsertedAbove(b, nl, direction, Uncoloured(l));
        SortedJoin(Contents(a), Uncoloured(l), Contents(Inserted(b, nl, direction)));
      }
  }

  /** Without a duplicate on the search path, insertion adds exactly the new line. */
  lemma {:induction false} InsertedAddsLine(t: Tree, nl: Line, direction: int)
    requires !Merges(t, nl)
    ensures multiset(Contents(Inserted(t, nl, direction))) == multiset(Contents(t)) + multiset{Uncoloured(nl)}
  {
    match t
    case Sentinel =>
    case Node(l, a, b) =>
      if KeyLess(nl, l) {
        InsertedAddsLine(a, nl, direction);
      } else {
        InsertedAddsLine(b, nl, direction);
      }
  }

  /**
   * With a duplicate on the search path, insertion only adds the direction
   * to that one line; the other lines and the order are unchanged.
   */
  lemma {:induction false} InsertedMergesLine(t: Tree, nl: Line, direction: int) returns (i: nat)
    requires Merges(t, nl)
    requires direction == DirectionDown || direction == DirectionUp
    ensures i < |Contents(t)|
    ensures Contents(Inserted(t, nl, direction)) == Contents(t)[i := AddDirection(Contents(t)[i], direction)]
  {
    match t
    case Node(l, a, b) =>
      var ca, cb := Contents(a), Contents(b);
      DirectionAccumulates(l.flagsAndDirection, direction);
      if SameEdges(nl, l) {
        i := |ca|;
        assert Uncoloured(AddDirection(l, direction)) == AddDirection(Uncoloured(l), direction);
        UpdateMiddle(ca, Uncoloured(l), cb, AddDirection(Uncoloured(l), direction));
      } else if KeyLess(nl, l) {
        var k := InsertedMergesLine(a, nl, direction);
        i := k;
        UpdateLeft(ca, Uncoloured(l), cb, k, AddDirection(ca[k], direction));
      } else {
        var k := InsertedMergesLine(b, nl, direction);
        i := |ca| + 1 + k;
        UpdateRight(ca, Uncoloured(l), cb, k, AddDirection(cb[k], direction));
      }
  }

  /** Updating the middle of `ca + [m] + cb` replaces `m`. */
  lemma UpdateMiddle(ca: seq<Line>, m: Line, cb: seq<Line>, v: Line)
    ensures (ca + [m] + cb)[|ca| := v] == ca + [v] + cb
  {
  }

  /** Updating inside `ca` of `ca + [m] + cb` updates `ca`. */
  lemma UpdateLeft(ca: seq<Line>, m: Line, cb: seq<Line>, k: nat, v: Line)
    requires k < |ca|
    ensures (ca + [m] + cb)[k := v] == ca[k := v] + [m] + cb
  {
  }

  /** Updating inside `cb` of `ca + [m] + cb` updates `cb`. */
  lemma UpdateRight(ca: seq<Line>, m: Line, cb: seq<Line>, k: nat, v: Line)
    requires k < |cb|
    ensures (ca + [m] + cb)[|ca| + 1 + k := v] == ca + [m] + cb[k := v]
  {
  }

  lemma ContentsBlacken(t: Tree)
    ensures Contents(Blacken(t)) == Contents(t)
  {
  }

  /** The root of a rebuilt tree is the outermost frame's line. */
  lemma {:induction false} PlugRoot(t: Tree, path: seq<Frame>)
    requires |path| > 0
    ensures Plug(t, path).Node? && Plug(t, path).line == path[|path| - 1].line
    decreases |path|
  {
    if |path| > 1 {
      PlugRoot(Wrap(t, path[0]), path[1..]);
    }
  }

  lemma PlugTwoFrames(t: Tree, path: seq<Frame>)
    requires |path| >= 2
    ensures Plug(t, path) == Plug(Wrap(Wrap(t, path[0]), path[1]), path[2..])
  {
    assert path[1..][0] == path[1] && path[1..][1..] == path[2..];
  }

  // ------------------------------------------------------------------
  // The fill rules and `computeLineList`
  // ------------------------------------------------------------------

  datatype WindRule = NonZero | EvenOdd

  /** The line test of `computeLineList<nonZeroRule>`. */
  predicate Counts(l: Line, rule: WindRule)
  {
    if rule == NonZero then Direction(l.flagsAndDirection) != 0 else IsOddDirection(l.flagsAndDirection)
  }

  /** The lines of `s` that the rule counts, in order. */
  function Filtered(s: seq<Line>, rule: WindRule): seq<Line>
    decreases |s|
  {
    if |s| == 0 then []
    else Filtered(s[..|s| - 1], rule) + (if Counts(s[|s| - 1], rule) then [s[|s| - 1]] else [])
  }

  /** The filtered list holds exactly the lines the rule counts. */
  lemma {:induction false} FilteredMembers(s: seq<Line>, rule: WindRule)
    ensures forall y :: y in Filtered(s, rule) <==> y in s && Counts(y, rule)
    decreases |s|
  {
    if |s| > 0 {
      var init := s[..|s| - 1];
      FilteredMembers(init, rule);
      assert s == init + [s[|s| - 1]];
    }
  }

  /** The filtered list keeps the order of `s`: it is never longer and each step adds at most the last line. */
  lemma {:induction false} FilteredAppend(s: seq<Line>, l: Line, rule: WindRule)
    ensures Filtered(s + [l], rule) == Filtered(s, rule) + (if Counts(l, rule) then [l] else [])
  {
    assert (s + [l])[..|s|] == s;
  }

  /**
   * The lines that follow a node in in-order: each ancestor reached from
   * its left child, followed by that ancestor's right subtree.
   */
  function After(path: seq<Frame>): seq<Line>
    decreases |path|
  {
    if |path| == 0 then []
    else (if path[0].wentLeft then [path[0].line] + InOrder(path[0].sibling) else []) + After(path[1..])
  }

  lemma AfterFrame(f: Frame, path: seq<Frame>)
    ensures After([f] + path) == (if f.wentLeft then [f.line] + InOrder(f.sibling) else []) + After(path)
  {
    assert ([f] + path)[1..] == path;
  }

  /** `while (current->u1.left != s_sentinelLine) current = current->u1.left;` */
  method Leftmost(t: Tree, path: seq<Frame>) returns (n: Tree, newPath: seq<Frame>)
    requires t.Node?
    ensures n.Node? && n.left == Sentinel
    ensures [n.line] + InOrder(n.right) + After(newPath) == InOrder(t) + After(path)
  {
    n, newPath := t, path;
    while n.left.Node?
      invariant n.Node?
      invariant InOrder(n) + After(newPath) == InOrder(t) + After(path)
      decreases n
    {
      AfterFrame(Frame(true, n.line, n.right), newPath);
      newPath := [Frame(true, n.line, n.right)] + newPath;
      n := n.left;
    }
  }

  /**
   * The climb of `computeLineList` after a node without right child: go up
   * while the current node is its parent's right child.
   */
  method Climb(ghost visited: seq<Line>, path: seq<Frame>, ghost whole: seq<Line>) returns (newPath: seq<Frame>)
    requires visited + After(path) == whole
    ensures visited + After(newPath) == whole
    ensures |newPath| == 0 || newPath[0].wentLeft
  {
    newPath := path;
    while |newPath| > 0 && !newPath[0].wentLeft
      invariant visited + After(newPath) == whole
      decreases |newPath|
    {
      AfterFrame(newPath[0], newPath[1..]);
      assert [newPath[0]] + newPath[1..] == newPath;
      newPath := newPath[1..];
    }
  }

  /**
   * `computeLineList`: walk the tree in order and link up the lines the
   * fill rule counts. The source links every counted line behind the first
   * line and drops the first line at the end when it does not count; the
   * resulting list is the filtered in-order sequence that is built here.
   */
  method ComputeLineList(root: Tree, rule: WindRule) returns (list: seq<Line>)
    requires root.Node?
    ensures list == Filtered(InOrder(root), rule)
  {
    var n, path := Leftmost(root, []);
    var line, right := n.line, n.right;
    ghost var visited: seq<Line> := [];
    list := [];
    assert InOrder(root) + After([]) == InOrder(root);
    assert visited + [line] + InOrder(right) + After(path) == [line] + InOrder(right) + After(path);
    while true
      invariant visited + [line] + InOrder(right) + After(path) == InOrder(root)
      invariant list == Filtered(visited, rule)
      decreases |InOrder(root)| - |visited|
    {
      FilteredAppend(visited, line, rule);
      if Counts(line, rule) {
        list := list + [line];
      }
      visited := visited + [line];
      assert visited + InOrder(right) + After(path) == InOrder(root);
      if right.Node? {
        var n1, newPath := Leftmost(right, path);
        Regroup(visited, [n1.line], InOrder(n1.right), After(newPath));
        line, right, path := n1.line, n1.right, newPath;
        continue;
      }
      path := Climb(visited, path, InOrder(root));
      if |path| == 0 {
        assert visited == InOrder(root);
        break;
      }
      AfterFrame(path[0], path[1..]);
      assert [path[0]] + path[1..] == path;
      Regroup(visited, [path[0].line], InOrder(path[0].sibling), After(path[1..]));
      line, right, path := path[0].line, path[0].sibling, path[1..];
    }
  }

  lemma Regroup<T>(a: seq<T>, b: seq<T>, c: seq<T>, d: seq<T>)
    ensures a + b + c + d == a + (b + c + d)
  {
  }

  // ------------------------------------------------------------------
  // The builder and `insertLine`
  // ------------------------------------------------------------------

  /**
   * `roundf`: the nearest integer, halfway cases away from zero.
   */
  function RoundF(x: real): (r: int)
    ensures x >= 0.0 ==> x - 0.5 < r as real <= x + 0.5
    ensures x < 0.0 ==> x - 0.5 <= r as real < x + 0.5
  {
    if x >= 0.0 then (x + 0.5).Floor else -((-x + 0.5).Floor)
  }

  lemma RoundFMonotone(x: real, y: real)
    requires x <= y
    ensures RoundF(x) <= RoundF(y)
  {
  }

  /** The end points ordered by y and the direction of the original edge. */
  function Oriented(start: FloatPoint, end: FloatPoint): (r: (FloatPoint, FloatPoint, int))
    ensures r.0.py <= r.1.py
    ensures (r.0 == start && r.1 == end) || (r.0 == end && r.1 == start)
    ensures r.2 == DirectionUp <==> start.py > end.py
    ensures r.2 == DirectionDown || r.2 == DirectionUp
  {
    if start.py > end.py then (end, start, DirectionUp) else (start, end, DirectionDown)
  }

  /** An edge that survives the early exits of `insertLine`, in anti-aliased rows. */
  datatype Prepared = Prepared(top: FloatPoint, bottom: FloatPoint, topY: int, bottomY: int, direction: int)

  /**
   * The early part of `insertLine`: nothing is inserted when everything is
   * clipped, when the edge is horizontal after rounding, or when it lies
   * entirely above or below the clip.
   */
  function Prepare(start: FloatPoint, end: FloatPoint, clipTop: int, clipBottom: int,
                   clipEverything: bool): (r: Option<Prepared>)
    ensures r.None? <==>
      (clipEverything
       || RoundF(Oriented(start, end).0.py * AntiAliasing as real) == RoundF(Oriented(start, end).1.py * AntiAliasing as real)
       || RoundF(Oriented(start, end).1.py * AntiAliasing as real) <= clipTop
       || RoundF(Oriented(start, end).0.py * AntiAliasing as real) >= clipBottom)
    ensures r.Some? ==> r.value.topY < r.value.bottomY && clipTop < r.value.bottomY && r.value.topY < clipBottom
    ensures r.Some? ==> (r.value.direction == DirectionUp <==> start.py > end.py)
    ensures r.Some? ==> r.value.direction == DirectionDown || r.value.direction == DirectionUp
  {
    if clipEverything then None
    else
      var (top, bottom, direction) := Oriented(start, end);
      var topY := RoundF(top.py * AntiAliasing as real);
      var bottomY := RoundF(bottom.py * AntiAliasing as real);
      RoundFMonotone(top.py * AntiAliasing as real, bottom.py * AntiAliasing as real);
      if topY == bottomY then None
      else if bottomY <= clipTop || topY >= clipBottom then None
      else Some(Prepared(top, bottom, topY, bottomY, direction))
  }

  /** The end points and slope that the clipping arithmetic of `insertLine` settles on. */
  datatype ClippedLine = ClippedLine(topY: int, topX: int, bottomY: int, bottomX: int,
                                     originalTopY: real, originalTopX: real, slope: real)

  /**
   * What the clipping arithmetic of `insertLine` settles on: when the edge
   * crosses the clip's left edge, the rows (in anti-aliased units, in the
   * order they are passed on) of the vertical line inserted there first;
   * and the clipped remainder, if any is left.
   */
  datatype Clipping = Clipping(leftEdge: Option<(real, real)>, rest: Option<ClippedLine>)

  /** The effect of inserting an already clipped line, or nothing. */
  ghost predicate Joins(before: Tree, after: Tree, c: Option<ClippedLine>, direction: int)
    requires direction == DirectionDown || direction == DirectionUp
  {
    match c
    case None => after == before
    case Some(c) => Contents(after) == Contents(Inserted(before, NewLine(c, direction), direction))
  }

  /** The new tree line: red, with the edge's direction. */
  function NewLine(c: ClippedLine, direction: int): (nl: Line)
    requires direction == DirectionDown || direction == DirectionUp
    ensures IsRed(nl.flagsAndDirection) && Direction(nl.flagsAndDirection) == direction / 4
  {
    Line(c.topY, c.topX, c.bottomY, c.bottomX, c.originalTopY, c.originalTopX, c.slope, NewFlags(direction))
  }

  /** `clampToRange`. */
  function ClampToRange(value: int, min: int, max: int): (r: int)
    ensures min <= max ==> min <= r <= max
    ensures min <= value <= max ==> r == value
  {
    if value < min then min
    else if value > max then max
    else value
  }

  /** On a non-empty range `clampToRange` is `clamp` of TyGLDefs.h. */
  lemma ClampToRangeIsClamp(value: int, min: int, max: int)
    requires min <= max
    ensures ClampToRange(value, min, max) == TyGLDefs.Clamp(value, min, max)
  {
  }

  /**
   * The descent loop of `insertLine`: follow (topY, topX, slope) down to an
   * empty child, or stop at a line with the same end points.
   */
  method Descend(start: Tree, nl: Line, direction: int) returns (current: Tree, path: seq<Frame>)
    ensures Plug(Inserted(current, nl, direction), path) == Inserted(start, nl, direction)
    ensures path == [] ==> current == start
    ensures |path| > 0 ==> start.Node? && path[|path| - 1].line == start.line
    ensures current.Node? ==> SameEdges(nl, current.line)
    ensures current.Sentinel? ==> !Merges(start, nl)
  {
    current := start;
    path := [];
    while current.Node? && !SameEdges(nl, current.line)
      invariant Plug(Inserted(current, nl, direction), path) == Inserted(start, nl, direction)
      invariant path == [] ==> current == start
      invariant |path| > 0 ==> start.Node? && path[|path| - 1].line == start.line
      invariant !Merges(current, nl) ==> !Merges(start, nl)
      decreases current
    {
      if KeyLess(nl, current.line) {
        PlugFrame(Inserted(current.left, nl, direction), Frame(true, current.line, current.right), path);
        path := [Frame(true, current.line, current.right)] + path;
        current := current.left;
      } else {
        PlugFrame(Inserted(current.right, nl, direction), Frame(false, current.line, current.left), path);
        path := [Frame(false, current.line, current.left)] + path;
        current := current.right;
      }
    }
  }

  /** The recolouring step: parent and uncle turn black, the grandparent red. */
  lemma RecolourStep(x: Tree, p: Frame, g: Frame, rest: seq<Frame>, x1: Tree)
    requires x1 == (if g.wentLeft then Node(Redden(g.line), Blacken(Wrap(x, p)), Blacken(g.sibling))
                    else Node(Redden(g.line), Blacken(g.sibling), Blacken(Wrap(x, p))))
    ensures Contents(Plug(x1, rest)) == Contents(Plug(Wrap(Wrap(x, p), g), rest))
  {
    ContentsBlacken(Wrap(x, p));
    ContentsBlacken(g.sibling);
    PlugKeepsContents(x1, Wrap(Wrap(x, p), g), rest);
  }

  /** The rotation step: at most one rotation at the parent, then one at the grandparent. */
  function RotationStep(x: Tree, p: Frame, g: Frame): Tree
  {
    if g.wentLeft then
      var sub := if p.wentLeft then Wrap(x, p) else RotateLeft(Wrap(x, p));
      RotateRight(Node(Redden(g.line), Blacken(sub), g.sibling))
    else
      var sub := if p.wentLeft then RotateRight(Wrap(x, p)) else Wrap(x, p);
      RotateLeft(Node(Redden(g.line), g.sibling, Blacken(sub)))
  }

  lemma RotationStepContents(x: Tree, p: Frame, g: Frame, rest: seq<Frame>)
    ensures Contents(Plug(RotationStep(x, p, g), rest)) == Contents(Plug(Wrap(Wrap(x, p), g), rest))
  {
    RotationStepKeepsSubtree(x, p, g);
    PlugKeepsContents(RotationStep(x, p, g), Wrap(Wrap(x, p), g), rest);
  }

  /** The rotation step keeps the contents of the grandparent's subtree. */
  lemma RotationStepKeepsSubtree(x: Tree, p: Frame, g: Frame)
    ensures Contents(RotationStep(x, p, g)) == Contents(Wrap(Wrap(x, p), g))
  {
    var w := Wrap(x, p);
    if g.wentLeft {
      var sub := if p.wentLeft then w else RotateLeft(w);
      RotatedUnder(w, sub, g.line, g.sibling, true);
    } else {
      var sub := if p.wentLeft then RotateRight(w) else w;
      RotatedUnder(w, sub, g.line, g.sibling, false);
    }
  }

  /** A rotated parent subtree, blackened under a reddened grandparent that
      is then rotated, keeps the contents of the grandparent's subtree. */
  lemma RotatedUnder(w: Tree, sub: Tree, gl: Line, sibling: Tree, left: bool)
    requires sub == w || sub == RotateLeft(w) || sub == RotateRight(w)
    ensures left ==> Contents(RotateRight(Node(Redden(gl), Blacken(sub), sibling))) == Contents(Node(gl, w, sibling))
    ensures !left ==> Contents(RotateLeft(Node(Redden(gl), sibling, Blacken(sub)))) == Contents(Node(gl, sibling, w))
  {
    RotationsKeepOrder(w);
    ContentsBlacken(sub);
    assert Contents(sub) == Contents(w);
    if left {
      var top := Node(Redden(gl), Blacken(sub), sibling);
      RotationsKeepOrder(top);
      RecolourKeepsContents(gl, Blacken(sub), sibling);
      assert Contents(top) == Contents(Blacken(sub)) + [Uncoloured(gl)] + Contents(sibling);
    } else {
      var top := Node(Redden(gl), sibling, Blacken(sub));
      RotationsKeepOrder(top);
      RecolourKeepsContents(gl, sibling, Blacken(sub));
      assert Contents(top) == Contents(sibling) + [Uncoloured(gl)] + Contents(Blacken(sub));
    }
  }

  /**
   * The fix-up loop of `insertLine` and the final `m_rootLine->setBlack()`.
   * A red parent is never the root, since the root is black, so the
   * grandparent exists. After a rotation the current line's parent is
   * black and the loop ends.
   */
  method FixUp(x0: Tree, path0: seq<Frame>) returns (r: Tree)
    requires x0.Node?
    requires |path0| > 0 ==> !IsRed(path0[|path0| - 1].line.flagsAndDirection)
    ensures r.Node? && !IsRedNode(r)
    ensures Contents(r) == Contents(Plug(x0, path0))
  {
    var x, path := x0, path0;
    while |path| > 0 && IsRed(path[0].line.flagsAndDirection)
      invariant x.Node?
      invariant Contents(Plug(x, path)) == Contents(Plug(x0, path0))
      invariant |path| > 0 ==> !IsRed(path[|path| - 1].line.flagsAndDirection)
      decreases |path|
    {
      var p, g := path[0], path[1];
      PlugTwoFrames(x, path);
      if IsRedNode(g.sibling) {
        // The uncle is red: recolour and continue from the grandparent.
        var x1 := if g.wentLeft then Node(Redden(g.line), Blacken(Wrap(x, p)), Blacken(g.sibling))
                  else Node(Redden(g.line), Blacken(g.sibling), Blacken(Wrap(x, p)));
        RecolourStep(x, p, g, path[2..], x1);
        x, path := x1, path[2..];
      } else {
        // The uncle is black: rotate into the grandparent's place.
        RotationStepContents(x, p, g, path[2..]);
        x, path := RotationStep(x, p, g), path[2..];
        break;
      }
    }
    var whole := Plug(x, path);
    ContentsBlacken(whole);
    if |path| > 0 {
      PlugRoot(x, path);
    }
    r := Blacken(whole);
  }

  class TrapezoidBuilder {
    const clipTop: int
    const clipBottom: int
    const clipLeft: int
    const clipRight: int
    const clipEverything: bool
    const fillRule: WindRule
    /** `m_rootLine`. */
    var root: Tree
    var trapezoidCount: int

    /** The root is black and the tree is ordered by (topY, topX, slope). */
    ghost predicate Valid()
      reads this
    {
      !IsRedNode(root) && Sorted(Contents(root))
    }

    /**
     * The clip edges are scaled to anti-aliased units; the clip rectangle's
     * bottom edge is the top row, and everything is clipped when the
     * rectangle is empty.
     */
    constructor (clip: ClipRectTyGL.ClipRect, fillRule: WindRule)
      requires clip.Valid()
      ensures clipTop == clip.BottomInteger() * AntiAliasing
      ensures clipBottom == clip.TopInteger() * AntiAliasing
      ensures clipLeft == clip.LeftInteger() * AntiAliasing
      ensures clipRight == clip.RightInteger() * AntiAliasing
      ensures clipEverything == (clipTop >= clipBottom || clipLeft >= clipRight)
      ensures this.fillRule == fillRule
      ensures root == Sentinel && trapezoidCount == 0
      ensures Valid()
    {
      clipTop := clip.BottomInteger() * AntiAliasing;
      clipBottom := clip.TopInteger() * AntiAliasing;
      clipLeft := clip.LeftInteger() * AntiAliasing;
      clipRight := clip.RightInteger() * AntiAliasing;
      clipEverything := clip.BottomInteger() * AntiAliasing >= clip.TopInteger() * AntiAliasing
        || clip.LeftInteger() * AntiAliasing >= clip.RightInteger() * AntiAliasing;
      this.fillRule := fillRule;
      root := Sentinel;
      trapezoidCount := 0;
    }

    /**
     * The tree-insertion part of `insertLine`: descend by (topY, topX,
     * slope); a line with the same end points only absorbs the direction;
     * otherwise the new red line becomes a leaf and the red-black fix-up
     * recolours and rotates on the way up. The root ends black.
     */
    method InsertIntoTree(nl: Line, direction: int)
      requires Valid()
      requires direction == DirectionDown || direction == DirectionUp
      requires nl.flagsAndDirection == NewFlags(direction)
      modifies this`root
      ensures Valid() && root.Node?
      ensures Contents(root) == Contents(Inserted(old(root), nl, direction))
      ensures Merges(old(root), nl) ==> root == Inserted(old(root), nl, direction)
    {
      var start := root;
      InsertedSorted(start, nl, direction);
      var current, path := Descend(start, nl, direction);
      if current.Node? {
        var merged := Node(AddDirection(current.line, direction), current.left, current.right);
        assert Inserted(current, nl, direction) == merged;
        if |path| > 0 {
          PlugRoot(merged, path);
        } else {
          DirectionAccumulates(current.line.flagsAndDirection, direction);
        }
        root := Plug(merged, path);
        return;
      }
      var x := Node(nl, Sentinel, Sentinel);
      assert Inserted(current, nl, direction) == x;
      if |path| == 0 {
        ContentsBlacken(x);
        root := Blacken(x);
        return;
      }
      root := FixUp(x, path);
    }

    /** The x coordinate of the clip's left edge, `m_clipLeft / kAntiAliasing`, as a float. */
    function LeftEdgeX(): real
      reads this
    {
      (clipLeft / AntiAliasing) as real
    }

    /**
     * The clipping arithmetic never splits a line that already runs along
     * the clip's left edge: its rounded x is `m_clipLeft` at both ends, so
     * neither of the "x < m_clipLeft" branches is taken.
     */
    ghost predicate KeepsLeftEdgeLines(clipping: Prepared -> Clipping)
      reads this
    {
      forall p: Prepared :: p.top.px == LeftEdgeX() && p.bottom.px == LeftEdgeX() ==> clipping(p).leftEdge.None?
    }

    /**
     * `insertLine`: the early exits, then the clipping arithmetic (given as
     * `clipping`), which may first insert the vertical part of the edge left
     * of the clip by a recursive `insertLine` at the left edge (`mid` is the
     * tree after it), then the tree insertion of what is left of the edge,
     * with its direction.
     */
    method InsertLine(start: FloatPoint, end: FloatPoint, clipping: Prepared -> Clipping) returns (ghost mid: Tree)
      requires Valid()
      requires KeepsLeftEdgeLines(clipping)
      modifies this`root
      decreases if start.px == LeftEdgeX() && end.px == LeftEdgeX() then 0 else 1
      ensures Valid()
      ensures match Prepare(start, end, clipTop, clipBottom, clipEverything)
        case None => root == old(root)
        case Some(p) =>
          (match clipping(p).leftEdge
           case None => mid == old(root)
           case Some(ys) =>
             (match Prepare(FloatPoint(LeftEdgeX(), ys.0 / AntiAliasing as real),
                               FloatPoint(LeftEdgeX(), ys.1 / AntiAliasing as real), clipTop, clipBottom, clipEverything)
                 case None => mid == old(root)
                 case Some(q) => Joins(old(root), mid, clipping(q).rest, q.direction)))
          && Joins(mid, root, clipping(p).rest, p.direction)
    {
      mid := root;
      var prepared := Prepare(start, end, clipTop, clipBottom, clipEverything);
      if prepared.None? {
        return;
      }
      var p := prepared.value;
      var clipped := clipping(p);
      if clipped.leftEdge.Some? {
        var ys := clipped.leftEdge.value;
        var _ := InsertLine(FloatPoint(LeftEdgeX(), ys.0 / AntiAliasing as real),
                            FloatPoint(LeftEdgeX(), ys.1 / AntiAliasing as real), clipping);
        mid := root;
      }
      if clipped.rest.None? {
        return;
      }
      InsertIntoTree(NewLine(clipped.rest.value, p.direction), p.direction);
    }

    /** `computeLineList<m_fillRule == RULE_NONZERO>(m_rootLine)`, which the caller runs on a non-empty tree. */
    method LineList() returns (list: seq<Line>)
      requires root.Node?
      ensures list == Filtered(InOrder(root), fillRule)
    {
      list := ComputeLineList(root, fillRule);
    }
  }

  // ------------------------------------------------------------------
  // Trapezoids
  // ------------------------------------------------------------------

  datatype Trapezoid = Trapezoid(topY: int, topLeftX: int, topRightX: int,
                                 bottomY: int, bottomLeftX: int, bottomRightX: int,
                                 leftSlope: real, rightSlope: real)

  /** Top above bottom, and each horizontal edge ordered left to right. */
  predicate ProperEdges(t: Trapezoid)
  {
    t.topY < t.bottomY && t.topLeftX <= t.topRightX && t.bottomLeftX <= t.bottomRightX
  }

  /** The assertions of `createAndAppend`: proper edges and not empty. */
  predicate WellShaped(t: Trapezoid)
  {
    ProperEdges(t) && (t.topLeftX < t.topRightX || t.bottomLeftX < t.bottomRightX)
  }

  /** The trapezoid with a new bottom edge, as `updateBottomAndReappend` stores it. */
  function WithBottom(t: Trapezoid, bottomY: int, bottomLeftX: int, bottomRightX: int): Trapezoid
  {
    Trapezoid(t.topY, t.topLeftX, t.topRightX, bottomY, bottomLeftX, bottomRightX, t.leftSlope, t.rightSlope)
  }

  /**
   * The list after `updateBottomAndReappend` on entry `i` with the last
   * trapezoid as `lastTrapezoid`: the entry is unlinked and linked again at
   * the end, unless it already is the last one.
   */
  function Reappended(ts: seq<Trapezoid>, i: int, bottomY: int, bottomLeftX: int, bottomRightX: int): seq<Trapezoid>
    requires 0 <= i < |ts|
  {
    if i == |ts| - 1 then ts[..i] + [WithBottom(ts[i], bottomY, bottomLeftX, bottomRightX)]
    else ts[..i] + ts[i + 1..] + [WithBottom(ts[i], bottomY, bottomLeftX, bottomRightX)]
  }

  /**
   * Either way the entry ends last with its new bottom and its old top and
   * slopes, and the other entries keep their order.
   */
  lemma ReappendedMoves(ts: seq<Trapezoid>, i: int, bottomY: int, bottomLeftX: int, bottomRightX: int)
    requires 0 <= i < |ts|
    ensures var r := Reappended(ts, i, bottomY, bottomLeftX, bottomRightX);
      |r| == |ts|
      && r[|r| - 1].topY == ts[i].topY && r[|r| - 1].topLeftX == ts[i].topLeftX
      && r[|r| - 1].topRightX == ts[i].topRightX
      && r[|r| - 1].leftSlope == ts[i].leftSlope && r[|r| - 1].rightSlope == ts[i].rightSlope
      && r[|r| - 1].bottomY == bottomY && r[|r| - 1].bottomLeftX == bottomLeftX
      && r[|r| - 1].bottomRightX == bottomRightX
      && r[..|r| - 1] == ts[..i] + ts[i + 1..]
  {
    if i == |ts| - 1 {
      assert ts[i + 1..] == [];
    }
  }

  /**
   * `compareForMerge`: the candidate's bottom right corner is the new
   * piece's top right corner and both sides keep their slopes. The caller
   * has already matched the left corners.
   */
  predicate CompareForMerge(t: Trapezoid, topRightX: int, leftSlope: real, rightSlope: real)
    requires t.bottomLeftX != t.bottomRightX
  {
    t.bottomRightX == topRightX && t.leftSlope == leftSlope && t.rightSlope == rightSlope
  }

  /**
   * A merged trapezoid covers both pieces: it keeps the candidate's top
   * edge, takes the new piece's bottom edge, and its sides have the slopes
   * of both pieces, which meet along the candidate's bottom edge.
   */
  lemma MergeCoversBoth(t: Trapezoid, piece: Trapezoid)
    requires t.bottomLeftX != t.bottomRightX
    requires piece.topY == t.bottomY && piece.topLeftX == t.bottomLeftX
    requires CompareForMerge(t, piece.topRightX, piece.leftSlope, piece.rightSlope)
    requires WellShaped(t) && WellShaped(piece)
    ensures var m := WithBottom(t, piece.bottomY, piece.bottomLeftX, piece.bottomRightX);
      ProperEdges(m)
      && m.topY == t.topY && m.topLeftX == t.topLeftX && m.topRightX == t.topRightX
      && m.bottomY == piece.bottomY && m.bottomLeftX == piece.bottomLeftX && m.bottomRightX == piece.bottomRightX
      && m.leftSlope == t.leftSlope == piece.leftSlope && m.rightSlope == t.rightSlope == piece.rightSlope
      && t.bottomLeftX == piece.topLeftX && t.bottomRightX == piece.topRightX
  {
  }

  /**
   * One trapezoid list (the precise or the inprecise one) behind its
   * sentinel head; the last entry is `lastTrapezoid`.
   */
  class TrapezoidChain {
    var trapezoids: seq<Trapezoid>
    var count: int

    /** `createSentinel`: an empty list. */
    constructor ()
      ensures trapezoids == [] && count == 0
    {
      trapezoids := [];
      count := 0;
    }

    /**
     * `createAndAppend` after `lastTrapezoid`, with a null `next`; the
     * builder's `m_trapezoidCount` grows by one.
     */
    method CreateAndAppend(t: Trapezoid)
      requires WellShaped(t)
      modifies this
      ensures trapezoids == old(trapezoids) + [t]
      ensures count == old(count) + 1
    {
      trapezoids := trapezoids + [t];
      count := count + 1;
    }

    /** `updateBottomAndReappend` on entry `i`, with `lastTrapezoid` the last entry. */
    method UpdateBottomAndReappend(i: int, bottomY: int, bottomLeftX: int, bottomRightX: int)
      requires 0 <= i < |trapezoids|
      requires trapezoids[i].topY < bottomY && bottomLeftX <= bottomRightX
      modifies this
      ensures trapezoids == Reappended(old(trapezoids), i, bottomY, bottomLeftX, bottomRightX)
      ensures count == old(count)
    {
      var updated := WithBottom(trapezoids[i], bottomY, bottomLeftX, bottomRightX);
      if i == |trapezoids| - 1 {
        trapezoids := trapezoids[..i] + [updated];
        return;
      }
      trapezoids := trapezoids[..i] + trapezoids[i + 1..] + [updated];
    }
  }
}
