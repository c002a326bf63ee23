/**
 * The LRU lists of `WebCore::MemoryCache` (MemoryCache.cpp): `lruListFor`,
 * `removeFromLRUList` and `insertInLRUList` on the cache's resources and
 * list vector, taken as values.
 *
 * `m_allResources` is a vector of LRU lists, each a doubly linked list of
 * `CachedResource`s threaded through their `m_nextInAllResourcesList` and
 * `m_prevInAllResourcesList` fields, the head being the most recently
 * accessed. Resources are identified by `ResourceId`; their two link
 * fields are the maps `next` and `prev`. The ghost `lists` hold the order
 * each list's links describe and `position` where each listed resource
 * sits in it.
 *
 * `WTF::fastLog2` (MathExtras.h) is not part of this model: it is the
 * function `fastLog2` the operations are given.
 */
module MemoryCacheLru {
  import opened Wrappers
  import opened TyGLDefs
  import opened IntMath

  const Uint32Limit := 0x1_0000_0000
  type uint32 = x: int | 0 <= x < 0x1_0000_0000

  /** A `CachedResource` object's identity. */
  type ResourceId = int

  /** The fields of a `CachedResource` the cache reads or writes, apart from
      its two list links. */
  datatype CachedResource = CachedResource(size: uint32, accessCount: nat, hasClients: bool,
                                           inCache: bool)

  /** `MemoryCache::LRUList`. */
  datatype LRUList = LRUList(head: Option<ResourceId>, tail: Option<ResourceId>)

  const EmptyList := LRUList(None, None)

  function First(s: seq<ResourceId>): Option<ResourceId>
  {
    if s == [] then None else Some(s[0])
  }

  function LastOf(s: seq<ResourceId>): Option<ResourceId>
  {
    if s == [] then None else Some(s[|s| - 1])
  }

  type Links = map<ResourceId, Option<ResourceId>>

  /** The successor and predecessor of the element at k. */
  function Succ(L: seq<ResourceId>, k: nat): Option<ResourceId>
  {
    if k + 1 < |L| then Some(L[k + 1]) else None
  }

  function Pred(L: seq<ResourceId>, k: nat): Option<ResourceId>
    requires k <= |L|
  {
    if 0 < k then Some(L[k - 1]) else None
  }

  /** List L's head, tail and links describe L. */
  ghost predicate ListLinked(L: seq<ResourceId>, list: LRUList, next: Links, prev: Links)
  {
    list.head == First(L) && list.tail == LastOf(L) &&
    (forall k :: 0 <= k < |L| ==> L[k] in next && L[k] in prev) &&
    (forall k {:trigger next[L[k]]} :: 0 <= k < |L| ==> next[L[k]] == Succ(L, k)) &&
    (forall k {:trigger prev[L[k]]} :: 0 <= k < |L| ==> prev[L[k]] == Pred(L, k))
  }

  /** `L` with the element at `k` taken out. */
  function RemovedAt(L: seq<ResourceId>, k: nat): (r: seq<ResourceId>)
    requires k < |L|
    ensures |r| == |L| - 1
  {
    L[..k] + L[k + 1..]
  }

  /** A list keeps its description when the links of its own elements are
      unchanged. */
  lemma ListLinkedFrame(L: seq<ResourceId>, list: LRUList, next: Links, prev: Links, newNext: Links, newPrev: Links)
    requires ListLinked(L, list, next, prev)
    requires forall k :: 0 <= k < |L| ==> L[k] in newNext && L[k] in newPrev && newNext[L[k]] == next[L[k]] && newPrev[L[k]] == prev[L[k]]
    ensures ListLinked(L, list, newNext, newPrev)
  {
    forall k | 0 <= k < |L|
      ensures newNext[L[k]] == Succ(L, k) && newPrev[L[k]] == Pred(L, k)
    {
      assert next[L[k]] == Succ(L, k) && prev[L[k]] == Pred(L, k);
    }
  }

  /** Where a resource sits: which list, and how far from its head. */
  type Position = (nat, nat)

  ghost predicate Placed(lists: seq<seq<ResourceId>>, p: Position, x: ResourceId)
  {
    p.0 < |lists| && p.1 < |lists[p.0]| && lists[p.0][p.1] == x
  }

  /** The lists' heads, tails and links describe `lists`, `position` says
      exactly where each listed resource is (so no resource is listed
      twice), and a resource in no list has null links. */
  ghost predicate Threaded(lists: seq<seq<ResourceId>>, position: map<ResourceId, Position>, heads: seq<LRUList>,
                           next: Links, prev: Links)
  {
    |heads| == |lists| &&
    (forall i :: 0 <= i < |lists| ==> ListLinked(lists[i], heads[i], next, prev)) &&
    PositionsExact(lists, position) &&
    NullWhenUnlisted(position, next, prev)
  }

  /** `position` records where each listed resource is, and only those. */
  ghost predicate PositionsExact(lists: seq<seq<ResourceId>>, position: map<ResourceId, Position>)
  {
    (forall i, k :: 0 <= i < |lists| && 0 <= k < |lists[i]| ==> lists[i][k] in position && position[lists[i][k]] == (i, k)) &&
    (forall x :: x in position ==> Placed(lists, position[x], x))
  }

  ghost predicate NullWhenUnlisted(position: map<ResourceId, Position>, next: Links, prev: Links)
  {
    (forall x {:trigger next[x]} :: x in next && x !in position ==> next[x] == None) &&
    (forall x {:trigger prev[x]} :: x in prev && x !in position ==> prev[x] == None)
  }

  /** `m_allResources.grow(index + 1)` when it is not yet that long. */
  function Grown<T>(s: seq<T>, index: nat, empty: T): (r: seq<T>)
    ensures |r| == Max(|s|, index + 1) && r[..|s|] == s
    ensures forall i :: |s| <= i < |r| ==> r[i] == empty
  {
    if |s| <= index then s + seq(index + 1 - |s|, _ => empty) else s
  }

  lemma ThreadedGrown(lists: seq<seq<ResourceId>>, position: map<ResourceId, Position>, heads: seq<LRUList>,
                      next: Links, prev: Links, index: nat)
    requires Threaded(lists, position, heads, next, prev)
    ensures Threaded(Grown(lists, index, []), position, Grown(heads, index, EmptyList), next, prev)
  {
    var newLists, newHeads := Grown(lists, index, []), Grown(heads, index, EmptyList);
    forall i | 0 <= i < |newLists|
      ensures ListLinked(newLists[i], newHeads[i], next, prev)
    {
      if i < |lists| {
        assert newLists[i] == newLists[..|lists|][i] && newHeads[i] == newHeads[..|lists|][i];
      }
    }
    forall x | x in position
      ensures Placed(newLists, position[x], x)
    {
      assert Placed(lists, position[x], x);
      assert newLists[position[x].0] == newLists[..|lists|][position[x].0];
    }
    forall i, k | 0 <= i < |newLists| && 0 <= k < |newLists[i]|
      ensures newLists[i][k] in position && position[newLists[i][k]] == (i, k)
    {
      assert newLists[i] == newLists[..|lists|][i];
    }
  }

  /** The resource's links nulled and its neighbours joined. */
  function UnlinkedNext(next: Links, L: seq<ResourceId>, k: nat): Links
    requires k < |L|
  {
    if 0 < k then next[L[k] := None][L[k - 1] := Succ(L, k)] else next[L[k] := None]
  }

  function UnlinkedPrev(prev: Links, L: seq<ResourceId>, k: nat): Links
    requires k < |L|
  {
    if k + 1 < |L| then prev[L[k] := None][L[k + 1] := Pred(L, k)] else prev[L[k] := None]
  }

  /** The list's head and tail once the element at `k` is unlinked. */
  function UnlinkedEnds(list: LRUList, L: seq<ResourceId>, k: nat): LRUList
    requires k < |L|
  {
    LRUList(if k == 0 then Succ(L, k) else list.head, if k + 1 == |L| then Pred(L, k) else list.tail)
  }

  /** Positions once `x`, at `p`, has left its list. */
  function PositionsWithout(position: map<ResourceId, Position>, x: ResourceId, p: Position): map<ResourceId, Position>
  {
    map y | y in position && y != x :: if position[y].0 == p.0 && position[y].1 > p.1 then (p.0, position[y].1 - 1) else position[y]
  }

  /** Positions once `x` has been pushed at the head of list `j`. */
  function PositionsWith(position: map<ResourceId, Position>, x: ResourceId, j: nat): map<ResourceId, Position>
  {
    (map y | y in position :: if position[y].0 == j then (j, position[y].1 + 1) else position[y])[x := (j, 0)]
  }

  /** Unlinking a listed resource leaves every list described, that
      resource in none, and the other resources in their order. */
  lemma ThreadedUnlink(lists: seq<seq<ResourceId>>, position: map<ResourceId, Position>, heads: seq<LRUList>,
                       next: Links, prev: Links, x: ResourceId)
    requires Threaded(lists, position, heads, next, prev) && x in position
    ensures var (i, k) := position[x];
      Threaded(lists[i := RemovedAt(lists[i], k)], PositionsWithout(position, x, (i, k)),
               heads[i := UnlinkedEnds(heads[i], lists[i], k)],
               UnlinkedNext(next, lists[i], k), UnlinkedPrev(prev, lists[i], k))
  {
    var (i, k) := position[x];
    assert Placed(lists, position[x], x);
    var L := lists[i];
    var newLists := lists[i := RemovedAt(L, k)];
    var newHeads := heads[i := UnlinkedEnds(heads[i], L, k)];
    var newNext, newPrev := UnlinkedNext(next, L, k), UnlinkedPrev(prev, L, k);
    forall j | 0 <= j < |newLists|
      ensures ListLinked(newLists[j], newHeads[j], newNext, newPrev)
    {
      if j == i {
        DistinctWhenPositioned(L, position, i);
        ListUnlinked(L, k, heads[i], next, prev);
      } else {
        UnlinkKeepsOtherList(lists, position, heads, next, prev, x, j);
      }
    }
    UnlinkPositionsExact(lists, position, x);
    UnlinkNullLinks(lists, position, next, prev, x);
  }

  /** What `removeFromLRUList` may rely on about a listed resource: where it
      is, that its list is described, and that taking it out keeps the
      others' order. */
  lemma UnlinkReady(lists: seq<seq<ResourceId>>, position: map<ResourceId, Position>, heads: seq<LRUList>,
                    next: Links, prev: Links, x: ResourceId)
    requires Threaded(lists, position, heads, next, prev) && x in position
    ensures var (i, k) := position[x];
      Placed(lists, (i, k), x) && ListLinked(lists[i], heads[i], next, prev) &&
      OrderKept(position, PositionsWithout(position, x, (i, k)), x)
  {
    var (i, k) := position[x];
    assert Placed(lists, (i, k), x);
    forall y | y in position && position[y] == (i, k)
      ensures y == x
    {
      assert Placed(lists, position[y], y);
    }
    OrderKeptWithout(position, x, (i, k));
  }

  lemma UnlinkPositionsExact(lists: seq<seq<ResourceId>>, position: map<ResourceId, Position>, x: ResourceId)
    requires PositionsExact(lists, position) && x in position
    ensures var (i, k) := position[x];
      Placed(lists, (i, k), x) &&
      PositionsExact(lists[i := RemovedAt(lists[i], k)], PositionsWithout(position, x, (i, k)))
  {
    UnlinkPositions(lists, position, x);
    UnlinkPlaced(lists, position, x);
  }

  lemma UnlinkKeepsOtherList(lists: seq<seq<ResourceId>>, position: map<ResourceId, Position>, heads: seq<LRUList>,
                             next: Links, prev: Links, x: ResourceId, j: nat)
    requires PositionsExact(lists, position) && x in position
    requires j < |lists| && j < |heads| && j != position[x].0 && ListLinked(lists[j], heads[j], next, prev)
    ensures var (i, k) := position[x];
      Placed(lists, (i, k), x) &&
      ListLinked(lists[j], heads[j], UnlinkedNext(next, lists[i], k), UnlinkedPrev(prev, lists[i], k))
  {
    var (i, k) := position[x];
    assert Placed(lists, position[x], x);
    var L := lists[i];
    forall m | 0 <= m < |lists[j]|
      ensures lists[j][m] != L[k] && (0 < k ==> lists[j][m] != L[k - 1]) && (k + 1 < |L| ==> lists[j][m] != L[k + 1])
    {
      assert position[lists[j][m]] == (j, m);
      assert position[L[k]] == (i, k);
      assert 0 < k ==> position[L[k - 1]] == (i, k - 1);
      assert k + 1 < |L| ==> position[L[k + 1]] == (i, k + 1);
    }
    ListLinkedFrame(lists[j], heads[j], next, prev, UnlinkedNext(next, L, k), UnlinkedPrev(prev, L, k));
  }

  lemma UnlinkPositions(lists: seq<seq<ResourceId>>, position: map<ResourceId, Position>, x: ResourceId)
    requires PositionsExact(lists, position) && x in position
    ensures var (i, k) := position[x];
      Placed(lists, (i, k), x) &&
      var newLists, newPosition := lists[i := RemovedAt(lists[i], k)], PositionsWithout(position, x, (i, k));
      forall j, m :: 0 <= j < |newLists| && 0 <= m < |newLists[j]| ==> newLists[j][m] in newPosition && newPosition[newLists[j][m]] == (j, m)
  {
    var (i, k) := position[x];
    assert Placed(lists, position[x], x);
    var L := lists[i];
    var newLists, newPosition := lists[i := RemovedAt(L, k)], PositionsWithout(position, x, (i, k));
    forall j, m | 0 <= j < |newLists| && 0 <= m < |newLists[j]|
      ensures newLists[j][m] in newPosition && newPosition[newLists[j][m]] == (j, m)
    {
      if j == i {
        if m < k {
          assert newLists[j][m] == L[m];
          assert position[L[m]] == (i, m);
        } else {
          assert newLists[j][m] == L[m + 1];
          assert position[L[m + 1]] == (i, m + 1);
        }
      } else {
        assert position[lists[j][m]] == (j, m);
      }
    }
  }

  lemma UnlinkPlaced(lists: seq<seq<ResourceId>>, position: map<ResourceId, Position>, x: ResourceId)
    requires PositionsExact(lists, position) && x in position
    ensures var (i, k) := position[x];
      Placed(lists, (i, k), x) &&
      var newLists, newPosition := lists[i := RemovedAt(lists[i], k)], PositionsWithout(position, x, (i, k));
      forall y :: y in newPosition ==> Placed(newLists, newPosition[y], y)
  {
    var (i, k) := position[x];
    assert Placed(lists, position[x], x);
    var L := lists[i];
    var newLists, newPosition := lists[i := RemovedAt(L, k)], PositionsWithout(position, x, (i, k));
    forall y | y in newPosition
      ensures Placed(newLists, newPosition[y], y)
    {
      assert Placed(lists, position[y], y);
      if position[y].0 == i {
        var n := position[y].1;
        assert n != k by {
          assert position[L[k]] == (i, k);
        }
        if n < k {
          assert newLists[i][n] == L[n];
        } else {
          assert newLists[i][n - 1] == L[n];
        }
      }
    }
  }

  lemma UnlinkNullLinks(lists: seq<seq<ResourceId>>, position: map<ResourceId, Position>,
                        next: Links, prev: Links, x: ResourceId)
    requires PositionsExact(lists, position) && NullWhenUnlisted(position, next, prev) && x in position
    ensures var (i, k) := position[x];
      Placed(lists, (i, k), x) &&
      NullWhenUnlisted(PositionsWithout(position, x, (i, k)), UnlinkedNext(next, lists[i], k), UnlinkedPrev(prev, lists[i], k))
  {
    var (i, k) := position[x];
    assert Placed(lists, position[x], x);
    var L := lists[i];
    var newPosition, newNext, newPrev := PositionsWithout(position, x, (i, k)), UnlinkedNext(next, L, k), UnlinkedPrev(prev, L, k);
    forall y | y in newNext && y !in newPosition
      ensures newNext[y] == None
    {
      if y != x {
        assert y !in position;
        assert 0 < k ==> position[L[k - 1]] == (i, k - 1);
      }
    }
    forall y | y in newPrev && y !in newPosition
      ensures newPrev[y] == None
    {
      if y != x {
        assert y !in position;
        assert k + 1 < |L| ==> position[L[k + 1]] == (i, k + 1);
      }
    }
  }

  ghost predicate Distinct(L: seq<ResourceId>)
  {
    forall a, b :: 0 <= a < b < |L| ==> L[a] != L[b]
  }

  /** Elements with distinct recorded positions are distinct. */
  lemma DistinctWhenPositioned(L: seq<ResourceId>, position: map<ResourceId, Position>, i: nat)
    requires forall m :: 0 <= m < |L| ==> L[m] in position && position[L[m]] == (i, m)
    ensures Distinct(L)
  {
    forall a, b | 0 <= a < b < |L|
      ensures L[a] != L[b]
    {
      assert position[L[a]] == (i, a) && position[L[b]] == (i, b);
    }
  }

  /** The list the resource leaves is still described once it is unlinked. */
  lemma ListUnlinked(L: seq<ResourceId>, k: nat, list: LRUList, next: Links, prev: Links)
    requires k < |L| && ListLinked(L, list, next, prev) && Distinct(L)
    ensures ListLinked(RemovedAt(L, k), UnlinkedEnds(list, L, k), UnlinkedNext(next, L, k), UnlinkedPrev(prev, L, k))
  {
    UnlinkedStillListed(L, k, list, next, prev);
    UnlinkedNextLinks(L, k, list, next, prev);
    UnlinkedPrevLinks(L, k, list, next, prev);
    UnlinkedEndsDescribe(L, k, list);
  }

  /** The new head and tail are the ends of the shortened list. */
  lemma UnlinkedEndsDescribe(L: seq<ResourceId>, k: nat, list: LRUList)
    requires k < |L| && list.head == First(L) && list.tail == LastOf(L)
    ensures UnlinkedEnds(list, L, k).head == First(RemovedAt(L, k))
    ensures UnlinkedEnds(list, L, k).tail == LastOf(RemovedAt(L, k))
  {
    var L1 := RemovedAt(L, k);
    if k == 0 {
      assert 0 < |L1| ==> L1[0] == L[1];
    } else {
      assert L1[0] == L[0];
    }
    if k + 1 == |L| {
      assert 0 < |L1| ==> L1[|L1| - 1] == L[k - 1];
    } else {
      assert L1[|L1| - 1] == L[|L| - 1];
    }
  }

  /** Every resource left in the list still has both links. */
  lemma UnlinkedStillListed(L: seq<ResourceId>, k: nat, list: LRUList, next: Links, prev: Links)
    requires k < |L| && ListLinked(L, list, next, prev)
    ensures forall m :: 0 <= m < |RemovedAt(L, k)| ==>
      RemovedAt(L, k)[m] in UnlinkedNext(next, L, k) && RemovedAt(L, k)[m] in UnlinkedPrev(prev, L, k)
  {
    var L1 := RemovedAt(L, k);
    forall m | 0 <= m < |L1|
      ensures L1[m] in UnlinkedNext(next, L, k) && L1[m] in UnlinkedPrev(prev, L, k)
    {
      assert L1[m] == if m < k then L[m] else L[m + 1];
    }
  }

  /** The successor links describe the list without the resource. */
  lemma UnlinkedNextLinks(L: seq<ResourceId>, k: nat, list: LRUList, next: Links, prev: Links)
    requires k < |L| && ListLinked(L, list, next, prev) && Distinct(L)
    ensures forall m {:trigger UnlinkedNext(next, L, k)[RemovedAt(L, k)[m]]} :: 0 <= m < |RemovedAt(L, k)| ==>
      RemovedAt(L, k)[m] in UnlinkedNext(next, L, k) &&
      UnlinkedNext(next, L, k)[RemovedAt(L, k)[m]] == Succ(RemovedAt(L, k), m)
  {
    var L1 := RemovedAt(L, k);
    var newNext := UnlinkedNext(next, L, k);
    UnlinkedStillListed(L, k, list, next, prev);
    forall m {:trigger newNext[L1[m]]} | 0 <= m < |L1|
      ensures newNext[L1[m]] == Succ(L1, m)
    {
      if m + 1 < k {
        assert next[L[m]] == Succ(L, m);
        UnlinkedNextBefore(L, k, next, m);
      } else if m + 1 == k {
        UnlinkedNextJoin(L, k, next);
      } else {
        assert next[L[m + 1]] == Succ(L, m + 1);
        UnlinkedNextAfter(L, k, next, m);
      }
    }
  }

  /** The predecessor links describe the list without the resource. */
  lemma UnlinkedPrevLinks(L: seq<ResourceId>, k: nat, list: LRUList, next: Links, prev: Links)
    requires k < |L| && ListLinked(L, list, next, prev) && Distinct(L)
    ensures forall m {:trigger UnlinkedPrev(prev, L, k)[RemovedAt(L, k)[m]]} :: 0 <= m < |RemovedAt(L, k)| ==>
      RemovedAt(L, k)[m] in UnlinkedPrev(prev, L, k) &&
      UnlinkedPrev(prev, L, k)[RemovedAt(L, k)[m]] == Pred(RemovedAt(L, k), m)
  {
    var L1 := RemovedAt(L, k);
    var newPrev := UnlinkedPrev(prev, L, k);
    UnlinkedStillListed(L, k, list, next, prev);
    forall m {:trigger newPrev[L1[m]]} | 0 <= m < |L1|
      ensures newPrev[L1[m]] == Pred(L1, m)
    {
      if m < k {
        assert prev[L[m]] == Pred(L, m);
        UnlinkedPrevBefore(L, k, prev, m);
      } else if m == k {
        UnlinkedPrevJoin(L, k, prev);
      } else {
        assert prev[L[m + 1]] == Pred(L, m + 1);
        UnlinkedPrevAfter(L, k, prev, m);
      }
    }
  }

  /** Before the removed resource's predecessor nothing changes. */
  lemma UnlinkedNextBefore(L: seq<ResourceId>, k: nat, next: Links, m: nat)
    requires m + 1 < k < |L| && L[m] in next && next[L[m]] == Succ(L, m)
    requires L[m] != L[k] && L[m] != L[k - 1]
    ensures UnlinkedNext(next, L, k)[RemovedAt(L, k)[m]] == Succ(RemovedAt(L, k), m)
  {
    var L1 := RemovedAt(L, k);
    assert L1[m] == L[m] && L1[m + 1] == L[m + 1];
  }

  /** The predecessor now leads to the successor. */
  lemma UnlinkedNextJoin(L: seq<ResourceId>, k: nat, next: Links)
    requires 0 < k < |L|
    ensures UnlinkedNext(next, L, k)[RemovedAt(L, k)[k - 1]] == Succ(RemovedAt(L, k), k - 1)
  {
    var L1 := RemovedAt(L, k);
    assert L1[k - 1] == L[k - 1];
    assert k < |L1| ==> L1[k] == L[k + 1];
  }

  /** After the removed resource the successors are the old ones. */
  lemma UnlinkedNextAfter(L: seq<ResourceId>, k: nat, next: Links, m: nat)
    requires k <= m < |L| - 1 && L[m + 1] in next && next[L[m + 1]] == Succ(L, m + 1)
    requires L[m + 1] != L[k] && (0 < k ==> L[m + 1] != L[k - 1])
    ensures UnlinkedNext(next, L, k)[RemovedAt(L, k)[m]] == Succ(RemovedAt(L, k), m)
  {
    var L1 := RemovedAt(L, k);
    assert L1[m] == L[m + 1];
    assert m + 1 < |L1| ==> L1[m + 1] == L[m + 2];
  }

  lemma UnlinkedPrevBefore(L: seq<ResourceId>, k: nat, prev: Links, m: nat)
    requires m < k < |L| && L[m] in prev && prev[L[m]] == Pred(L, m)
    requires L[m] != L[k] && (k + 1 < |L| ==> L[m] != L[k + 1])
    ensures UnlinkedPrev(prev, L, k)[RemovedAt(L, k)[m]] == Pred(RemovedAt(L, k), m)
  {
    var L1 := RemovedAt(L, k);
    assert L1[m] == L[m];
    assert 0 < m ==> L1[m - 1] == L[m - 1];
  }

  /** The successor now leads back to the predecessor. */
  lemma UnlinkedPrevJoin(L: seq<ResourceId>, k: nat, prev: Links)
    requires k + 1 < |L|
    ensures UnlinkedPrev(prev, L, k)[RemovedAt(L, k)[k]] == Pred(RemovedAt(L, k), k)
  {
    var L1 := RemovedAt(L, k);
    assert L1[k] == L[k + 1];
    assert 0 < k ==> L1[k - 1] == L[k - 1];
  }

  lemma UnlinkedPrevAfter(L: seq<ResourceId>, k: nat, prev: Links, m: nat)
    requires k < m < |L| - 1 && L[m + 1] in prev && prev[L[m + 1]] == Pred(L, m + 1)
    requires L[m + 1] != L[k] && L[m + 1] != L[k + 1]
    ensures UnlinkedPrev(prev, L, k)[RemovedAt(L, k)[m]] == Pred(RemovedAt(L, k), m)
  {
    var L1 := RemovedAt(L, k);
    assert L1[m] == L[m + 1] && L1[m - 1] == L[m];
  }

  /** The list's ends once `x` is pushed at its head: the head is `x`, and
      so is the tail when the list was empty. */
  function PushedEnds(list: LRUList, x: ResourceId): LRUList
  {
    LRUList(Some(x), if list.head.None? then Some(x) else list.tail)
  }

  /** The links once `x` is pushed: it leads to the old head, which leads
      back to it. */
  function PushedNext(next: Links, x: ResourceId, list: LRUList): Links
  {
    next[x := list.head]
  }

  function PushedPrev(prev: Links, x: ResourceId, list: LRUList): Links
  {
    if list.head.Some? then prev[list.head.value := Some(x)] else prev
  }

  /** Pushing a resource in no list at the head of list `j` leaves every
      list described, with that resource first in list `j`. */
  lemma ThreadedPush(lists: seq<seq<ResourceId>>, position: map<ResourceId, Position>, heads: seq<LRUList>,
                     next: Links, prev: Links, x: ResourceId, j: nat)
    requires Threaded(lists, position, heads, next, prev)
    requires x !in position && x in next && x in prev && j < |lists|
    ensures Threaded(lists[j := [x] + lists[j]], PositionsWith(position, x, j), heads[j := PushedEnds(heads[j], x)],
                     PushedNext(next, x, heads[j]), PushedPrev(prev, x, heads[j]))
  {
    var newLists := lists[j := [x] + lists[j]];
    var newHeads := heads[j := PushedEnds(heads[j], x)];
    var newNext, newPrev := PushedNext(next, x, heads[j]), PushedPrev(prev, x, heads[j]);
    forall i | 0 <= i < |newLists|
      ensures ListLinked(newLists[i], newHeads[i], newNext, newPrev)
    {
      if i == j {
        DistinctWhenPositioned(lists[j], position, j);
        forall m | 0 <= m < |lists[j]|
          ensures lists[j][m] != x
        {
          assert lists[j][m] in position;
        }
        ListPushed(lists[j], heads[j], next, prev, x);
      } else {
        PushKeepsOtherList(lists, position, heads, next, prev, x, j, i);
      }
    }
    PushPositionsExact(lists, position, x, j);
    PushNullLinks(lists, position, heads, next, prev, x, j);
  }

  lemma ListPushed(L: seq<ResourceId>, list: LRUList, next: Links, prev: Links, x: ResourceId)
    requires ListLinked(L, list, next, prev) && Distinct(L)
    requires x in next && x in prev && prev[x] == None && forall m :: 0 <= m < |L| ==> L[m] != x
    ensures ListLinked([x] + L, PushedEnds(list, x), PushedNext(next, x, list), PushedPrev(prev, x, list))
  {
    var L1 := [x] + L;
    var newNext, newPrev := PushedNext(next, x, list), PushedPrev(prev, x, list);
    forall m | 0 <= m < |L1|
      ensures L1[m] in newNext && L1[m] in newPrev
    {
      if m > 0 {
        assert L1[m] == L[m - 1];
      }
    }
    forall m {:trigger newNext[L1[m]]} | 0 <= m < |L1|
      ensures newNext[L1[m]] == Succ(L1, m)
    {
      if m > 0 {
        assert next[L[m - 1]] == Succ(L, m - 1);
      }
      PushedNextAt(L, list, next, x, m);
    }
    forall m {:trigger newPrev[L1[m]]} | 0 <= m < |L1|
      ensures newPrev[L1[m]] == Pred(L1, m)
    {
      if m > 1 {
        assert prev[L[m - 1]] == Pred(L, m - 1);
        assert L[m - 1] != L[0];
      }
      PushedPrevAt(L, list, prev, x, m);
    }
    assert L != [] ==> L1[|L1| - 1] == L[|L| - 1];
  }

  lemma PushedNextAt(L: seq<ResourceId>, list: LRUList, next: Links, x: ResourceId, m: nat)
    requires list.head == First(L) && m <= |L|
    requires 0 < m ==> L[m - 1] != x && L[m - 1] in next && next[L[m - 1]] == Succ(L, m - 1)
    ensures PushedNext(next, x, list)[([x] + L)[m]] == Succ([x] + L, m)
  {
    var L1 := [x] + L;
    if m == 0 {
      assert 1 < |L1| ==> L1[1] == L[0];
    } else {
      assert L1[m] == L[m - 1];
      assert m + 1 < |L1| ==> L1[m + 1] == L[m];
    }
  }

  lemma PushedPrevAt(L: seq<ResourceId>, list: LRUList, prev: Links, x: ResourceId, m: nat)
    requires list.head == First(L) && m <= |L| && x in prev && prev[x] == None && (L != [] ==> L[0] != x)
    requires 1 < m ==> L[m - 1] != L[0] && L[m - 1] in prev && prev[L[m - 1]] == Pred(L, m - 1)
    ensures PushedPrev(prev, x, list)[([x] + L)[m]] == Pred([x] + L, m)
  {
    var L1 := [x] + L;
    if m == 1 {
      assert L1[1] == L[0];
    } else if m > 1 {
      assert L1[m] == L[m - 1] && L1[m - 1] == L[m - 2];
    }
  }

  lemma PushKeepsOtherList(lists: seq<seq<ResourceId>>, position: map<ResourceId, Position>, heads: seq<LRUList>,
                           next: Links, prev: Links, x: ResourceId, j: nat, i: nat)
    requires PositionsExact(lists, position) && x !in position && |heads| == |lists|
    requires j < |lists| && i < |lists| && i != j && ListLinked(lists[i], heads[i], next, prev)
    requires ListLinked(lists[j], heads[j], next, prev)
    ensures ListLinked(lists[i], heads[i], PushedNext(next, x, heads[j]), PushedPrev(prev, x, heads[j]))
  {
    forall m | 0 <= m < |lists[i]|
      ensures lists[i][m] != x && (lists[j] != [] ==> lists[i][m] != lists[j][0])
    {
      assert position[lists[i][m]] == (i, m);
      assert lists[j] != [] ==> position[lists[j][0]] == (j, 0);
    }
    ListLinkedFrame(lists[i], heads[i], next, prev, PushedNext(next, x, heads[j]), PushedPrev(prev, x, heads[j]));
  }

  lemma PushPositionsExact(lists: seq<seq<ResourceId>>, position: map<ResourceId, Position>, x: ResourceId, j: nat)
    requires PositionsExact(lists, position) && x !in position && j < |lists|
    ensures PositionsExact(lists[j := [x] + lists[j]], PositionsWith(position, x, j))
  {
    var newLists, newPosition := lists[j := [x] + lists[j]], PositionsWith(position, x, j);
    forall i, m | 0 <= i < |newLists| && 0 <= m < |newLists[i]|
      ensures newLists[i][m] in newPosition && newPosition[newLists[i][m]] == (i, m)
    {
      if i == j && m > 0 {
        assert newLists[i][m] == lists[j][m - 1];
        assert position[lists[j][m - 1]] == (j, m - 1);
      } else if i != j {
        assert position[lists[i][m]] == (i, m);
      }
    }
    forall y | y in newPosition
      ensures Placed(newLists, newPosition[y], y)
    {
      if y != x {
        assert Placed(lists, position[y], y);
        if position[y].0 == j {
          assert newLists[j][position[y].1 + 1] == lists[j][position[y].1];
        }
      }
    }
  }

  lemma PushNullLinks(lists: seq<seq<ResourceId>>, position: map<ResourceId, Position>, heads: seq<LRUList>,
                      next: Links, prev: Links, x: ResourceId, j: nat)
    requires PositionsExact(lists, position) && NullWhenUnlisted(position, next, prev)
    requires x !in position && j < |lists| && j < |heads| && heads[j].head == First(lists[j])
    ensures NullWhenUnlisted(PositionsWith(position, x, j), PushedNext(next, x, heads[j]), PushedPrev(prev, x, heads[j]))
  {
    if lists[j] != [] {
      assert lists[j][0] in position;
    }
  }

  /** A resource in no list may join the link maps with null links. */
  lemma ThreadedUnlinkedJoins(lists: seq<seq<ResourceId>>, position: map<ResourceId, Position>, heads: seq<LRUList>,
                              next: Links, prev: Links, x: ResourceId)
    requires Threaded(lists, position, heads, next, prev) && x !in position
    ensures Threaded(lists, position, heads, next[x := None], prev[x := None])
  {
    forall i | 0 <= i < |lists|
      ensures ListLinked(lists[i], heads[i], next[x := None], prev[x := None])
    {
      ListLinkedWithout(lists[i], heads[i], next, prev, x);
    }
  }

  lemma ListLinkedWithout(L: seq<ResourceId>, list: LRUList, next: Links, prev: Links, x: ResourceId)
    requires ListLinked(L, list, next, prev) && x !in L
    ensures ListLinked(L, list, next[x := None], prev[x := None])
  {
    ListLinkedFrame(L, list, next, prev, next[x := None], prev[x := None]);
  }

  /** A listed resource with two null links is alone in its list. */
  lemma HeadWhenNoLinks(lists: seq<seq<ResourceId>>, position: map<ResourceId, Position>, heads: seq<LRUList>,
                        next: Links, prev: Links, x: ResourceId)
    requires Threaded(lists, position, heads, next, prev) && x in position
    requires x in next && x in prev && next[x] == None && prev[x] == None
    ensures heads[position[x].0].head == Some(x)
  {
    var (i, k) := position[x];
    assert Placed(lists, position[x], x);
    assert ListLinked(lists[i], heads[i], next, prev);
    assert next[lists[i][k]] == Succ(lists[i], k) && prev[lists[i][k]] == Pred(lists[i], k);
  }

  /** Relative order kept: resources other than `x` stay in their list and
      keep their order within it. */
  ghost predicate OrderKept(before: map<ResourceId, Position>, after: map<ResourceId, Position>, x: ResourceId)
  {
    (forall y :: y in before && y != x ==> y in after && after[y].0 == before[y].0) &&
    (forall y, z :: y in before && z in before && y != x && z != x && before[y].0 == before[z].0 && before[y].1 < before[z].1 ==>
       after[y].1 < after[z].1)
  }

  lemma OrderKeptWithout(position: map<ResourceId, Position>, x: ResourceId, p: Position)
    requires x in position && position[x] == p
    requires forall y :: y in position && position[y] == p ==> y == x
    ensures OrderKept(position, PositionsWithout(position, x, p), x)
  {
  }

  lemma OrderKeptSame(position: map<ResourceId, Position>, x: ResourceId)
    ensures OrderKept(position, position, x)
  {
  }

  lemma OrderKeptWith(position: map<ResourceId, Position>, x: ResourceId, j: nat)
    ensures OrderKept(position, PositionsWith(position, x, j), x)
  {
  }

  lemma OrderKeptTrans(p0: map<ResourceId, Position>, p1: map<ResourceId, Position>, p2: map<ResourceId, Position>, x: ResourceId)
    requires OrderKept(p0, p1, x) && OrderKept(p1, p2, x)
    ensures OrderKept(p0, p2, x)
  {
    forall y, z | y in p0 && z in p0 && y != x && z != x && p0[y].0 == p0[z].0 && p0[y].1 < p0[z].1
      ensures p2[y].1 < p2[z].1
    {
      assert p1[y].1 < p1[z].1;
    }
  }

  /** `size / max(accessCount, 1)`, never more than the size. */
  function QueueKey(size: uint32, accessCount: nat): (r: uint32)
    ensures r <= size
  {
    var d := Max(accessCount, 1);
    DivModSplit(size, d);
    var q := size / d;
    if q >= 1 then MulAtLeast(q, d); q else q
  }

  /** `lruListFor`'s queue index: `fastLog2` of the size per access. */
  function LruIndexOf(fastLog2: uint32 -> nat, r: CachedResource): nat
  {
    fastLog2(QueueKey(r.size, r.accessCount))
  }

  /** The cache's invariant over its resources and lists: the lists are
      well formed, every resource has both link fields, and a listed
      resource is in the cache, has been accessed and sits in the list its
      size and access count select. */
  ghost predicate CacheInv(fastLog2: uint32 -> nat, resources: map<ResourceId, CachedResource>,
                           lists: seq<seq<ResourceId>>, position: map<ResourceId, Position>,
                           heads: seq<LRUList>, next: Links, prev: Links)
  {
    Threaded(lists, position, heads, next, prev) &&
    (forall x :: x in resources ==> x in next && x in prev) &&
    (forall x :: x in position ==> x in resources && resources[x].inCache && resources[x].accessCount > 0 &&
                                   position[x].0 == LruIndexOf(fastLog2, resources[x]))
  }

  /** Growing the list vector keeps the invariant. */
  lemma CacheInvGrown(fastLog2: uint32 -> nat, resources: map<ResourceId, CachedResource>,
                      lists: seq<seq<ResourceId>>, position: map<ResourceId, Position>,
                      heads: seq<LRUList>, next: Links, prev: Links, index: nat)
    requires CacheInv(fastLog2, resources, lists, position, heads, next, prev)
    ensures CacheInv(fastLog2, resources, Grown(lists, index, []), position, Grown(heads, index, EmptyList), next, prev)
  {
    ThreadedGrown(lists, position, heads, next, prev, index);
  }

  /** A new resource with null links keeps the invariant. */
  lemma CacheInvTracked(fastLog2: uint32 -> nat, resources: map<ResourceId, CachedResource>,
                        lists: seq<seq<ResourceId>>, position: map<ResourceId, Position>,
                        heads: seq<LRUList>, next: Links, prev: Links, x: ResourceId, r: CachedResource)
    requires CacheInv(fastLog2, resources, lists, position, heads, next, prev) && x !in resources
    ensures CacheInv(fastLog2, resources[x := r], lists, position, heads, next[x := None], prev[x := None])
  {
    assert x !in position;
    ThreadedUnlinkedJoins(lists, position, heads, next, prev, x);
  }

  /** A resource may change its access count and flags while it is in no
      list, and keeps the invariant. */
  lemma CacheInvUnlistedChanged(fastLog2: uint32 -> nat, resources: map<ResourceId, CachedResource>,
                                lists: seq<seq<ResourceId>>, position: map<ResourceId, Position>,
                                heads: seq<LRUList>, next: Links, prev: Links, x: ResourceId, r: CachedResource)
    requires CacheInv(fastLog2, resources, lists, position, heads, next, prev) && x in resources && x !in position
    ensures CacheInv(fastLog2, resources[x := r], lists, position, heads, next, prev)
  {
  }

  /** A resource that is in no list, or that is not changed, keeps the
      invariant. */
  lemma CacheInvUnlistedOrSame(fastLog2: uint32 -> nat, resources: map<ResourceId, CachedResource>,
                               lists: seq<seq<ResourceId>>, position: map<ResourceId, Position>,
                               heads: seq<LRUList>, next: Links, prev: Links, x: ResourceId, r: CachedResource)
    requires CacheInv(fastLog2, resources, lists, position, heads, next, prev) && x in resources
    requires x in position ==> r == resources[x]
    ensures CacheInv(fastLog2, resources[x := r], lists, position, heads, next, prev)
  {
    if x in position {
      assert resources[x := r] == resources;
    }
  }

  /** `lruListFor`: the index of the list for the resource's size per
      access (an access count of 0 counting as 1), with the list vector
      grown into existence up to it. */
  method LruListFor(fastLog2: uint32 -> nat, r: CachedResource, heads: seq<LRUList>, ghost lists: seq<seq<ResourceId>>)
    returns (index: nat, newHeads: seq<LRUList>, ghost newLists: seq<seq<ResourceId>>)
    ensures index == LruIndexOf(fastLog2, r) && index < |newHeads|
    ensures newHeads == Grown(heads, index, EmptyList) && newLists == Grown(lists, index, [])
    ensures |heads| == |lists| ==> |newHeads| == |newLists|
  {
    var accessCount := Max(r.accessCount, 1);
    index := fastLog2(QueueKey(r.size, accessCount));
    newHeads, newLists := heads, lists;
    if |heads| <= index {
      newHeads := heads + seq(index + 1 - |heads|, _ => EmptyList);
    }
    if |lists| <= index {
      newLists := lists + seq(index + 1 - |lists|, _ => []);
    }
  }

  /** `removeFromLRUList`: a resource never accessed is in no list and is
      left alone; otherwise `lruListFor` picks (and if need be grows into existence) the list; a
      resource with two null links that does not head that list is left
      alone; otherwise its own links are nulled, its neighbours are joined,
      and the list's head or tail moves off it. The ghost results are the
      lists and positions once it is out. */
  method UnlinkResource(fastLog2: uint32 -> nat, resources: map<ResourceId, CachedResource>,
                        heads: seq<LRUList>, next: Links, prev: Links, x: ResourceId,
                        ghost lists: seq<seq<ResourceId>>, ghost position: map<ResourceId, Position>)
    returns (newHeads: seq<LRUList>, newNext: Links, newPrev: Links,
             ghost newLists: seq<seq<ResourceId>>, ghost newPosition: map<ResourceId, Position>)
    requires CacheInv(fastLog2, resources, lists, position, heads, next, prev) && x in resources
    ensures CacheInv(fastLog2, resources, newLists, newPosition, newHeads, newNext, newPrev)
    ensures x !in newPosition && newNext[x] == None && newPrev[x] == None && OrderKept(position, newPosition, x)
    ensures resources[x].accessCount == 0 ==>
      newHeads == heads && newNext == next && newPrev == prev && newLists == lists && newPosition == position
    ensures resources[x].accessCount > 0 && x !in position ==>
      var j := LruIndexOf(fastLog2, resources[x]);
      newHeads == Grown(heads, j, EmptyList) && newLists == Grown(lists, j, []) &&
      newNext == next && newPrev == prev && newPosition == position
    ensures x in position ==>
      var (i, k) := position[x];
      i == LruIndexOf(fastLog2, resources[x]) && i < |lists| && k < |lists[i]| &&
      newLists == lists[i := RemovedAt(lists[i], k)] && newPosition == PositionsWithout(position, x, (i, k)) &&
      newHeads == heads[i := UnlinkedEnds(heads[i], lists[i], k)] &&
      newNext == UnlinkedNext(next, lists[i], k) && newPrev == UnlinkedPrev(prev, lists[i], k)
  {
    if resources[x].accessCount == 0 {
      OrderKeptSame(position, x);
      return heads, next, prev, lists, position;
    }
    var list, grown, grownLists := LruListFor(fastLog2, resources[x], heads, lists);
    CacheInvGrown(fastLog2, resources, lists, position, heads, next, prev, list);
    var nx, pv := next[x], prev[x];
    if nx.None? && pv.None? && grown[list].head != Some(x) {
      if x in position {
        HeadWhenNoLinks(grownLists, position, grown, next, prev, x);
      }
      OrderKeptSame(position, x);
      return grown, next, prev, grownLists, position;
    }
    if x !in position {
      assert false;
    }
    ghost var (i, k) := position[x];
    assert grown == heads && grownLists == lists;
    ghost var L := lists[i];
    CacheInvUnlink(fastLog2, resources, lists, position, heads, next, prev, x);
    newHeads, newNext, newPrev := UnlinkLinks(heads, next, prev, list, x, L, k);
    newLists, newPosition := lists[i := RemovedAt(L, k)], PositionsWithout(position, x, (i, k));
  }

  /** The pointer surgery of `removeFromLRUList` on the resource `x` at
      `k` in list `list`, whose order is `L`: its links are nulled, the
      successor leads back to the predecessor and the predecessor on to the
      successor, and where either is missing the list's tail or head moves
      instead. */
  method UnlinkLinks(heads: seq<LRUList>, next: Links, prev: Links, list: nat, x: ResourceId,
                     ghost L: seq<ResourceId>, ghost k: nat)
    returns (newHeads: seq<LRUList>, newNext: Links, newPrev: Links)
    requires list < |heads| && k < |L| && L[k] == x && x in next && x in prev
    requires next[x] == Succ(L, k) && prev[x] == Pred(L, k)
    requires heads[list].head == First(L) && heads[list].tail == LastOf(L)
    ensures newHeads == heads[list := UnlinkedEnds(heads[list], L, k)]
    ensures newNext == UnlinkedNext(next, L, k) && newPrev == UnlinkedPrev(prev, L, k)
  {
    var nx, pv := next[x], prev[x];
    var ends := heads[list];
    newNext, newPrev := next[x := None], prev[x := None];
    if nx.Some? {
      assert k + 1 < |L| && nx.value == L[k + 1];
      newPrev := newPrev[nx.value := pv];
    } else if ends.tail == Some(x) {
      ends := LRUList(ends.head, pv);
    }
    if pv.Some? {
      assert 0 < k && pv.value == L[k - 1];
      newNext := newNext[pv.value := nx];
    } else if ends.head == Some(x) {
      ends := LRUList(nx, ends.tail);
    }
    newHeads := heads[list := ends];
  }

  /** Unlinking a listed resource keeps the invariant, takes it out of the
      positions with null links, and keeps the order of the rest. */
  lemma CacheInvUnlink(fastLog2: uint32 -> nat, resources: map<ResourceId, CachedResource>,
                       lists: seq<seq<ResourceId>>, position: map<ResourceId, Position>,
                       heads: seq<LRUList>, next: Links, prev: Links, x: ResourceId)
    requires CacheInv(fastLog2, resources, lists, position, heads, next, prev) && x in position
    ensures var (i, k) := position[x];
      Placed(lists, (i, k), x) && ListLinked(lists[i], heads[i], next, prev) &&
      next[x] == Succ(lists[i], k) && prev[x] == Pred(lists[i], k) &&
      var newPosition := PositionsWithout(position, x, (i, k));
      var newNext, newPrev := UnlinkedNext(next, lists[i], k), UnlinkedPrev(prev, lists[i], k);
      CacheInv(fastLog2, resources, lists[i := RemovedAt(lists[i], k)], newPosition,
               heads[i := UnlinkedEnds(heads[i], lists[i], k)], newNext, newPrev) &&
      x !in newPosition && newNext[x] == None && newPrev[x] == None && OrderKept(position, newPosition, x)
  {
    var (i, k) := position[x];
    UnlinkReady(lists, position, heads, next, prev, x);
    ThreadedUnlink(lists, position, heads, next, prev, x);
    UnlinkKeepsCacheFacts(fastLog2, resources, position, next, prev, x, lists[i], k);
  }

  /** Unlinking keeps every resource's link fields and every listed
      resource's list. */
  lemma UnlinkKeepsCacheFacts(fastLog2: uint32 -> nat, resources: map<ResourceId, CachedResource>,
                              position: map<ResourceId, Position>, next: Links, prev: Links,
                              x: ResourceId, L: seq<ResourceId>, k: nat)
    requires k < |L| && x in position
    requires forall y :: y in resources ==> y in next && y in prev
    requires forall y :: y in position ==> y in resources && resources[y].inCache && resources[y].accessCount > 0 &&
                                           position[y].0 == LruIndexOf(fastLog2, resources[y])
    ensures var newNext, newPrev := UnlinkedNext(next, L, k), UnlinkedPrev(prev, L, k);
      forall y :: y in resources ==> y in newNext && y in newPrev
    ensures var newPosition := PositionsWithout(position, x, position[x]);
      forall y :: y in newPosition ==> y in resources && resources[y].inCache && resources[y].accessCount > 0 &&
                                        newPosition[y].0 == LruIndexOf(fastLog2, resources[y])
  {
  }

  /** `insertInLRUList`: `lruListFor` picks (and if need be grows into
      existence) the list; the resource leads to the old head, the old head
      leads back to it, it becomes the head, and also the tail when the
      list was empty. */
  method PushResource(fastLog2: uint32 -> nat, resources: map<ResourceId, CachedResource>,
                      heads: seq<LRUList>, next: Links, prev: Links, x: ResourceId,
                      ghost lists: seq<seq<ResourceId>>, ghost position: map<ResourceId, Position>)
    returns (newHeads: seq<LRUList>, newNext: Links, newPrev: Links,
             ghost newLists: seq<seq<ResourceId>>, ghost newPosition: map<ResourceId, Position>)
    requires CacheInv(fastLog2, resources, lists, position, heads, next, prev)
    requires x in resources && x !in position && resources[x].inCache && resources[x].accessCount > 0
    ensures CacheInv(fastLog2, resources, newLists, newPosition, newHeads, newNext, newPrev)
    ensures var j := LruIndexOf(fastLog2, resources[x]);
      var grown, ends := Grown(lists, j, []), Grown(heads, j, EmptyList);
      newLists == grown[j := [x] + grown[j]] && newPosition == PositionsWith(position, x, j) &&
      newHeads == ends[j := PushedEnds(ends[j], x)] &&
      newNext == PushedNext(next, x, ends[j]) && newPrev == PushedPrev(prev, x, ends[j])
    ensures OrderKept(position, newPosition, x)
  {
    var list, grown, grownLists := LruListFor(fastLog2, resources[x], heads, lists);
    CacheInvGrown(fastLog2, resources, lists, position, heads, next, prev, list);
    var ends := grown[list];
    newNext, newPrev := next[x := ends.head], prev;
    if ends.head.Some? {
      newPrev := newPrev[ends.head.value := Some(x)];
    }
    ends := LRUList(Some(x), ends.tail);
    if newNext[x].None? {
      ends := LRUList(ends.head, Some(x));
    }
    newHeads := grown[list := ends];
    newLists, newPosition := grownLists[list := [x] + grownLists[list]], PositionsWith(position, x, list);
    ThreadedPush(grownLists, position, grown, next, prev, x, list);
    OrderKeptWith(position, x, list);
    PushKeepsCacheFacts(fastLog2, resources, position, next, prev, x, list, grown[list]);
  }

  /** Pushing keeps every resource's link fields and puts the pushed
      resource in the list it selects. */
  lemma PushKeepsCacheFacts(fastLog2: uint32 -> nat, resources: map<ResourceId, CachedResource>,
                            position: map<ResourceId, Position>, next: Links, prev: Links,
                            x: ResourceId, j: nat, list: LRUList)
    requires x in resources && resources[x].inCache && resources[x].accessCount > 0
    requires j == LruIndexOf(fastLog2, resources[x])
    requires forall y :: y in resources ==> y in next && y in prev
    requires forall y :: y in position ==> y in resources && resources[y].inCache && resources[y].accessCount > 0 &&
                                           position[y].0 == LruIndexOf(fastLog2, resources[y])
    ensures var newNext, newPrev := PushedNext(next, x, list), PushedPrev(prev, x, list);
      forall y :: y in resources ==> y in newNext && y in newPrev
    ensures var newPosition := PositionsWith(position, x, j);
      forall y :: y in newPosition ==> y in resources && resources[y].inCache && resources[y].accessCount > 0 &&
                                        newPosition[y].0 == LruIndexOf(fastLog2, resources[y])
  {
  }

  /** `increaseAccessCount`. */
  function Accessed(r: CachedResource): (r1: CachedResource)
    ensures r1.accessCount == r.accessCount + 1 && r1.size == r.size && r1.inCache == r.inCache
  {
    r.(accessCount := r.accessCount + 1)
  }

  /** The list work of `resourceAccessed`: the resource leaves its list,
      its access count goes up, and it is pushed at the head of the list
      its new count selects. */
  method AccessResource(fastLog2: uint32 -> nat, resources: map<ResourceId, CachedResource>,
                        heads: seq<LRUList>, next: Links, prev: Links, x: ResourceId,
                        ghost lists: seq<seq<ResourceId>>, ghost position: map<ResourceId, Position>)
    returns (newResources: map<ResourceId, CachedResource>, newHeads: seq<LRUList>, newNext: Links, newPrev: Links,
             ghost newLists: seq<seq<ResourceId>>, ghost newPosition: map<ResourceId, Position>)
    requires CacheInv(fastLog2, resources, lists, position, heads, next, prev)
    requires x in resources && resources[x].inCache
    ensures CacheInv(fastLog2, newResources, newLists, newPosition, newHeads, newNext, newPrev)
    ensures newResources == resources[x := Accessed(resources[x])]
    ensures var j := LruIndexOf(fastLog2, newResources[x]);
      x in newPosition && newPosition[x] == (j, 0) && j < |newHeads| && newHeads[j].head == Some(x)
    ensures OrderKept(position, newPosition, x)
  {
    var h, n, p, l, q := UnlinkResource(fastLog2, resources, heads, next, prev, x, lists, position);
    var accessed := Accessed(resources[x]);
    CacheInvUnlistedChanged(fastLog2, resources, l, q, h, n, p, x, accessed);
    newResources := resources[x := accessed];
    newHeads, newNext, newPrev, newLists, newPosition := PushResource(fastLog2, newResources, h, n, p, x, l, q);
    OrderKeptTrans(position, q, newPosition, x);
  }
}
