/**
 * `WebCore::MemoryCache` (MemoryCache.cpp): the capacity arithmetic, the
 * URL key normalisation, the size accounting of accessed resources, the
 * pruning decisions, and the cache object whose resources the LRU lists of
 * `MemoryCacheLru` order.
 *
 * `unsigned` values are `uint32`, and their wrap-around is explicit.
 */
module MemoryCacheModel {
  import opened Wrappers
  import opened TyGLDefs
  import opened IntMath
  import opened MemoryCacheLru

  /** `cDefaultCacheCapacity`: 8 MiB. */
  const DefaultCacheCapacity: uint32 := 8192 * 1024

  /** `cTargetPrunePercentage`, the float nearest to .95. */
  const TargetPrunePercentage: real := 0.949999988079071044921875

  /** `deadCapacity`: the space live resources leave free, clamped into
      [minimum, maximum] (`std::max` then `std::min`). */
  function DeadCapacity(capacity: uint32, liveSize: uint32, minDead: uint32, maxDead: uint32): (r: uint32)
  {
    Clamp(capacity - Min(liveSize, capacity), minDead, maxDead)
  }

  /** `liveCapacity`: what the dead capacity leaves of the total, as an
      `unsigned` subtraction. */
  function LiveCapacity(capacity: uint32, liveSize: uint32, minDead: uint32, maxDead: uint32): (r: uint32)
  {
    (capacity - DeadCapacity(capacity, liveSize, minDead, maxDead)) % Uint32Limit
  }

  /** With a sensible range the dead capacity is the free space when that
      lies within it, and the nearer bound otherwise. */
  lemma DeadCapacityClamped(capacity: uint32, liveSize: uint32, minDead: uint32, maxDead: uint32)
    requires minDead <= maxDead
    ensures var free := if liveSize < capacity then capacity - liveSize else 0;
      var r := DeadCapacity(capacity, liveSize, minDead, maxDead);
      minDead <= r <= maxDead &&
      (minDead <= free <= maxDead ==> r == free) &&
      (free < minDead ==> r == minDead) &&
      (free > maxDead ==> r == maxDead)
  {
  }

  /** Under the bounds `setCapacities` asserts, the live and dead
      capacities split the total exactly. */
  lemma CapacitiesAddUp(capacity: uint32, liveSize: uint32, minDead: uint32, maxDead: uint32)
    requires minDead <= maxDead <= capacity
    ensures LiveCapacity(capacity, liveSize, minDead, maxDead) + DeadCapacity(capacity, liveSize, minDead, maxDead) == capacity
  {
  }

  /** `static_cast<unsigned>(capacity * cTargetPrunePercentage)`. */
  function PruneTarget(capacity: uint32): (r: uint32)
  {
    ((capacity as real) * TargetPrunePercentage).Floor
  }

  /** Pruning aims below the capacity, so that it is not needed again at
      once. */
  lemma PruneTargetBelowCapacity(capacity: uint32)
    ensures PruneTarget(capacity) <= capacity
    ensures capacity > 0 ==> PruneTarget(capacity) < capacity
  {
  }

  /** A parsed URL: its protocol, everything up to the fragment, and the
      fragment after `#` if there is one. */
  datatype Url = Url(protocol: string, body: string, fragment: Option<string>)

  /** `protocolIsInHTTPFamily`. */
  predicate ProtocolIsInHTTPFamily(url: Url)
  {
    url.protocol == "http" || url.protocol == "https"
  }

  /** `removeFragmentIdentifierIfNeeded`. */
  function RemoveFragmentIdentifierIfNeeded(originalURL: Url): (r: Url)
  {
    if originalURL.fragment.None? then originalURL
    else if !ProtocolIsInHTTPFamily(originalURL) then originalURL
    else Url(originalURL.protocol, originalURL.body, None)
  }

  /** Only an HTTP-family URL loses its fragment; every other URL, and
      everything but the fragment, is kept. */
  lemma FragmentOnlyStrippedFromHttp(url: Url)
    ensures var r := RemoveFragmentIdentifierIfNeeded(url);
      r.protocol == url.protocol && r.body == url.body &&
      (r.fragment.None? <==> url.fragment.None? || ProtocolIsInHTTPFamily(url)) &&
      (!ProtocolIsInHTTPFamily(url) ==> r == url)
  {
  }

  /** Normalising twice is normalising once. */
  lemma RemoveFragmentIdempotent(url: Url)
    ensures RemoveFragmentIdentifierIfNeeded(RemoveFragmentIdentifierIfNeeded(url)) == RemoveFragmentIdentifierIfNeeded(url)
  {
  }

  /** HTTP URLs that differ only in their fragment share one cache key. */
  lemma HttpFragmentsShareKey(u: Url, v: Url)
    requires ProtocolIsInHTTPFamily(u) && u.protocol == v.protocol && u.body == v.body
    ensures RemoveFragmentIdentifierIfNeeded(u) == RemoveFragmentIdentifierIfNeeded(v)
  {
  }

  /** `(int)total`: the `unsigned` value read as a two's-complement `int`. */
  function Int32Of(x: uint32): int
  {
    if x < 0x8000_0000 then x else x - Uint32Limit
  }

  /** The condition `adjustSize` asserts before adding `delta` to a total. */
  predicate AdjustAllowed(total: uint32, delta: int)
  {
    delta >= 0 || Int32Of(total) + delta >= 0
  }

  /** An `unsigned` result. */
  function Wrap(x: int): uint32
  {
    x % Uint32Limit
  }

  /** A decrease the assertion admits never wraps below zero. */
  lemma AdjustAllowedNoUnderflow(total: uint32, delta: int)
    requires -0x8000_0000 <= delta < 0 && AdjustAllowed(total, delta)
    ensures Wrap(total + delta) == total + delta
  {
  }

  /** An increase by an `unsigned` size passed as `int` is an `unsigned`
      addition. */
  lemma AddSizeAsInt(total: uint32, size: uint32)
    ensures Wrap(total + Int32Of(size)) == Wrap(total + size)
  {
  }

  /** A request to run one of the two pruning loops, which themselves are
      not modelled: `pruneDeadResourcesToSize(target)` or
      `pruneLiveResourcesToSize(target, destroyAll)`. */
  datatype PrunePass = DeadPass(target: uint32) | LivePass(target: uint32, destroyAll: bool)

  /** `setInCache(true)`. */
  function Cached(r: CachedResource): (r1: CachedResource)
    ensures r1.inCache && r1.accessCount == r.accessCount && r1.size == r.size && r1.hasClients == r.hasClients
  {
    r.(inCache := true)
  }

  /** The live and dead totals after a resource with `r`'s state is
      accessed: its size joins the live total (if it has clients) or the
      dead total on its first access, and nothing changes otherwise. */
  predicate SizesAfterAccess(r: CachedResource, liveBefore: uint32, deadBefore: uint32, live: uint32, dead: uint32)
  {
    if r.accessCount == 0 && r.hasClients then live == Wrap(liveBefore + r.size) && dead == deadBefore
    else if r.accessCount == 0 then dead == Wrap(deadBefore + r.size) && live == liveBefore
    else live == liveBefore && dead == deadBefore
  }

  /** The cache's resources and their lists: the `CachedResource` objects
      apart from their list links, `m_allResources`, and the two link
      fields of every resource. */
  datatype LruState = LruState(resources: map<ResourceId, CachedResource>, allResources: seq<LRUList>,
                               nextInList: Links, prevInList: Links)

  /** The order each list's links describe, and where each listed resource
      sits in it. */
  datatype LruOrder = LruOrder(lists: seq<seq<ResourceId>>, position: map<ResourceId, Position>)

  /** The cache. */
  class MemoryCache {
    /** `WTF::fastLog2`. */
    const fastLog2: uint32 -> nat
    var disabled: bool
    var inPruneResources: bool
    var capacity: uint32
    var minDeadCapacity: uint32
    var maxDeadCapacity: uint32
    var liveSize: uint32
    var deadSize: uint32
    /** `m_sessionResources`: per session, URL to resource. */
    var sessionResources: map<nat, map<Url, ResourceId>>
    var lru: LruState
    ghost var order: LruOrder

    ghost predicate Valid()
      reads this`lru, this`order
    {
      CacheInv(fastLog2, lru.resources, order.lists, order.position, lru.allResources, lru.nextInList, lru.prevInList)
    }

    /** `MemoryCache()`: default capacities and nothing cached. */
    constructor (fastLog2: uint32 -> nat)
      ensures Valid() && this.fastLog2 == fastLog2
      ensures !disabled && !inPruneResources
      ensures capacity == DefaultCacheCapacity && minDeadCapacity == 0 && maxDeadCapacity == DefaultCacheCapacity
      ensures liveSize == 0 && deadSize == 0
      ensures sessionResources == map[] && lru == LruState(map[], [], map[], map[]) && order == LruOrder([], map[])
    {
      this.fastLog2 := fastLog2;
      disabled := false;
      inPruneResources := false;
      capacity := DefaultCacheCapacity;
      minDeadCapacity := 0;
      maxDeadCapacity := DefaultCacheCapacity;
      liveSize := 0;
      deadSize := 0;
      sessionResources := map[];
      lru := LruState(map[], [], map[], map[]);
      order := LruOrder([], map[]);
    }

    /** A `CachedResource` the loader has just constructed: not in the
        cache, never accessed, and with null links. */
    method Track(id: ResourceId, size: uint32, hasClients: bool)
      requires Valid() && id !in lru.resources
      modifies this`lru
      ensures Valid()
      ensures lru == old(lru).(resources := old(lru.resources)[id := CachedResource(size, 0, hasClients, false)],
                               nextInList := old(lru.nextInList)[id := None], prevInList := old(lru.prevInList)[id := None])
    {
      var r := CachedResource(size, 0, hasClients, false);
      CacheInvTracked(fastLog2, lru.resources, order.lists, order.position, lru.allResources, lru.nextInList, lru.prevInList, id, r);
      lru := lru.(resources := lru.resources[id := r], nextInList := lru.nextInList[id := None],
                  prevInList := lru.prevInList[id := None]);
    }

    /** `removeFromLRUList`: a never-accessed resource is in no list and is
        left alone; otherwise the resource is unlinked from the list its
        size and access count select, that list's head and tail are fixed,
        and its own links are nulled. A resource found in no list is left
        as it is, apart from that list being grown into existence. */
    method RemoveFromLRUList(id: ResourceId)
      requires Valid() && id in lru.resources
      modifies this`lru, this`order
      ensures Valid() && lru.resources == old(lru.resources)
      ensures id !in order.position && lru.nextInList[id] == None && lru.prevInList[id] == None
      ensures OrderKept(old(order.position), order.position, id)
      ensures old(lru.resources[id].accessCount) == 0 ==> lru == old(lru) && order == old(order)
      ensures old(lru.resources[id].accessCount) > 0 && id !in old(order.position) ==>
        var j := LruIndexOf(fastLog2, lru.resources[id]);
        lru == old(lru).(allResources := Grown(old(lru.allResources), j, EmptyList)) &&
        order == old(order).(lists := Grown(old(order.lists), j, []))
      ensures id in old(order.position) ==>
        var (i, k) := old(order.position[id]);
        var L := old(order.lists)[i];
        i < |old(order.lists)| && i < |old(lru.allResources)| && k < |L| &&
        order == LruOrder(old(order.lists)[i := RemovedAt(L, k)], PositionsWithout(old(order.position), id, (i, k))) &&
        lru.allResources == old(lru.allResources)[i := UnlinkedEnds(old(lru.allResources)[i], L, k)] &&
        lru.nextInList == UnlinkedNext(old(lru.nextInList), L, k) &&
        lru.prevInList == UnlinkedPrev(old(lru.prevInList), L, k)
    {
      var heads, next, prev, lists, position :=
        UnlinkResource(fastLog2, lru.resources, lru.allResources, lru.nextInList, lru.prevInList, id,
                       order.lists, order.position);
      lru, order := lru.(allResources := heads, nextInList := next, prevInList := prev), LruOrder(lists, position);
    }

    /** `insertInLRUList`: the resource, in no list, is pushed at the head of
        the list its size and access count select (grown into existence if
        need be), and becomes that list's tail too when the list was empty. */
    method InsertInLRUList(id: ResourceId)
      requires Valid() && id in lru.resources && id !in order.position
      requires lru.resources[id].inCache && lru.resources[id].accessCount > 0
      modifies this`lru, this`order
      ensures Valid() && lru.resources == old(lru.resources)
      ensures var j := LruIndexOf(fastLog2, lru.resources[id]);
        var grown, ends := Grown(old(order.lists), j, []), Grown(old(lru.allResources), j, EmptyList);
        order == LruOrder(grown[j := [id] + grown[j]], PositionsWith(old(order.position), id, j)) &&
        lru.allResources == ends[j := PushedEnds(ends[j], id)] &&
        lru.nextInList == PushedNext(old(lru.nextInList), id, ends[j]) &&
        lru.prevInList == PushedPrev(old(lru.prevInList), id, ends[j])
      ensures OrderKept(old(order.position), order.position, id)
    {
      var heads, next, prev, lists, position :=
        PushResource(fastLog2, lru.resources, lru.allResources, lru.nextInList, lru.prevInList, id,
                     order.lists, order.position);
      lru, order := lru.(allResources := heads, nextInList := next, prevInList := prev), LruOrder(lists, position);
    }

    /** `adjustSize`: `delta` (an `int`) added to the live or the dead total
        as an `unsigned` addition, once the assertion that a decrease does
        not take the total below zero has held. */
    method AdjustSize(live: bool, delta: int)
      requires -0x8000_0000 <= delta < 0x8000_0000
      requires AdjustAllowed(if live then liveSize else deadSize, delta)
      modifies this`liveSize, this`deadSize
      ensures live ==> liveSize == Wrap(old(liveSize) + delta) && deadSize == old(deadSize)
      ensures !live ==> deadSize == Wrap(old(deadSize) + delta) && liveSize == old(liveSize)
    {
      if live {
        liveSize := Wrap(liveSize + delta);
      } else {
        deadSize := Wrap(deadSize + delta);
      }
    }

    /** The step of `resourceAccessed` that accounts for a resource's size
        on its first access: `adjustSize(hasClients, size)`, the size
        becoming an `int` on the way. */
    method CountFirstAccess(r: CachedResource)
      requires r.accessCount == 0 ==> AdjustAllowed(if r.hasClients then liveSize else deadSize, Int32Of(r.size))
      modifies this`liveSize, this`deadSize
      ensures SizesAfterAccess(r, old(liveSize), old(deadSize), liveSize, deadSize)
    {
      if r.accessCount == 0 {
        AddSizeAsInt(if r.hasClients then liveSize else deadSize, r.size);
        AdjustSize(r.hasClients, Int32Of(r.size));
      }
    }

    /** `resourceAccessed`: the resource leaves its list, its size joins the
        live or dead total on its first access, its access count goes up,
        and it is pushed at the head of the list its new count selects. The
        size accounting touches only the totals and the list work only the
        resources and lists, so the one is done before the other. */
    method ResourceAccessed(id: ResourceId)
      requires Valid() && id in lru.resources && lru.resources[id].inCache
      requires lru.resources[id].accessCount == 0 ==>
        AdjustAllowed(if lru.resources[id].hasClients then liveSize else deadSize, Int32Of(lru.resources[id].size))
      modifies this`lru, this`order, this`liveSize, this`deadSize
      ensures Valid()
      ensures var r := old(lru.resources[id]);
        lru.resources == old(lru.resources)[id := Accessed(r)]
      ensures SizesAfterAccess(old(lru.resources[id]), old(liveSize), old(deadSize), liveSize, deadSize)
      ensures var j := LruIndexOf(fastLog2, lru.resources[id]);
        id in order.position && order.position[id] == (j, 0) && j < |lru.allResources| &&
        lru.allResources[j].head == Some(id)
      ensures OrderKept(old(order.position), order.position, id)
    {
      CountFirstAccess(lru.resources[id]);
      var resources, heads, next, prev, lists, position :=
        AccessResource(fastLog2, lru.resources, lru.allResources, lru.nextInList, lru.prevInList, id,
                       order.lists, order.position);
      lru, order := LruState(resources, heads, next, prev), LruOrder(lists, position);
    }

    /** `add`: a disabled cache adds nothing; otherwise the resource is
        entered under its URL in its session's map (created if need be),
        marked as in the cache and accessed. */
    method Add(id: ResourceId, session: nat, url: Url) returns (added: bool)
      requires Valid() && id in lru.resources
      requires lru.resources[id].accessCount == 0 ==>
        AdjustAllowed(if lru.resources[id].hasClients then liveSize else deadSize, Int32Of(lru.resources[id].size))
      modifies this`sessionResources, this`lru, this`order, this`liveSize, this`deadSize
      ensures Valid()
      ensures added == !disabled
      ensures !added ==>
        sessionResources == old(sessionResources) && lru == old(lru) && liveSize == old(liveSize) && deadSize == old(deadSize)
      ensures added ==>
        var entries := if session in old(sessionResources) then old(sessionResources[session]) else map[];
        var r := old(lru.resources[id]);
        sessionResources == old(sessionResources)[session := entries[url := id]] &&
        lru.resources == old(lru.resources)[id := Accessed(Cached(r))] &&
        SizesAfterAccess(Cached(r), old(liveSize), old(deadSize), liveSize, deadSize)
      ensures added ==>
        var j := LruIndexOf(fastLog2, lru.resources[id]);
        j < |lru.allResources| && lru.allResources[j].head == Some(id)
    {
      if disabled {
        return false;
      }
      var entries := if session in sessionResources then sessionResources[session] else map[];
      sessionResources := sessionResources[session := entries[url := id]];
      CacheAndAccess(id);
      return true;
    }

    /** The second half of `add`: `setInCache(true)` and then
        `resourceAccessed`. */
    method CacheAndAccess(id: ResourceId)
      requires Valid() && id in lru.resources
      requires lru.resources[id].accessCount == 0 ==>
        AdjustAllowed(if lru.resources[id].hasClients then liveSize else deadSize, Int32Of(lru.resources[id].size))
      modifies this`lru, this`order, this`liveSize, this`deadSize
      ensures Valid()
      ensures var r := old(lru.resources[id]);
        lru.resources == old(lru.resources)[id := Accessed(Cached(r))] &&
        SizesAfterAccess(Cached(r), old(liveSize), old(deadSize), liveSize, deadSize)
      ensures var j := LruIndexOf(fastLog2, lru.resources[id]);
        j < |lru.allResources| && lru.allResources[j].head == Some(id)
    {
      var r := Cached(lru.resources[id]);
      CacheInvUnlistedOrSame(fastLog2, lru.resources, order.lists, order.position, lru.allResources,
                             lru.nextInList, lru.prevInList, id, r);
      lru := LruState(lru.resources[id := r], lru.allResources, lru.nextInList, lru.prevInList);
      ghost var liveBefore, deadBefore := liveSize, deadSize;
      ResourceAccessed(id);
      assert SizesAfterAccess(r, liveBefore, deadBefore, liveSize, deadSize);
    }

    /** `deadCapacity` of the cache's own figures. */
    function DeadCapacityNow(): uint32
      reads this
    {
      DeadCapacity(capacity, liveSize, minDeadCapacity, maxDeadCapacity)
    }

    /** `liveCapacity` of the cache's own figures. */
    function LiveCapacityNow(): uint32
      reads this
    {
      LiveCapacity(capacity, liveSize, minDeadCapacity, maxDeadCapacity)
    }

    /** `pruneDeadResourcesToSize`: nothing while a prune is running or when
        a non-zero target is already met; otherwise the eviction sweep. */
    function PruneDeadResourcesToSize(targetSize: uint32): (r: seq<PrunePass>)
      reads this
      ensures r == [] || r == [DeadPass(targetSize)]
      ensures r != [] <==> !inPruneResources && (targetSize == 0 || deadSize > targetSize)
    {
      if inPruneResources then []
      else if targetSize != 0 && deadSize <= targetSize then []
      else [DeadPass(targetSize)]
    }

    /** `pruneDeadResources`: nothing when the dead resources fit a non-zero
        dead capacity; otherwise a sweep down to `cTargetPrunePercentage`
        of it. */
    function PruneDeadResources(): (r: seq<PrunePass>)
      reads this
    {
      var capacity := DeadCapacityNow();
      if capacity != 0 && deadSize <= capacity then []
      else PruneDeadResourcesToSize(PruneTarget(capacity))
    }

    /** `pruneLiveResourcesToSize`: nothing while a prune is running;
        otherwise the sweep over live decoded data. */
    function PruneLiveResourcesToSize(targetSize: uint32, destroyAll: bool): (r: seq<PrunePass>)
      reads this
      ensures r == [] || r == [LivePass(targetSize, destroyAll)]
      ensures r != [] <==> !inPruneResources
    {
      if inPruneResources then [] else [LivePass(targetSize, destroyAll)]
    }

    /** `pruneLiveResources`: against a capacity of 0 when all decoded data
        goes, else the live capacity; nothing when the live resources fit a
        non-zero capacity. */
    function PruneLiveResources(destroyAll: bool): (r: seq<PrunePass>)
      reads this
    {
      var capacity := if destroyAll then 0 else LiveCapacityNow();
      if capacity != 0 && liveSize <= capacity then []
      else PruneLiveResourcesToSize(PruneTarget(capacity), destroyAll)
    }

    /** `prune`: nothing on the fast path (the `unsigned` sum of the totals
        within the capacity and the dead total within its maximum);
        otherwise the dead resources first, then the live ones. */
    function Prune(): (r: seq<PrunePass>)
      reads this
    {
      if Wrap(liveSize + deadSize) <= capacity && deadSize <= maxDeadCapacity then []
      else PruneDeadResources() + PruneLiveResources(false)
    }

    /** `setCapacities`: the three bounds, which the source asserts are
        ordered, replace the old ones, and the cache is pruned. */
    method SetCapacities(minDeadBytes: uint32, maxDeadBytes: uint32, totalBytes: uint32) returns (passes: seq<PrunePass>)
      requires minDeadBytes <= maxDeadBytes <= totalBytes
      modifies this`minDeadCapacity, this`maxDeadCapacity, this`capacity
      ensures minDeadCapacity == minDeadBytes && maxDeadCapacity == maxDeadBytes && capacity == totalBytes
      ensures passes == Prune()
    {
      minDeadCapacity := minDeadBytes;
      maxDeadCapacity := maxDeadBytes;
      capacity := totalBytes;
      passes := Prune();
    }
  }

  /** Every sweep `prune` asks for aims strictly below its capacity, or at 0
      when that capacity is 0. */
  lemma PruneTargetsBelowCapacities(c: MemoryCache)
    ensures forall p :: p in c.Prune() && p.DeadPass? ==>
      p.target <= c.DeadCapacityNow() && (c.DeadCapacityNow() > 0 ==> p.target < c.DeadCapacityNow())
    ensures forall p :: p in c.Prune() && p.LivePass? ==>
      !p.destroyAll && p.target <= c.LiveCapacityNow() && (c.LiveCapacityNow() > 0 ==> p.target < c.LiveCapacityNow())
  {
    PruneTargetBelowCapacity(c.DeadCapacityNow());
    PruneTargetBelowCapacity(c.LiveCapacityNow());
  }

  /** On the fast path, or while a prune runs, `prune` does nothing. */
  lemma PruneIdle(c: MemoryCache)
    ensures Wrap(c.liveSize + c.deadSize) <= c.capacity && c.deadSize <= c.maxDeadCapacity ==> c.Prune() == []
    ensures c.inPruneResources ==> c.Prune() == []
  {
  }

  /** Off the fast path, with the bounds `setCapacities` asserts and totals
      whose sum does not wrap, `prune` always asks for a sweep: either the
      dead resources exceed the dead capacity or the live ones exceed the
      rest. */
  lemma PruneMakesProgress(c: MemoryCache)
    requires c.minDeadCapacity <= c.maxDeadCapacity <= c.capacity
    requires c.liveSize + c.deadSize < Uint32Limit && !c.inPruneResources
    requires !(Wrap(c.liveSize + c.deadSize) <= c.capacity && c.deadSize <= c.maxDeadCapacity)
    ensures c.Prune() != []
  {
    var dead, live := c.DeadCapacityNow(), c.LiveCapacityNow();
    CapacitiesAddUp(c.capacity, c.liveSize, c.minDeadCapacity, c.maxDeadCapacity);
    DeadCapacityClamped(c.capacity, c.liveSize, c.minDeadCapacity, c.maxDeadCapacity);
    if c.PruneDeadResources() == [] {
      assert dead != 0 && c.deadSize <= dead;
      assert c.liveSize > live;
    }
  }
}
