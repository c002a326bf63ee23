/**
 * `TyGL::Arena` (ArenaTyGL.h, ArenaTyGL.cpp): a bump allocator over a
 * singly linked chain of fixed-size blocks. `alloc` hands out the next
 * `size` bytes of the last block, or starts a new block when they do not
 * fit. A pointer into a block is modelled as the block and a byte offset;
 * the block's bytes themselves are not modelled.
 */
module ArenaTyGL {

  /** `sizeof(void*)` on the 64-bit targets TyGL is built for. */
  const PointerSize: int := 8

  /** `ARENA_BLOCK_SIZE`: a block and its link together take 2048 bytes. */
  const BlockSize: int := 2048 - PointerSize

  /** `ArenaElements`: one block of the chain. */
  class Block {
    var next: Block?

    constructor ()
      ensures next == null
    {
      next := null;
    }
  }

  /** Where `alloc` places a request of `size` bytes when the last block is
      filled to `fill`: whether a new block is started, the offset returned,
      and the new fill. */
  datatype Placement = Placement(newBlock: bool, offset: int, newFill: int)

  function Place(fill: int, size: int): (p: Placement)
    ensures p.newFill == p.offset + size
    ensures p.newBlock <==> fill + size > BlockSize
    ensures !p.newBlock ==> p.offset == fill
    ensures p.newBlock ==> p.offset == 0
  {
    if fill + size > BlockSize then Placement(true, 0, size) else Placement(false, fill, fill + size)
  }

  /** A request no larger than a block is placed inside a block, and the
      fill stays within the block. */
  lemma PlacementInBlock(fill: int, size: int)
    requires 0 <= fill <= BlockSize && 0 <= size <= BlockSize
    ensures 0 <= Place(fill, size).offset
    ensures Place(fill, size).offset + size <= BlockSize
    ensures 0 <= Place(fill, size).newFill <= BlockSize
  {
  }

  /** One allocation: the index of its block in the chain and its offset. */
  datatype Allocation = Allocation(blockIndex: nat, start: int, length: int)

  /** The allocations a run of requests receives, starting in block `block`
      filled to `fill`. */
  function Allocations(block: nat, fill: int, sizes: seq<int>): (r: seq<Allocation>)
    ensures |r| == |sizes|
    ensures forall i :: 0 <= i < |r| ==> r[i].length == sizes[i] && r[i].blockIndex >= block
    decreases |sizes|
  {
    if |sizes| == 0 then []
    else
      var p := Place(fill, sizes[0]);
      var b := if p.newBlock then block + 1 else block;
      [Allocation(b, p.offset, sizes[0])] + Allocations(b, p.newFill, sizes[1..])
  }

  /** The block the next request would go to, and its fill, after a run. */
  function FillAfter(block: nat, fill: int, sizes: seq<int>): (r: (nat, int))
    ensures r.0 >= block
    decreases |sizes|
  {
    if |sizes| == 0 then (block, fill)
    else
      var p := Place(fill, sizes[0]);
      FillAfter(if p.newBlock then block + 1 else block, p.newFill, sizes[1..])
  }

  /** Blocks are used in order and every allocation of a run of requests
      no larger than a block lies inside its block: allocations in the same
      block follow each other without overlap, starting where the earlier
      one ended or later. */
  lemma AllocationsDisjoint(block: nat, fill: int, sizes: seq<int>)
    requires 0 <= fill <= BlockSize
    requires forall i :: 0 <= i < |sizes| ==> 0 <= sizes[i] <= BlockSize
    ensures forall i :: 0 <= i < |sizes| ==>
      0 <= Allocations(block, fill, sizes)[i].start
      && Allocations(block, fill, sizes)[i].start + sizes[i] <= BlockSize
    ensures forall i, j :: 0 <= i < j < |sizes| ==>
      Allocations(block, fill, sizes)[i].blockIndex <= Allocations(block, fill, sizes)[j].blockIndex
    ensures forall i, j :: (0 <= i < j < |sizes|
        && Allocations(block, fill, sizes)[i].blockIndex == Allocations(block, fill, sizes)[j].blockIndex) ==>
      Allocations(block, fill, sizes)[i].start + sizes[i] <= Allocations(block, fill, sizes)[j].start
    ensures forall i :: 0 <= i < |sizes| && Allocations(block, fill, sizes)[i].blockIndex == block ==>
      fill <= Allocations(block, fill, sizes)[i].start
  {
    AllocationsLaidOut(block, fill, sizes);
  }

  /** The layout `AllocationsDisjoint` states, of allocations `all` for the
      requests `sizes` starting in block `block` filled to `fill`. */
  ghost predicate LaidOut(block: nat, fill: int, all: seq<Allocation>, sizes: seq<int>)
  {
    && |all| == |sizes|
    && (forall i :: 0 <= i < |all| ==> block <= all[i].blockIndex)
    && (forall i :: 0 <= i < |all| ==> 0 <= all[i].start && all[i].start + sizes[i] <= BlockSize)
    && (forall i, j :: 0 <= i < j < |all| ==> all[i].blockIndex <= all[j].blockIndex)
    && (forall i, j :: (0 <= i < j < |all| && all[i].blockIndex == all[j].blockIndex) ==>
          all[i].start + sizes[i] <= all[j].start)
    && (forall i :: 0 <= i < |all| && all[i].blockIndex == block ==> fill <= all[i].start)
  }

  lemma {:induction false} AllocationsLaidOut(block: nat, fill: int, sizes: seq<int>)
    requires 0 <= fill <= BlockSize
    requires forall i :: 0 <= i < |sizes| ==> 0 <= sizes[i] <= BlockSize
    ensures LaidOut(block, fill, Allocations(block, fill, sizes), sizes)
    decreases |sizes|
  {
    if |sizes| > 0 {
      var p := Place(fill, sizes[0]);
      var b := if p.newBlock then block + 1 else block;
      PlacementInBlock(fill, sizes[0]);
      AllocationsLaidOut(b, p.newFill, sizes[1..]);
      var rest := Allocations(b, p.newFill, sizes[1..]);
      assert Allocations(block, fill, sizes) == [Allocation(b, p.offset, sizes[0])] + rest;
      LaidOutCons(block, fill, sizes, Allocation(b, p.offset, sizes[0]), rest, p.newFill);
    }
  }

  /** An allocation placed before a laid-out run, and ending where the run's
      block is filled, extends the layout. */
  lemma LaidOutCons(block: nat, fill: int, sizes: seq<int>, head: Allocation, rest: seq<Allocation>, newFill: int)
    requires |sizes| > 0 && LaidOut(head.blockIndex, newFill, rest, sizes[1..])
    requires block <= head.blockIndex && (head.blockIndex == block ==> fill <= head.start)
    requires 0 <= sizes[0] && 0 <= head.start && head.start + sizes[0] <= newFill && head.start + sizes[0] <= BlockSize
    ensures LaidOut(block, fill, [head] + rest, sizes)
  {
    var all, tail := [head] + rest, sizes[1..];
    forall i | 0 < i < |all| ensures all[i] == rest[i - 1] && sizes[i] == tail[i - 1] { }
    forall i, j | 0 <= i < j < |all| ensures all[i].blockIndex <= all[j].blockIndex {
      if i > 0 {
        assert rest[i - 1].blockIndex <= rest[j - 1].blockIndex;
      }
    }
    forall i, j | 0 <= i < j < |all| && all[i].blockIndex == all[j].blockIndex
      ensures all[i].start + sizes[i] <= all[j].start
    {
      if i > 0 {
        assert rest[i - 1].start + tail[i - 1] <= rest[j - 1].start;
      } else {
        assert newFill <= rest[j - 1].start;
      }
    }
    forall i | 0 < i < |all| && all[i].blockIndex == block ensures fill <= all[i].start {
      assert head.blockIndex <= rest[i - 1].blockIndex;
      assert newFill <= rest[i - 1].start;
    }
  }

  /** Consecutive allocations in the same block are contiguous. */
  lemma ConsecutiveContiguous(fill: int, s1: int, s2: int)
    requires !Place(Place(fill, s1).newFill, s2).newBlock
    ensures Place(Place(fill, s1).newFill, s2).offset == Place(fill, s1).offset + s1
  {
  }

  class Arena {
    var first: Block?
    var last: Block
    var fill: int
    /** The blocks of the chain, from `first` to `last`. */
    ghost var chain: seq<Block>

    /** The chain is linked through `next`, starts at `first`, ends at `last`,
        and holds each block once. */
    ghost predicate Valid()
      reads this, chain
    {
      |chain| > 0
      && first == chain[0]
      && last == chain[|chain| - 1]
      && last.next == null
      && (forall i :: 0 <= i < |chain| - 1 ==> chain[i].next == chain[i + 1])
      && (forall i, j :: 0 <= i < j < |chain| ==> chain[i] != chain[j])
    }

    /** The fill lies within the last block. */
    ghost predicate InBounds()
      reads this
    {
      0 <= fill <= BlockSize
    }

    /** `Arena()`: one empty block. */
    constructor ()
      ensures Valid() && InBounds()
      ensures |chain| == 1 && fill == 0
      ensures fresh(chain[0])
    {
      var b := new Block();
      first := b;
      last := b;
      fill := 0;
      chain := [b];
    }

    /** `alloc(size)`: returns the block and offset of the allocation. */
    method Alloc(size: int) returns (block: Block, offset: int)
      requires Valid()
      modifies this, last
      ensures Valid()
      ensures Placement(|chain| > |old(chain)|, offset, fill) == Place(old(fill), size)
      ensures block == last
      ensures !Place(old(fill), size).newBlock ==> chain == old(chain) && last == old(last)
      ensures Place(old(fill), size).newBlock ==>
        fresh(last) && chain == old(chain) + [last] && old(last).next == last
      ensures first == old(first)
      ensures old(InBounds()) && 0 <= size <= BlockSize ==> InBounds() && offset + size <= BlockSize && 0 <= offset
    {
      if fill + size > BlockSize {
        var b := new Block();
        last.next := b;
        last := b;
        fill := 0;
        chain := chain + [b];
      }
      block, offset := last, fill;
      fill := fill + size;
    }

    /** `~Arena`: walks the chain from `first`, releasing each block, and
        returns the released blocks in order. */
    method Destroy() returns (released: seq<Block>)
      requires Valid()
      modifies this
      ensures released == old(chain)
      ensures first == null
    {
      released := [];
      var k := 0;
      while first != null
        invariant 0 <= k <= |chain|
        invariant chain == old(chain) && released == chain[..k]
        invariant first == (if k < |chain| then chain[k] else null)
        invariant forall i :: 0 <= i < |chain| - 1 ==> chain[i].next == chain[i + 1]
        invariant chain[|chain| - 1].next == null
        decreases |chain| - k
      {
        last := first;
        first := first.next;
        released := released + [last];
        k := k + 1;
      }
    }
  }
}
