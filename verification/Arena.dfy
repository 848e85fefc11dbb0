/** The bump allocation of memory out of a list of equally sized blocks. */
module Arena {
  import opened Collections

  // ---- Alignment ----

  ghost predicate IsMultiple(value: int, alignment: int) { exists k :: value == k * alignment }

  /** Rounds value up to a multiple of alignment. */
  function RoundUp(alignment: nat, value: nat): nat
    requires alignment > 0
  {
    ((value + alignment - 1) / alignment) * alignment
  }

  /** RoundUp yields the least multiple that is not below the value. */
  lemma RoundUpIsLeast(alignment: nat, value: nat)
    requires alignment > 0
    ensures var r := RoundUp(alignment, value);
            && IsMultiple(r, alignment) && value <= r < value + alignment
            && forall m :: IsMultiple(m, alignment) && value <= m ==> r <= m
  {
    var k := (value + alignment - 1) / alignment;
    DivBounds(value + alignment - 1, alignment);
    forall m | IsMultiple(m, alignment) && value <= m ensures k * alignment <= m {
      var j :| m == j * alignment;
      if j < k {
        ProductGrows(j, k - 1, alignment);
      } else {
        ProductGrows(k, j, alignment);
      }
    }
  }

  lemma ZeroIsMultiple(d: int)
    ensures IsMultiple(0, d)
  {
    assert 0 == 0 * d;
  }

  lemma SumOfMultiples(a: int, b: int, d: int)
    requires IsMultiple(a, d) && IsMultiple(b, d)
    ensures IsMultiple(a + b, d)
  {
    var j :| a == j * d;
    var k :| b == k * d;
    assert a + b == (j + k) * d;
  }

  lemma MultipleOfMultiple(a: int, b: int, d: int)
    requires IsMultiple(a, b) && IsMultiple(b, d)
    ensures IsMultiple(a, d)
  {
    var j :| a == j * b;
    var k :| b == k * d;
    assert a == j * (k * d) == (j * k) * d;
  }

  // ---- Regions ----

  /** A block of memory on the heap. `live` falls when it is deleted. */
  class Block {
    var next: Block?
    var live: bool

    constructor ()
      ensures next == null && live
    {
      next, live := null, true;
    }

    method Delete()
      requires live
      modifies this`live
      ensures !live
    {
      live := false;
    }
  }

  /** A piece of a block: `size` bytes from `offset`. */
  datatype Region = Region(block: Block, offset: nat, size: nat, alignment: nat)

  predicate Disjoint(r: Region, s: Region) {
    r.block != s.block || r.offset + r.size <= s.offset || s.offset + s.size <= r.offset
  }

  ghost predicate InBlock(r: Region, blockSize: nat) {
    r.size > 0 && r.offset + r.size <= blockSize && IsMultiple(r.offset, r.alignment)
  }

  /** Regions lie in known blocks, aligned and apart from each other, and below the offset in the
      current block. */
  ghost predicate RegionsOk(regions: seq<Region>, blocks: seq<Block>, offset: nat, blockSize: nat) {
    && (forall i :: 0 <= i < |regions| ==> InBlock(regions[i], blockSize) && regions[i].block in blocks)
    && (forall i, j :: 0 <= i < j < |regions| ==> Disjoint(regions[i], regions[j]))
    && (forall i :: 0 <= i < |regions| && blocks != [] && regions[i].block == blocks[|blocks| - 1] ==>
         regions[i].offset + regions[i].size <= offset)
  }

  /** A region's address is aligned, since blocks are aligned to a multiple of its alignment. */
  lemma AddressIsAligned(r: Region, base: int, blockSize: nat, blockAlignment: int)
    requires InBlock(r, blockSize) && IsMultiple(base, blockAlignment) && IsMultiple(blockAlignment, r.alignment)
    ensures IsMultiple(base + r.offset, r.alignment)
  {
    MultipleOfMultiple(base, blockAlignment, r.alignment);
    SumOfMultiples(base, r.offset, r.alignment);
  }

  ghost predicate Linked(blocks: seq<Block>)
    reads blocks
  {
    && (forall i, j :: 0 <= i < j < |blocks| ==> blocks[i] != blocks[j])
    && (forall i, j :: 0 <= i < j < |blocks| && j == i + 1 ==> blocks[i].next == blocks[j])
    && (blocks != [] ==> blocks[|blocks| - 1].next == null)
    && (forall i :: 0 <= i < |blocks| ==> blocks[i].live)
  }

  lemma OffsetMayGrow(regions: seq<Region>, blocks: seq<Block>, offset: nat, next: nat, blockSize: nat)
    requires RegionsOk(regions, blocks, offset, blockSize) && offset <= next
    ensures RegionsOk(regions, blocks, next, blockSize)
  {
    hide Disjoint, InBlock;
  }

  lemma BumpKeepsRegions(regions: seq<Region>, blocks: seq<Block>, offset: nat, blockSize: nat, r: Region)
    requires RegionsOk(regions, blocks, offset, blockSize) && InBlock(r, blockSize)
    requires blocks != [] && r.block == blocks[|blocks| - 1] && offset <= r.offset
    ensures RegionsOk(regions + [r], blocks, r.offset + r.size, blockSize)
  {
  }

  lemma ApartFromLast(regions: seq<Region>, r: Region, blocks: seq<Block>, offset: nat, blockSize: nat)
    requires RegionsOk(regions + [r], blocks, offset, blockSize)
    ensures forall s :: s in regions ==> Disjoint(s, r)
  {
    var all := regions + [r];
    forall s | s in regions ensures Disjoint(s, r) {
      var i :| 0 <= i < |regions| && regions[i] == s;
      assert all[i] == s && all[|regions|] == r;
    }
  }

  lemma NewBlockKeepsRegions(regions: seq<Region>, blocks: seq<Block>, offset: nat, blockSize: nat, b: Block)
    requires RegionsOk(regions, blocks, offset, blockSize) && b !in blocks
    ensures RegionsOk(regions, blocks + [b], 0, blockSize)
  {
    var bs := blocks + [b];
    forall i | 0 <= i < |regions| ensures regions[i].block in bs && regions[i].block != b {
      assert regions[i].block in blocks;
    }
    assert bs[|bs| - 1] == b;
  }

  /** The list of blocks and the place of the next allocation. */
  class Arena {
    const blockSize: nat
    var root: Block?
    var current: Block?
    var offset: nat
    ghost var blocks: seq<Block>
    ghost var regions: seq<Region>

    ghost predicate Valid()
      reads this, blocks
    {
      && Linked(blocks)
      && (if blocks == [] then root == null && current == null && offset == blockSize
          else root == blocks[0] && current == blocks[|blocks| - 1])
      && RegionsOk(regions, blocks, offset, blockSize)
    }

    constructor (blockSize: nat)
      ensures Valid() && this.blockSize == blockSize && blocks == [] && regions == []
    {
      this.blockSize := blockSize;
      root, current, offset := null, null, blockSize;
      blocks, regions := [], [];
    }

    /** Links a new block at the end and moves to its start. */
    method AddBlock()
      requires Linked(blocks) && RegionsOk(regions, blocks, offset, blockSize)
      requires if blocks == [] then root == null && current == null
               else root == blocks[0] && current == blocks[|blocks| - 1]
      modifies this, blocks
      ensures Valid() && current != null && offset == 0 && regions == old(regions)
      ensures |blocks| > 0 && blocks[..|blocks| - 1] == old(blocks) && fresh(blocks[|blocks| - 1])
    {
      var previous := current;
      var b := new Block();
      NewBlockKeepsRegions(regions, blocks, offset, blockSize, b);
      current := b;
      offset := 0;
      if previous != null {
        previous.next := b;
      } else {
        root := b;
      }
      blocks := blocks + [b];
    }

    /** Hands out the next aligned piece of the current block, or of a new one. */
    method Allocate(size: nat, alignment: nat) returns (r: Region)
      requires Valid() && 1 <= size <= blockSize && 0 < alignment
      modifies this, blocks
      ensures Valid() && regions == old(regions) + [r]
      ensures r.size == size && r.alignment == alignment && r.block in blocks && offset == r.offset + size
      ensures forall s :: s in old(regions) ==> Disjoint(s, r)
      ensures var at := RoundUp(alignment, old(offset));
              if at + size <= blockSize then
                blocks == old(blocks) && r.block == old(current) && r.offset == at
              else
                && |blocks| > 0 && blocks[..|blocks| - 1] == old(blocks) && fresh(blocks[|blocks| - 1])
                && r.block == blocks[|blocks| - 1] && r.offset == 0
    {
      hide Linked, RegionsOk, IsMultiple, RoundUp, Disjoint;
      RoundUpIsLeast(alignment, offset);
      ZeroIsMultiple(alignment);
      OffsetMayGrow(regions, blocks, offset, RoundUp(alignment, offset), blockSize);
      offset := RoundUp(alignment, offset);
      if offset + size > blockSize {
        AddBlock();
      }
      r := Region(current, offset, size, alignment);
      BumpKeepsRegions(regions, blocks, offset, blockSize, r);
      ApartFromLast(regions, r, blocks, offset + size, blockSize);
      offset := offset + size;
      regions := regions + [r];
    }

    method FreeBlocks() returns (freed: seq<Block>)
      requires Linked(blocks) && if blocks == [] then root == null else root == blocks[0]
      modifies blocks
      ensures freed == blocks && forall b :: b in freed ==> !b.live
    {
      freed := [];
      var block := root;
      while block != null
        invariant |freed| <= |blocks| && freed == blocks[..|freed|]
        invariant block == if |freed| < |blocks| then blocks[|freed|] else null
        invariant forall i :: 0 <= i < |blocks| ==> blocks[i].next == old(blocks[i].next)
        invariant forall i :: 0 <= i < |blocks| ==> blocks[i].live == (|freed| <= i)
        decreases |blocks| - |freed|
      {
        var next := block.next;
        block.Delete();
        freed := freed + [block];
        block := next;
      }
    }

    /** Deletes every block, once, and starts over. */
    method Reset() returns (freed: seq<Block>)
      requires Valid()
      modifies this, blocks
      ensures Valid() && blocks == [] && regions == []
      ensures freed == old(blocks) && forall b :: b in freed ==> !b.live
    {
      freed := FreeBlocks();
      root, current, offset := null, null, blockSize;
      blocks, regions := [], [];
    }
  }
}
