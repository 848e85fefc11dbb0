/** The block allocator: objects in an arena, with the list of pointers to them kept in the same
    memory. */
module Allocator {
  import opened Arena
  import opened Collections
  import opened PointerLists

  // The size and alignment of a chunk on a 64-bit target: 32 pointers, two links and a count.
  const POINTERS_SIZE := 280
  const POINTERS_ALIGNMENT := 8

  // ---- What the regions are for ----

  /** Every region handed out is an object or a chunk, and none is both or twice. */
  ghost predicate Accounted(objects: seq<Region>, chunks: seq<Region>, regions: seq<Region>) {
    multiset(objects) + multiset(chunks) == multiset(regions)
  }

  lemma ObjectAccounted(objects: seq<Region>, chunks: seq<Region>, regions: seq<Region>, r: Region)
    requires Accounted(objects, chunks, regions)
    ensures Accounted(objects + [r], chunks, regions + [r])
  {
  }

  lemma ChunkAccounted(objects: seq<Region>, chunks: seq<Region>, regions: seq<Region>, r: Region)
    requires Accounted(objects, chunks, regions)
    ensures Accounted(objects, chunks + [r], regions + [r])
  {
  }

  /** A region apart from all others is not an object or chunk yet. */
  lemma ApartIsNew(objects: seq<Region>, chunks: seq<Region>, regions: seq<Region>, r: Region)
    requires Accounted(objects, chunks, regions) && r.size > 0
    requires forall s :: s in regions ==> Disjoint(s, r)
    ensures r !in objects && r !in chunks
  {
    assert r !in regions;
    assert r !in multiset(regions);
    assert r !in multiset(objects) && r !in multiset(chunks);
  }

  lemma OnceAmongDisjoint(regions: seq<Region>, r: Region)
    requires forall i, j :: 0 <= i < j < |regions| ==> Disjoint(regions[i], regions[j])
    requires r.size > 0
    ensures multiset(regions)[r] <= 1
  {
    if regions == [] {
    } else {
      var n := |regions| - 1;
      OnceAmongDisjoint(regions[..n], r);
      assert regions == regions[..n] + [regions[n]];
    }
  }

  lemma Distinct(regions: seq<Region>, blocks: seq<Block>, offset: nat, blockSize: nat, r: Region, s: Region)
    requires RegionsOk(regions, blocks, offset, blockSize) && r in regions && s in regions && r != s
    ensures Disjoint(r, s)
  {
    var i :| 0 <= i < |regions| && regions[i] == r;
    var j :| 0 <= j < |regions| && regions[j] == s;
    assert i < j ==> Disjoint(regions[i], regions[j]);
  }

  /** All regions handed out, the objects and the chunks among them, are apart from each other. */
  lemma AllApart(objects: seq<Region>, chunks: seq<Region>, regions: seq<Region>, blocks: seq<Block>, offset: nat,
                 blockSize: nat)
    requires Accounted(objects, chunks, regions) && RegionsOk(regions, blocks, offset, blockSize)
    ensures var all := objects + chunks;
            && (forall i :: 0 <= i < |all| ==> InBlock(all[i], blockSize) && all[i].block in blocks)
            && (forall i, j :: 0 <= i < j < |all| ==> Disjoint(all[i], all[j]))
  {
    var all := objects + chunks;
    assert multiset(all) == multiset(regions);
    forall i | 0 <= i < |all| ensures all[i] in regions {
      assert all[i] in multiset(all);
    }
    forall i, j | 0 <= i < j < |all| ensures Disjoint(all[i], all[j]) {
      if all[i] == all[j] {
        CountOfTwo(all, i, j);
        OnceAmongDisjoint(regions, all[i]);
        assert false;
      } else {
        Distinct(regions, blocks, offset, blockSize, all[i], all[j]);
      }
    }
  }

  datatype Request = Request(size: nat, alignment: nat)

  predicate AllFit(requests: seq<Request>, blockSize: nat) {
    forall i :: 0 <= i < |requests| ==> 1 <= requests[i].size <= blockSize && 0 < requests[i].alignment
  }

  /** How many objects the rounds from the k-th on create. */
  function Pending(plan: seq<seq<Request>>, k: nat): nat
    decreases |plan| - k
  {
    if k < |plan| then |plan[k]| + Pending(plan, k + 1) else 0
  }

  /** The regions are, one by one, what was asked for. */
  ghost predicate AsRequested(regions: seq<Region>, requests: seq<Request>) {
    && |regions| == |requests|
    && forall i :: 0 <= i < |regions| ==>
         regions[i].size == requests[i].size && regions[i].alignment == requests[i].alignment
  }

  /** What the first n rounds ask for. */
  ghost function Planned(plan: seq<seq<Request>>, n: nat): seq<Request> {
    if n == 0 then [] else Planned(plan, n - 1) + if n <= |plan| then plan[n - 1] else []
  }

  lemma RequestedMore(before: seq<Region>, after: seq<Region>, all: seq<Region>, first: seq<Request>,
                      second: seq<Request>)
    requires before <= after <= all
    requires AsRequested(after[|before|..], first) && AsRequested(all[|after|..], second)
    ensures AsRequested(all[|before|..], first + second) && |all| == |after| + |second|
  {
    assert all[|before|..] == after[|before|..] + all[|after|..];
  }

  lemma NothingRequested(objects: seq<Region>, requests: seq<Request>)
    ensures AsRequested(objects[|objects|..], requests[..0]) && AsRequested(objects[|objects|..], [])
  {
  }

  lemma NothingPlanned(plan: seq<seq<Request>>, objects: seq<Region>)
    ensures AsRequested(objects[|objects|..], Planned(plan, 0))
  {
  }

  lemma RequestedOne(before: seq<Region>, objects: seq<Region>, r: Region, requests: seq<Request>, i: nat)
    requires i < |requests| && before <= objects && AsRequested(objects[|before|..], requests[..i])
    requires r.size == requests[i].size && r.alignment == requests[i].alignment
    ensures before <= objects + [r] && AsRequested((objects + [r])[|before|..], requests[..i + 1])
  {
    assert (objects + [r])[|before|..] == objects[|before|..] + [r];
  }

  class BlockAllocator {
    var arena: Arena
    var list: PointerList
    var count: nat

    ghost predicate Valid()
      reads this, arena, arena.blocks, list
    {
      && arena.Valid() && list.Valid() && POINTERS_SIZE <= arena.blockSize
      && count == |list.Objects()| && Accounted(list.Objects(), list.chunks, arena.regions)
    }

    ghost function Repr(): set<object>
      reads this, arena
    {
      {this, arena, list} + set b | b in arena.blocks
    }

    /** In every valid allocator objects and chunks are apart, aligned and inside blocks. */
    lemma RegionsApart()
      requires Valid()
      ensures var all := list.Objects() + list.chunks;
              && (forall i :: 0 <= i < |all| ==> InBlock(all[i], arena.blockSize) && all[i].block in arena.blocks)
              && (forall i, j :: 0 <= i < j < |all| ==> Disjoint(all[i], all[j]))
    {
      hide PointerList.Valid, Flat;
      AllApart(list.Objects(), list.chunks, arena.regions, arena.blocks, arena.offset, arena.blockSize);
    }

    constructor (blockSize: nat)
      requires blockSize >= POINTERS_SIZE
      ensures Valid() && fresh(Repr()) && list.Objects() == [] && arena.blocks == [] && count == 0
      ensures arena.blockSize == blockSize
    {
      hide Arena.Valid, PointerList.Valid, Flat;
      arena := new Arena(blockSize);
      list := new PointerList();
      count := 0;
    }

    /** Adds an object just allocated to the last chunk, or to a new one. */
    method AddObjectPointer(r: Region)
      requires arena.Valid() && list.Valid() && POINTERS_SIZE <= arena.blockSize
      requires Accounted(list.Objects() + [r], list.chunks, arena.regions)
      modifies arena, arena.blocks, list
      ensures arena.Valid() && list.Valid() && Accounted(list.Objects(), list.chunks, arena.regions)
      ensures list.Objects() == old(list.Objects()) + [r]
      ensures old(arena.blocks) <= arena.blocks && forall b :: b in arena.blocks ==> b in old(arena.blocks) || fresh(b)
      ensures Grows(old(list.chunks), old(list.parts), list.chunks, list.parts)
    {
      hide Arena.Valid, PointerList.Open, PointerList.Ready, NoneEmpty, Flat, Grows, Accounted;
      list.ReadyOrNeedsChunk();
      GrowsFromItself(list.chunks, list.parts);
      if list.NeedsChunk() {
        ghost var regions := arena.regions;
        var region := arena.Allocate(POINTERS_SIZE, POINTERS_ALIGNMENT);
        ChunkAccounted(list.Objects() + [r], list.chunks, regions, region);
        ApartIsNew(list.Objects() + [r], list.chunks, regions, region);
        list.AddChunk(region);
      }
      ghost var chunks, parts := list.chunks, list.parts;
      list.Add(r);
      GrowsTwice(old(list.chunks), old(list.parts), chunks, parts, list.chunks, list.parts);
    }

    /** Makes room for an object and remembers it. */
    method Create(size: nat, alignment: nat) returns (r: Region)
      requires Valid() && 1 <= size <= arena.blockSize && 0 < alignment
      modifies Repr()
      ensures Valid() && fresh(Repr() - old(Repr())) && arena == old(arena) && list == old(list)
      ensures list.Objects() == old(list.Objects()) + [r] && count == old(count) + 1
      ensures r.size == size && r.alignment == alignment && r.block in arena.blocks && r !in old(list.Objects())
      ensures old(arena.blocks) <= arena.blocks && forall b :: b in arena.blocks ==> b in old(arena.blocks) || fresh(b)
      ensures Grows(old(list.chunks), old(list.parts), list.chunks, list.parts)
    {
      hide Arena.Valid, PointerList.Valid, Accounted, Flat, Grows;
      r := arena.Allocate(size, alignment);
      ApartIsNew(list.Objects(), list.chunks, old(arena.regions), r);
      ObjectAccounted(list.Objects(), list.chunks, old(arena.regions), r);
      AddObjectPointer(r);
      count := count + 1;
    }

    /** Destroys every object, once and in creation order, and frees every block, once. */
    method Reset() returns (destroyed: seq<Region>, freed: seq<Block>)
      requires Valid()
      modifies Repr()
      ensures Valid() && arena == old(arena) && list == old(list)
      ensures list.Objects() == [] && arena.blocks == [] && count == 0
      ensures destroyed == old(list.Objects()) && freed == old(arena.blocks)
      ensures forall b :: b in freed ==> !b.live
    {
      hide PointerList.Valid, Arena.Valid, Flat;
      destroyed := list.Walk();
      freed := arena.Reset();
      list.Clear();
      count := 0;
    }

    /** Exchanges all data with `rhs`. */
    method Swap(rhs: BlockAllocator)
      modifies this, rhs
      ensures arena == old(rhs.arena) && list == old(rhs.list) && count == old(rhs.count)
      ensures rhs.arena == old(arena) && rhs.list == old(list) && rhs.count == old(count)
    {
      arena, rhs.arena := rhs.arena, arena;
      list, rhs.list := rhs.list, list;
      count, rhs.count := rhs.count, count;
    }

    /** The move constructor: takes over all that `rhs` owns and leaves it empty. */
    constructor Move(rhs: BlockAllocator)
      requires rhs.Valid()
      modifies rhs
      ensures Valid() && rhs.Valid() && arena == old(rhs.arena) && list == old(rhs.list)
      ensures count == old(rhs.count) && list.Objects() == old(rhs.list.Objects())
      ensures arena.blocks == old(rhs.arena.blocks)
      ensures fresh(rhs.arena) && fresh(rhs.list)
      ensures rhs.list.Objects() == [] && rhs.arena.blocks == [] && rhs.count == 0
      ensures rhs.arena.blockSize == old(rhs.arena.blockSize)
    {
      hide PointerList.Valid, Arena.Valid, Flat;
      arena := new Arena(rhs.arena.blockSize);
      list := new PointerList();
      count := 0;
      new;
      Swap(rhs);
    }

    /** The move assignment: ends what this allocator owns and takes over what `rhs` owns. */
    method MoveAssign(rhs: BlockAllocator) returns (destroyed: seq<Region>, freed: seq<Block>)
      requires Valid() && rhs.Valid() && (this == rhs || Repr() !! rhs.Repr())
      modifies Repr(), rhs
      ensures Valid() && rhs.Valid()
      ensures this == rhs ==>
        && destroyed == [] && freed == [] && arena == old(arena) && list == old(list) && count == old(count)
        && list.Objects() == old(list.Objects()) && arena.blocks == old(arena.blocks)
      ensures this != rhs ==>
        && destroyed == old(list.Objects()) && freed == old(arena.blocks)
        && list.Objects() == old(rhs.list.Objects()) && arena.blocks == old(rhs.arena.blocks) && count == old(rhs.count)
        && rhs.list.Objects() == [] && rhs.arena.blocks == [] && rhs.count == 0
        && arena == old(rhs.arena) && list == old(rhs.list) && rhs.arena == old(arena) && rhs.list == old(list)
    {
      hide PointerList.Valid, Arena.Valid, Flat;
      destroyed, freed := [], [];
      if this != rhs {
        destroyed, freed := Reset();
        Swap(rhs);
      }
    }

    /** Creates objects one after the other. */
    method CreateAll(requests: seq<Request>)
      requires Valid() && AllFit(requests, arena.blockSize)
      modifies Repr()
      ensures Valid() && fresh(Repr() - old(Repr())) && arena == old(arena) && list == old(list)
      ensures old(list.Objects()) <= list.Objects()
      ensures AsRequested(list.Objects()[|old(list.Objects())|..], requests)
      ensures Grows(old(list.chunks), old(list.parts), list.chunks, list.parts)
    {
      hide PointerList.Valid, Arena.Valid, Flat, Grows, Accounted, AsRequested;
      NothingRequested(list.Objects(), requests);
      GrowsFromItself(list.chunks, list.parts);
      for i := 0 to |requests|
        invariant Valid() && fresh(Repr() - old(Repr())) && arena == old(arena) && list == old(list)
        invariant old(list.Objects()) <= list.Objects()
        invariant AsRequested(list.Objects()[|old(list.Objects())|..], requests[..i])
        invariant Grows(old(list.chunks), old(list.parts), list.chunks, list.parts)
      {
        ghost var chunks, parts, objects := list.chunks, list.parts, list.Objects();
        var r := Create(requests[i].size, requests[i].alignment);
        RequestedOne(old(list.Objects()), objects, r, requests, i);
        GrowsTwice(old(list.chunks), old(list.parts), chunks, parts, list.chunks, list.parts);
      }
      assert requests[..|requests|] == requests;
    }

    /** The k-th round of a loop whose rounds create objects, `start` being those there before the loop. */
    method Round(plan: seq<seq<Request>>, k: nat, ghost start: seq<Region>)
      requires Valid() && forall k :: 0 <= k < |plan| ==> AllFit(plan[k], arena.blockSize)
      requires start <= list.Objects() && AsRequested(list.Objects()[|start|..], Planned(plan, k))
      modifies Repr()
      ensures Valid() && fresh(Repr() - old(Repr())) && arena == old(arena) && list == old(list)
      ensures old(list.Objects()) <= list.Objects() && start <= list.Objects()
      ensures |list.Objects()| == |old(list.Objects())| + if k < |plan| then |plan[k]| else 0
      ensures AsRequested(list.Objects()[|start|..], Planned(plan, k + 1))
      ensures Grows(old(list.chunks), old(list.parts), list.chunks, list.parts)
    {
      hide PointerList.Valid, Arena.Valid, Flat, Grows, Accounted, AsRequested;
      ghost var objects := list.Objects();
      GrowsFromItself(list.chunks, list.parts);
      NothingRequested(objects, []);
      if k < |plan| {
        CreateAll(plan[k]);
      }
      RequestedMore(start, objects, list.Objects(), Planned(plan, k), if k < |plan| then plan[k] else []);
    }

    /** A loop over the objects whose k-th round creates the objects of plan[k]. It visits the objects in
        creation order, with those that it creates itself. */
    method WalkCreating(plan: seq<seq<Request>>) returns (seen: seq<Region>)
      requires Valid() && forall k :: 0 <= k < |plan| ==> AllFit(plan[k], arena.blockSize)
      modifies Repr()
      ensures Valid() && seen == list.Objects() && old(list.Objects()) <= seen
      ensures AsRequested(seen[|old(list.Objects())|..], Planned(plan, |seen|))
    {
      hide PointerList.Open, StandsAt, NoneEmpty, Arena.Valid, Flat, Grows, Accounted, AsRequested, Planned;
      seen := [];
      NothingPlanned(plan, list.Objects());
      var it := list.Begin();
      while it != END
        invariant Valid() && fresh(Repr() - old(Repr())) && arena == old(arena) && list == old(list)
        invariant |seen| <= |list.Objects()| && seen == list.Objects()[..|seen|] && list.At(it, |seen|)
        invariant old(list.Objects()) <= list.Objects()
        invariant AsRequested(list.Objects()[|old(list.Objects())|..], Planned(plan, |seen|))
        decreases Pending(plan, |seen|) + |list.Objects()| - |seen|
      {
        var r := list.Dereference(it);
        ghost var chunks, parts := list.chunks, list.parts;
        Round(plan, |seen|, old(list.Objects()));
        list.KeepsPlace(chunks, parts, it, |seen|);
        var next := list.Next(it);
        assert list.At(it, |seen|);
        it := next;
        seen := seen + [r];
      }
      list.AtEndAfterAll(|seen|);
    }
  }
}
