/** Several block allocators at work: what they do is a run of the lifetime model. */
module ManyAllocators {
  import opened Arena
  import opened Collections
  import opened PointerLists
  import opened Allocator
  import opened Lifetimes

  /** What can be seen of an allocator, and the memory it uses, is as it was. */
  twostate predicate AsBefore(a: BlockAllocator)
    reads a, a.arena, a.arena.blocks, a.list
  {
    && old(a.Valid()) && a.Valid() && a.Repr() == old(a.Repr()) && a.arena == old(a.arena)
    && a.list.Objects() == old(a.list.Objects()) && a.arena.blocks == old(a.arena.blocks) && a.count == old(a.count)
  }

  /** An allocator whose memory was not written to is as it was. */
  twostate lemma Untouched(a: BlockAllocator)
    requires old(a.Valid()) && unchanged(old(a.Repr()))
    ensures AsBefore(a)
  {
    hide Arena.Valid, PointerList.Valid, Flat, Accounted;
  }

  /** The states say the same of all allocators but those in `worked`. */
  ghost predicate SameBut(s: State, t: State, worked: set<nat>) {
    forall k: nat :: k < |s.counts| && k < |s.objects.held| && k < |s.blocks.held| && k !in worked ==>
      && k < |t.objects.held| && k < |t.blocks.held| && k < |t.counts|
      && s.objects.held[k] == t.objects.held[k] && s.blocks.held[k] == t.blocks.held[k] && s.counts[k] == t.counts[k]
  }

  lemma AfterReset(s: State, i: nat)
    requires Enabled(s, Step.Reset(i))
    ensures var t := StateAfter(s, Step.Reset(i));
            && |t.objects.held| == |t.blocks.held| == |t.counts| == |s.counts| && t.blocks.made == s.blocks.made
            && t.objects.held[i] == [] && t.blocks.held[i] == [] && t.counts[i] == 0
            && t.objects.ended == s.objects.ended + s.objects.held[i]
            && t.blocks.ended == s.blocks.ended + s.blocks.held[i]
            && SameBut(s, t, {i})
  {
  }

  lemma AfterCreate(s: State, i: nat, r: Region, blocks: seq<Block>)
    requires Enabled(s, Step.Create(i, r, blocks))
    ensures var t := StateAfter(s, Step.Create(i, r, blocks));
            && |t.objects.held| == |t.blocks.held| == |t.counts| == |s.counts|
            && t.blocks.made == s.blocks.made + blocks
            && t.objects.held[i] == s.objects.held[i] + [r] && t.blocks.held[i] == s.blocks.held[i] + blocks
            && t.counts[i] == s.counts[i] + 1
            && SameBut(s, t, {i})
  {
  }

  /** What `from` had is now had by `to`, which may be new, and nothing else changed hands. */
  ghost predicate HandedOver(s: State, t: State, from: nat, to: nat) {
    && from < |s.counts| == |s.objects.held| == |s.blocks.held|
    && from < |t.counts| == |t.objects.held| == |t.blocks.held| && to < |t.counts| && from != to
    && t.objects.held[to] == s.objects.held[from] && t.objects.held[from] == []
    && t.blocks.held[to] == s.blocks.held[from] && t.blocks.held[from] == []
    && t.counts[to] == s.counts[from] && t.counts[from] == 0
    && t.blocks.made == s.blocks.made && SameBut(s, t, {from, to})
  }

  lemma AfterMoveConstruct(s: State, from: nat)
    requires Enabled(s, Step.MoveConstruct(from))
    ensures var t := StateAfter(s, Step.MoveConstruct(from));
            |t.counts| == |s.counts| + 1 && HandedOver(s, t, from, |s.counts|)
  {
  }

  lemma AfterMoveAssign(s: State, to: nat, from: nat)
    requires Enabled(s, Step.MoveAssign(to, from))
    ensures var t := StateAfter(s, Step.MoveAssign(to, from));
            if to == from then t == s
            else
              && |t.counts| == |s.counts| && HandedOver(s, t, from, to)
              && t.objects.ended == s.objects.ended + s.objects.held[to]
              && t.blocks.ended == s.blocks.ended + s.blocks.held[to]
  {
  }

  lemma MadeOnce(s: State)
    requires Good(s)
    ensures Unique(s.blocks.made)
  {
  }

  /** The blocks an allocator gained are new. */
  lemma NewBlocksUnique(a: BlockAllocator, before: seq<Block>, made: seq<Block>, repr: set<object>)
    requires a.Valid() && before <= a.arena.blocks && Unique(made)
    requires forall b :: b in a.arena.blocks ==> b in before || b !in repr
    requires forall b :: b in made ==> b in repr
    ensures Unique(made + a.arena.blocks[|before|..])
  {
    hide PointerList.Valid, Flat, Accounted, RegionsOk;
    var blocks, n := a.arena.blocks, |before|;
    forall j | n <= j < |blocks| ensures blocks[j] !in made {
      assert blocks[j] !in before;
    }
  }

  /** Allocators, and everything they ever made and ended. */
  class World {
    const blockSize: nat
    var allocators: seq<BlockAllocator>
    ghost var state: State
    ghost var repr: set<object>

    ghost predicate Owns(a: BlockAllocator)
      reads this, repr
    {
      a in repr && a.arena in repr && a.Repr() <= repr && this !in a.Repr()
    }

    /** The i-th allocator is as the state says. */
    ghost predicate Shown(i: nat)
      requires i < |allocators| == |state.objects.held| == |state.blocks.held| == |state.counts|
      requires Owns(allocators[i])
      reads this, repr
    {
      && allocators[i].Valid() && allocators[i].arena.blockSize == blockSize
      && state.objects.held[i] == allocators[i].list.Objects()
      && state.blocks.held[i] == allocators[i].arena.blocks
      && state.counts[i] == allocators[i].count
    }

    /** The state says what each allocator holds, and no memory is shared. */
    ghost predicate Valid()
      reads this, repr
    {
      && Good(state) && |allocators| == |state.objects.held| == |state.blocks.held| == |state.counts|
      && (forall i :: 0 <= i < |allocators| ==> Owns(allocators[i]))
      && (forall i :: 0 <= i < |allocators| ==> Shown(i))
      && (forall i, j :: 0 <= i < j < |allocators| ==> allocators[i].Repr() !! allocators[j].Repr())
      && (forall b :: b in state.blocks.made ==> b in repr)
    }

    constructor (blockSize: nat)
      requires blockSize >= POINTERS_SIZE
      ensures Valid() && state == INITIAL && this.blockSize == blockSize
    {
      this.blockSize := blockSize;
      allocators, state, repr := [], INITIAL, {};
    }

    /** An allocator that is as before is as the state says. */
    twostate lemma OtherShown(new i: nat, new j: nat, new k: nat)
      requires old(Valid()) && old(allocators) <= allocators && k < |old(allocators)| && k != i && k != j
      requires AsBefore(old(allocators)[k]) && SameBut(old(state), state, {i, j}) && old(repr) <= repr
      requires |allocators| == |state.objects.held| == |state.blocks.held| == |state.counts|
      ensures Owns(allocators[k]) && Shown(k) && allocators[k].Repr() == old(allocators[k].Repr())
    {
      hide BlockAllocator.Valid, Good;
      assert old(Owns(allocators[k]));
      assert old(Shown(k));
    }

    /** After work on allocators i and j, one of which may be new, it is enough to see that the state
        shows those. The memory they use now is in `was`, or new. */
    twostate lemma Restored(new i: nat, new j: nat, new was: set<object>)
      requires old(Valid()) && old(allocators) <= allocators && i < |allocators| && j < |allocators|
      requires |allocators| == |old(allocators)| || (|allocators| == |old(allocators)| + 1 && j == |old(allocators)|)
      requires forall k :: 0 <= k < |old(allocators)| && k != i && k != j ==>
                 AsBefore(old(allocators)[k]) && was !! old(allocators[k].Repr())
      requires Good(state) && |allocators| == |state.objects.held| == |state.blocks.held| == |state.counts|
      requires SameBut(old(state), state, {i, j}) && old(repr) <= repr
      requires forall b :: b in state.blocks.made ==> b in repr
      requires Owns(allocators[i]) && Owns(allocators[j]) && Shown(i) && Shown(j)
      requires i != j ==> allocators[i].Repr() !! allocators[j].Repr()
      requires forall o :: o in allocators[i].Repr() || o in allocators[j].Repr() ==> o in was || o !in old(repr)
      ensures Valid()
    {
      hide BlockAllocator.Valid, Good;
      hide AsBefore, SameBut;
      forall k | 0 <= k < |allocators| && k != i && k != j
        ensures Owns(allocators[k]) && Shown(k) && allocators[k].Repr() == old(allocators[k].Repr())
      {
        OtherShown(i, j, k);
      }
    }

    /** After work on one allocator it is enough to see that the state shows that one. */
    twostate lemma OneRestored(new i: nat)
      requires old(Valid()) && allocators == old(allocators) && i < |allocators|
      requires forall k :: 0 <= k < |allocators| && k != i ==> AsBefore(old(allocators)[k])
      requires Good(state) && |allocators| == |state.objects.held| == |state.blocks.held| == |state.counts|
      requires SameBut(old(state), state, {i}) && old(repr) <= repr
      requires forall b :: b in state.blocks.made ==> b in repr
      requires Owns(allocators[i]) && Shown(i)
      requires forall o :: o in allocators[i].Repr() ==> o in old(allocators[i].Repr()) || o !in old(repr)
      ensures Valid()
    {
      hide BlockAllocator.Valid, Good, AsBefore, World.Owns, World.Shown;
      Restored(i, i, old(allocators[i].Repr()));
    }

    /** Work on the memory of two allocators leaves the others alone. */
    twostate lemma OthersAsBefore(new i: nat, new j: nat, new touched: set<object>)
      requires old(Valid()) && i < |old(allocators)| && j < |old(allocators)|
      requires touched <= old(allocators[i].Repr()) + old(allocators[j].Repr()) + {this}
      requires forall o: object :: old(allocated(o)) && o !in touched ==> unchanged(o)
      ensures forall k :: 0 <= k < |old(allocators)| && k != i && k != j ==> AsBefore(old(allocators)[k])
    {
      hide BlockAllocator.Valid, AsBefore, Good;
      forall k | 0 <= k < |old(allocators)| && k != i && k != j ensures AsBefore(old(allocators)[k]) {
        assert old(Shown(k));
        assert old(Owns(allocators[k]));
        assert old(allocators[k].Repr() !! allocators[i].Repr());
        assert old(allocators[k].Repr() !! allocators[j].Repr());
        assert forall o :: o in old(allocators[k].Repr()) ==> o !in touched;
        Untouched(old(allocators)[k]);
      }
    }

    method Reset(i: nat) returns (destroyed: seq<Region>, freed: seq<Block>)
      requires Valid() && i < |allocators|
      modifies this, repr
      ensures Valid() && allocators == old(allocators)
      ensures state.objects.ended == old(state.objects.ended) + destroyed
      ensures state.blocks.ended == old(state.blocks.ended) + freed
      ensures Enabled(old(state), Step.Reset(i)) && state == StateAfter(old(state), Step.Reset(i))
    {
      hide Flat, Good, BlockAllocator.Valid, StateAfter, SameBut, AsBefore;
      GoodAfter(state, Step.Reset(i));
      AfterReset(state, i);
      assert Shown(i);
      assert Owns(allocators[i]);
      destroyed, freed := allocators[i].Reset();
      OthersAsBefore(i, i, old(allocators[i].Repr()));
      state := StateAfter(state, Step.Reset(i));
      OneRestored(i);
    }

    method New()
      requires Valid() && blockSize >= POINTERS_SIZE
      modifies this
      ensures Valid() && |allocators| == |old(allocators)| + 1 && old(allocators) <= allocators
      ensures Enabled(old(state), Step.New) && state == StateAfter(old(state), Step.New)
    {
      hide Flat, Good, BlockAllocator.Valid;
      GoodAfter(state, Step.New);
      var a := new BlockAllocator(blockSize);
      allocators := allocators + [a];
      repr := repr + a.Repr();
      state := StateAfter(state, Step.New);
      forall k | 0 <= k < |old(allocators)| ensures AsBefore(allocators[k]) {
        assert old(Shown(k));
        assert old(Owns(allocators[k]));
        Untouched(allocators[k]);
      }
      Restored(|old(allocators)|, |old(allocators)|, {});
    }

    method Create(i: nat, size: nat, alignment: nat) returns (r: Region)
      requires Valid() && i < |allocators| && 1 <= size <= blockSize && 0 < alignment
      modifies this, repr
      ensures Valid() && allocators == old(allocators)
      ensures old(allocators[i].arena.blocks) <= allocators[i].arena.blocks
      ensures var step := Step.Create(i, r, allocators[i].arena.blocks[|old(allocators[i].arena.blocks)|..]);
              Enabled(old(state), step) && state == StateAfter(old(state), step)
    {
      hide Flat, Good, BlockAllocator.Valid, StateAfter, SameBut, AsBefore;
      assert Shown(i);
      assert Owns(allocators[i]);
      var a := allocators[i];
      r := a.Create(size, alignment);
      OthersAsBefore(i, i, old(allocators[i].Repr()));
      ghost var made := a.arena.blocks[|old(a.arena.blocks)|..];
      ghost var step := Step.Create(i, r, made);
      MadeOnce(state);
      NewBlocksUnique(a, old(a.arena.blocks), state.blocks.made, repr);
      GoodAfter(state, step);
      AfterCreate(state, i, r, made);
      repr := repr + a.Repr();
      state := StateAfter(state, step);
      OneRestored(i);
    }

    /** Allocator a has what b had, and b has nothing left. */
    twostate predicate TookOver(new a: BlockAllocator, b: BlockAllocator)
      reads a, a.arena, a.arena.blocks, a.list, b, b.arena, b.arena.blocks, b.list
    {
      && a.Valid() && b.Valid() && a.arena.blockSize == b.arena.blockSize == old(b.arena.blockSize)
      && a.list.Objects() == old(b.list.Objects()) && a.arena.blocks == old(b.arena.blocks) && a.count == old(b.count)
      && b.list.Objects() == [] && b.arena.blocks == [] && b.count == 0
      && a.Repr() !! b.Repr()
    }

    twostate lemma TookOverApart(new a: BlockAllocator, b: BlockAllocator)
      requires TookOver(a, b)
      ensures a.Repr() !! b.Repr()
    {
    }

    /** Adds an allocator that took over from another one. */
    method Add(a: BlockAllocator, from: nat, ghost next: State)
      requires from < |allocators| && this !in a.Repr() + allocators[from].Repr()
      modifies this
      ensures allocators == old(allocators) + [a] && state == next && Owns(a) && Owns(allocators[from])
      ensures a.Repr() == old(a.Repr()) && allocators[from].Repr() == old(allocators[from].Repr())
      ensures repr == old(repr) + a.Repr() + allocators[from].Repr()
    {
      hide BlockAllocator.Valid;
      allocators := allocators + [a];
      repr := repr + a.Repr() + allocators[from].Repr();
      state := next;
    }

    lemma FieldsOf(i: nat)
      requires Valid() && i < |allocators|
      ensures allocators[i].Valid() && Owns(allocators[i]) && allocators[i].arena.blockSize == blockSize
    {
      hide BlockAllocator.Valid, Good;
      assert Shown(i);
    }

    /** Moves what one allocator owns to a new one. */
    method MoveOut(from: nat, ghost next: State)
      requires Valid() && from < |allocators|
      modifies this, allocators[from]
      ensures |allocators| == |old(allocators)| + 1 && old(allocators) <= allocators
      ensures state == next && old(repr) <= repr
      ensures var a := allocators[|old(allocators)|];
              && TookOver(a, allocators[from]) && Owns(a) && Owns(allocators[from])
              && forall o :: o in a.Repr() + allocators[from].Repr() ==>
                  o in old(allocators[from].Repr()) || o !in old(repr)
    {
      hide Flat, Good, BlockAllocator.Valid, World.Shown;
      FieldsOf(from);
      var a := new BlockAllocator.Move(allocators[from]);
      Add(a, from, next);
    }

    /** After what one allocator had has moved to another one, it is enough that all others are as before. */
    twostate lemma HandedOverShown(new from: nat, new to: nat)
      requires old(Valid()) && HandedOver(old(state), state, from, to)
      requires |allocators| == |state.counts| && old(allocators) <= allocators && from < |old(allocators)|
      requires TookOver(allocators[to], old(allocators)[from]) && Owns(allocators[to]) && Owns(allocators[from])
      ensures Shown(from) && Shown(to)
    {
      hide BlockAllocator.Valid, Good, SameBut, World.Owns;
      assert old(Shown(from));
    }

    twostate lemma MoveConstructRestored(new from: nat, new to: nat)
      requires old(Valid()) && HandedOver(old(state), state, from, to) && Good(state) && old(repr) <= repr
      requires |allocators| == |state.counts| == to + 1 && to == |old(allocators)| && from < to
      requires old(allocators) <= allocators
      requires forall k :: 0 <= k < to && k != from ==> AsBefore(old(allocators)[k])
      requires Owns(allocators[to]) && Owns(allocators[from]) && Shown(from) && Shown(to)
      requires allocators[from].Repr() !! allocators[to].Repr()
      requires forall o :: o in allocators[to].Repr() + allocators[from].Repr() ==>
                 o in old(allocators[from].Repr()) || o !in old(repr)
      ensures Valid()
    {
      hide BlockAllocator.Valid, Good, SameBut, AsBefore, World.Owns, World.Shown;
      Restored(from, to, old(allocators[from].Repr()));
    }

    method MoveConstruct(from: nat)
      requires Valid() && from < |allocators|
      modifies this, repr
      ensures Valid() && |allocators| == |old(allocators)| + 1 && old(allocators) <= allocators
      ensures Enabled(old(state), Step.MoveConstruct(from)) && state == StateAfter(old(state), Step.MoveConstruct(from))
    {
      hide Flat, Good, BlockAllocator.Valid, StateAfter, HandedOver, TookOver, AsBefore, World.Shown;
      assert Owns(allocators[from]);
      GoodAfter(state, Step.MoveConstruct(from));
      AfterMoveConstruct(state, from);
      MoveOut(from, StateAfter(state, Step.MoveConstruct(from)));
      TookOverApart(allocators[|old(allocators)|], allocators[from]);
      HandedOverShown(from, |old(allocators)|);
      OthersAsBefore(from, from, old(allocators[from].Repr()) + {this});
      MoveConstructRestored(from, |old(allocators)|);
    }

    /** Moves what one allocator owns to another one. */
    method MoveOver(to: nat, from: nat, ghost next: State) returns (destroyed: seq<Region>, freed: seq<Block>)
      requires Valid() && to < |allocators| && from < |allocators| && to != from
      modifies `state, allocators[to].Repr(), allocators[from]
      ensures destroyed == old(state.objects.held[to]) && freed == old(state.blocks.held[to]) && state == next
      ensures TookOver(allocators[to], allocators[from]) && Owns(allocators[to]) && Owns(allocators[from])
      ensures allocators[to].Repr() + allocators[from].Repr() <=
              old(allocators[to].Repr()) + old(allocators[from].Repr())
    {
      hide Flat, Good, BlockAllocator.Valid;
      assert Shown(from) && Shown(to);
      assert Owns(allocators[from]) && Owns(allocators[to]);
      destroyed, freed := allocators[to].MoveAssign(allocators[from]);
      state := next;
    }

    twostate lemma MoveAssignRestored(new from: nat, new to: nat)
      requires old(Valid()) && HandedOver(old(state), state, from, to) && Good(state) && repr == old(repr)
      requires |allocators| == |state.counts| && allocators == old(allocators)
      requires forall k :: 0 <= k < |allocators| && k != from && k != to ==> AsBefore(old(allocators)[k])
      requires Owns(allocators[to]) && Owns(allocators[from]) && Shown(from) && Shown(to)
      requires allocators[from].Repr() !! allocators[to].Repr()
      requires allocators[to].Repr() + allocators[from].Repr() <=
               old(allocators[to].Repr()) + old(allocators[from].Repr())
      ensures Valid()
    {
      hide BlockAllocator.Valid, Good, SameBut, AsBefore, World.Owns, World.Shown;
      Restored(from, to, old(allocators[to].Repr()) + old(allocators[from].Repr()));
    }

    method MoveBetween(to: nat, from: nat) returns (destroyed: seq<Region>, freed: seq<Block>)
      requires Valid() && to < |allocators| && from < |allocators| && to != from
      modifies this, repr
      ensures Valid() && allocators == old(allocators)
      ensures state.objects.ended == old(state.objects.ended) + destroyed
      ensures state.blocks.ended == old(state.blocks.ended) + freed
      ensures Enabled(old(state), Step.MoveAssign(to, from))
      ensures state == StateAfter(old(state), Step.MoveAssign(to, from))
    {
      hide Flat, Good, BlockAllocator.Valid, StateAfter, HandedOver, TookOver, AsBefore, World.Shown;
      assert Owns(allocators[from]);
      assert Owns(allocators[to]);
      GoodAfter(state, Step.MoveAssign(to, from));
      AfterMoveAssign(state, to, from);
      destroyed, freed := MoveOver(to, from, StateAfter(state, Step.MoveAssign(to, from)));
      TookOverApart(allocators[to], allocators[from]);
      HandedOverShown(from, to);
      OthersAsBefore(from, to, old(allocators[from].Repr()) + old(allocators[to].Repr()) + {this});
      MoveAssignRestored(from, to);
    }

    method MoveToItself(i: nat) returns (destroyed: seq<Region>, freed: seq<Block>)
      requires Valid() && i < |allocators|
      modifies allocators[i].Repr()
      ensures Valid() && destroyed == [] && freed == []
    {
      hide Flat, Good, BlockAllocator.Valid;
      assert Shown(i);
      assert Owns(allocators[i]);
      destroyed, freed := allocators[i].MoveAssign(allocators[i]);
      OthersAsBefore(i, i, old(allocators[i].Repr()));
      OneRestored(i);
    }

    method MoveAssign(to: nat, from: nat) returns (destroyed: seq<Region>, freed: seq<Block>)
      requires Valid() && to < |allocators| && from < |allocators|
      modifies this, repr
      ensures Valid() && allocators == old(allocators)
      ensures state.objects.ended == old(state.objects.ended) + destroyed
      ensures state.blocks.ended == old(state.blocks.ended) + freed
      ensures Enabled(old(state), Step.MoveAssign(to, from))
      ensures state == StateAfter(old(state), Step.MoveAssign(to, from))
    {
      hide Flat, Good, BlockAllocator.Valid, StateAfter;
      assert Owns(allocators[to]);
      AfterMoveAssign(state, to, from);
      if to == from {
        destroyed, freed := MoveToItself(to);
      } else {
        destroyed, freed := MoveBetween(to, from);
      }
    }
  }
}
