/** The owning pointers OneOf and Optional: what they own, and that they behave like plain values. */
module OwningCells {
  import opened Collections
  import opened Results

  // ---- The heap ----

  datatype Flavour = OneOf | Optional

  // The kind of a OneOf with no value.
  const NO_KIND := 0xff

  /** A OneOf or an Optional: an owned pointer, and for a OneOf the index of the pointee's type. The
      kind of an Optional is that of its only type, 0. */
  datatype Cell = Cell(flavour: Flavour, kind: nat, ptr: Option<nat>)

  /** The pointer of a cell; a OneOf without a kind has none for any of its types. */
  function Get(c: Cell): Option<nat> {
    if c.kind == NO_KIND then None else c.ptr
  }

  function EmptyCell(flavour: Flavour): Cell {
    Cell(flavour, if flavour == OneOf then NO_KIND else 0, None)
  }

  /** What `new` makes: a struct of some type, with the cells that are its members. */
  datatype Payload = Payload(kind: nat, value: int, cells: seq<Cell>)

  type Memory = map<nat, Payload>

  // ---- What cells hold ----

  /** The value under a cell, with the addresses of the payloads that make it up. */
  datatype Slot = Slot(flavour: Flavour, kind: nat, content: Option<Tree>)

  datatype Tree = Tree(addr: nat, kind: nat, value: int, kids: seq<Slot>)

  /** A value without its addresses. */
  datatype Value = Value(flavour: Flavour, kind: nat, content: Option<Struct>)

  datatype Struct = Struct(kind: nat, value: int, members: seq<Value>)

  function Plain(s: Slot): Value {
    Value(s.flavour, s.kind, if s.content.Some? then Some(PlainTree(s.content.value)) else None)
  }

  function PlainTree(t: Tree): Struct {
    Struct(t.kind, t.value, PlainAll(t.kids))
  }

  function PlainAll(slots: seq<Slot>): (values: seq<Value>)
    ensures |values| == |slots| && forall i :: 0 <= i < |slots| ==> values[i] == Plain(slots[i])
  {
    if slots == [] then [] else PlainAll(slots[..|slots| - 1]) + [Plain(slots[|slots| - 1])]
  }

  /** The addresses owned, directly and further down, each as often as it is owned. */
  function Owned(s: Slot): multiset<nat> {
    if s.content.Some? then OwnedByTree(s.content.value) else multiset{}
  }

  function OwnedByTree(t: Tree): multiset<nat> {
    multiset{t.addr} + OwnedByAll(t.kids)
  }

  function OwnedByAll(slots: seq<Slot>): multiset<nat> {
    if slots == [] then multiset{} else OwnedByAll(slots[..|slots| - 1]) + Owned(slots[|slots| - 1])
  }

  /** The cell holds the slot's value; its kind is the type of what it points to. */
  ghost predicate Holds(m: Memory, c: Cell, s: Slot)
    decreases s
  {
    && c.flavour == s.flavour && c.kind == s.kind && (c.flavour == Optional ==> c.kind == 0)
    && match s.content
       case None => c.ptr == None
       case Some(t) => c.ptr == Some(t.addr) && c.kind == t.kind != NO_KIND && HoldsTree(m, t)
  }

  ghost predicate HoldsTree(m: Memory, t: Tree)
    decreases t
  {
    && t.addr in m && m[t.addr].kind == t.kind && m[t.addr].value == t.value
    && HoldAll(m, m[t.addr].cells, t.kids)
  }

  ghost predicate HoldAll(m: Memory, cells: seq<Cell>, slots: seq<Slot>)
    decreases slots
  {
    |cells| == |slots| && forall i :: 0 <= i < |slots| ==> Holds(m, cells[i], slots[i])
  }

  // ---- Frames ----

  lemma {:induction false} HoldsKept(m: Memory, m': Memory, c: Cell, s: Slot)
    requires Holds(m, c, s)
    requires forall a :: a in Owned(s) && a in m ==> a in m' && m'[a] == m[a]
    ensures Holds(m', c, s)
    decreases s
  {
    if s.content.Some? {
      TreeKept(m, m', s.content.value);
    }
  }

  lemma {:induction false} TreeKept(m: Memory, m': Memory, t: Tree)
    requires HoldsTree(m, t)
    requires forall a :: a in OwnedByTree(t) && a in m ==> a in m' && m'[a] == m[a]
    ensures HoldsTree(m', t)
    decreases t
  {
    assert t.addr in OwnedByTree(t);
    AllKept(m, m', m[t.addr].cells, t.kids);
  }

  lemma {:induction false} OwnedByOne(slots: seq<Slot>, i: nat)
    requires i < |slots|
    ensures Owned(slots[i]) <= OwnedByAll(slots)
  {
    if i == |slots| - 1 {
    } else {
      OwnedByOne(slots[..|slots| - 1], i);
    }
  }

  lemma {:induction false} AllKept(m: Memory, m': Memory, cells: seq<Cell>, slots: seq<Slot>)
    requires HoldAll(m, cells, slots)
    requires forall a :: a in OwnedByAll(slots) && a in m ==> a in m' && m'[a] == m[a]
    ensures HoldAll(m', cells, slots)
    decreases slots
  {
    forall i | 0 <= i < |slots| ensures Holds(m', cells[i], slots[i]) {
      OwnedByOne(slots, i);
      HoldsKept(m, m', cells[i], slots[i]);
    }
  }

  lemma OwnedAppend(slots: seq<Slot>, s: Slot)
    ensures OwnedByAll(slots + [s]) == OwnedByAll(slots) + Owned(s)
  {
    assert (slots + [s])[..|slots|] == slots;
  }

  // ---- Counting addresses ----

  ghost predicate Within(m: Memory, m': Memory) {
    forall a :: a in m ==> a in m' && m'[a] == m[a]
  }

  lemma DestroyedOne(k0: set<nat>, k1: set<nat>, k2: set<nat>, slots: seq<Slot>, i: nat)
    requires i < |slots|
    requires multiset(k1) + OwnedByAll(slots) == multiset(k0) + OwnedByAll(slots[..i + 1])
    requires multiset(k2) + Owned(slots[i]) == multiset(k1)
    ensures multiset(k2) + OwnedByAll(slots) == multiset(k0) + OwnedByAll(slots[..i])
  {
    assert slots[..i + 1] == slots[..i] + [slots[i]];
    OwnedAppend(slots[..i], slots[i]);
    CancelMiddle(multiset(k2), Owned(slots[i]), OwnedByAll(slots), multiset(k0), OwnedByAll(slots[..i]));
  }

  lemma OwnedPrefix(slots: seq<Slot>, i: nat)
    requires i < |slots|
    ensures OwnedByAll(slots[..i + 1]) == OwnedByAll(slots[..i]) + Owned(slots[i])
  {
    assert slots[..i + 1] == slots[..i] + [slots[i]];
    OwnedAppend(slots[..i], slots[i]);
  }

  lemma Spared(before: set<nat>, after: set<nat>, kept: multiset<nat>, gone: multiset<nat>)
    requires kept + gone <= multiset(before) && multiset(after) + gone == multiset(before)
    ensures kept <= multiset(after) && forall a :: a in kept ==> a in after
  {
    assert multiset(before) - gone == multiset(after);
    assert (kept + gone) - gone == kept;
    forall a | a in kept ensures a in after {
      assert a in multiset(after);
    }
  }

  lemma PrefixHolds(m: Memory, cells: seq<Cell>, slots: seq<Slot>, k: nat)
    requires k < |cells| == |slots| && HoldAll(m, cells[..k + 1], slots[..k + 1])
    ensures HoldAll(m, cells[..k], slots[..k])
  {
    forall i | 0 <= i < k ensures Holds(m, cells[..k][i], slots[..k][i]) {
      assert Holds(m, cells[..k + 1][i], slots[..k + 1][i]);
    }
  }

  lemma NothingOwned(slots: seq<Slot>)
    requires slots == []
    ensures OwnedByAll(slots) == multiset{}
  {
  }

  lemma RemoveKey(m: Memory, p: nat)
    requires p in m
    ensures multiset((m - {p}).Keys) + multiset{p} == multiset(m.Keys)
  {
    assert (m - {p}).Keys == m.Keys - {p};
  }

  lemma WithinKeeps(m: Memory, m': Memory, cells: seq<Cell>, slots: seq<Slot>)
    requires HoldAll(m, cells, slots) && Within(m, m')
    ensures HoldAll(m', cells, slots)
  {
    AllKept(m, m', cells, slots);
  }

  lemma HoldsOneMore(m: Memory, cells: seq<Cell>, slots: seq<Slot>, c: Cell, s: Slot)
    requires HoldAll(m, cells, slots) && Holds(m, c, s)
    ensures HoldAll(m, cells + [c], slots + [s])
  {
  }

  lemma PlainAppend(slots: seq<Slot>, s: Slot)
    ensures PlainAll(slots + [s]) == PlainAll(slots) + [Plain(s)]
  {
  }

  lemma PlainPrefix(slots: seq<Slot>, k: nat)
    requires k < |slots|
    ensures PlainAll(slots[..k + 1]) == PlainAll(slots[..k]) + [Plain(slots[k])]
  {
    assert slots[..k + 1] == slots[..k] + [slots[k]];
    PlainAppend(slots[..k], slots[k]);
  }

  lemma CopiedOne(k0: set<nat>, k1: set<nat>, k2: set<nat>, us: seq<Slot>, r: Slot)
    requires multiset(k1) == multiset(k0) + OwnedByAll(us) && multiset(k2) == multiset(k1) + Owned(r)
    ensures multiset(k2) == multiset(k0) + OwnedByAll(us + [r])
  {
    OwnedAppend(us, r);
    assert (multiset(k0) + OwnedByAll(us)) + Owned(r) == multiset(k0) + (OwnedByAll(us) + Owned(r));
  }

  ghost predicate Bounded(m: Memory, next: nat) {
    forall a :: a in m ==> a < next
  }

  lemma AddKey(m: Memory, p: nat, x: Payload)
    requires p !in m
    ensures multiset(m[p := x].Keys) == multiset(m.Keys) + multiset{p}
  {
    assert m[p := x].Keys == m.Keys + {p};
  }

  class Heap {
    var memory: Memory
    // The next address of `new`; addresses are not used again.
    var next: nat

    /** new: memory for a struct whose members are given. */
    method New(x: Payload) returns (p: nat)
      requires Bounded(memory, next)
      modifies this
      ensures p == old(next) && memory == old(memory)[p := x] && Bounded(memory, next) && p !in old(memory)
      ensures multiset(memory.Keys) == multiset(old(memory.Keys)) + multiset{p}
    {
      p := next;
      AddKey(memory, p, x);
      memory := memory[p := x];
      next := next + 1;
    }

    /** Deletes a payload that is still there. */
    method Free(p: nat)
      requires p in memory
      modifies `memory
      ensures memory == old(memory) - {p} && multiset(memory.Keys) + multiset{p} == multiset(old(memory.Keys))
    {
      RemoveKey(memory, p);
      memory := memory - {p};
    }

    /** delete: destroys the members and frees the memory. */
    method Delete(p: nat, ghost t: Tree)
      requires HoldsTree(memory, t) && t.addr == p && OwnedByTree(t) <= multiset(memory.Keys)
      modifies `memory
      ensures Within(memory, old(memory)) && multiset(memory.Keys) + OwnedByTree(t) == multiset(old(memory.Keys))
      decreases t
    {
      DestroyMembers(memory[p].cells, t.kids, multiset{p});
      ghost var rest := memory.Keys;
      Free(p);
      Chain(multiset(memory.Keys), multiset{p}, multiset(rest), OwnedByAll(t.kids), multiset(old(memory.Keys)));
    }

    /** Destroys the members of a struct, the last first. */
    method DestroyMembers(cells: seq<Cell>, ghost slots: seq<Slot>, ghost kept: multiset<nat>)
      requires HoldAll(memory, cells, slots) && OwnedByAll(slots) + kept <= multiset(memory.Keys)
      modifies `memory
      ensures Within(memory, old(memory)) && kept <= multiset(memory.Keys)
      ensures multiset(memory.Keys) + OwnedByAll(slots) == multiset(old(memory.Keys))
      decreases slots
    {
      hide Holds, Owned, OwnedByAll;
      var k := |cells|;
      assert cells[..k] == cells && slots[..k] == slots;
      while k > 0
        invariant k <= |cells| == |slots|
        invariant HoldAll(memory, cells[..k], slots[..k])
        invariant OwnedByAll(slots[..k]) + kept <= multiset(memory.Keys)
        invariant multiset(memory.Keys) + OwnedByAll(slots) == multiset(old(memory.Keys)) + OwnedByAll(slots[..k])
        invariant Within(memory, old(memory))
      {
        k := k - 1;
        ghost var before := memory;
        OwnedPrefix(slots, k);
        assert cells[..k + 1][k] == cells[k] && slots[..k + 1][k] == slots[k];
        Destroy(cells[k], slots[k]);
        DestroyedOne(old(memory.Keys), before.Keys, memory.Keys, slots, k);
        Spared(before.Keys, memory.Keys, OwnedByAll(slots[..k]) + kept, Owned(slots[k]));
        PrefixHolds(before, cells, slots, k);
        AllKept(before, memory, cells[..k], slots[..k]);
      }
      NothingOwned(slots[..0]);
    }

    /** The destructor of a cell: deletes what it points to. */
    method Destroy(c: Cell, ghost s: Slot)
      requires Holds(memory, c, s) && Owned(s) <= multiset(memory.Keys)
      modifies `memory
      ensures Within(memory, old(memory)) && multiset(memory.Keys) + Owned(s) == multiset(old(memory.Keys))
      decreases s
    {
      if Get(c).Some? {
        Delete(Get(c).value, s.content.value);
      }
    }

    /** new D(*p): a struct copied member by member. */
    method Copy(p: nat, ghost t: Tree) returns (q: nat, ghost u: Tree)
      requires HoldsTree(memory, t) && t.addr == p && Bounded(memory, next)
      modifies this
      ensures Within(old(memory), memory) && Bounded(memory, next)
      ensures u.addr == q && HoldsTree(memory, u) && PlainTree(u) == PlainTree(t)
      ensures multiset(memory.Keys) == multiset(old(memory.Keys)) + OwnedByTree(u)
      decreases t
    {
      var x := memory[p];
      var copies, kids := CopyMembers(x.cells, t.kids);
      ghost var members := memory;
      q := New(Payload(x.kind, x.value, copies));
      WithinKeeps(members, memory, copies, kids);
      u := Tree(q, x.kind, x.value, kids);
    }

    /** Copies the members of a struct, the first first. */
    method CopyMembers(cells: seq<Cell>, ghost slots: seq<Slot>) returns (copies: seq<Cell>, ghost us: seq<Slot>)
      requires HoldAll(memory, cells, slots) && Bounded(memory, next)
      modifies this
      ensures Within(old(memory), memory) && Bounded(memory, next)
      ensures HoldAll(memory, copies, us) && PlainAll(us) == PlainAll(slots)
      ensures multiset(memory.Keys) == multiset(old(memory.Keys)) + OwnedByAll(us)
      decreases slots
    {
      hide Holds, Owned, OwnedByAll, Plain;
      copies, us := [], [];
      NothingOwned(us);
      for k := 0 to |cells|
        invariant |us| == k
        invariant Within(old(memory), memory) && Bounded(memory, next)
        invariant HoldAll(memory, cells, slots) && HoldAll(memory, copies, us)
        invariant PlainAll(us) == PlainAll(slots[..k])
        invariant multiset(memory.Keys) == multiset(old(memory.Keys)) + OwnedByAll(us)
      {
        ghost var before := memory;
        var c, s := CopyCell(cells[k], slots[k]);
        WithinKeeps(before, memory, cells, slots);
        WithinKeeps(before, memory, copies, us);
        HoldsOneMore(memory, copies, us, c, s);
        CopiedOne(old(memory.Keys), before.Keys, memory.Keys, us, s);
        PlainPrefix(slots, k);
        PlainAppend(us, s);
        copies, us := copies + [c], us + [s];
      }
      assert slots[..|slots|] == slots;
    }

    /** The copy constructor of a cell. */
    method CopyCell(c: Cell, ghost s: Slot) returns (d: Cell, ghost r: Slot)
      requires Holds(memory, c, s) && Bounded(memory, next)
      modifies this
      ensures Within(old(memory), memory) && Bounded(memory, next)
      ensures Holds(memory, d, r) && Plain(r) == Plain(s)
      ensures multiset(memory.Keys) == multiset(old(memory.Keys)) + Owned(r)
      decreases s
    {
      d := c.(ptr := None);
      r := s.(content := None);
      if Get(c).Some? {
        var q, u := Copy(Get(c).value, s.content.value);
        d := d.(ptr := Some(q));
        r := r.(content := Some(u));
      }
    }
  }

  // ---- Replacing a cell ----

  function EmptySlot(flavour: Flavour): Slot {
    Slot(flavour, EmptyCell(flavour).kind, None)
  }

  function EmptyValue(flavour: Flavour): Value {
    Value(flavour, EmptyCell(flavour).kind, None)
  }

  /** What moving from a cell leaves behind: a OneOf still says which type it held. */
  function MovedFrom(v: Value): Value {
    v.(content := None)
  }

  lemma HoldsUpdate(m: Memory, cells: seq<Cell>, slots: seq<Slot>, i: nat, c: Cell, s: Slot)
    requires HoldAll(m, cells, slots) && Holds(m, c, s) && i < |cells|
    ensures HoldAll(m, cells[i := c], slots[i := s])
  {
  }

  lemma PlainUpdate(slots: seq<Slot>, i: nat, s: Slot)
    requires i < |slots|
    ensures PlainAll(slots[i := s]) == PlainAll(slots)[i := Plain(s)]
  {
  }

  lemma {:induction false} OwnedUpdate(slots: seq<Slot>, i: nat, s: Slot)
    requires i < |slots|
    ensures OwnedByAll(slots[i := s]) + Owned(slots[i]) == OwnedByAll(slots) + Owned(s)
  {
    var n := |slots| - 1;
    if i < n {
      OwnedUpdate(slots[..n], i, s);
      assert slots[i := s][..n] == slots[..n][i := s];
      AddToBoth(OwnedByAll(slots[..n][i := s]), Owned(slots[i]), OwnedByAll(slots[..n]), Owned(s), Owned(slots[n]));
    } else {
      assert slots[i := s][..n] == slots[..n];
      var rest := OwnedByAll(slots[..n]);
      assert (rest + Owned(s)) + Owned(slots[i]) == (rest + Owned(slots[i])) + Owned(s);
    }
  }

  lemma HoldSlices(m: Memory, cells: seq<Cell>, slots: seq<Slot>, n: nat)
    requires HoldAll(m, cells, slots) && n <= |slots|
    ensures HoldAll(m, cells[..n], slots[..n]) && HoldAll(m, cells[n..], slots[n..])
  {
    hide Holds;
  }

  lemma {:induction false} OwnedSplit(slots: seq<Slot>, n: nat)
    requires n <= |slots|
    ensures OwnedByAll(slots) == OwnedByAll(slots[..n]) + OwnedByAll(slots[n..])
    decreases |slots|
  {
    if n < |slots| {
      var k := |slots| - 1;
      OwnedSplit(slots[..k], n);
      Slices(slots, n);
      OwnedAppend(slots[..k][n..], slots[k]);
      var a, b, w := OwnedByAll(slots[..n]), OwnedByAll(slots[..k][n..]), Owned(slots[k]);
      assert (a + b) + w == a + (b + w);
    } else {
      assert slots[..n] == slots;
      NothingOwned(slots[n..]);
    }
  }

  lemma PlainTake(slots: seq<Slot>, n: nat)
    requires n <= |slots|
    ensures PlainAll(slots[..n]) == PlainAll(slots)[..n]
  {
    hide Plain, PlainAll;
    SameElements(PlainAll(slots[..n]), PlainAll(slots)[..n]);
  }

  lemma {:induction false} PlainDrop(slots: seq<Slot>, n: nat)
    requires n <= |slots|
    ensures PlainAll(slots[n..]) == PlainAll(slots)[n..]
  {
    hide Plain, PlainAll;
    var dropped, all := PlainAll(slots[n..]), PlainAll(slots);
    forall i | 0 <= i < |slots| - n ensures dropped[i] == all[n + i] {
      assert slots[n..][i] == slots[n + i];
    }
    SameElements(dropped, all[n..]);
  }

  lemma EmptyOwns(s: Slot)
    requires s.content == None
    ensures Owned(s) == multiset{}
  {
  }

  lemma AllKeptIn(m: Memory, m': Memory, cells: seq<Cell>, slots: seq<Slot>)
    requires HoldAll(m, cells, slots) && Within(m', m) && OwnedByAll(slots) == multiset(m'.Keys)
    ensures HoldAll(m', cells, slots)
  {
    forall a | a in OwnedByAll(slots) && a in m ensures a in m' && m'[a] == m[a] {
      assert a in multiset(m'.Keys);
    }
    AllKept(m, m', cells, slots);
  }

  // ---- One owner ----

  lemma {:induction false} OwnedByTwo(slots: seq<Slot>, i: nat, j: nat, a: nat)
    requires i < j < |slots|
    ensures Owned(slots[i])[a] + Owned(slots[j])[a] <= OwnedByAll(slots)[a]
  {
    hide Owned;
    if j < |slots| - 1 {
      OwnedByTwo(slots[..|slots| - 1], i, j, a);
    } else {
      OwnedByOne(slots[..|slots| - 1], i);
    }
  }

  lemma {:induction false} OwnedBySome(slots: seq<Slot>, a: nat)
    requires a in OwnedByAll(slots)
    ensures exists i :: 0 <= i < |slots| && a in Owned(slots[i])
  {
    var n := |slots| - 1;
    if a in Owned(slots[n]) {
    } else {
      OwnedBySome(slots[..n], a);
      var i :| 0 <= i < n && a in Owned(slots[..n][i]);
      assert a in Owned(slots[i]);
    }
  }

  /** In a valid population a payload that a cell owns is on the heap and has no other owner. */
  lemma OneOwner(slots: seq<Slot>, m: Memory, i: nat, a: nat)
    requires OwnedByAll(slots) == multiset(m.Keys)
    requires i < |slots| && a in Owned(slots[i])
    ensures a in m && Owned(slots[i])[a] == 1
    ensures forall j :: 0 <= j < |slots| && j != i ==> a !in Owned(slots[j])
  {
    OwnedByOne(slots, i);
    assert a in multiset(m.Keys);
    forall j | 0 <= j < |slots| && j != i ensures a !in Owned(slots[j]) {
      if i < j {
        OwnedByTwo(slots, i, j, a);
      } else {
        OwnedByTwo(slots, j, i, a);
      }
    }
  }

  /** In a valid population every payload on the heap has an owner. */
  lemma NothingLeaks(slots: seq<Slot>, m: Memory, a: nat)
    requires OwnedByAll(slots) == multiset(m.Keys) && a in m
    ensures exists i :: 0 <= i < |slots| && a in Owned(slots[i])
  {
    assert a in multiset(m.Keys);
    OwnedBySome(slots, a);
  }
}
