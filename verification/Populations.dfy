/** Cells at work: what OneOf and Optional do to a cell, wherever it lies, is what the same operation
    does to a plain value. */
module Populations {
  import opened Collections
  import opened Results
  import opened OwningCells
  import opened Places

  // ---- The operations on plain values ----

  ghost function Emptied(values: seq<Value>, p: seq<nat>): (r: seq<Value>)
    requires IsValuePath(values, p)
    ensures |r| == |values| && IsValuePath(r, p)
  {
    With(values, p, EmptyValue(ValueAt(values, p).flavour))
  }

  /** The cell at p is emptied and then gets what the cell at q holds. */
  ghost function Copied(values: seq<Value>, p: seq<nat>, q: seq<nat>): seq<Value>
    requires IsValuePath(values, p) && IsValuePath(values, q) && !Below(q, p)
  {
    PathsStay(values, p, EmptyValue(ValueAt(values, p).flavour), q);
    With(Emptied(values, p), p, ValueAt(Emptied(values, p), q))
  }

  /** What moving leaves behind: a OneOf still says which type it held. */
  ghost function MovedOut(values: seq<Value>, q: seq<nat>): (r: seq<Value>)
    requires IsValuePath(values, q)
    ensures |r| == |values| && IsValuePath(r, q)
  {
    With(values, q, MovedFrom(ValueAt(values, q)))
  }

  /** The cell at p is emptied and then takes over what the cell at q holds. */
  ghost function MovedOver(values: seq<Value>, p: seq<nat>, q: seq<nat>): seq<Value>
    requires IsValuePath(values, p) && IsValuePath(values, q) && (p == q || Apart(p, q))
  {
    PathsStay(values, p, EmptyValue(ValueAt(values, p).flavour), q);
    var v := ValueAt(Emptied(values, p), q);
    PathsStay(Emptied(values, p), p, v, q);
    With(With(Emptied(values, p), p, v), q, MovedFrom(v))
  }

  ghost predicate ArePaths(values: seq<Value>, paths: seq<seq<nat>>) {
    forall k :: 0 <= k < |paths| ==> IsValuePath(values, paths[k])
  }

  predicate AllApart(paths: seq<seq<nat>>) {
    forall j, k :: 0 <= j < k < |paths| ==> Apart(paths[j], paths[k])
  }

  predicate ApartFrom(paths: seq<seq<nat>>, p: seq<nat>) {
    forall k :: 0 <= k < |paths| ==> Apart(paths[k], p)
  }

  /** The path q leads below none of the others. */
  predicate NotBelow(q: seq<nat>, paths: seq<seq<nat>>) {
    forall k :: 0 <= k < |paths| ==> !Below(q, paths[k])
  }

  /** None of the paths leads below one before it. */
  predicate InTurn(paths: seq<seq<nat>>) {
    forall k :: 0 <= k < |paths| ==> NotBelow(paths[k], paths[..k])
  }

  lemma InTurnFront(paths: seq<seq<nat>>)
    requires InTurn(paths) && paths != []
    ensures InTurn(paths[..|paths| - 1]) && NotBelow(paths[|paths| - 1], paths[..|paths| - 1])
  {
    var front := paths[..|paths| - 1];
    forall k | 0 <= k < |front| ensures NotBelow(front[k], front[..k]) {
      assert front[..k] == paths[..k];
    }
  }

  lemma InTurnPrefix(paths: seq<seq<nat>>, n: nat)
    requires InTurn(paths) && n <= |paths|
    ensures InTurn(paths[..n])
  {
    forall k | 0 <= k < n ensures NotBelow(paths[..n][k], paths[..n][..k]) {
      assert paths[..n][..k] == paths[..k];
    }
  }

  /** Moving out of several cells, one after the other. */
  ghost function AllMovedOut(values: seq<Value>, paths: seq<seq<nat>>): (r: seq<Value>)
    requires ArePaths(values, paths) && InTurn(paths)
    ensures |r| == |values|
    decreases |paths|, 0
  {
    if paths == [] then values
    else
      var front, last := paths[..|paths| - 1], paths[|paths| - 1];
      InTurnFront(paths);
      StillPath(values, front, last);
      MovedOut(AllMovedOut(values, front), last)
  }

  /** A path that leads below none of the cells moved from stays one. */
  lemma {:induction false} StillPath(values: seq<Value>, paths: seq<seq<nat>>, q: seq<nat>)
    requires ArePaths(values, paths) && InTurn(paths) && IsValuePath(values, q) && NotBelow(q, paths)
    ensures IsValuePath(AllMovedOut(values, paths), q)
    decreases |paths|, 1
  {
    hide Below, With;
    if paths == [] {
    } else {
      var front, last := paths[..|paths| - 1], paths[|paths| - 1];
      InTurnFront(paths);
      StillPath(values, front, last);
      StillPath(values, front, q);
      var before := AllMovedOut(values, front);
      PathsStay(before, last, MovedFrom(ValueAt(before, last)), q);
    }
  }

  /** A cell apart from those moved from stays as it was. */
  lemma {:induction false} OutsideStays(values: seq<Value>, paths: seq<seq<nat>>, q: seq<nat>)
    requires ArePaths(values, paths) && InTurn(paths) && IsValuePath(values, q) && ApartFrom(paths, q)
    ensures IsValuePath(AllMovedOut(values, paths), q)
    ensures ValueAt(AllMovedOut(values, paths), q) == ValueAt(values, q)
    decreases |paths|
  {
    hide Apart, Below, With;
    if paths == [] {
    } else {
      var front, last := paths[..|paths| - 1], paths[|paths| - 1];
      InTurnFront(paths);
      StillPath(values, front, last);
      OutsideStays(values, front, q);
      var before := AllMovedOut(values, front);
      ApartStays(before, last, MovedFrom(ValueAt(before, last)), q);
    }
  }

  /** What is left where members were taken from: moving leaves nothing, copying all. */
  ghost function Left(values: seq<Value>, paths: seq<seq<nat>>, move: bool): (r: seq<Value>)
    requires ArePaths(values, paths) && (move ==> InTurn(paths))
    ensures |r| == |values|
  {
    if move then AllMovedOut(values, paths) else values
  }

  lemma StillPathLeft(values: seq<Value>, paths: seq<seq<nat>>, move: bool, q: seq<nat>)
    requires ArePaths(values, paths) && IsValuePath(values, q) && (move ==> InTurn(paths) && NotBelow(q, paths))
    ensures IsValuePath(Left(values, paths, move), q)
  {
    if move {
      StillPath(values, paths, q);
    }
  }

  /** The members taken, one after the other. */
  ghost function Picked(values: seq<Value>, paths: seq<seq<nat>>, move: bool): (picked: seq<Value>)
    requires ArePaths(values, paths) && (move ==> InTurn(paths))
    ensures |picked| == |paths|
    decreases |paths|
  {
    if paths == [] then []
    else
      var front, last := paths[..|paths| - 1], paths[|paths| - 1];
      if move then
        InTurnFront(paths);
        StillPath(values, front, last);
        Picked(values, front, move) + [ValueAt(AllMovedOut(values, front), last)]
      else Picked(values, front, move) + [ValueAt(values, last)]
  }

  /** Copied members, and members moved from cells apart, have the values that were there at first. */
  lemma {:induction false} PickedAsTheyWere(values: seq<Value>, paths: seq<seq<nat>>, move: bool, k: nat)
    requires ArePaths(values, paths) && (move ==> InTurn(paths) && AllApart(paths)) && k < |paths|
    ensures Picked(values, paths, move)[k] == ValueAt(values, paths[k])
    decreases |paths|
  {
    hide Apart, Below;
    var front, last := paths[..|paths| - 1], paths[|paths| - 1];
    if move {
      InTurnFront(paths);
      StillPath(values, front, last);
    }
    if k < |paths| - 1 {
      PickedAsTheyWere(values, front, move, k);
    } else if move {
      OutsideStays(values, front, last);
    }
  }

  /** The cell at p is emptied; a OneOf then takes the kind of the struct that is to be made. */
  ghost function Announced(values: seq<Value>, p: seq<nat>, kind: nat): (r: seq<Value>)
    requires IsValuePath(values, p)
    ensures |r| == |values| && IsValuePath(r, p)
  {
    With(values, p, Value(ValueAt(values, p).flavour, kind, None))
  }

  lemma AnnouncedIs(values: seq<Value>, p: seq<nat>, kind: nat)
    requires IsValuePath(values, p)
    ensures With(Emptied(values, p), p, Value(ValueAt(values, p).flavour, kind, None)) == Announced(values, p, kind)
  {
    hide With;
    var flavour := ValueAt(values, p).flavour;
    WithTwice(values, p, EmptyValue(flavour), Value(flavour, kind, None));
  }

  lemma AllStay(values: seq<Value>, p: seq<nat>, kind: nat, paths: seq<seq<nat>>)
    requires IsValuePath(values, p) && ArePaths(values, paths)
    requires forall k :: 0 <= k < |paths| ==> !Below(paths[k], p)
    ensures ArePaths(Announced(values, p, kind), paths)
  {
    forall k | 0 <= k < |paths| ensures IsValuePath(Announced(values, p, kind), paths[k]) {
      PathsStay(values, p, Value(ValueAt(values, p).flavour, kind, None), paths[k]);
    }
  }

  /** The cell at p gets a new struct, whose members are copied or moved from the cells that `paths`
      lead to. */
  ghost function SetTo(values: seq<Value>, p: seq<nat>, kind: nat, value: int, paths: seq<seq<nat>>, move: bool)
    : seq<Value>
    requires IsValuePath(values, p) && ArePaths(values, paths)
    requires forall k :: 0 <= k < |paths| ==> !Below(paths[k], p)
    requires move ==> InTurn(paths) && NotBelow(p, paths)
  {
    AllStay(values, p, kind, paths);
    var e := Announced(values, p, kind);
    StillPathLeft(e, paths, move, p);
    With(Left(e, paths, move), p,
         Value(ValueAt(values, p).flavour, kind, Some(Struct(kind, value, Picked(e, paths, move)))))
  }

  /** The first k members were constructed at the end. */
  ghost predicate AreTaken(base: seq<Value>, now: seq<Value>, paths: seq<seq<nat>>, k: nat, move: bool)
    requires ArePaths(base, paths) && (move ==> InTurn(paths)) && k <= |paths|
  {
    if move then
      InTurnPrefix(paths, k);
      now == Left(base, paths[..k], move) + Picked(base, paths[..k], move)
    else now == Left(base, paths[..k], move) + Picked(base, paths[..k], move)
  }

  lemma NoneTaken(base: seq<Value>, paths: seq<seq<nat>>, move: bool)
    requires ArePaths(base, paths) && (move ==> InTurn(paths))
    ensures AreTaken(base, base, paths, 0, move)
  {
  }

  lemma OneMoreTaken(base: seq<Value>, now: seq<Value>, paths: seq<seq<nat>>, k: nat, move: bool)
    requires ArePaths(base, paths) && (move ==> InTurn(paths)) && k < |paths|
    requires AreTaken(base, now, paths, k, move)
    ensures IsValuePath(now, paths[k])
    ensures var left := if move then MovedOut(now, paths[k]) else now;
            AreTaken(base, left + [ValueAt(now, paths[k])], paths, k + 1, move)
  {
    hide With, Below;
    var q := paths[k];
    assert paths[..k + 1][..k] == paths[..k] && paths[..k + 1][k] == q;
    if move {
      InTurnPrefix(paths, k);
      InTurnPrefix(paths, k + 1);
    }
    StillPathLeft(base, paths[..k], move, q);
    var front, behind := Left(base, paths[..k], move), Picked(base, paths[..k], move);
    var v := ValueAt(front, q);
    WithInFront(front, behind, q, MovedFrom(v));
    AssociateThree(if move then MovedOut(front, q) else front, behind, [v]);
  }

  // ---- What they come to ----

  /** Copying a cell to itself empties it. */
  lemma CopiedItself(values: seq<Value>, p: seq<nat>)
    requires IsValuePath(values, p)
    ensures Copied(values, p, p) == Emptied(values, p)
  {
    var e := EmptyValue(ValueAt(values, p).flavour);
    WithTwice(values, p, e, e);
  }

  lemma CopiedApart(values: seq<Value>, p: seq<nat>, q: seq<nat>)
    requires IsValuePath(values, p) && IsValuePath(values, q) && Apart(p, q)
    ensures Copied(values, p, q) == With(values, p, ValueAt(values, q))
  {
    hide With;
    var e := EmptyValue(ValueAt(values, p).flavour);
    ApartStays(values, p, e, q);
    WithTwice(values, p, e, ValueAt(values, q));
  }

  lemma MovedOverItself(values: seq<Value>, p: seq<nat>)
    requires IsValuePath(values, p)
    ensures MovedOver(values, p, p) == Emptied(values, p)
  {
    hide With;
    var e := EmptyValue(ValueAt(values, p).flavour);
    WithTwice(values, p, e, e);
    assert MovedFrom(e) == e;
  }

  lemma MovedOverApart(values: seq<Value>, p: seq<nat>, q: seq<nat>)
    requires IsValuePath(values, p) && IsValuePath(values, q) && Apart(p, q)
    ensures var v := ValueAt(values, q);
            IsValuePath(With(values, p, v), q) && MovedOver(values, p, q) == With(With(values, p, v), q, MovedFrom(v))
  {
    hide With;
    var e := EmptyValue(ValueAt(values, p).flavour);
    ApartStays(values, p, e, q);
    ApartStays(values, p, ValueAt(values, q), q);
    WithTwice(values, p, e, ValueAt(values, q));
  }

  /** Setting a cell shows at that cell, and at those moved from, only. */
  lemma SetElsewhere(values: seq<Value>, p: seq<nat>, kind: nat, value: int, paths: seq<seq<nat>>, move: bool,
                     q: seq<nat>)
    requires IsValuePath(values, p) && ArePaths(values, paths) && IsValuePath(values, q) && Apart(p, q)
    requires forall k :: 0 <= k < |paths| ==> !Below(paths[k], p)
    requires move ==> InTurn(paths) && NotBelow(p, paths) && ApartFrom(paths, q)
    ensures var r := SetTo(values, p, kind, value, paths, move);
            IsValuePath(r, q) && ValueAt(r, q) == ValueAt(values, q)
  {
    hide With, Apart;
    var flavour := ValueAt(values, p).flavour;
    AllStay(values, p, kind, paths);
    ApartStays(values, p, Value(flavour, kind, None), q);
    var e := Announced(values, p, kind);
    StillPathLeft(e, paths, move, p);
    if move {
      OutsideStays(e, paths, q);
    }
    ApartStays(Left(e, paths, move), p,
               Value(flavour, kind, Some(Struct(kind, value, Picked(e, paths, move)))), q);
  }

  lemma SetDone(values: seq<Value>, now: seq<Value>, p: seq<nat>, kind: nat, value: int, paths: seq<seq<nat>>,
                move: bool)
    requires IsValuePath(values, p) && ArePaths(values, paths) && ArePaths(Announced(values, p, kind), paths)
    requires forall k :: 0 <= k < |paths| ==> !Below(paths[k], p)
    requires move ==> InTurn(paths) && NotBelow(p, paths)
    requires AreTaken(Announced(values, p, kind), now, paths, |paths|, move)
    ensures IsValuePath(now, p) && |now| == |values| + |paths| && p[0] < |values|
    ensures var v := Value(ValueAt(values, p).flavour, kind, Some(Struct(kind, value, now[|values|..])));
            With(now, p, v)[..|values|] == SetTo(values, p, kind, value, paths, move)
  {
    hide With, Below, Announced;
    var e, n := Announced(values, p, kind), |values|;
    assert paths[..|paths|] == paths;
    var front, behind := Left(e, paths, move), Picked(e, paths, move);
    StillPathLeft(e, paths, move, p);
    assert now == front + behind && now[n..] == behind;
    var v := Value(ValueAt(values, p).flavour, kind, Some(Struct(kind, value, behind)));
    WithInFront(front, behind, p, v);
    assert (With(front, p, v) + behind)[..n] == With(front, p, v);
  }

  // ---- The heap under them ----

  /** A cell is not among what it owns. */
  lemma HomeStays(m: Memory, m': Memory, cells: seq<Cell>, slots: seq<Slot>, p: seq<nat>)
    requires HoldAll(m, cells, slots) && OwnedByAll(slots) == multiset(m.Keys) && IsPath(slots, p)
    requires Within(m', m) && multiset(m'.Keys) + Owned(SlotAt(slots, p)) == multiset(m.Keys)
    ensures InPlace(cells, m, Where(None, slots, p)) && InPlace(cells, m', Where(None, slots, p))
  {
    hide OwnedByAll, Owned, HoldsTree;
    Loaded(m, cells, None, cells, slots, p);
    if |p| > 1 {
      HomeIsOwned(slots, p);
      var home := Where(None, slots, p).home.value;
      assert multiset(m.Keys)[home] == 1;
      assert home in multiset(m'.Keys);
    }
  }

  /** The memory left when what a cell owned was deleted is what its empty cell needs. */
  lemma EmptiedHolds(m: Memory, m': Memory, cells: seq<Cell>, slots: seq<Slot>, p: seq<nat>, flavour: Flavour)
    requires HoldAll(m, cells, slots) && OwnedByAll(slots) == multiset(m.Keys) && IsPath(slots, p)
    requires Within(m', m) && multiset(m'.Keys) + Owned(SlotAt(slots, p)) == multiset(m.Keys)
    ensures var r, c, s := Where(None, slots, p), EmptyCell(flavour), EmptySlot(flavour);
            && InPlace(cells, m', r)
            && HoldAll(Stored(m', r, c), Written(cells, r, c), Replaced(slots, p, s))
            && OwnedByAll(Replaced(slots, p, s)) == multiset(Stored(m', r, c).Keys)
  {
    hide OwnedByAll, Owned, HoldsTree, Replaced, SlotAt, Where, Written;
    var r, c, s := Where(None, slots, p), EmptyCell(flavour), EmptySlot(flavour);
    HomeStays(m, m', cells, slots, p);
    OnceEach(OwnedByAll(slots), m.Keys);
    HoldsReplaced(m, cells, slots, p, c, s);
    EmptyOwns(s);
    OwnedReplaced(slots, p, s);
    var slots' := Replaced(slots, p, s);
    CancelRight(OwnedByAll(slots'), multiset(m'.Keys), Owned(SlotAt(slots, p)));
    AllKeptIn(Stored(m, r, c), Stored(m', r, c), Written(cells, r, c), slots');
  }

  /** What an empty cell is given, it holds, if nobody else owns it. */
  lemma FilledHolds(m: Memory, cells: seq<Cell>, slots: seq<Slot>, p: seq<nat>, c: Cell, s: Slot)
    requires HoldAll(m, cells, slots) && IsPath(slots, p) && SlotAt(slots, p).content == None && Holds(m, c, s)
    requires OwnedByAll(slots) + Owned(s) == multiset(m.Keys)
    ensures var r := Where(None, slots, p);
            && InPlace(cells, m, r)
            && HoldAll(Stored(m, r, c), Written(cells, r, c), Replaced(slots, p, s))
            && OwnedByAll(Replaced(slots, p, s)) == multiset(Stored(m, r, c).Keys)
  {
    hide OwnedByAll, Owned, HoldsTree, Replaced;
    var r := Where(None, slots, p);
    Loaded(m, cells, None, cells, slots, p);
    if |p| > 1 {
      HomeIsOwned(slots, p);
      assert multiset(m.Keys)[r.home.value] == 1;
    }
    HoldsKept(m, Stored(m, r, c), c, s);
    assert forall a :: OwnedByAll(slots)[a] <= 1 by {
      forall a ensures OwnedByAll(slots)[a] <= 1 {
        assert multiset(m.Keys)[a] <= 1;
      }
    }
    HoldsReplaced(m, cells, slots, p, c, s);
    OwnedReplaced(slots, p, s);
    EmptyOwns(SlotAt(slots, p));
  }

  /** What is taken out of a cell is still held, by nobody. */
  lemma TakenHolds(m: Memory, cells: seq<Cell>, slots: seq<Slot>, q: seq<nat>, left: Cell, gone: Slot)
    requires HoldAll(m, cells, slots) && OwnedByAll(slots) == multiset(m.Keys) && IsPath(slots, q)
    requires Holds(map[], left, gone) && gone.content == None
    ensures var r, s := Where(None, slots, q), SlotAt(slots, q);
            && InPlace(cells, m, r)
            && HoldAll(Stored(m, r, left), Written(cells, r, left), Replaced(slots, q, gone))
            && Holds(Stored(m, r, left), Load(cells, m, r), s)
            && OwnedByAll(Replaced(slots, q, gone)) + Owned(s) == multiset(Stored(m, r, left).Keys)
  {
    hide OwnedByAll, Owned, HoldsTree, Replaced;
    var r, s := Where(None, slots, q), SlotAt(slots, q);
    Loaded(m, cells, None, cells, slots, q);
    OnceEach(OwnedByAll(slots), m.Keys);
    if |q| > 1 {
      HomeIsOwned(slots, q);
    }
    HoldsKept(m, Stored(m, r, left), Load(cells, m, r), s);
    HoldsReplaced(m, cells, slots, q, left, gone);
    OwnedReplaced(slots, q, gone);
    EmptyOwns(gone);
  }

  /** The cells from the n-th on become the members of a new struct. */
  lemma EmbeddedHolds(m: Memory, m': Memory, cells: seq<Cell>, slots: seq<Slot>, n: nat, c: Cell, s: Slot)
    requires HoldAll(m, cells, slots) && OwnedByAll(slots) == multiset(m.Keys) && n <= |slots| && s.content.Some?
    requires s.content.value.addr !in m && s.content.value.kids == slots[n..]
    requires m' == m[s.content.value.addr := Payload(s.kind, s.content.value.value, cells[n..])]
    requires c == Cell(s.flavour, s.kind, Some(s.content.value.addr))
    requires s.kind == s.content.value.kind != NO_KIND && (s.flavour == Optional ==> s.kind == 0)
    ensures HoldAll(m', cells[..n], slots[..n]) && Holds(m', c, s)
    ensures OwnedByAll(slots[..n]) + Owned(s) == multiset(m'.Keys)
  {
    hide OwnedByAll, HoldAll;
    WithinKeeps(m, m', cells, slots);
    HoldSlices(m', cells, slots, n);
    OwnedSplit(slots, n);
    AddKey(m, s.content.value.addr, m'[s.content.value.addr]);
    var a, b, x := OwnedByAll(slots[..n]), OwnedByAll(slots[n..]), multiset{s.content.value.addr};
    assert a + (x + b) == (a + b) + x;
  }

  lemma HoldsFlavour(m: Memory, c: Cell, s: Slot)
    requires Holds(m, c, s)
    ensures c.flavour == s.flavour
  {
  }

  /** The cells behind the one that p starts from play no part. */
  lemma InFront(slots: seq<Slot>, n: nat, p: seq<nat>, v: Value)
    requires IsPath(slots, p) && p[0] < n <= |slots| && IsValuePath(PlainAll(slots), p)
    ensures IsPath(slots[..n], p) && Where(None, slots[..n], p) == Where(None, slots, p)
    ensures SlotAt(slots[..n], p) == SlotAt(slots, p) && IsValuePath(PlainAll(slots[..n]), p)
    ensures With(PlainAll(slots[..n]), p, v) == With(PlainAll(slots), p, v)[..n]
  {
    hide PlainAll;
    SameRoot(slots, slots[..n], None, p);
    PlainTake(slots, n);
    var values := PlainAll(slots);
    SameValueRoot(values, values[..n], p);
    assert values == values[..n] + values[n..];
    WithInFront(values[..n], values[n..], p, v);
  }

  /** Cells in different places are written in either order. */
  lemma WrittenInEitherOrder(m: Memory, cells: seq<Cell>, r: Ref, c: Cell, r': Ref, c': Cell)
    requires r != r'
    ensures Written(Written(cells, r, c), r', c') == Written(Written(cells, r', c'), r, c)
    ensures Stored(Stored(m, r, c), r', c') == Stored(Stored(m, r', c'), r, c)
  {
    if r.home == r'.home && r.home.Some? && r.home.value in m {
      var a := r.home.value;
      var kids := m[a].cells;
      if r.index < |kids| && r'.index < |kids| {
        assert kids[r.index := c][r'.index := c'] == kids[r'.index := c'][r.index := c];
      }
    }
    assert Stored(Stored(m, r, c), r', c') == Stored(Stored(m, r', c'), r, c);
  }

  /** Writing an empty cell's own pointer to it changes nothing. */
  lemma HoldsNothing(m: Memory, cells: seq<Cell>, r: Ref, s: Slot)
    requires InPlace(cells, m, r) && Holds(m, Load(cells, m, r), s) && s.content == None
    ensures var c := Load(cells, m, r); c.ptr == None && Written(cells, r, c) == cells && Stored(m, r, c) == m
  {
    var c := Load(cells, m, r);
    if r.home.Some? {
      assert m[r.home.value].cells[r.index := c] == m[r.home.value].cells;
    }
  }

  /** An empty Optional takes over what another one holds. */
  lemma MovedOverHolds(m: Memory, cells: seq<Cell>, slots: seq<Slot>, p: seq<nat>, q: seq<nat>)
    requires HoldAll(m, cells, slots) && OwnedByAll(slots) == multiset(m.Keys)
    requires IsPath(slots, p) && IsPath(slots, q) && Apart(p, q) && SlotAt(slots, p).content == None
    requires SlotAt(slots, p).flavour == SlotAt(slots, q).flavour == Optional
    requires InPlace(cells, m, Where(None, slots, p)) && InPlace(cells, m, Where(None, slots, q))
    requires IsPath(Replaced(slots, q, SlotAt(slots, q).(content := None)), p)
    ensures var r, r', s := Where(None, slots, p), Where(None, slots, q), SlotAt(slots, q);
            var c' := Load(cells, m, r');
            var full, left := Load(cells, m, r).(ptr := c'.ptr), c'.(ptr := None);
            var cells1, m1 := Written(cells, r, full), Stored(m, r, full);
            var cells2, m2 := Written(cells1, r', left), Stored(m1, r', left);
            var slots2 := Replaced(Replaced(slots, q, s.(content := None)), p, s);
            && InPlace(cells1, m1, r') && Load(cells1, m1, r') == c'
            && HoldAll(m2, cells2, slots2) && OwnedByAll(slots2) == multiset(m2.Keys)
  {
    hide OwnedByAll, Owned, HoldAll, HoldsTree, Replaced, Where;
    var r, r', s := Where(None, slots, p), Where(None, slots, q), SlotAt(slots, q);
    var gone := s.(content := None);
    Loaded(m, cells, None, cells, slots, p);
    Loaded(m, cells, None, cells, slots, q);
    var c' := Load(cells, m, r');
    var left := c'.(ptr := None);
    OnceEach(OwnedByAll(slots), m.Keys);
    ApartPlaces(slots, p, q);
    TakenHolds(m, cells, slots, q, left, gone);
    PlacesStay(slots, q, gone, None, p);
    ApartSlotStays(slots, q, gone, p);
    FilledHolds(Stored(m, r', left), Written(cells, r', left), Replaced(slots, q, gone), p, c', s);
    WrittenInEitherOrder(m, cells, r, c', r', left);
  }

  lemma MovedOverPlain(slots: seq<Slot>, p: seq<nat>, q: seq<nat>)
    requires IsPath(slots, p) && IsPath(slots, q) && Apart(p, q)
    requires IsValuePath(PlainAll(slots), p) && IsValuePath(PlainAll(slots), q)
    requires IsPath(Replaced(slots, q, SlotAt(slots, q).(content := None)), p)
    ensures var s, v := SlotAt(slots, q), ValueAt(PlainAll(slots), q);
            && IsValuePath(With(PlainAll(slots), p, v), q)
            && PlainAll(Replaced(Replaced(slots, q, s.(content := None)), p, s)) ==
               With(With(PlainAll(slots), p, v), q, MovedFrom(v))
  {
    hide PlainAll, Replaced, With;
    var s, v, values := SlotAt(slots, q), ValueAt(PlainAll(slots), q), PlainAll(slots);
    var gone := s.(content := None);
    PlainPath(slots, q);
    PlainReplaced(slots, q, gone);
    PlainPath(Replaced(slots, q, gone), p);
    PlainReplaced(Replaced(slots, q, gone), p, s);
    ApartStays(values, p, v, q);
    WithInEitherOrder(values, p, v, q, MovedFrom(v));
  }

  class Population {
    const heap: Heap
    var cells: seq<Cell>
    ghost var slots: seq<Slot>

    /** Every payload on the heap is owned just once. */
    ghost predicate Valid()
      reads this, heap
    {
      && |cells| == |slots| && HoldAll(heap.memory, cells, slots)
      && OwnedByAll(slots) == multiset(heap.memory.Keys)
      && Bounded(heap.memory, heap.next)
    }

    /** The cells as plain values. */
    ghost function Values(): (values: seq<Value>)
      reads this
      ensures |values| == |slots|
    {
      PlainAll(slots)
    }

    /** Path p leads to the cell at r. */
    ghost predicate At(r: Ref, p: seq<nat>)
      reads this
    {
      IsPath(slots, p) && IsValuePath(Values(), p) && r == Where(None, slots, p)
    }

    constructor (heap: Heap)
      requires heap.memory == map[]
      ensures Valid() && Values() == [] && this.heap == heap
    {
      this.heap := heap;
      cells, slots := [], [];
    }

    /** Writes a cell of the population, or a member of a payload. */
    method Write(r: Ref, c: Cell)
      requires InPlace(cells, heap.memory, r)
      modifies `cells, heap`memory
      ensures cells == Written(old(cells), r, c)
      ensures heap.memory == Stored(old(heap.memory), r, c)
    {
      if r.home == None {
        cells := cells[r.index := c];
      } else {
        heap.memory := Stored(heap.memory, r, c);
      }
    }

    /** Deletes what a cell owns and makes it empty. */
    method Reset(r: Ref, ghost p: seq<nat>)
      requires Valid() && At(r, p)
      modifies this, heap
      ensures Valid() && slots == Replaced(old(slots), p, EmptySlot(old(SlotAt(slots, p).flavour)))
      ensures Values() == Emptied(old(Values()), p)
      ensures multiset(heap.memory.Keys) + Owned(old(SlotAt(slots, p))) == multiset(old(heap.memory.Keys))
    {
      hide OwnedByAll, Owned, PlainAll, HoldAll, HoldsTree, Stored, Written, Replaced, With, Where;
      ghost var s := SlotAt(slots, p);
      Loaded(heap.memory, cells, None, cells, slots, p);
      OwnedAt(slots, p);
      PlainPath(slots, p);
      PlainReplaced(slots, p, EmptySlot(s.flavour));
      var c := Load(cells, heap.memory, r);
      heap.Destroy(c, s);
      EmptiedHolds(old(heap.memory), heap.memory, cells, slots, p, c.flavour);
      Write(r, EmptyCell(c.flavour));
      slots := Replaced(slots, p, EmptySlot(s.flavour));
    }

    /** A new cell with no value. */
    method Construct(flavour: Flavour)
      requires Valid()
      modifies this
      ensures Valid() && cells == old(cells) + [EmptyCell(flavour)] && slots == old(slots) + [EmptySlot(flavour)]
      ensures Values() == old(Values()) + [EmptyValue(flavour)]
    {
      hide Owned, OwnedByAll, PlainAll, HoldsTree;
      var c := EmptyCell(flavour);
      ghost var s := EmptySlot(flavour);
      EmptyOwns(s);
      OwnedAppend(slots, s);
      HoldsOneMore(heap.memory, cells, slots, c, s);
      PlainAppend(slots, s);
      cells, slots := cells + [c], slots + [s];
    }

    /** Gives an empty cell what nobody owns. */
    method Fill(r: Ref, c: Cell, ghost p: seq<nat>, ghost s: Slot)
      requires |cells| == |slots| && HoldAll(heap.memory, cells, slots) && Bounded(heap.memory, heap.next)
      requires At(r, p) && SlotAt(slots, p).content == None && Holds(heap.memory, c, s)
      requires OwnedByAll(slots) + Owned(s) == multiset(heap.memory.Keys)
      modifies `cells, `slots, heap`memory
      ensures Valid() && slots == Replaced(old(slots), p, s) && Values() == With(old(Values()), p, Plain(s))
    {
      hide OwnedByAll, Owned, PlainAll, HoldAll, Holds, Stored, Written, Replaced, SlotAt, With, Where;
      FilledHolds(heap.memory, cells, slots, p, c, s);
      PlainReplaced(slots, p, s);
      Write(r, c);
      slots := Replaced(slots, p, s);
    }

    /** Cells stay where they were, but those below the one that changed. */
    twostate lemma StaysAt(new p: seq<nat>, new s: Slot, new r: Ref, new q: seq<nat>)
      requires old(IsPath(slots, p)) && slots == Replaced(old(slots), p, s) && old(At(r, q)) && !Below(q, p)
      ensures At(r, q)
    {
      PlacesStay(old(slots), p, s, None, q);
      PlainPath(slots, q);
    }

    /** Copy assignment: the cell at p gets a copy of all that the cell at q holds. */
    method CopyAssign(r: Ref, r': Ref, ghost p: seq<nat>, ghost q: seq<nat>) returns (ghost s: Slot)
      requires Valid() && At(r, p) && At(r', q) && !Below(q, p)
      requires ValueAt(Values(), p).flavour == ValueAt(Values(), q).flavour
      modifies this, heap
      ensures Valid() && Values() == Copied(old(Values()), p, q)
      ensures slots == Replaced(old(slots), p, s) && |cells| == |old(cells)|
    {
      hide OwnedByAll, Owned, PlainAll, HoldAll, HoldsTree, Stored, Replaced, SlotAt, With, Where, ValueAt;
      Reset(r, p);
      ghost var e, emptied, before := EmptySlot(old(SlotAt(slots, p).flavour)), slots, heap.memory;
      StaysAt(p, e, r, p);
      StaysAt(p, e, r', q);
      Loaded(heap.memory, cells, None, cells, slots, q);
      PlainPath(slots, q);
      var c;
      c, s := heap.CopyCell(Load(cells, heap.memory, r'), SlotAt(slots, q));
      WithinKeeps(before, heap.memory, cells, slots);
      ReplacedTwice(old(slots), p, e, s);
      Fill(r, c, p, s);
    }

    /** New cells at the end leave all others where they were. */
    lemma StaysInFront(before: seq<Slot>, r: Ref, q: seq<nat>)
      requires IsPath(before, q) && r == Where(None, before, q) && before <= slots
      ensures At(r, q) && SlotAt(slots, q) == SlotAt(before, q)
    {
      SameRoot(before, slots, None, q);
      PlainPath(slots, q);
    }

    /** So does a change at p, but for those below p. */
    lemma StaysNotBelow(before: seq<Slot>, p: seq<nat>, s: Slot, r: Ref, q: seq<nat>)
      requires IsPath(before, p) && IsPath(before, q) && !Below(q, p) && r == Where(None, before, q)
      requires Replaced(before, p, s) <= slots
      ensures At(r, q) && SlotAt(slots, q) == SlotAt(Replaced(before, p, s), q)
    {
      PlacesStay(before, p, s, None, q);
      StaysInFront(Replaced(before, p, s), r, q);
    }

    /** A cell with no value has none after moving out of it, or out of a cell apart from it. */
    lemma EmptyStays(before: seq<Slot>, q: seq<nat>, r: Ref, p: seq<nat>)
      requires IsPath(before, q) && IsPath(before, p) && !Below(p, q) && !Below(q, p) && r == Where(None, before, p)
      requires SlotAt(before, p).content == None && Replaced(before, q, SlotAt(before, q).(content := None)) <= slots
      ensures At(r, p) && SlotAt(slots, p) == SlotAt(before, p)
    {
      StaysNotBelow(before, q, SlotAt(before, q).(content := None), r, p);
      if p != q {
        ApartSlotStays(before, q, SlotAt(before, q).(content := None), p);
      }
    }

    /** The copy constructor: a new cell at the end. */
    method CopyConstruct(r: Ref, ghost q: seq<nat>)
      requires Valid() && At(r, q)
      modifies this, heap
      ensures Valid() && |cells| == |old(cells)| + 1 && old(slots) <= slots
      ensures Values() == old(Values()) + [ValueAt(old(Values()), q)]
    {
      hide OwnedByAll, Owned, PlainAll, HoldAll, HoldsTree;
      ghost var n, v := |slots|, ValueAt(Values(), q);
      Loaded(heap.memory, cells, None, cells, slots, q);
      PlainPath(slots, q);
      Construct(Load(cells, heap.memory, r).flavour);
      PlainPath(slots, [n]);
      StaysInFront(old(slots), r, q);
      PlainPath(slots, q);
      CopiedApart(Values(), [n], q);
      ghost var s := CopyAssign(Ref(None, |cells| - 1), r, [n], q);
      assert Values() == (old(Values()) + [EmptyValue(v.flavour)])[n := v];
    }

    /** The move constructor: a new cell at the end takes the pointer over. */
    method MoveConstruct(r: Ref, ghost q: seq<nat>)
      requires Valid() && At(r, q)
      modifies this, heap`memory
      ensures Valid() && |cells| == |old(cells)| + 1
      ensures Replaced(old(slots), q, old(SlotAt(slots, q)).(content := None)) <= slots
      ensures Values() == MovedOut(old(Values()), q) + [ValueAt(old(Values()), q)]
    {
      hide OwnedByAll, Owned, PlainAll, HoldAll, HoldsTree, Stored, Written, Replaced, With, Where;
      ghost var s := SlotAt(slots, q);
      ghost var gone := s.(content := None);
      Loaded(heap.memory, cells, None, cells, slots, q);
      var c := Load(cells, heap.memory, r);
      var left := c.(ptr := None);
      TakenHolds(heap.memory, cells, slots, q, left, gone);
      PlainPath(slots, q);
      PlainReplaced(slots, q, gone);
      Write(r, left);
      slots := Replaced(slots, q, gone);
      HoldsOneMore(heap.memory, cells, slots, c, s);
      OwnedAppend(slots, s);
      PlainAppend(slots, s);
      cells, slots := cells + [c], slots + [s];
    }

    ghost predicate AllAt(members: seq<Ref>, paths: seq<seq<nat>>)
      reads this
    {
      && |members| == |paths| && ArePaths(Values(), paths)
      && forall k :: 0 <= k < |paths| ==> At(members[k], paths[k])
    }

    /** Move assignment, which only an Optional has: the cell at p takes over what the cell at q holds. */
    method MoveAssign(r: Ref, r': Ref, ghost p: seq<nat>, ghost q: seq<nat>)
      requires Valid() && At(r, p) && At(r', q) && (p == q || Apart(p, q))
      requires SlotAt(slots, p).flavour == SlotAt(slots, q).flavour == Optional
      modifies this, heap
      ensures Valid() && |cells| == |old(cells)|
      ensures Values() == MovedOver(old(Values()), p, q)
    {
      hide OwnedByAll, Owned, PlainAll, HoldAll, HoldsTree, Holds, Stored, Written, Replaced, Where, With;
      hide IsPath, IsValuePath, SlotAt, ValueAt, InPlace, Load;
      PlainPath(slots, p);
      PlainPath(slots, q);
      ghost var e := EmptySlot(Optional);
      Reset(r, p);
      StaysAt(p, e, r, p);
      StaysAt(p, e, r', q);
      Loaded(heap.memory, cells, None, cells, slots, p);
      Loaded(heap.memory, cells, None, cells, slots, q);
      if p == q {
        MovedOverItself(old(Values()), p);
        HoldsNothing(heap.memory, cells, r, SlotAt(slots, p));
      } else {
        ApartSlotStays(old(slots), p, e, q);
        PlainPath(slots, q);
        ghost var s := SlotAt(slots, q);
        PlacesStay(slots, q, s.(content := None), None, p);
        MovedOverHolds(heap.memory, cells, slots, p, q);
        MovedOverPlain(slots, p, q);
        slots := Replaced(Replaced(slots, q, s.(content := None)), p, s);
      }
      Write(r, Load(cells, heap.memory, r).(ptr := Load(cells, heap.memory, r').ptr));
      Write(r', Load(cells, heap.memory, r').(ptr := None));
    }

    /** Constructs the members of a struct, one after the other, as new cells at the end. The empty cell
        at p stays as it is. */
    method TakeMembers(members: seq<Ref>, move: bool, ghost paths: seq<seq<nat>>, ghost r: Ref, ghost p: seq<nat>)
      requires Valid() && AllAt(members, paths) && (move ==> InTurn(paths) && NotBelow(p, paths))
      requires At(r, p) && SlotAt(slots, p).content == None && forall k :: 0 <= k < |paths| ==> !Below(paths[k], p)
      modifies this, heap
      ensures Valid() && |cells| == |old(cells)| + |members|
      ensures AreTaken(old(Values()), Values(), paths, |paths|, move)
      ensures At(r, p) && SlotAt(slots, p) == old(SlotAt(slots, p))
    {
      hide OwnedByAll, Owned, PlainAll, HoldAll, HoldsTree, With, AreTaken, Apart, Below, IsPath, IsValuePath, SlotAt;
      ghost var base := Values();
      NoneTaken(base, paths, move);
      for k := 0 to |members|
        invariant Valid() && |cells| == |old(cells)| + k
        invariant AreTaken(base, Values(), paths, k, move)
        invariant At(r, p) && SlotAt(slots, p) == old(SlotAt(slots, p))
        invariant forall j :: k <= j < |paths| ==> At(members[j], paths[j])
      {
        ghost var before := slots;
        OneMoreTaken(base, Values(), paths, k, move);
        if move {
          ghost var gone := SlotAt(slots, paths[k]).(content := None);
          MoveConstruct(members[k], paths[k]);
          EmptyStays(before, paths[k], r, p);
          forall j | k < j < |paths| ensures At(members[j], paths[j]) {
            assert paths[..j][k] == paths[k] && NotBelow(paths[j], paths[..j]);
            StaysNotBelow(before, paths[k], gone, members[j], paths[j]);
          }
        } else {
          CopyConstruct(members[k], paths[k]);
          StaysInFront(before, r, p);
          forall j | k < j < |paths| ensures At(members[j], paths[j]) {
            StaysInFront(before, members[j], paths[j]);
          }
        }
      }
    }

    /** Makes the cells from the n-th on the members of a new struct that the cell at p owns. */
    method Embed(r: Ref, kind: nat, value: int, n: nat, ghost p: seq<nat>)
      requires Valid() && At(r, p) && p[0] < n <= |cells| && SlotAt(slots, p).content == None
      requires kind != NO_KIND && (SlotAt(slots, p).flavour == Optional ==> kind == 0)
      modifies this, heap
      ensures Valid() && |cells| == n
      ensures var v := Value(old(SlotAt(slots, p).flavour), kind, Some(Struct(kind, value, old(Values())[n..])));
              Values() == With(old(Values()), p, v)[..n]
    {
      hide OwnedByAll, Owned, PlainAll, HoldAll, HoldsTree, Holds, Stored, Replaced, With, Where, SlotAt;
      hide IsPath, IsValuePath;
      ghost var flavour, before := SlotAt(slots, p).flavour, heap.memory;
      Loaded(heap.memory, cells, None, cells, slots, p);
      HoldsFlavour(heap.memory, Load(cells, heap.memory, r), SlotAt(slots, p));
      var c := Load(cells, heap.memory, r);
      var x := heap.New(Payload(kind, value, cells[n..]));
      c := Cell(c.flavour, kind, Some(x));
      ghost var s := Slot(flavour, kind, Some(Tree(x, kind, value, slots[n..])));
      EmbeddedHolds(before, heap.memory, cells, slots, n, c, s);
      InFront(slots, n, p, Plain(s));
      PlainDrop(slots, n);
      PlainKids(s);
      cells, slots := cells[..n], slots[..n];
      Fill(r, c, p, s);
    }

    /** Set: the cell at p gets a new struct whose members are copied or moved from other cells. */
    method Set(r: Ref, kind: nat, value: int, members: seq<Ref>, move: bool, ghost p: seq<nat>,
               ghost paths: seq<seq<nat>>)
      requires Valid() && At(r, p) && kind != NO_KIND && (SlotAt(slots, p).flavour == Optional ==> kind == 0)
      requires AllAt(members, paths) && forall k :: 0 <= k < |paths| ==> !Below(paths[k], p)
      requires move ==> InTurn(paths) && NotBelow(p, paths)
      modifies this, heap
      ensures Valid() && |cells| == |old(cells)|
      ensures Values() == SetTo(old(Values()), p, kind, value, paths, move)
    {
      hide OwnedByAll, Owned, PlainAll, HoldAll, HoldsTree, With, SlotAt, ValueAt, AreTaken, Replaced, Where;
      hide IsPath, IsValuePath, Emptied, Announced, InTurn, NotBelow, SetTo;
      ghost var values, e := Values(), EmptySlot(SlotAt(slots, p).flavour);
      ghost var s := Slot(e.flavour, kind, None);
      PlainPath(slots, p);
      AnnouncedIs(values, p, kind);
      AllStay(values, p, kind, paths);
      ReplacedTwice(slots, p, e, s);
      EmptyOwns(s);
      Reset(r, p);
      StaysAt(p, e, r, p);
      Loaded(heap.memory, cells, None, cells, slots, p);
      HoldsFlavour(heap.memory, Load(cells, heap.memory, r), e);
      Fill(r, Cell(Load(cells, heap.memory, r).flavour, kind, None), p, s);
      StaysAt(p, s, r, p);
      forall k | 0 <= k < |paths| ensures At(members[k], paths[k]) {
        StaysAt(p, s, members[k], paths[k]);
      }
      TakeMembers(members, move, paths, r, p);
      SetDone(values, Values(), p, kind, value, paths, move);
      Embed(r, kind, value, |cells| - |members|, p);
    }
  }
}
