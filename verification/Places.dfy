/** Places of cells: a cell of a population, or a member, at any depth, of what such a cell holds. */
module Places {
  import opened Results
  import opened OwningCells

  // ---- Ways to a cell ----

  /** Path q leads to a cell below the one that p leads to. */
  predicate Below(q: seq<nat>, p: seq<nat>) {
    p < q
  }

  /** Neither path leads through the cell of the other. */
  predicate Apart(p: seq<nat>, q: seq<nat>) {
    !(p <= q) && !(q <= p)
  }

  lemma ApartTails(p: seq<nat>, q: seq<nat>)
    requires |p| > 0 && |q| > 0 && p[0] == q[0]
    ensures Apart(p, q) <==> Apart(p[1..], q[1..])
    ensures Below(q, p) <==> Below(q[1..], p[1..])
  {
    assert p == [p[0]] + p[1..] && q == [q[0]] + q[1..];
  }

  lemma ApartGoOn(p: seq<nat>, q: seq<nat>)
    requires |p| > 0 && |q| > 0 && p[0] == q[0] && Apart(p, q)
    ensures |p| > 1 && |q| > 1
  {
    assert p == [p[0]] + p[1..] && q == [q[0]] + q[1..];
  }

  ghost predicate IsPath(slots: seq<Slot>, p: seq<nat>)
    decreases |p|
  {
    && |p| > 0 && p[0] < |slots|
    && (|p| > 1 ==> slots[p[0]].content.Some? && IsPath(slots[p[0]].content.value.kids, p[1..]))
  }

  ghost function SlotAt(slots: seq<Slot>, p: seq<nat>): Slot
    requires IsPath(slots, p)
    decreases |p|
  {
    if |p| == 1 then slots[p[0]] else SlotAt(slots[p[0]].content.value.kids, p[1..])
  }

  ghost function Replaced(slots: seq<Slot>, p: seq<nat>, s: Slot): (r: seq<Slot>)
    requires IsPath(slots, p)
    ensures |r| == |slots| && IsPath(r, p) && SlotAt(r, p) == s
    decreases |p|
  {
    if |p| == 1 then slots[p[0] := s]
    else
      var t := slots[p[0]].content.value;
      slots[p[0] := slots[p[0]].(content := Some(t.(kids := Replaced(t.kids, p[1..], s))))]
  }

  lemma {:induction false} ReplacedTwice(slots: seq<Slot>, p: seq<nat>, s: Slot, u: Slot)
    requires IsPath(slots, p)
    ensures Replaced(Replaced(slots, p, s), p, u) == Replaced(slots, p, u)
    decreases |p|
  {
    if |p| == 1 {
    } else {
      ReplacedTwice(slots[p[0]].content.value.kids, p[1..], s, u);
    }
  }

  /** Among the cells of the population, or among the members of the payload `home`. */
  datatype Ref = Ref(home: Option<nat>, index: nat)

  /** The cell that p leads to, from the cells that lie at `home`. */
  ghost function Where(home: Option<nat>, slots: seq<Slot>, p: seq<nat>): Ref
    requires IsPath(slots, p)
    decreases |p|
  {
    if |p| == 1 then Ref(home, p[0])
    else Where(Some(slots[p[0]].content.value.addr), slots[p[0]].content.value.kids, p[1..])
  }

  predicate InPlace(cells: seq<Cell>, m: Memory, r: Ref) {
    match r.home
    case None => r.index < |cells|
    case Some(a) => a in m && r.index < |m[a].cells|
  }

  function Load(cells: seq<Cell>, m: Memory, r: Ref): Cell
    requires InPlace(cells, m, r)
  {
    match r.home
    case None => cells[r.index]
    case Some(a) => m[a].cells[r.index]
  }

  /** The cells of the population after the cell at r was written. */
  function Written(cells: seq<Cell>, r: Ref, c: Cell): (cells': seq<Cell>)
    ensures |cells'| == |cells|
  {
    if r.home == None && r.index < |cells| then cells[r.index := c] else cells
  }

  /** The memory after the cell at r was written. */
  function Stored(m: Memory, r: Ref, c: Cell): (m': Memory)
    ensures m'.Keys == m.Keys
  {
    match r.home
    case None => m
    case Some(a) =>
      if a in m && r.index < |m[a].cells| then m[a := m[a].(cells := m[a].cells[r.index := c])] else m
  }

  // ---- The same on values ----

  ghost predicate IsValuePath(values: seq<Value>, p: seq<nat>)
    decreases |p|
  {
    && |p| > 0 && p[0] < |values|
    && (|p| > 1 ==> values[p[0]].content.Some? && IsValuePath(values[p[0]].content.value.members, p[1..]))
  }

  ghost function ValueAt(values: seq<Value>, p: seq<nat>): Value
    requires IsValuePath(values, p)
    decreases |p|
  {
    if |p| == 1 then values[p[0]] else ValueAt(values[p[0]].content.value.members, p[1..])
  }

  ghost function With(values: seq<Value>, p: seq<nat>, v: Value): (r: seq<Value>)
    requires IsValuePath(values, p)
    ensures |r| == |values| && IsValuePath(r, p) && ValueAt(r, p) == v
    decreases |p|
  {
    if |p| == 1 then values[p[0] := v]
    else
      var t := values[p[0]].content.value;
      values[p[0] := values[p[0]].(content := Some(t.(members := With(t.members, p[1..], v))))]
  }

  lemma {:induction false} WithTwice(values: seq<Value>, p: seq<nat>, v: Value, w: Value)
    requires IsValuePath(values, p)
    ensures With(With(values, p, v), p, w) == With(values, p, w)
    decreases |p|
  {
    if |p| == 1 {
    } else {
      WithTwice(values[p[0]].content.value.members, p[1..], v, w);
    }
  }

  /** A change at p leaves all paths but those below p. */
  lemma {:induction false} PathsStay(values: seq<Value>, p: seq<nat>, v: Value, q: seq<nat>)
    requires IsValuePath(values, p) && IsValuePath(values, q) && !Below(q, p)
    ensures IsValuePath(With(values, p, v), q)
    decreases |p|
  {
    if |p| == 1 || |q| == 1 || p[0] != q[0] {
    } else {
      ApartTails(p, q);
      PathsStay(values[p[0]].content.value.members, p[1..], v, q[1..]);
    }
  }

  /** A change at p does not show at a cell apart from it. */
  lemma {:induction false} ApartStays(values: seq<Value>, p: seq<nat>, v: Value, q: seq<nat>)
    requires IsValuePath(values, p) && IsValuePath(values, q) && Apart(p, q)
    ensures IsValuePath(With(values, p, v), q) && ValueAt(With(values, p, v), q) == ValueAt(values, q)
    decreases |p|
  {
    if |p| == 1 || |q| == 1 || p[0] != q[0] {
    } else {
      ApartTails(p, q);
      ApartStays(values[p[0]].content.value.members, p[1..], v, q[1..]);
    }
  }

  lemma {:induction false} WithInEitherOrder(values: seq<Value>, p: seq<nat>, v: Value, q: seq<nat>, w: Value)
    requires IsValuePath(values, p) && IsValuePath(values, q) && Apart(p, q)
    requires IsValuePath(With(values, p, v), q) && IsValuePath(With(values, q, w), p)
    ensures With(With(values, p, v), q, w) == With(With(values, q, w), p, v)
    decreases |p|
  {
    if p[0] != q[0] {
    } else {
      ApartGoOn(p, q);
      ApartTails(p, q);
      WithInEitherOrder(values[p[0]].content.value.members, p[1..], v, q[1..], w);
    }
  }

  /** Values behind the one that a path starts from play no part. */
  lemma WithInFront(values: seq<Value>, behind: seq<Value>, p: seq<nat>, v: Value)
    requires IsValuePath(values, p)
    ensures IsValuePath(values + behind, p) && ValueAt(values + behind, p) == ValueAt(values, p)
    ensures With(values + behind, p, v) == With(values, p, v) + behind
  {
  }

  /** What a path leads to depends on the value it starts from only. */
  lemma SameValueRoot(values: seq<Value>, values': seq<Value>, p: seq<nat>)
    requires IsValuePath(values, p) && p[0] < |values'| && values'[p[0]] == values[p[0]]
    ensures IsValuePath(values', p) && ValueAt(values', p) == ValueAt(values, p)
  {
  }

  // ---- Slots and values ----

  lemma PlainKids(s: Slot)
    requires s.content.Some?
    ensures Plain(s).content.Some? && Plain(s).content.value.members == PlainAll(s.content.value.kids)
  {
    hide PlainAll;
    assert Plain(s).content == Some(PlainTree(s.content.value));
  }

  lemma {:induction false} PlainPath(slots: seq<Slot>, p: seq<nat>)
    requires IsPath(slots, p)
    ensures IsValuePath(PlainAll(slots), p) && ValueAt(PlainAll(slots), p) == Plain(SlotAt(slots, p))
    decreases |p|
  {
    hide PlainAll;
    assert PlainAll(slots)[p[0]] == Plain(slots[p[0]]);
    if |p| == 1 {
    } else {
      PlainKids(slots[p[0]]);
      PlainPath(slots[p[0]].content.value.kids, p[1..]);
    }
  }

  lemma {:induction false} PlainReplaced(slots: seq<Slot>, p: seq<nat>, s: Slot)
    requires IsPath(slots, p) && IsValuePath(PlainAll(slots), p)
    ensures PlainAll(Replaced(slots, p, s)) == With(PlainAll(slots), p, Plain(s))
    decreases |p|
  {
    hide PlainAll;
    if |p| == 1 {
      PlainUpdate(slots, p[0], s);
    } else {
      var t := slots[p[0]].content.value;
      var now := slots[p[0]].(content := Some(t.(kids := Replaced(t.kids, p[1..], s))));
      assert PlainAll(slots)[p[0]] == Plain(slots[p[0]]);
      PlainKids(slots[p[0]]);
      PlainKids(now);
      PlainReplaced(t.kids, p[1..], s);
      PlainUpdate(slots, p[0], now);
    }
  }

  lemma Exchange<T>(x: multiset<T>, y: multiset<T>, a: multiset<T>, k: multiset<T>, k': multiset<T>, o: multiset<T>,
                    o': multiset<T>)
    requires x + (a + k) == y + (a + k') && k' + o == k + o'
    ensures x + o == y + o'
  {
    forall e ensures (x + o)[e] == (y + o')[e] {
      assert (x + (a + k))[e] == (y + (a + k'))[e] && (k' + o)[e] == (k + o')[e];
    }
  }

  lemma {:induction false} OwnedReplaced(slots: seq<Slot>, p: seq<nat>, s: Slot)
    requires IsPath(slots, p)
    ensures OwnedByAll(Replaced(slots, p, s)) + Owned(SlotAt(slots, p)) == OwnedByAll(slots) + Owned(s)
    decreases |p|
  {
    hide OwnedByAll;
    if |p| == 1 {
      OwnedUpdate(slots, p[0], s);
    } else {
      var t := slots[p[0]].content.value;
      var kids := Replaced(t.kids, p[1..], s);
      OwnedReplaced(t.kids, p[1..], s);
      OwnedUpdate(slots, p[0], slots[p[0]].(content := Some(t.(kids := kids))));
      Exchange(OwnedByAll(Replaced(slots, p, s)), OwnedByAll(slots), multiset{t.addr}, OwnedByAll(t.kids),
               OwnedByAll(kids), Owned(SlotAt(slots, p)), Owned(s));
    }
  }

  // ---- Where cells lie ----

  /** What p leads to lies where it leads to. */
  lemma {:induction false} Loaded(m: Memory, top: seq<Cell>, home: Option<nat>, cells: seq<Cell>, slots: seq<Slot>,
                                  p: seq<nat>)
    requires HoldAll(m, cells, slots) && IsPath(slots, p)
    requires if home.Some? then home.value in m && m[home.value].cells == cells else top == cells
    ensures InPlace(top, m, Where(home, slots, p))
    ensures Holds(m, Load(top, m, Where(home, slots, p)), SlotAt(slots, p))
    decreases |p|
  {
    assert Holds(m, cells[p[0]], slots[p[0]]);
    if |p| == 1 {
    } else {
      var t := slots[p[0]].content.value;
      assert HoldsTree(m, t);
      Loaded(m, top, Some(t.addr), m[t.addr].cells, t.kids, p[1..]);
    }
  }

  /** A cell below another one lies in a payload that is owned, and not by the cell itself. */
  lemma {:induction false} HomeIsOwned(slots: seq<Slot>, p: seq<nat>)
    requires IsPath(slots, p) && |p| > 1
    ensures var home := Where(None, slots, p).home;
            home.Some? && OwnedByAll(slots)[home.value] >= 1 + Owned(SlotAt(slots, p))[home.value]
    decreases |p|
  {
    hide OwnedByAll;
    var t := slots[p[0]].content.value;
    OwnedByOne(slots, p[0]);
    if |p| == 2 {
      OwnedByOne(t.kids, p[1]);
    } else {
      HomeIsOwned(t.kids, p[1..]);
    }
  }

  lemma HomeIsBelow(t: Tree, q: seq<nat>)
    requires IsPath(t.kids, q)
    ensures var home := Where(Some(t.addr), t.kids, q).home; home.Some? && OwnedByTree(t)[home.value] > 0
  {
    hide OwnedByAll;
    if |q| > 1 {
      HomeIsOwned(t.kids, q);
    }
  }

  lemma OtherHolds(m: Memory, cells: seq<Cell>, slots: seq<Slot>, p: seq<nat>, c: Cell, i: nat)
    requires HoldAll(m, cells, slots) && IsPath(slots, p) && forall a :: OwnedByAll(slots)[a] <= 1
    requires |p| > 1 && i < |slots| && i != p[0]
    ensures Holds(Stored(m, Where(None, slots, p), c), cells[i], slots[i])
  {
    hide OwnedByAll, HoldsTree;
    HomeIsBelow(slots[p[0]].content.value, p[1..]);
    var home := Where(None, slots, p).home.value;
    if i < p[0] {
      OwnedByTwo(slots, i, p[0], home);
    } else {
      OwnedByTwo(slots, p[0], i, home);
    }
    HoldsKept(m, Stored(m, Where(None, slots, p), c), cells[i], slots[i]);
  }

  /** Writing the cell that p leads to changes what is held there only. */
  lemma {:induction false} HoldsReplaced(m: Memory, cells: seq<Cell>, slots: seq<Slot>, p: seq<nat>, c: Cell, s: Slot)
    requires HoldAll(m, cells, slots) && IsPath(slots, p) && forall a :: OwnedByAll(slots)[a] <= 1
    requires Holds(Stored(m, Where(None, slots, p), c), c, s)
    ensures var r := Where(None, slots, p);
            HoldAll(Stored(m, r, c), Written(cells, r, c), Replaced(slots, p, s))
    decreases |p|, 0
  {
    hide OwnedByAll, HoldsTree;
    if |p| == 1 {
      HoldsUpdate(m, cells, slots, p[0], c, s);
    } else {
      var t, r := slots[p[0]].content.value, Where(None, slots, p);
      var m', slots' := Stored(m, r, c), Replaced(slots, p, s);
      assert Holds(m, cells[p[0]], slots[p[0]]);
      OwnedByOne(slots, p[0]);
      HomeIsBelow(t, p[1..]);
      HoldsReplacedIn(m, t, p[1..], c, s, r);
      forall i | 0 <= i < |slots| ensures Holds(m', cells[i], slots'[i]) {
        if i != p[0] {
          OtherHolds(m, cells, slots, p, c, i);
        }
      }
    }
  }

  lemma OwnedInTree(t: Tree)
    ensures OwnedByTree(t)[t.addr] == 1 + OwnedByAll(t.kids)[t.addr]
    ensures forall a :: OwnedByAll(t.kids)[a] <= OwnedByTree(t)[a]
  {
    hide OwnedByAll;
  }

  lemma {:induction false} HoldsReplacedIn(m: Memory, t: Tree, q: seq<nat>, c: Cell, s: Slot, r: Ref)
    requires HoldsTree(m, t) && IsPath(t.kids, q) && forall a :: OwnedByTree(t)[a] <= 1
    requires r == Where(Some(t.addr), t.kids, q) && Holds(Stored(m, r, c), c, s)
    ensures HoldsTree(Stored(m, r, c), t.(kids := Replaced(t.kids, q, s)))
    decreases |q|, 1
  {
    hide OwnedByAll, Holds;
    var cells, m' := m[t.addr].cells, Stored(m, r, c);
    OwnedInTree(t);
    if |q| == 1 {
      AllKept(m, m', cells, t.kids);
      HoldsUpdate(m', cells, t.kids, q[0], c, s);
    } else {
      HomeIsOwned(t.kids, q);
      HoldsReplaced(m, cells, t.kids, q, c, s);
    }
  }

  lemma OnceEach(owned: multiset<nat>, keys: set<nat>)
    requires owned == multiset(keys)
    ensures forall a :: owned[a] <= 1
  {
  }

  lemma {:induction false} OwnedAt(slots: seq<Slot>, p: seq<nat>)
    requires IsPath(slots, p)
    ensures Owned(SlotAt(slots, p)) <= OwnedByAll(slots)
    decreases |p|
  {
    hide OwnedByAll;
    OwnedByOne(slots, p[0]);
    if |p| == 1 {
    } else {
      OwnedAt(slots[p[0]].content.value.kids, p[1..]);
    }
  }

  // ---- What stays where ----

  /** Where a path leads depends on the cell it starts from only. */
  lemma SameRoot(slots: seq<Slot>, slots': seq<Slot>, home: Option<nat>, p: seq<nat>)
    requires IsPath(slots, p) && p[0] < |slots'| && slots'[p[0]] == slots[p[0]]
    ensures IsPath(slots', p) && SlotAt(slots', p) == SlotAt(slots, p)
    ensures Where(home, slots', p) == Where(home, slots, p)
  {
  }

  /** A change at p leaves all cells in their places but those below p. */
  lemma {:induction false} PlacesStay(slots: seq<Slot>, p: seq<nat>, s: Slot, home: Option<nat>, q: seq<nat>)
    requires IsPath(slots, p) && IsPath(slots, q) && !Below(q, p)
    ensures IsPath(Replaced(slots, p, s), q) && Where(home, Replaced(slots, p, s), q) == Where(home, slots, q)
    decreases |p|
  {
    if |p| == 1 || |q| == 1 || p[0] != q[0] {
    } else {
      var t := slots[p[0]].content.value;
      ApartTails(p, q);
      PlacesStay(t.kids, p[1..], s, Some(t.addr), q[1..]);
    }
  }

  lemma {:induction false} ApartSlotStays(slots: seq<Slot>, p: seq<nat>, s: Slot, q: seq<nat>)
    requires IsPath(slots, p) && IsPath(slots, q) && Apart(p, q)
    ensures IsPath(Replaced(slots, p, s), q) && SlotAt(Replaced(slots, p, s), q) == SlotAt(slots, q)
    decreases |p|
  {
    if |p| == 1 || |q| == 1 || p[0] != q[0] {
    } else {
      ApartTails(p, q);
      ApartSlotStays(slots[p[0]].content.value.kids, p[1..], s, q[1..]);
    }
  }

  /** Cells that are apart lie in different places. */
  lemma {:induction false} ApartPlaces(slots: seq<Slot>, p: seq<nat>, q: seq<nat>)
    requires IsPath(slots, p) && IsPath(slots, q) && Apart(p, q) && forall a :: OwnedByAll(slots)[a] <= 1
    ensures Where(None, slots, p) != Where(None, slots, q)
    decreases |p|, 0
  {
    hide OwnedByAll;
    if |p| == 1 && |q| == 1 {
      assert p == [p[0]] && q == [q[0]];
    } else if |p| == 1 {
      HomeIsOwned(slots, q);
    } else if |q| == 1 {
      HomeIsOwned(slots, p);
    } else {
      var t, u := slots[p[0]].content.value, slots[q[0]].content.value;
      HomeIsBelow(t, p[1..]);
      HomeIsBelow(u, q[1..]);
      if p[0] < q[0] {
        OwnedByTwo(slots, p[0], q[0], Where(None, slots, p).home.value);
      } else if q[0] < p[0] {
        OwnedByTwo(slots, q[0], p[0], Where(None, slots, p).home.value);
      } else {
        ApartTails(p, q);
        OwnedByOne(slots, p[0]);
        ApartMembers(t, p[1..], q[1..]);
      }
    }
  }

  lemma {:induction false} ApartMembers(t: Tree, p: seq<nat>, q: seq<nat>)
    requires IsPath(t.kids, p) && IsPath(t.kids, q) && Apart(p, q) && forall a :: OwnedByTree(t)[a] <= 1
    ensures Where(Some(t.addr), t.kids, p) != Where(Some(t.addr), t.kids, q)
    decreases |p|, 1
  {
    hide OwnedByAll;
    OwnedInTree(t);
    if |p| > 1 {
      HomeIsOwned(t.kids, p);
    }
    if |q| > 1 {
      HomeIsOwned(t.kids, q);
    }
    if |p| > 1 && |q| > 1 {
      ApartPlaces(t.kids, p, q);
    }
  }
}
