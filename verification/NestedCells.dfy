/** Operations between a cell and a cell below it: where they are sound, and what goes wrong elsewhere. */
module NestedCells {
  import opened Results
  import opened OwningCells
  import opened Places
  import opened Populations

  // ---- A source below the target ----

  /** The cell at q lies in what the cell at p owns. */
  lemma {:induction false} BelowIsOwned(slots: seq<Slot>, p: seq<nat>, q: seq<nat>)
    requires IsPath(slots, q) && Below(q, p) && |p| > 0
    ensures IsPath(slots, p) && |q| > 1
    ensures var home := Where(None, slots, q).home; home.Some? && Owned(SlotAt(slots, p))[home.value] > 0
    decreases |p|
  {
    hide OwnedByAll;
    var t := slots[p[0]].content.value;
    if |p| == 1 {
      HomeIsBelow(t, q[1..]);
    } else {
      ApartTails(p, q);
      BelowIsOwned(t.kids, p[1..], q[1..]);
    }
  }

  /** Once the cell at p was reset, exactly the cells below it are gone. */
  lemma ReadableAfterResetIff(m: Memory, m': Memory, cells: seq<Cell>, slots: seq<Slot>, p: seq<nat>, q: seq<nat>)
    requires HoldAll(m, cells, slots) && OwnedByAll(slots) == multiset(m.Keys) && IsPath(slots, p) && IsPath(slots, q)
    requires Within(m', m) && multiset(m'.Keys) + Owned(SlotAt(slots, p)) == multiset(m.Keys)
    ensures InPlace(cells, m', Where(None, slots, q)) <==> !Below(q, p)
  {
    hide OwnedByAll, Owned, HoldsTree, HoldAll, Replaced;
    var r, e := Where(None, slots, q), EmptySlot(SlotAt(slots, p).flavour);
    Loaded(m, cells, None, cells, slots, q);
    if Below(q, p) {
      BelowIsOwned(slots, p, q);
      assert multiset(m.Keys)[r.home.value] <= 1;
      assert multiset(m'.Keys)[r.home.value] == 0;
    } else if |q| > 1 {
      EmptiedHolds(m, m', cells, slots, p, SlotAt(slots, p).flavour);
      PlacesStay(slots, p, e, None, q);
      HomeIsOwned(Replaced(slots, p, e), q);
      assert r.home.value in multiset(m'.Keys);
    }
  }

  // ---- A target below the source ----

  /** From the members of the payload at `addr` the path w leads to a pointer to `target`. */
  predicate LeadsBack(m: Memory, addr: nat, w: seq<nat>, target: nat)
    decreases |w|
  {
    && |w| > 0 && addr in m && w[0] < |m[addr].cells| && m[addr].cells[w[0]].ptr.Some?
    && (if |w| == 1 then m[addr].cells[w[0]].ptr.value == target
        else LeadsBack(m, m[addr].cells[w[0]].ptr.value, w[1..], target))
  }

  /** A payload that owns itself makes up no value. */
  lemma {:induction false} NoValueBelow(m: Memory, t: Tree, w: seq<nat>, a: nat, round: seq<nat>)
    requires HoldsTree(m, t) && LeadsBack(m, t.addr, w, a) && LeadsBack(m, a, round, a)
    ensures false
    decreases t
  {
    assert Holds(m, m[t.addr].cells[w[0]], t.kids[w[0]]);
    var u := t.kids[w[0]].content.value;
    if |w| == 1 {
      NoValueBelow(m, u, round, a, round);
    } else {
      NoValueBelow(m, u, w[1..], a, round);
    }
  }

  lemma {:induction false} OwnedIsHeld(m: Memory, cells: seq<Cell>, slots: seq<Slot>, a: nat) returns (t: Tree)
    requires HoldAll(m, cells, slots) && a in OwnedByAll(slots)
    ensures HoldsTree(m, t) && t.addr == a
    decreases slots
  {
    hide Owned, OwnedByAll, Holds, HoldsTree;
    OwnedBySome(slots, a);
    var i :| 0 <= i < |slots| && a in Owned(slots[i]);
    t := OwnedIsHeldIn(m, cells[i], slots[i], a);
  }

  lemma {:induction false} OwnedIsHeldIn(m: Memory, c: Cell, s: Slot, a: nat) returns (t: Tree)
    requires Holds(m, c, s) && a in Owned(s)
    ensures HoldsTree(m, t) && t.addr == a
    decreases s
  {
    hide OwnedByAll;
    var u := s.content.value;
    if u.addr == a {
      t := u;
    } else {
      t := OwnedIsHeld(m, m[u.addr].cells, u.kids, a);
    }
  }

  lemma SelfOwnedIsLost(m: Memory, cells: seq<Cell>, slots: seq<Slot>, a: nat, round: seq<nat>)
    requires LeadsBack(m, a, round, a) && HoldAll(m, cells, slots)
    ensures a !in OwnedByAll(slots)
  {
    if a in OwnedByAll(slots) {
      var t := OwnedIsHeld(m, cells, slots, a);
      NoValueBelow(m, t, round, a, round);
    }
  }

  /** The way to a cell below goes on from the payload of the cell above. */
  lemma {:induction false} WhereGoesOn(home: Option<nat>, slots: seq<Slot>, q: seq<nat>, p: seq<nat>)
    requires IsPath(slots, p) && Below(p, q) && |q| > 0
    ensures IsPath(slots, q) && SlotAt(slots, q).content.Some?
    ensures var t, w := SlotAt(slots, q).content.value, p[|q|..];
            IsPath(t.kids, w) && Where(home, slots, p) == Where(Some(t.addr), t.kids, w)
    decreases |q|
  {
    if |q| == 1 {
    } else {
      var t := slots[q[0]].content.value;
      ApartTails(q, p);
      WhereGoesOn(Some(t.addr), t.kids, q[1..], p[1..]);
      assert p[1..][|q[1..]|..] == p[|q|..];
    }
  }

  /** Writing a pointer to `a` below the payload t, and a cell elsewhere. */
  lemma {:induction false} WrittenLeadsBack(m: Memory, t: Tree, w: seq<nat>, full: Cell, r': Ref, left: Cell, a: nat)
    requires HoldsTree(m, t) && IsPath(t.kids, w) && forall b :: OwnedByTree(t)[b] <= 1
    requires full.ptr == Some(a) && (r'.home.Some? ==> OwnedByTree(t)[r'.home.value] == 0)
    ensures LeadsBack(Stored(Stored(m, Where(Some(t.addr), t.kids, w), full), r', left), t.addr, w, a)
    decreases |w|
  {
    hide OwnedByAll;
    OwnedInTree(t);
    var r := Where(Some(t.addr), t.kids, w);
    assert Holds(m, m[t.addr].cells[w[0]], t.kids[w[0]]);
    if |w| == 1 {
    } else {
      var u := t.kids[w[0]].content.value;
      OwnedByOne(t.kids, w[0]);
      HomeIsBelow(u, w[1..]);
      WrittenLeadsBack(m, u, w[1..], full, r', left, a);
    }
  }

  /** A cell does not lie in what it owns, and owns that once. */
  lemma HomeApart(slots: seq<Slot>, m: Memory, q: seq<nat>, t: Tree)
    requires IsPath(slots, q) && OwnedByAll(slots) == multiset(m.Keys) && SlotAt(slots, q).content == Some(t)
    ensures forall b :: OwnedByTree(t)[b] <= 1
    ensures var home := Where(None, slots, q).home; home.Some? ==> OwnedByTree(t)[home.value] == 0
  {
    hide OwnedByAll;
    OwnedAt(slots, q);
    OnceEach(OwnedByAll(slots), m.Keys);
    assert OwnedByTree(t) == Owned(SlotAt(slots, q));
    if |q| > 1 {
      HomeIsOwned(slots, q);
    }
  }

  /** An Optional that takes over what an Optional above it holds: the payload then owns itself, and no
      cell owns it. */
  lemma MovedIntoItselfIsLost(m: Memory, cells: seq<Cell>, slots: seq<Slot>, p: seq<nat>, q: seq<nat>)
    requires HoldAll(m, cells, slots) && OwnedByAll(slots) == multiset(m.Keys)
    requires IsPath(slots, p) && Below(p, q) && |q| > 0 && IsPath(slots, q)
    requires InPlace(cells, m, Where(None, slots, p)) && InPlace(cells, m, Where(None, slots, q))
    ensures var r, r' := Where(None, slots, p), Where(None, slots, q);
            var full, left := Load(cells, m, r).(ptr := Load(cells, m, r').ptr), Load(cells, m, r').(ptr := None);
            var cells2, m2 := Written(Written(cells, r, full), r', left), Stored(Stored(m, r, full), r', left);
            && full.ptr.Some? && full.ptr.value in m2
            && forall slots2 :: HoldAll(m2, cells2, slots2) ==> full.ptr.value !in OwnedByAll(slots2)
  {
    hide OwnedByAll, HoldAll, InPlace;
    var r, r', w := Where(None, slots, p), Where(None, slots, q), p[|q|..];
    Loaded(m, cells, None, cells, slots, q);
    WhereGoesOn(None, slots, q, p);
    var t := SlotAt(slots, q).content.value;
    var full, left := Load(cells, m, r).(ptr := Some(t.addr)), Load(cells, m, r').(ptr := None);
    HomeApart(slots, m, q, t);
    WrittenLeadsBack(m, t, w, full, r', left, t.addr);
    var cells2, m2 := Written(Written(cells, r, full), r', left), Stored(Stored(m, r, full), r', left);
    forall slots2 | HoldAll(m2, cells2, slots2) ensures t.addr !in OwnedByAll(slots2) {
      SelfOwnedIsLost(m2, cells2, slots2, t.addr, w);
    }
  }

  lemma {:induction false} LeadsBackKept(m: Memory, m': Memory, addr: nat, w: seq<nat>, target: nat)
    requires LeadsBack(m, addr, w, target) && Within(m, m')
    ensures LeadsBack(m', addr, w, target)
    decreases |w|
  {
    if |w| == 1 {
    } else {
      LeadsBackKept(m, m', m[addr].cells[w[0]].ptr.value, w[1..], target);
    }
  }

  /** Adding a payload and writing a cell that is there already do not disturb each other. */
  lemma StoredBesideNew(m: Memory, r: Ref, c: Cell, x: nat, payload: Payload)
    requires x !in m && (r.home.Some? ==> r.home.value in m)
    ensures Stored(m, r, c)[x := payload] == Stored(m[x := payload], r, c)
  {
  }

  lemma LeadsBackFromAbove(m: Memory, x: nat, addr: nat, w: seq<nat>)
    requires x in m && |m[x].cells| == 1 && m[x].cells[0].ptr == Some(addr) && LeadsBack(m, addr, w, x)
    ensures LeadsBack(m, x, [0] + w, x)
  {
    assert ([0] + w)[1..] == w;
  }

  /** A new payload that owns a payload from which a written pointer leads back to the new one. */
  lemma AddedLeadsBack(m: Memory, r: Ref, full: Cell, addr: nat, w: seq<nat>, x: nat, payload: Payload)
    requires x !in m && (r.home.Some? ==> r.home.value in m && r.home.value != x)
    requires LeadsBack(Stored(m, r, full), addr, w, x)
    requires |payload.cells| == 1 && payload.cells[0].ptr == Some(addr)
    ensures LeadsBack(Stored(m[x := payload], r, full), x, [0] + w, x)
  {
    hide LeadsBack;
    StoredBesideNew(m, r, full, x, payload);
    var m2 := Stored(m[x := payload], r, full);
    LeadsBackKept(Stored(m, r, full), m2, addr, w, x);
    LeadsBackFromAbove(m2, x, addr, w);
  }

  lemma SetLeadsBack(m: Memory, cells: seq<Cell>, slots: seq<Slot>, p: seq<nat>, q: seq<nat>, x: nat, kind: nat,
                     value: int)
    requires HoldAll(m, cells, slots) && OwnedByAll(slots) == multiset(m.Keys) && x !in m
    requires IsPath(slots, p) && Below(p, q) && |q| > 0 && IsPath(slots, q)
    requires InPlace(cells, m, Where(None, slots, p)) && InPlace(cells, m, Where(None, slots, q))
    ensures var r, r' := Where(None, slots, p), Where(None, slots, q);
            var member := Load(cells, m, r');
            var left, full := member.(ptr := None), Cell(Load(cells, m, r).flavour, kind, Some(x));
            LeadsBack(Stored(Stored(m, r', left)[x := Payload(kind, value, [member])], r, full), x, [0] + p[|q|..], x)
  {
    hide OwnedByAll, HoldAll, LeadsBack;
    var r, r', w := Where(None, slots, p), Where(None, slots, q), p[|q|..];
    Loaded(m, cells, None, cells, slots, q);
    WhereGoesOn(None, slots, q, p);
    var t, member := SlotAt(slots, q).content.value, Load(cells, m, r');
    var left, full := member.(ptr := None), Cell(Load(cells, m, r).flavour, kind, Some(x));
    HomeApart(slots, m, q, t);
    HomeIsBelow(t, w);
    WrittenLeadsBack(m, t, w, full, r', left, x);
    WrittenInEitherOrder(m, cells, r, full, r', left);
    AddedLeadsBack(Stored(m, r', left), r, full, t.addr, w, x, Payload(kind, value, [member]));
  }

  /** A struct made for a cell, from a member moved out of a cell above it: the new payload then owns
      itself, and no cell owns it. */
  lemma SetFromAboveIsLost(m: Memory, cells: seq<Cell>, slots: seq<Slot>, p: seq<nat>, q: seq<nat>, x: nat, kind: nat,
                           value: int)
    requires HoldAll(m, cells, slots) && OwnedByAll(slots) == multiset(m.Keys) && x !in m
    requires IsPath(slots, p) && Below(p, q) && |q| > 0 && IsPath(slots, q)
    requires InPlace(cells, m, Where(None, slots, p)) && InPlace(cells, m, Where(None, slots, q))
    ensures var r, r' := Where(None, slots, p), Where(None, slots, q);
            var member := Load(cells, m, r');
            var left, full := member.(ptr := None), Cell(Load(cells, m, r).flavour, kind, Some(x));
            var cells2 := Written(Written(cells, r', left), r, full);
            var m2 := Stored(Stored(m, r', left)[x := Payload(kind, value, [member])], r, full);
            x in m2 && forall slots2 :: HoldAll(m2, cells2, slots2) ==> x !in OwnedByAll(slots2)
  {
    hide OwnedByAll, HoldAll, HoldsTree, Where, SlotAt, LeadsBack;
    var r, r' := Where(None, slots, p), Where(None, slots, q);
    var member := Load(cells, m, r');
    var left, full := member.(ptr := None), Cell(Load(cells, m, r).flavour, kind, Some(x));
    var cells2 := Written(Written(cells, r', left), r, full);
    var m2 := Stored(Stored(m, r', left)[x := Payload(kind, value, [member])], r, full);
    SetLeadsBack(m, cells, slots, p, q, x, kind, value);
    forall slots2 | HoldAll(m2, cells2, slots2) ensures x !in OwnedByAll(slots2) {
      SelfOwnedIsLost(m2, cells2, slots2, x, [0] + p[|q|..]);
    }
  }
}
