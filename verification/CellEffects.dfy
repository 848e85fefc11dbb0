/** What the operations on cells come to, read at the cells themselves. */
module CellEffects {
  import opened Results
  import opened OwningCells
  import opened Places
  import opened Populations

  /** The kind of a OneOf that holds nothing is 255, that of an Optional stays 0. */
  lemma EmptiedShows(values: seq<Value>, p: seq<nat>, q: seq<nat>)
    requires IsValuePath(values, p) && IsValuePath(values, q)
    ensures var flavour := ValueAt(values, p).flavour;
            ValueAt(Emptied(values, p), p) == Value(flavour, if flavour == OneOf then 255 else 0, None)
    ensures Apart(p, q) ==> IsValuePath(Emptied(values, p), q) && ValueAt(Emptied(values, p), q) == ValueAt(values, q)
  {
    hide With;
    if Apart(p, q) {
      ApartStays(values, p, EmptyValue(ValueAt(values, p).flavour), q);
    }
  }

  /** A cell moved from holds nothing, but says what it held. */
  lemma MovedOutShows(values: seq<Value>, q: seq<nat>, o: seq<nat>)
    requires IsValuePath(values, q) && IsValuePath(values, o)
    ensures var v := ValueAt(values, q); ValueAt(MovedOut(values, q), q) == Value(v.flavour, v.kind, None)
    ensures Apart(q, o) ==> IsValuePath(MovedOut(values, q), o) && ValueAt(MovedOut(values, q), o) == ValueAt(values, o)
  {
    hide With;
    if Apart(q, o) {
      ApartStays(values, q, MovedFrom(ValueAt(values, q)), o);
    }
  }

  /** A change at p, seen from a cell above it. */
  lemma {:induction false} SeenFromAbove(values: seq<Value>, p: seq<nat>, v: Value, q: seq<nat>)
    requires IsValuePath(values, p) && Below(p, q) && |q| > 0
    ensures IsValuePath(values, q) && IsValuePath(With(values, p, v), q)
    ensures var u, w := ValueAt(values, q), p[|q|..];
            && u.content.Some? && IsValuePath(u.content.value.members, w)
            && ValueAt(u.content.value.members, w) == ValueAt(values, p)
            && ValueAt(With(values, p, v), q) ==
               u.(content := Some(u.content.value.(members := With(u.content.value.members, w, v))))
    decreases |q|
  {
    if |q| == 1 {
    } else {
      var t := values[q[0]].content.value;
      ApartTails(q, p);
      SeenFromAbove(t.members, p[1..], v, q[1..]);
      assert p[1..][|q[1..]|..] == p[|q|..];
    }
  }

  /** Copying from a cell above: the target gets what the source held with the target emptied in it. */
  lemma CopiedFromAbove(values: seq<Value>, p: seq<nat>, q: seq<nat>)
    requires IsValuePath(values, p) && Below(p, q) && |q| > 0
    ensures IsValuePath(values, q) && !Below(q, p)
    ensures var u, w := ValueAt(values, q), p[|q|..];
            && u.content.Some? && IsValuePath(u.content.value.members, w)
            && ValueAt(Copied(values, p, q), p) ==
               u.(content := Some(u.content.value.(members := Emptied(u.content.value.members, w))))
  {
    hide With;
    var e := EmptyValue(ValueAt(values, p).flavour);
    SeenFromAbove(values, p, e, q);
  }

  lemma ApartIsSymmetric(p: seq<nat>, q: seq<nat>)
    requires Apart(p, q)
    ensures Apart(q, p)
  {
  }

  /** The struct that a cell is set to, and each of its members: what was at the place it was taken from,
      and nothing if that is the cell itself, which was emptied before. */
  lemma SetShows(values: seq<Value>, p: seq<nat>, kind: nat, value: int, paths: seq<seq<nat>>, move: bool, k: nat)
    requires IsValuePath(values, p) && ArePaths(values, paths) && k < |paths|
    requires forall j :: 0 <= j < |paths| ==> !Below(paths[j], p)
    requires move ==> InTurn(paths) && NotBelow(p, paths) && AllApart(paths)
    ensures var v := ValueAt(SetTo(values, p, kind, value, paths, move), p);
            && v.flavour == ValueAt(values, p).flavour && v.kind == kind && v.content.Some?
            && v.content.value.kind == kind && v.content.value.value == value
            && |v.content.value.members| == |paths|
            && (Apart(paths[k], p) ==> v.content.value.members[k] == ValueAt(values, paths[k]))
            && (paths[k] == p ==> v.content.value.members[k] == Value(v.flavour, kind, None))
  {
    hide With, Apart, Below;
    var announced := Value(ValueAt(values, p).flavour, kind, None);
    AllStay(values, p, kind, paths);
    var e := Announced(values, p, kind);
    StillPathLeft(e, paths, move, p);
    PickedAsTheyWere(e, paths, move, k);
    if Apart(paths[k], p) {
      ApartIsSymmetric(paths[k], p);
      ApartStays(values, p, announced, paths[k]);
    }
  }

  /** Moving out of cells apart from each other leaves each of them empty, saying what it held. */
  lemma {:induction false} AllMovedOutShow(values: seq<Value>, paths: seq<seq<nat>>, k: nat)
    requires ArePaths(values, paths) && InTurn(paths) && AllApart(paths) && k < |paths|
    ensures IsValuePath(AllMovedOut(values, paths), paths[k])
    ensures var v := ValueAt(values, paths[k]);
            ValueAt(AllMovedOut(values, paths), paths[k]) == Value(v.flavour, v.kind, None)
    decreases |paths|
  {
    hide With, Apart, Below;
    var front, last := paths[..|paths| - 1], paths[|paths| - 1];
    InTurnFront(paths);
    StillPath(values, front, last);
    var before := AllMovedOut(values, front);
    if k == |paths| - 1 {
      OutsideStays(values, front, last);
    } else {
      AllMovedOutShow(values, front, k);
      assert Apart(paths[k], last);
      ApartIsSymmetric(paths[k], last);
      ApartStays(before, last, MovedFrom(ValueAt(before, last)), paths[k]);
    }
  }

  /** So does making a struct of members moved out of cells apart from the one that is set. */
  lemma SetLeaves(values: seq<Value>, p: seq<nat>, kind: nat, value: int, paths: seq<seq<nat>>, k: nat)
    requires IsValuePath(values, p) && ArePaths(values, paths) && k < |paths| && Apart(p, paths[k])
    requires forall j :: 0 <= j < |paths| ==> !Below(paths[j], p)
    requires InTurn(paths) && NotBelow(p, paths) && AllApart(paths)
    ensures var r, v := SetTo(values, p, kind, value, paths, true), ValueAt(values, paths[k]);
            IsValuePath(r, paths[k]) && ValueAt(r, paths[k]) == Value(v.flavour, v.kind, None)
  {
    hide With, Apart, Below;
    var flavour := ValueAt(values, p).flavour;
    AllStay(values, p, kind, paths);
    var e := Announced(values, p, kind);
    ApartStays(values, p, Value(flavour, kind, None), paths[k]);
    StillPathLeft(e, paths, true, p);
    AllMovedOutShow(e, paths, k);
    ApartStays(AllMovedOut(e, paths), p, Value(flavour, kind, Some(Struct(kind, value, Picked(e, paths, true)))),
               paths[k]);
  }
}
