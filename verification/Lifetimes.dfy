/** What happens to objects and blocks over whole runs of several allocators. */
module Lifetimes {
  import opened Arena
  import opened Collections

  // ---- One kind of thing: objects, or blocks ----

  /** What each allocator holds, everything ever made, and everything ended. */
  datatype Ledger<T> = Ledger(held: seq<seq<T>>, made: seq<T>, ended: seq<T>)

  ghost function Total<T>(held: seq<seq<T>>): multiset<T> {
    if held == [] then multiset{} else Total(held[..|held| - 1]) + multiset(held[|held| - 1])
  }

  /** Everything made is held or ended, and counted once. */
  ghost predicate Balanced<T>(l: Ledger<T>) {
    Unique(l.made) && Total(l.held) + multiset(l.ended) == multiset(l.made)
  }

  /** What an allocator may do: come into being, make things, hand all it holds to a new allocator or
      to another one that first ends its own, or end all it holds. */
  datatype Move<T> = Start | Make(i: nat, xs: seq<T>) | HandToNew(i: nat) | HandTo(i: nat, to: nat) | End(i: nat)

  ghost predicate Possible<T>(l: Ledger<T>, m: Move<T>) {
    match m
    case Start => true
    case Make(i, xs) => i < |l.held|
    case HandToNew(i) => i < |l.held|
    case HandTo(i, to) => i < |l.held| && to < |l.held|
    case End(i) => i < |l.held|
  }

  ghost function After<T>(l: Ledger<T>, m: Move<T>): Ledger<T>
    requires Possible(l, m)
  {
    match m
    case Start => l.(held := l.held + [[]])
    case Make(i, xs) => l.(held := l.held[i := l.held[i] + xs], made := l.made + xs)
    case HandToNew(i) => l.(held := l.held[i := []] + [l.held[i]])
    case HandTo(i, to) =>
      if i == to then l
      else l.(held := l.held[to := l.held[i]][i := []], ended := l.ended + l.held[to])
    case End(i) => l.(held := l.held[i := []], ended := l.ended + l.held[i])
  }

  lemma TotalAppend<T>(held: seq<seq<T>>, xs: seq<T>)
    ensures Total(held + [xs]) == Total(held) + multiset(xs)
  {
    assert (held + [xs])[..|held|] == held;
  }

  lemma {:induction false} TotalUpdate<T>(held: seq<seq<T>>, i: nat, xs: seq<T>)
    requires i < |held|
    ensures Total(held[i := xs]) + multiset(held[i]) == Total(held) + multiset(xs)
  {
    var n := |held| - 1;
    if i < n {
      TotalUpdate(held[..n], i, xs);
      assert held[i := xs][..n] == held[..n][i := xs];
      assert held[i := xs][n] == held[n] && held[..n][i] == held[i];
      AddToBoth(Total(held[..n][i := xs]), multiset(held[i]), Total(held[..n]), multiset(xs), multiset(held[n]));
    } else {
      assert held[i := xs][..n] == held[..n];
    }
  }

  lemma TotalHandedTo<T>(held: seq<seq<T>>, i: nat, to: nat)
    requires i < |held| && to < |held| && i != to
    ensures Total(held[to := held[i]][i := []]) + multiset(held[to]) == Total(held)
  {
    TotalUpdate(held, to, held[i]);
    TotalUpdate(held[to := held[i]], i, []);
    CancelThrough(Total(held[to := held[i]][i := []]), Total(held[to := held[i]]),
                  multiset(held[i]), multiset(held[to]), Total(held));
  }

  lemma BalancedAfter<T>(l: Ledger<T>, m: Move<T>)
    requires Balanced(l) && Possible(l, m) && (m.Make? ==> Unique(l.made + m.xs))
    ensures Balanced(After(l, m))
  {
    match m
    case Start =>
      TotalAppend(l.held, []);
    case Make(i, xs) =>
      TotalUpdate(l.held, i, l.held[i] + xs);
      assert multiset(l.held[i] + xs) == multiset(l.held[i]) + multiset(xs);
      CancelInner(Total(l.held[i := l.held[i] + xs]), Total(l.held), multiset(l.held[i]), multiset(xs));
      assert multiset(l.made + xs) == multiset(l.made) + multiset(xs);
    case HandToNew(i) =>
      TotalUpdate(l.held, i, []);
      TotalAppend(l.held[i := []], l.held[i]);
    case HandTo(i, to) =>
      if i != to {
        TotalHandedTo(l.held, i, to);
        assert multiset(l.ended + l.held[to]) == multiset(l.ended) + multiset(l.held[to]);
        Transfer(Total(l.held[to := l.held[i]][i := []]), multiset(l.held[to]), Total(l.held), multiset(l.ended));
      }
    case End(i) =>
      TotalUpdate(l.held, i, []);
      assert multiset(l.ended + l.held[i]) == multiset(l.ended) + multiset(l.held[i]);
      Transfer(Total(l.held[i := []]), multiset(l.held[i]), Total(l.held), multiset(l.ended));
  }

  lemma {:induction false} TotalCounts<T>(held: seq<seq<T>>, i: nat, x: T)
    requires i < |held|
    ensures multiset(held[i])[x] <= Total(held)[x]
  {
    if i == |held| - 1 {
    } else {
      TotalCounts(held[..|held| - 1], i, x);
    }
  }

  lemma {:induction false} TotalCountsTwo<T>(held: seq<seq<T>>, i: nat, j: nat, x: T)
    requires i < j < |held|
    ensures multiset(held[i])[x] + multiset(held[j])[x] <= Total(held)[x]
  {
    if j < |held| - 1 {
      TotalCountsTwo(held[..|held| - 1], i, j, x);
    } else {
      TotalCounts(held[..|held| - 1], i, x);
    }
  }

  lemma {:induction false} TotalHolds<T>(held: seq<seq<T>>, x: T)
    requires Total(held)[x] > 0
    ensures exists i :: 0 <= i < |held| && x in held[i]
  {
    var n := |held| - 1;
    if x in multiset(held[n]) {
      assert x in held[n];
    } else {
      TotalHolds(held[..n], x);
      var i :| 0 <= i < n && x in held[..n][i];
      assert x in held[i];
    }
  }

  /** A thing made is with just one allocator, once, or ended just once. */
  lemma HeldOrEndedOnce<T>(l: Ledger<T>, x: T)
    requires Balanced(l) && x in l.made
    ensures multiset(l.ended)[x] <= 1
    ensures x in l.ended <==> forall i :: 0 <= i < |l.held| ==> x !in l.held[i]
    ensures forall i :: 0 <= i < |l.held| ==> multiset(l.held[i])[x] <= 1
    ensures forall i, j :: 0 <= i < j < |l.held| ==> x !in l.held[i] || x !in l.held[j]
  {
    CountOfUnique(l.made, x);
    MembersCount(l.ended, x);
    assert Total(l.held)[x] + multiset(l.ended)[x] == 1;
    forall i | 0 <= i < |l.held|
      ensures multiset(l.held[i])[x] <= Total(l.held)[x] && (x in l.held[i] <==> multiset(l.held[i])[x] > 0)
    {
      TotalCounts(l.held, i, x);
      MembersCount(l.held[i], x);
    }
    forall i, j | 0 <= i < j < |l.held| ensures multiset(l.held[i])[x] + multiset(l.held[j])[x] <= Total(l.held)[x] {
      TotalCountsTwo(l.held, i, j, x);
    }
    if Total(l.held)[x] > 0 {
      TotalHolds(l.held, x);
    }
  }

  lemma {:induction false} TotalOfNothing<T>(held: seq<seq<T>>)
    requires forall i :: 0 <= i < |held| ==> held[i] == []
    ensures Total(held) == multiset{}
  {
    if held == [] {
    } else {
      TotalOfNothing(held[..|held| - 1]);
    }
  }

  // ---- Allocators ----

  /** Several allocators: what became of the objects and of the blocks, and every allocator's count. */
  datatype State = State(objects: Ledger<Region>, blocks: Ledger<Block>, counts: seq<nat>)

  /** What a caller may do with the allocators. Destruction is a Reset. */
  datatype Step =
    | New
    | Create(i: nat, r: Region, blocks: seq<Block>)
    | MoveConstruct(from: nat)
    | MoveAssign(to: nat, from: nat)
    | Reset(i: nat)

  const INITIAL := State(Ledger([], [], []), Ledger([], [], []), [])

  /** An allocator exists before it is used, a new block is not an old one, and a new object lies in a
      block of its allocator, apart from the objects there. */
  ghost predicate Enabled(s: State, step: Step) {
    var n := |s.objects.held|;
    && |s.blocks.held| == |s.counts| == n
    && match step
       case New => true
       case Create(i, r, blocks) =>
         && i < n && Unique(s.blocks.made + blocks)
         && r.block in s.blocks.held[i] + blocks && r !in s.objects.held[i]
       case MoveConstruct(from) => from < n
       case MoveAssign(to, from) => to < n && from < n
       case Reset(i) => i < n
  }

  function ObjectsMove(step: Step): Move<Region> {
    match step
    case New => Start
    case Create(i, r, _) => Make(i, [r])
    case MoveConstruct(from) => HandToNew(from)
    case MoveAssign(to, from) => HandTo(from, to)
    case Reset(i) => End(i)
  }

  function BlocksMove(step: Step): Move<Block> {
    match step
    case New => Start
    case Create(i, _, blocks) => Make(i, blocks)
    case MoveConstruct(from) => HandToNew(from)
    case MoveAssign(to, from) => HandTo(from, to)
    case Reset(i) => End(i)
  }

  ghost function CountsAfter(s: State, step: Step): seq<nat>
    requires Enabled(s, step)
  {
    var counts := s.counts;
    match step
    case New => counts + [0]
    case Create(i, _, _) => counts[i := counts[i] + 1]
    case MoveConstruct(from) => counts[from := 0] + [counts[from]]
    case MoveAssign(to, from) => if to == from then counts else counts[to := counts[from]][from := 0]
    case Reset(i) => counts[i := 0]
  }

  /** Objects lie in blocks of their allocator, and end with their blocks. */
  ghost predicate Located(s: State) {
    && |s.blocks.held| == |s.objects.held|
    && (forall i, r :: 0 <= i < |s.objects.held| && r in s.objects.held[i] ==> r.block in s.blocks.held[i])
    && (forall r :: r in s.objects.ended ==> r.block in s.blocks.ended)
  }

  ghost predicate Counted(s: State) {
    |s.counts| == |s.objects.held| && forall i :: 0 <= i < |s.counts| ==> s.counts[i] == |s.objects.held[i]|
  }

  ghost predicate Good(s: State) {
    Balanced(s.objects) && Balanced(s.blocks) && Located(s) && Counted(s)
  }

  lemma MadeIfHeldOrEnded<T>(l: Ledger<T>, x: T)
    requires Balanced(l)
    ensures x in l.ended ==> x in l.made
    ensures forall i :: 0 <= i < |l.held| && x in l.held[i] ==> x in l.made
  {
    MembersCount(l.ended, x);
    MembersCount(l.made, x);
    forall i | 0 <= i < |l.held| && x in l.held[i] ensures x in l.made {
      MembersCount(l.held[i], x);
      TotalCounts(l.held, i, x);
    }
  }

  /** A new object was never made before. */
  lemma ObjectIsNew(s: State, step: Step)
    requires Good(s) && Enabled(s, step) && step.Create?
    ensures step.r !in s.objects.made
  {
    var r := step.r;
    if r in s.objects.made {
      HeldOrEndedOnce(s.objects, r);
      MadeIfHeldOrEnded(s.blocks, r.block);
      if r.block in step.blocks {
        NotInBoth(s.blocks.made, step.blocks, r.block);
      } else {
        HeldOrEndedOnce(s.blocks, r.block);
      }
    }
  }

  ghost function StateAfter(s: State, step: Step): State
    requires Enabled(s, step)
  {
    State(After(s.objects, ObjectsMove(step)), After(s.blocks, BlocksMove(step)), CountsAfter(s, step))
  }

  lemma LocatedAfter(s: State, step: Step)
    requires Good(s) && Enabled(s, step)
    ensures Located(StateAfter(s, step))
  {
    hide Balanced, Counted;
  }

  lemma CountedAfter(s: State, step: Step)
    requires Good(s) && Enabled(s, step)
    ensures Counted(StateAfter(s, step))
  {
    hide Balanced, Located;
  }

  lemma GoodAfter(s: State, step: Step)
    requires Good(s) && Enabled(s, step)
    ensures Good(StateAfter(s, step))
  {
    if step.Create? {
      ObjectIsNew(s, step);
    }
    BalancedAfter(s.objects, ObjectsMove(step));
    BalancedAfter(s.blocks, BlocksMove(step));
    LocatedAfter(s, step);
    CountedAfter(s, step);
  }

  /** A run of steps leads from one state to another. */
  ghost predicate Leads(s: State, steps: seq<Step>, t: State)
    decreases |steps|
  {
    if steps == [] then s == t
    else Enabled(s, steps[0]) && Leads(StateAfter(s, steps[0]), steps[1..], t)
  }

  lemma {:induction false} RunStaysGood(s: State, steps: seq<Step>, t: State)
    requires Good(s) && Leads(s, steps, t)
    ensures Good(t)
    decreases |steps|
  {
    if steps == [] {
    } else {
      GoodAfter(s, steps[0]);
      RunStaysGood(StateAfter(s, steps[0]), steps[1..], t);
    }
  }

  /** A thing made is with just one holder or was ended just once; and when nobody holds anything any
      more, everything was ended once. */
  ghost predicate EndedOnce<T>(l: Ledger<T>) {
    && (forall x :: x in l.made ==>
         && multiset(l.ended)[x] <= 1
         && (x in l.ended <==> forall i :: 0 <= i < |l.held| ==> x !in l.held[i])
         && (forall i, j :: 0 <= i < j < |l.held| ==> x !in l.held[i] || x !in l.held[j]))
    && ((forall i :: 0 <= i < |l.held| ==> l.held[i] == []) ==>
         multiset(l.ended) == multiset(l.made) && Unique(l.made))
  }

  lemma BalancedEndsOnce<T>(l: Ledger<T>)
    requires Balanced(l)
    ensures EndedOnce(l)
  {
    forall x | x in l.made
      ensures multiset(l.ended)[x] <= 1
      ensures x in l.ended <==> forall i :: 0 <= i < |l.held| ==> x !in l.held[i]
      ensures forall i, j :: 0 <= i < j < |l.held| ==> x !in l.held[i] || x !in l.held[j]
    {
      HeldOrEndedOnce(l, x);
    }
    if forall i :: 0 <= i < |l.held| ==> l.held[i] == [] {
      TotalOfNothing(l.held);
    }
  }

  /** The count of every allocator is the number of its live objects; every object is live in just one
      allocator or was destroyed once, and every block is with just one allocator or was freed once. */
  ghost predicate Conserved(t: State) {
    Counted(t) && EndedOnce(t.objects) && EndedOnce(t.blocks)
  }

  lemma GoodIsConserved(t: State)
    requires Good(t)
    ensures Conserved(t)
  {
    hide EndedOnce;
    BalancedEndsOnce(t.objects);
    BalancedEndsOnce(t.blocks);
  }

  /** Objects and blocks are conserved over every run. */
  lemma LifetimesConserved(steps: seq<Step>, t: State)
    requires Leads(INITIAL, steps, t)
    ensures Conserved(t)
  {
    RunStaysGood(INITIAL, steps, t);
    GoodIsConserved(t);
  }
}
