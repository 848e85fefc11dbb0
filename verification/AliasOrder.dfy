/** The stack-based ordering of type aliases. */
module AliasOrder {
  import opened Paths
  import opened Walks
  import opened Collections
  import opened Ordering

  function Reversed(ds: seq<Declared>): seq<Declared> {
    if ds == [] then [] else Reversed(ds[1..]) + [ds[0]]
  }

  /** Every other alias that an element needs comes before it. */
  ghost predicate DependencyFirst(g: Types, names: set<string>, ds: seq<Declared>) {
    forall i, n :: 0 <= i < |ds| && n in Needs(g, names, ds[i]) && n != ds[i].name ==> n in Names(ds[..i])
  }

  /** Every other alias that an element needs comes after it. */
  ghost predicate DependencyLater(g: Types, names: set<string>, ds: seq<Declared>) {
    forall i, n :: 0 <= i < |ds| && n in Needs(g, names, ds[i]) && n != ds[i].name ==> n in Names(ds[i + 1..])
  }

  lemma {:induction false} ReversedConcat(a: seq<Declared>, b: seq<Declared>)
    ensures Reversed(a + b) == Reversed(b) + Reversed(a)
  {
    if a == [] {
      assert a + b == b;
    } else {
      assert (a + b)[1..] == a[1..] + b;
      ReversedConcat(a[1..], b);
    }
  }

  lemma SplitFirst(ds: seq<Declared>)
    requires ds != []
    ensures Names(ds) == Names(ds[1..]) + {ds[0].name}
  {
    assert ds == [ds[0]] + ds[1..];
    NamesConcat([ds[0]], ds[1..]);
  }

  lemma {:induction false} ReversedNames(ds: seq<Declared>)
    ensures |Reversed(ds)| == |ds| && Names(Reversed(ds)) == Names(ds)
  {
    if ds == [] {
    } else {
      ReversedNames(ds[1..]);
      PushName(Reversed(ds[1..]), ds[0]);
      SplitFirst(ds);
    }
  }

  /** Element i and what comes after it, seen in the reversed list. */
  lemma ReversedAt(ds: seq<Declared>, i: nat)
    requires i < |ds|
    ensures var r, j := Reversed(ds), |ds| - 1 - i;
            |r| == |ds| && r[j] == ds[i] && Names(r[..j]) == Names(ds[i + 1..])
  {
    var before, after := ds[..i], ds[i + 1..];
    assert ds == (before + [ds[i]]) + after;
    ReversedConcat(before + [ds[i]], after);
    ReversedConcat(before, [ds[i]]);
    ReversedNames(after);
    ReversedNames(ds);
    assert Reversed([ds[i]]) == [ds[i]];
  }

  lemma ReversedOrder(g: Types, names: set<string>, ds: seq<Declared>)
    ensures DependencyFirst(g, names, Reversed(ds)) <==> DependencyLater(g, names, ds)
  {
    var r := Reversed(ds);
    ReversedNames(ds);
    if DependencyFirst(g, names, r) {
      forall i, n | 0 <= i < |ds| && n in Needs(g, names, ds[i]) && n != ds[i].name ensures n in Names(ds[i + 1..]) {
        ReversedAt(ds, i);
      }
    }
    if DependencyLater(g, names, ds) {
      forall j, n | 0 <= j < |r| && n in Needs(g, names, r[j]) && n != r[j].name ensures n in Names(r[..j]) {
        ReversedAt(ds, |ds| - 1 - j);
      }
    }
  }

  /** An element was emitted before an alias it needs, and so it stays. */
  ghost predicate Misplaced(g: Types, names: set<string>, ds: seq<Declared>) {
    exists i, n :: 0 <= i < |ds| && n in Needs(g, names, ds[i]) && n != ds[i].name && n !in Names(ds[..i])
  }

  lemma MisplacedStays(g: Types, names: set<string>, ds: seq<Declared>, d: Declared)
    requires Misplaced(g, names, ds)
    ensures Misplaced(g, names, ds + [d])
  {
    var i, n :| 0 <= i < |ds| && n in Needs(g, names, ds[i]) && n != ds[i].name && n !in Names(ds[..i]);
    assert (ds + [d])[..i] == ds[..i];
  }

  ghost predicate IsAlias(d: Declared) { d.bases == [] && |d.types| == 1 }

  ghost function NamedIn(g: Types, names: set<string>, ts: seq<TypeId>): set<string> {
    set n | n in names && exists t :: t in ts && t in g && g[t] == Reference(n)
  }

  lemma NamedInOneMore(g: Types, names: set<string>, ts: seq<TypeId>, i: nat)
    requires i < |ts| && ts[i] in g
    ensures NamedIn(g, names, ts[..i + 1]) ==
            NamedIn(g, names, ts[..i]) +
            if g[ts[i]].Reference? && g[ts[i]].name in names then {g[ts[i]].name} else {}
  {
    assert forall t :: t in ts[..i + 1] <==> t in ts[..i] || t == ts[i];
  }

  lemma FoundAll(g: Types, names: set<string>, d: Declared, types: seq<TypeId>)
    requires IsAlias(d) && forall u :: u in types <==> Reaches(PartEdges(g), d.types[0], u)
    ensures NamedIn(g, names, types) == Needs(g, names, d)
  {
    forall n | n in names ensures n in NamedIn(g, names, types) <==> Mentions(g, d.types[0], n) {}
    assert forall t :: t in d.types <==> t == d.types[0];
  }

  lemma OneTypeInOrder(g: Types, names: set<string>, d: Declared, types: seq<TypeId>)
    requires IsAlias(d) && types == Preorder(PartLists(g), [d.types[0]], {})
    ensures NeedsInOrder(g, names, d) == NamesIn(g, names, types)
  {
    hide Preorder;
    assert NamesIn(g, names, d.bases) == [] && NamesBelow(g, names, d.types[..0]) == [];
    assert |d.types| - 1 == 0;
  }

  /** The aliases referred to below the type of alias d, in the order they are found. */
  method References(g: Types, aliases: map<string, Declared>, d: Declared) returns (found: seq<Declared>)
    requires Closed(g) && InGraph(g, d) && IsAlias(d)
    requires forall n :: n in aliases ==> aliases[n].name == n
    ensures Names(found) == Needs(g, aliases.Keys, d)
    ensures NameList(found) == NeedsInOrder(g, aliases.Keys, d)
    ensures forall x :: x in found ==> x.name in aliases && aliases[x.name] == x
  {
    var types := RecursiveTypesOf(g, d.types[0]);
    found := [];
    var i := 0;
    while i < |types|
      invariant i <= |types|
      invariant Names(found) == NamedIn(g, aliases.Keys, types[..i])
      invariant NameList(found) == NamesIn(g, aliases.Keys, types[..i])
      invariant forall x :: x in found ==> x.name in aliases && aliases[x.name] == x
    {
      assert types[i] in types;
      NamedInOneMore(g, aliases.Keys, types, i);
      NamesInOneMore(g, aliases.Keys, types, i);
      var node := g[types[i]];
      if node.Reference? && node.name in aliases {
        PushName(found, aliases[node.name]);
        NameListPush(found, aliases[node.name]);
        found := found + [aliases[node.name]];
      }
      i := i + 1;
    }
    assert types[..i] == types;
    FoundAll(g, aliases.Keys, d, types);
    OneTypeInOrder(g, aliases.Keys, d, types);
  }

  // ---- The loop ----

  /** Before any alias was emitted early: the tail of the input has been emitted in reverse, and
      what else lies on the stack has been emitted too. */
  ghost predicate Orderly(g: Types, names: set<string>, input: seq<Declared>, k: nat, extra: seq<Declared>,
                          stack: seq<Declared>, sorted: seq<Declared>)
  {
    && k <= |input| && stack == input[..k] + extra && sorted == Reversed(input[k..])
    && Names(extra) <= Names(input[k..])
    && DependencyLater(g, names, input[k..])
  }

  /** After an alias was emitted early. */
  ghost predicate Disorderly(g: Types, names: set<string>, input: seq<Declared>, sorted: seq<Declared>) {
    Misplaced(g, names, sorted) && !DependencyLater(g, names, input)
  }

  /** The invariant: the emitted aliases are those seen, and none is lost. */
  ghost predicate Sorting(input: seq<Declared>, table: map<string, Declared>, stack: seq<Declared>, seen: set<string>,
                          sorted: seq<Declared>)
  {
    && seen == Names(sorted) && UniqueNames(sorted)
    && seen + Names(stack) == Names(input)
    && (forall d :: d in stack || d in sorted ==> d.name in table && table[d.name] == d)
  }

  lemma LaterOneMore(g: Types, names: set<string>, d: Declared, rest: seq<Declared>)
    requires DependencyLater(g, names, rest) && Needs(g, names, d) <= Names(rest) + {d.name}
    ensures DependencyLater(g, names, [d] + rest)
  {
    var ds := [d] + rest;
    forall i, n | 0 <= i < |ds| && n in Needs(g, names, ds[i]) && n != ds[i].name ensures n in Names(ds[i + 1..]) {
      if i == 0 {
        assert ds[1..] == rest;
      } else {
        assert ds[i + 1..] == rest[i..];
        assert rest[i - 1 + 1..] == rest[i..];
      }
    }
  }

  lemma PopOrderly(g: Types, names: set<string>, input: seq<Declared>, k: nat, sorted: seq<Declared>,
                   needs: set<string>)
    requires 0 < k <= |input| && UniqueNames(input) && sorted == Reversed(input[k..])
    requires DependencyLater(g, names, input[k..]) && needs == Needs(g, names, input[k - 1])
    ensures sorted + [input[k - 1]] == Reversed(input[k - 1..])
    ensures needs <= Names(input[k - 1..]) ==> DependencyLater(g, names, input[k - 1..])
    ensures !(needs <= Names(input[k - 1..])) ==> Disorderly(g, names, input, sorted + [input[k - 1]])
  {
    var d, rest := input[k - 1], input[k..];
    assert input[k - 1..] == [d] + rest;
    SplitFirst(input[k - 1..]);
    if needs <= Names(input[k - 1..]) {
      LaterOneMore(g, names, d, rest);
    } else {
      var n :| n in needs && n !in Names(input[k - 1..]);
      ReversedNames(rest);
      assert (sorted + [d])[..|sorted|] == sorted;
      assert (sorted + [d])[|sorted|] == d;
      assert input[k - 1 + 1..] == rest;
    }
  }

  /** A seen alias on top of the stack belongs to `extra`. */
  lemma SeenIsExtra(g: Types, names: set<string>, input: seq<Declared>, k: nat, extra: seq<Declared>,
                    stack: seq<Declared>, sorted: seq<Declared>)
    requires UniqueNames(input) && Orderly(g, names, input, k, extra, stack, sorted) && stack != []
    requires stack[|stack| - 1].name in Names(sorted)
    ensures extra != []
    ensures Orderly(g, names, input, k, extra[..|extra| - 1], stack[..|stack| - 1], sorted)
  {
    ReversedNames(input[k..]);
    if extra == [] {
      assert false;
    }
    SplitLast(extra);
    PushName(extra[..|extra| - 1], extra[|extra| - 1]);
    assert stack[..|stack| - 1] == input[..k] + extra[..|extra| - 1];
  }

  /** An unseen alias on top of the stack is the next of the input, from its end. */
  lemma UnseenIsNext(g: Types, names: set<string>, input: seq<Declared>, k: nat, extra: seq<Declared>,
                     stack: seq<Declared>, sorted: seq<Declared>)
    requires Orderly(g, names, input, k, extra, stack, sorted) && stack != []
    requires stack[|stack| - 1].name !in Names(sorted)
    ensures extra == [] && 0 < k && stack[|stack| - 1] == input[k - 1] && stack[..|stack| - 1] == input[..k - 1]
  {
    ReversedNames(input[k..]);
    if extra != [] {
      assert false;
    }
  }

  /** Popping a seen alias loses nothing. */
  lemma SortingSkips(input: seq<Declared>, table: map<string, Declared>, stack: seq<Declared>, seen: set<string>,
                     sorted: seq<Declared>)
    requires Sorting(input, table, stack, seen, sorted) && stack != [] && stack[|stack| - 1].name in seen
    ensures Sorting(input, table, stack[..|stack| - 1], seen, sorted)
  {
    var rest := stack[..|stack| - 1];
    SplitLast(stack);
    PushName(rest, stack[|stack| - 1]);
    forall d | d in rest ensures d in stack {}
  }

  /** Emitting an alias and stacking what it needs. */
  lemma SortingEmits(input: seq<Declared>, table: map<string, Declared>, rest: seq<Declared>, d: Declared,
                     found: seq<Declared>, seen: set<string>, sorted: seq<Declared>)
    requires Sorting(input, table, rest + [d], seen, sorted) && d.name !in seen && Names(found) <= Names(input)
    requires forall x :: x in found ==> x.name in table && table[x.name] == x
    ensures Sorting(input, table, rest + found, seen + {d.name}, sorted + [d])
    ensures |Names(input) - (seen + {d.name})| < |Names(input) - seen|
  {
    hide Names;
    PushName(rest, d);
    PushName(sorted, d);
    NamesConcat(rest, found);
    assert d in rest + [d];
    forall x | x in rest ensures x in rest + [d] {}
    Smaller(Names(input) - (seen + {d.name}), Names(input) - seen);
  }

  /** How far the loop has come: either the aliases before k still wait in their order, under
      some that were emitted already, or one was emitted early. */
  datatype Phase = InOrder(k: nat, extra: seq<Declared>) | Broken

  ghost predicate Follows(g: Types, input: seq<Declared>, phase: Phase, stack: seq<Declared>, sorted: seq<Declared>) {
    match phase
    case InOrder(k, extra) => Orderly(g, Names(input), input, k, extra, stack, sorted)
    case Broken => Disorderly(g, Names(input), input, sorted)
  }

  lemma FollowsSkip(g: Types, input: seq<Declared>, phase: Phase, stack: seq<Declared>, sorted: seq<Declared>)
    returns (next: Phase)
    requires UniqueNames(input) && Follows(g, input, phase, stack, sorted) && stack != []
    requires stack[|stack| - 1].name in Names(sorted)
    ensures Follows(g, input, next, stack[..|stack| - 1], sorted)
  {
    match phase
    case Broken => next := Broken;
    case InOrder(k, extra) =>
      SeenIsExtra(g, Names(input), input, k, extra, stack, sorted);
      next := InOrder(k, extra[..|extra| - 1]);
  }

  /** Emitting the next alias of the input: either its dependencies came earlier, or it is early. */
  lemma OrderlyEmit(g: Types, names: set<string>, input: seq<Declared>, k: nat, extra: seq<Declared>,
                    stack: seq<Declared>, sorted: seq<Declared>, found: seq<Declared>)
    requires UniqueNames(input) && Orderly(g, names, input, k, extra, stack, sorted) && stack != []
    requires stack[|stack| - 1].name !in Names(sorted) && Names(found) == Needs(g, names, stack[|stack| - 1])
    ensures 0 < k <= |input|
    ensures if Names(found) <= Names(input[k - 1..])
            then Orderly(g, names, input, k - 1, found, stack[..|stack| - 1] + found, sorted + [stack[|stack| - 1]])
            else Disorderly(g, names, input, sorted + [stack[|stack| - 1]])
  {
    hide Names, Needs, UniqueNames, DependencyLater, Misplaced, Reversed;
    UnseenIsNext(g, names, input, k, extra, stack, sorted);
    PopOrderly(g, names, input, k, sorted, Names(found));
  }

  lemma FollowsEmit(g: Types, input: seq<Declared>, phase: Phase, stack: seq<Declared>, sorted: seq<Declared>,
                    found: seq<Declared>)
    returns (next: Phase)
    requires UniqueNames(input) && Follows(g, input, phase, stack, sorted) && stack != []
    requires stack[|stack| - 1].name !in Names(sorted)
    requires Names(found) == Needs(g, Names(input), stack[|stack| - 1])
    ensures Follows(g, input, next, stack[..|stack| - 1] + found, sorted + [stack[|stack| - 1]])
  {
    hide Names, Needs, UniqueNames, Orderly, DependencyLater, Misplaced;
    match phase
    case Broken =>
      MisplacedStays(g, Names(input), sorted, stack[|stack| - 1]);
      next := Broken;
    case InOrder(k, extra) =>
      OrderlyEmit(g, Names(input), input, k, extra, stack, sorted, found);
      next := if Names(found) <= Names(input[k - 1..]) then InOrder(k - 1, found) else Broken;
  }

  lemma StackedIsInput(input: seq<Declared>, table: map<string, Declared>, stack: seq<Declared>, seen: set<string>,
                       sorted: seq<Declared>, d: Declared)
    requires IsTable(input, table) && Sorting(input, table, stack, seen, sorted) && d in stack
    ensures d in input && seen == Names(sorted)
  {
  }

  lemma TableIsNamed(input: seq<Declared>, table: map<string, Declared>)
    requires IsTable(input, table)
    ensures forall n :: n in table ==> table[n].name == n
  {
  }

  lemma TableNames(g: Types, input: seq<Declared>, table: map<string, Declared>)
    requires IsTable(input, table)
    ensures table.Keys == Names(input)
    ensures Sorting(input, table, input, {}, [])
    ensures Follows(g, input, InOrder(|input|, []), input, [])
  {
    assert input[..|input|] == input && input[|input|..] == [];
    assert input + [] == input;
  }

  lemma Sorted(g: Types, input: seq<Declared>, table: map<string, Declared>, phase: Phase, seen: set<string>,
               sorted: seq<Declared>)
    requires UniqueNames(input) && IsTable(input, table) && Sorting(input, table, [], seen, sorted)
    requires Follows(g, input, phase, [], sorted)
    ensures multiset(sorted) == multiset(input)
    ensures DependencyFirst(g, Names(input), sorted) <==> DependencyLater(g, Names(input), input)
    ensures DependencyLater(g, Names(input), input) ==> sorted == Reversed(input)
  {
    assert Names([]) == {};
    SameNamesPermute(sorted, input, table);
    if phase.InOrder? {
      assert phase.k == 0 && input[phase.k..] == input;
      ReversedOrder(g, Names(input), input);
    }
  }

  /** Emitting an alias and stacking what it needs goes on with the same walk. */
  lemma WalksOn(g: Types, input: seq<Declared>, table: map<string, Declared>, rest: seq<Declared>, d: Declared,
                found: seq<Declared>, seen: set<string>, sorted: seq<Declared>)
    requires IsTable(input, table) && d in input && d.name !in seen
    requires NameList(found) == NeedsInOrder(g, table.Keys, d)
    ensures var lists := NeedLists(g, table);
            NameList(sorted) + Preorder(lists, NameList(rest + [d]), seen) ==
            NameList(sorted + [d]) + Preorder(lists, NameList(rest + found), seen + {d.name})
  {
    hide NameList, NeedsInOrder, Preorder;
    var lists := NeedLists(g, table);
    NameListPush(rest, d);
    NameListPush(sorted, d);
    NameListConcat(rest, found);
    PreorderOnStack(lists, NameList(rest), d.name, seen);
    AssociateThree(NameList(sorted), [d.name], Preorder(lists, NameList(rest + found), seen + {d.name}));
  }

  lemma NothingLeft(lists: Successors<string>, seen: set<string>, sorted: seq<Declared>)
    ensures NameList(sorted) + Preorder(lists, NameList([]), seen) == NameList(sorted)
    ensures NameList([]) == []
  {
    EmptyWalk(lists, seen);
  }

  /** Orders uniquely named aliases. Nothing is lost; and since an alias is emitted before the
      aliases it makes the loop look at, the result has dependencies first exactly when the
      input has them last, and then it is the input reversed. */
  method SortTypeAliases(g: Types, input: seq<Declared>) returns (sorted: seq<Declared>)
    requires Closed(g) && UniqueNames(input) && forall d :: d in input ==> InGraph(g, d) && IsAlias(d)
    ensures multiset(sorted) == multiset(input)
    ensures NameList(sorted) == Preorder(NeedLists(g, TableOf(input)), NameList(input), {})
    ensures DependencyFirst(g, Names(input), sorted) <==> DependencyLater(g, Names(input), input)
    ensures DependencyLater(g, Names(input), input) ==> sorted == Reversed(input)
  {
    hide Names, Closed, InGraph, Reversed, Follows, Sorting, IsTable, UniqueNames, DependencyFirst, DependencyLater;
    hide NameList, NeedLists, Preorder, IsAlias;
    var aliases := Tabulate(input);
    ghost var lists := NeedLists(g, aliases);
    OneTable(input, aliases, TableOf(input));
    var stack, seen: set<string> := input, {};
    sorted := [];
    ghost var phase := InOrder(|input|, []);
    TableNames(g, input, aliases);
    NothingLeft(lists, {}, []);
    TableIsNamed(input, aliases);
    while stack != []
      invariant Sorting(input, aliases, stack, seen, sorted)
      invariant Follows(g, input, phase, stack, sorted)
      invariant NameList(sorted) + Preorder(lists, NameList(stack), seen) == Preorder(lists, NameList(input), {})
      decreases |Names(input) - seen|, |stack|
    {
      var alias, rest := stack[|stack| - 1], stack[..|stack| - 1];
      SplitLast(stack);
      StackedIsInput(input, aliases, stack, seen, sorted, alias);
      if alias.name in seen {
        SortingSkips(input, aliases, stack, seen, sorted);
        phase := FollowsSkip(g, input, phase, stack, sorted);
        NameListPush(rest, alias);
        PreorderOld(lists, NameList(rest), alias.name, seen);
        stack := rest;
        continue;
      }
      var found := References(g, aliases, alias);
      SortingEmits(input, aliases, rest, alias, found, seen, sorted);
      phase := FollowsEmit(g, input, phase, stack, sorted, found);
      WalksOn(g, input, aliases, rest, alias, found, seen, sorted);
      seen := seen + {alias.name};
      stack := rest + found;
      sorted := sorted + [alias];
    }
    Sorted(g, input, aliases, phase, seen, sorted);
    NothingLeft(lists, seen, sorted);
  }
}
