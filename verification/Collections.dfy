/** Facts about numbers, sequences, sets and multisets that several modules use. */
module Collections {
  // ---- Numbers ----

  lemma DivBounds(n: nat, d: nat)
    requires d > 0
    ensures (n / d) * d <= n < (n / d) * d + d
  {
    assert n == d * (n / d) + n % d;
  }

  lemma ProductGrows(a: int, b: int, d: nat)
    requires a <= b
    ensures a * d <= b * d
  {
  }

  // ---- Sequences ----

  ghost predicate Unique<T>(s: seq<T>) {
    forall i, j :: 0 <= i < j < |s| ==> s[i] != s[j]
  }

  ghost function Elements<T>(s: seq<T>): set<T> {
    set x | x in s
  }

  lemma ElementsOf<T>(a: seq<T>, b: seq<T>)
    ensures Elements(a + b) == Elements(a) + Elements(b)
  {
  }

  lemma Push<T>(s: seq<T>, x: T)
    ensures Elements(s + [x]) == Elements(s) + {x}
    ensures Unique(s) && x !in Elements(s) ==> Unique(s + [x])
  {
  }

  lemma SplitLast<T>(s: seq<T>)
    requires s != []
    ensures s == s[..|s| - 1] + [s[|s| - 1]]
  {
  }

  lemma SameElements<T>(s: seq<T>, t: seq<T>)
    requires |s| == |t| && forall i :: 0 <= i < |s| ==> s[i] == t[i]
    ensures s == t
  {
  }

  lemma Slices<T>(s: seq<T>, n: nat)
    requires n < |s|
    ensures var k := |s| - 1; s[..k][..n] == s[..n] && s[n..] == s[..k][n..] + [s[k]]
  {
  }

  lemma AssociateThree<T>(a: seq<T>, b: seq<T>, c: seq<T>)
    ensures a + b + c == a + (b + c)
  {
  }

  lemma AssociateFour<T>(a: seq<T>, b: seq<T>, c: seq<T>, d: seq<T>)
    ensures a + (b + (c + d)) == a + b + c + d
  {
  }

  lemma AssociateFive<T>(a: seq<T>, b: seq<T>, c: seq<T>, d: seq<T>, e: seq<T>)
    ensures a + (b + c) + d + e == a + b + (c + (d + e))
  {
  }

  lemma NotInBoth<T>(s: seq<T>, t: seq<T>, x: T)
    requires Unique(s + t) && x in t
    ensures x !in s
  {
    var j :| 0 <= j < |t| && t[j] == x;
    forall i | 0 <= i < |s| ensures s[i] != x {
      assert (s + t)[i] != (s + t)[|s| + j];
    }
  }

  // ---- Sets ----

  lemma Smaller<T>(a: set<T>, b: set<T>)
    requires a < b
    ensures |a| < |b|
  {
    assert b == a + (b - a);
  }

  lemma NotLarger<T>(a: set<T>, b: set<T>)
    requires a <= b
    ensures |a| <= |b|
  {
    assert b == a + (b - a);
  }

  // ---- Multisets ----

  lemma MembersCount<T>(s: seq<T>, x: T)
    ensures x in s <==> multiset(s)[x] > 0
  {
    assert x in s <==> x in multiset(s);
  }

  lemma {:induction false} CountOfUnique<T>(s: seq<T>, x: T)
    requires Unique(s)
    ensures multiset(s)[x] == if x in s then 1 else 0
  {
    if s == [] {
    } else {
      var n := |s| - 1;
      CountOfUnique(s[..n], x);
      assert s == s[..n] + [s[n]];
    }
  }

  lemma CountOfTwo<T>(s: seq<T>, i: nat, j: nat)
    requires i < j < |s| && s[i] == s[j]
    ensures multiset(s)[s[i]] >= 2
  {
    assert s == s[..j] + s[j..];
    assert s[i] in s[..j] && s[i] in s[j..];
    assert multiset(s) == multiset(s[..j]) + multiset(s[j..]);
  }

  lemma CancelRight<T>(a: multiset<T>, b: multiset<T>, c: multiset<T>)
    requires a + c == b + c
    ensures a == b
  {
    assert (a + c) - c == a;
    assert (b + c) - c == b;
  }

  lemma AddToBoth<T>(a: multiset<T>, b: multiset<T>, c: multiset<T>, d: multiset<T>, e: multiset<T>)
    requires a + b == c + d
    ensures (a + e) + b == (c + e) + d
  {
    assert (a + e) + b == (a + b) + e;
    assert (c + e) + d == (c + d) + e;
  }

  lemma CancelInner<T>(a: multiset<T>, b: multiset<T>, c: multiset<T>, d: multiset<T>)
    requires a + c == b + (c + d)
    ensures a == b + d
  {
    assert b + (c + d) == (b + d) + c;
    CancelRight(a, b + d, c);
  }

  lemma CancelThrough<T>(a: multiset<T>, b: multiset<T>, c: multiset<T>, d: multiset<T>, e: multiset<T>)
    requires a + c == b && b + d == e + c
    ensures a + d == e
  {
    assert (a + d) + c == (a + c) + d;
    CancelRight(a + d, e, c);
  }

  lemma CancelMiddle<T>(a: multiset<T>, b: multiset<T>, c: multiset<T>, d: multiset<T>, e: multiset<T>)
    requires (a + b) + c == d + (e + b)
    ensures a + c == d + e
  {
    assert (a + b) + c == (a + c) + b;
    assert d + (e + b) == (d + e) + b;
    CancelRight(a + c, d + e, b);
  }

  lemma Transfer<T>(a: multiset<T>, b: multiset<T>, c: multiset<T>, d: multiset<T>)
    requires a + b == c
    ensures a + (d + b) == c + d
  {
    assert a + (d + b) == (a + b) + d;
  }

  lemma Chain<T>(a: multiset<T>, b: multiset<T>, c: multiset<T>, d: multiset<T>, e: multiset<T>)
    requires a + b == c && c + d == e
    ensures a + (b + d) == e
  {
    assert a + (b + d) == (a + b) + d;
  }
}
