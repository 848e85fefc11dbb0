/** Replacing text in a string, and decimal numerals. A char stands for one byte. */
module Strings {
  import opened Collections

  // ---- ReplaceAll ----

  predicate OccursAt(s: string, sub: string, i: nat) {
    i + |sub| <= |s| && s[i..i + |sub|] == sub
  }

  /** The first occurrence of sub in s at or after `from`, or -1. */
  method Find(s: string, sub: string, from: nat) returns (i: int)
    requires from <= |s|
    ensures i == -1 || from <= i <= |s|
    ensures i >= 0 ==> OccursAt(s, sub, i) && forall j :: from <= j < i ==> !OccursAt(s, sub, j)
    ensures i == -1 ==> forall j: nat :: from <= j ==> !OccursAt(s, sub, j)
  {
    var k := from;
    while k + |sub| <= |s|
      invariant from <= k <= |s| + 1
      invariant forall j :: from <= j < k ==> !OccursAt(s, sub, j)
      decreases |s| - k
    {
      if s[k..k + |sub|] == sub {
        return k;
      }
      k := k + 1;
    }
    return -1;
  }

  /** s is pieces[0] sep pieces[1] sep ... */
  function Join(pieces: seq<string>, sep: string): string {
    if pieces == [] then ""
    else if |pieces| == 1 then pieces[0]
    else pieces[0] + sep + Join(pieces[1..], sep)
  }

  ghost predicate Lacks(s: string, sub: string) {
    forall j: nat :: !OccursAt(s, sub, j)
  }

  /** The pieces are cut at the leftmost places: no separator starts within a piece. */
  ghost predicate LeftmostPieces(pieces: seq<string>, sep: string) {
    && pieces != []
    && (forall i, j: nat :: 0 <= i < |pieces| - 1 && j < |pieces[i]| ==> !OccursAt(pieces[i] + sep, sep, j))
    && Lacks(pieces[|pieces| - 1], sep)
  }

  lemma OccursInSlice(s: string, a: nat, b: nat, sub: string, j: nat)
    requires a <= b <= |s| && a + j + |sub| <= b
    ensures OccursAt(s[a..b], sub, j) <==> OccursAt(s, sub, a + j)
  {
    var t, u := s[a..b][j..j + |sub|], s[a + j..a + j + |sub|];
    assert |t| == |u| && forall k :: 0 <= k < |t| ==> t[k] == u[k];
  }

  lemma FirstCut(a: seq<string>, sep: string)
    requires |a| > 1 && LeftmostPieces(a, sep)
    ensures OccursAt(Join(a, sep), sep, |a[0]|)
    ensures LeftmostPieces(a[1..], sep)
  {
    forall i, j: nat | 0 <= i < |a[1..]| - 1 && j < |a[1..][i]| ensures !OccursAt(a[1..][i] + sep, sep, j) {
      assert a[1..][i] == a[i + 1];
    }
  }

  /** A separator that starts in the first piece would start there in the piece and separator. */
  lemma CutWithin(a: seq<string>, sep: string, j: nat)
    requires |a| > 1 && LeftmostPieces(a, sep) && j < |a[0]|
    ensures !OccursAt(Join(a, sep), sep, j)
  {
    var s, n := Join(a, sep), |a[0]| + |sep|;
    assert s[0..n] == a[0] + sep;
    OccursInSlice(s, 0, n, sep, j);
  }

  /** A string is cut in one way only. */
  lemma {:induction false} PiecesAreUnique(a: seq<string>, b: seq<string>, sep: string)
    requires sep != "" && LeftmostPieces(a, sep) && LeftmostPieces(b, sep) && Join(a, sep) == Join(b, sep)
    ensures a == b
  {
    if |a| == 1 && |b| == 1 {
    } else if |a| == 1 {
      FirstCut(b, sep);
    } else if |b| == 1 {
      FirstCut(a, sep);
    } else {
      FirstCut(a, sep);
      FirstCut(b, sep);
      var s := Join(a, sep);
      if |a[0]| < |b[0]| {
        CutWithin(b, sep, |a[0]|);
      } else if |b[0]| < |a[0]| {
        CutWithin(a, sep, |b[0]|);
      }
      assert a[0] == s[..|a[0]|] == b[0];
      assert Join(a[1..], sep) == s[|a[0]| + |sep|..] == Join(b[1..], sep);
      PiecesAreUnique(a[1..], b[1..], sep);
    }
  }

  /** result is s with every leftmost, non-overlapping sub exchanged for replacement. */
  ghost predicate Replaced(s: string, sub: string, replacement: string, result: string) {
    exists pieces ::
      LeftmostPieces(pieces, sub) && Join(pieces, sub) == s && Join(pieces, replacement) == result
  }

  lemma ReplacedIsUnique(s: string, sub: string, replacement: string, a: string, b: string)
    requires sub != "" && Replaced(s, sub, replacement, a) && Replaced(s, sub, replacement, b)
    ensures a == b
  {
    var p :| LeftmostPieces(p, sub) && Join(p, sub) == s && Join(p, replacement) == a;
    var q :| LeftmostPieces(q, sub) && Join(q, sub) == s && Join(q, replacement) == b;
    PiecesAreUnique(p, q, sub);
  }

  lemma {:induction false} JoinPush(done: seq<string>, piece: string, sep: string)
    ensures Join(done + [piece] + [""], sep) == Join(done + [""], sep) + piece + sep
  {
    if done == [] {
      assert ([piece] + [""])[1..] == [""];
      assert done + [piece] + [""] == [piece] + [""];
    } else {
      JoinPush(done[1..], piece, sep);
      assert (done + [piece] + [""])[1..] == done[1..] + [piece] + [""];
      assert (done + [""])[1..] == done[1..] + [""];
    }
  }

  lemma PushReplaced(str: string, pos: nat, found: nat, done: seq<string>, rep: string)
    requires pos <= found <= |str| && str[..pos] == Join(done + [""], rep)
    ensures str[..found] + rep == Join(done + [str[pos..found]] + [""], rep)
  {
    JoinPush(done, str[pos..found], rep);
    assert str[..found] == str[..pos] + str[pos..found];
  }

  lemma PushSource(str0: string, str: string, pos: nat, found: nat, done: seq<string>, sub: string)
    requires pos <= found && OccursAt(str, sub, found) && str0 == Join(done + [""], sub) + str[pos..]
    ensures str0 == Join(done + [str[pos..found]] + [""], sub) + str[found + |sub|..]
  {
    hide Join;
    var piece, after := str[pos..found], str[found + |sub|..];
    JoinPush(done, piece, sub);
    assert str[pos..] == piece + (sub + after);
    AssociateFour(Join(done + [""], sub), piece, sub, after);
  }

  lemma {:induction false} JoinLast(done: seq<string>, last: string, sep: string)
    ensures Join(done + [last], sep) == Join(done + [""], sep) + last
  {
    if done == [] {
    } else {
      JoinLast(done[1..], last, sep);
      assert (done + [last])[1..] == done[1..] + [last];
      assert (done + [""])[1..] == done[1..] + [""];
    }
  }

  lemma LastPiece(str0: string, str: string, pos: nat, done: seq<string>, sub: string, rep: string)
    requires pos <= |str| && forall j: nat :: pos <= j ==> !OccursAt(str, sub, j)
    requires forall i, j: nat :: 0 <= i < |done| && j < |done[i]| ==> !OccursAt(done[i] + sub, sub, j)
    requires str[..pos] == Join(done + [""], rep) && str0 == Join(done + [""], sub) + str[pos..]
    ensures Replaced(str0, sub, rep, str)
  {
    var pieces := done + [str[pos..]];
    JoinLast(done, str[pos..], sub);
    JoinLast(done, str[pos..], rep);
    forall j: nat | pos + j + |sub| <= |str| ensures !OccursAt(str[pos..], sub, j) {
      OccursInSlice(str, pos, |str|, sub, j);
    }
    assert LeftmostPieces(pieces, sub);
    assert str == str[..pos] + str[pos..];
  }

  lemma FreshPiece(s: string, sub: string, pos: nat, found: nat)
    requires pos <= found && OccursAt(s, sub, found)
    requires forall j :: pos <= j < found ==> !OccursAt(s, sub, j)
    ensures forall j: nat :: j < found - pos ==> !OccursAt(s[pos..found] + sub, sub, j)
  {
    assert s[pos..found + |sub|] == s[pos..found] + sub;
    forall j: nat | j < found - pos ensures !OccursAt(s[pos..found] + sub, sub, j) {
      OccursInSlice(s, pos, found + |sub|, sub, j);
    }
  }

  /** Replaces every occurrence while the string grows or shrinks under the search. The search
      resumes after the replacement, so a replacement containing substr is not searched. */
  method ReplaceAll(str0: string, substr: string, replacement: string) returns (str: string)
    requires substr != ""
    ensures Replaced(str0, substr, replacement, str)
  {
    str := str0;
    var pos: nat := 0;
    ghost var done: seq<string> := [];
    while true
      invariant pos <= |str|
      invariant forall i, j: nat :: 0 <= i < |done| && j < |done[i]| ==> !OccursAt(done[i] + substr, substr, j)
      invariant str[..pos] == Join(done + [""], replacement)
      invariant str0 == Join(done + [""], substr) + str[pos..]
      decreases |str| - pos
    {
      var found := Find(str, substr, pos);
      if found == -1 {
        LastPiece(str0, str, pos, done, substr, replacement);
        return;
      }
      FreshPiece(str, substr, pos, found);
      PushReplaced(str, pos, found, done, replacement);
      PushSource(str0, str, pos, found, done, substr);
      done := done + [str[pos..found]];
      str := str[..found] + replacement + str[found + |substr|..];
      pos := found + |replacement|;
    }
  }

  // ---- Decimal numerals ----

  const DIGITS := "0123456789"

  predicate IsDigit(c: char) { '0' <= c <= '9' }

  function DigitOf(c: char): (d: nat)
    requires IsDigit(c)
    ensures d < 10 && DIGITS[d] == c
  {
    c as int - '0' as int
  }

  function CharOf(d: nat): (c: char)
    requires d < 10
    ensures IsDigit(c) && c == DIGITS[d] && DigitOf(c) == d
  {
    ('0' as int + d) as char
  }

  predicate AllDigits(s: string) { forall i :: 0 <= i < |s| ==> IsDigit(s[i]) }

  /** The number a string of digits denotes; the empty string denotes zero. */
  function ValueOf(s: string): nat
    requires AllDigits(s)
  {
    if s == "" then 0 else ValueOf(s[..|s| - 1]) * 10 + DigitOf(s[|s| - 1])
  }

  /** The decimal numeral of n, as an integer is printed on a stream. */
  function Decimal(n: nat): (s: string)
    ensures s != "" && AllDigits(s) && ValueOf(s) == n
    ensures s[0] == '0' <==> n == 0
  {
    if n < 10 then
      var s := [CharOf(n)];
      assert s[..0] == "";
      s
    else
      var s := Decimal(n / 10) + [CharOf(n % 10)];
      assert s[..|s| - 1] == Decimal(n / 10);
      s
  }

  function PowerOfTen(k: nat): (p: nat)
    ensures p > 0
  {
    if k == 0 then 1 else 10 * PowerOfTen(k - 1)
  }

  /** The digit of n at distance k from its last one. */
  function DigitAt(n: nat, k: nat): (d: nat)
    ensures d < 10
  {
    n / PowerOfTen(k) % 10
  }

  lemma Quotient(m: nat, p: nat, q: nat, r: nat)
    requires r < p && m == p * q + r
    ensures m / p == q
  {
    var d := m / p;
    if d < q {
      ProductGrows(d + 1, q, p);
      assert false;
    } else if q < d {
      ProductGrows(q + 1, d, p);
      assert false;
    }
  }

  lemma Tenfold(p: nat, q: nat)
    ensures 10 * (q * p) == 10 * p * q
  {
  }

  lemma DivideTwice(n: nat, p: nat)
    requires p > 0
    ensures n / 10 / p == n / (10 * p)
  {
    var q := n / 10 / p;
    DivBounds(n / 10, p);
    Tenfold(p, q);
    Quotient(n, 10 * p, q, n - 10 * p * q);
  }

  lemma NextDigitAt(n: nat, k: nat)
    ensures DigitAt(n, 0) == n % 10 && DigitAt(n, k + 1) == DigitAt(n / 10, k)
  {
    DivideTwice(n, PowerOfTen(k));
    assert n / PowerOfTen(0) == n;
  }

  /** s is n in decimal notation, each digit in its place. */
  ghost predicate Notation(s: string, n: nat) {
    && n < PowerOfTen(|s|)
    && forall i :: 0 <= i < |s| ==> s[i] == DIGITS[DigitAt(n, |s| - 1 - i)]
  }

  /** The digits of n before its last one are those of n / 10. */
  lemma NotationSplit(s: string, n: nat)
    requires s != ""
    ensures Notation(s, n) <==> Notation(s[..|s| - 1], n / 10) && s[|s| - 1] == DIGITS[n % 10]
  {
    hide DigitAt;
    var t := s[..|s| - 1];
    assert PowerOfTen(|s|) == 10 * PowerOfTen(|t|);
    NextDigitAt(n, 0);
    forall k: nat ensures DigitAt(n, k + 1) == DigitAt(n / 10, k) {
      NextDigitAt(n, k);
    }
    forall i | 0 <= i < |t| ensures s[i] == t[i] && DigitAt(n, |s| - 1 - i) == DigitAt(n / 10, |t| - 1 - i) {
      assert |s| - 1 - i == (|t| - 1 - i) + 1;
    }
  }

  lemma NotationOfNothing(n: nat)
    ensures Notation("", n) <==> n == 0
  {
  }

  /** A string of digits denotes the number it is the decimal notation of, and no other. */
  lemma {:induction false} ValueIffNotation(s: string, n: nat)
    ensures AllDigits(s) && ValueOf(s) == n <==> Notation(s, n)
  {
    hide Notation;
    if s == "" {
      NotationOfNothing(n);
    } else {
      var t, c := s[..|s| - 1], s[|s| - 1];
      NotationSplit(s, n);
      ValueIffNotation(t, n / 10);
      assert s == t + [c];
      if AllDigits(s) && ValueOf(s) == n {
        assert n == ValueOf(t) * 10 + DigitOf(c);
      }
      if Notation(s, n) {
        assert c == CharOf(n % 10);
      }
    }
  }

  /** The numeral is shorter than every other notation of n, and the only one without leading zeros. */
  lemma {:induction false} DecimalIsShortest(s: string, n: nat)
    requires s != "" && AllDigits(s) && ValueOf(s) == n
    ensures |Decimal(n)| <= |s|
    ensures (|s| > 1 ==> s[0] != '0') <==> s == Decimal(n)
  {
    var t, c := s[..|s| - 1], s[|s| - 1];
    assert s == t + [c];
    if t == "" {
      assert s == [c];
    } else {
      DecimalIsShortest(t, n / 10);
      if t == Decimal(n / 10) && s[0] != '0' {
        assert n >= 10;
      }
    }
  }

  /** s is what n is printed as: its decimal notation, without leading zeros. */
  ghost predicate PrintedAs(n: nat, s: string) {
    s != "" && Notation(s, n) && (|s| > 1 ==> s[0] != '0')
  }

  lemma DecimalIsPrinted(n: nat, s: string)
    ensures s == Decimal(n) <==> PrintedAs(n, s)
  {
    ValueIffNotation(s, n);
    if PrintedAs(n, s) || s == Decimal(n) {
      DecimalIsShortest(s, n);
    }
  }
}
