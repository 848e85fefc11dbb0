/** JSON values as the wrapper around jsoncpp exposes them: an object holds one value per
    name, an array keeps its order, and a number remembers which maker wrote it. */
module Json {
  import opened Results

  type Word = n: nat | n < 0x1_0000_0000_0000_0000

  const SIGN_BIT := 0x8000_0000_0000_0000
  const INFINITY := 0x7FF0_0000_0000_0000

  /** A double, by its IEEE 754 binary64 pattern: a sign, and a magnitude whose patterns above that
      of infinity are no numbers. */
  datatype Decimal = Decimal(bits: Word) {
    function Magnitude(): nat { if bits < SIGN_BIT then bits else bits - SIGN_BIT }

    predicate IsNaN() { Magnitude() > INFINITY }

    predicate IsZero() { Magnitude() == 0 }

    /** operator== on doubles: nothing equals what is no number, and the zeros equal each other. */
    predicate Equals(other: Decimal) {
      !IsNaN() && !other.IsNaN() && (this == other || (IsZero() && other.IsZero()))
    }

    /** The number with its sign dropped if it is a zero. */
    function Canonical(): Decimal { if IsZero() then Decimal(0) else this }
  }

  /** The sign, the eleven bits of the exponent, and the fraction. */
  lemma DecimalFields(d: Decimal)
    ensures d.IsNaN() <==> d.bits / 0x10_0000_0000_0000 % 0x800 == 0x7FF && d.bits % 0x10_0000_0000_0000 != 0
    ensures d.IsZero() <==> d.bits / 0x10_0000_0000_0000 % 0x800 == 0 && d.bits % 0x10_0000_0000_0000 == 0
  {
  }

  const I64_MIN := -0x8000_0000_0000_0000
  const I64_MAX := 0x7FFF_FFFF_FFFF_FFFF
  const U64_MAX := 0xFFFF_FFFF_FFFF_FFFF

  datatype Number = I64(i: int) | U64(u: int) | F64(d: Decimal)

  datatype Json =
    | Null
    | Bool(b: bool)
    | Num(n: Number)
    | Str(s: string)
    | Arr(elems: seq<Json>)
    | Obj(members: map<string, Json>)

  datatype Member = Member(name: string, value: Json)

  predicate IsI64(i: int) { I64_MIN <= i <= I64_MAX }

  predicate IsU64(u: int) { 0 <= u <= U64_MAX }

  /** The three number accessors. Which numbers they accept besides those of their own maker
      belongs to jsoncpp, so it is left open. */
  datatype Accessors = Accessors(
    i64: Number -> Option<int>,
    u64: Number -> Option<int>,
    f64: Number -> Option<Decimal>)
  {
    /** Every accessor reads back what its own maker wrote. */
    ghost predicate Lawful() {
      && (forall i :: IsI64(i) ==> i64(I64(i)) == Some(i))
      && (forall u :: IsU64(u) ==> u64(U64(u)) == Some(u))
      && (forall d :: f64(F64(d)) == Some(d))
    }
  }

  // ---- Reading a value as something ----

  function ReadBool(v: Json): Option<bool> {
    if v.Bool? then Some(v.b) else None
  }

  function ReadI64(accessors: Accessors, v: Json): (r: Option<int>)
    ensures r.Some? ==> IsI64(r.value)
  {
    if v.Num? && accessors.i64(v.n).Some? && IsI64(accessors.i64(v.n).value) then accessors.i64(v.n) else None
  }

  function ReadU64(accessors: Accessors, v: Json): (r: Option<int>)
    ensures r.Some? ==> IsU64(r.value)
  {
    if v.Num? && accessors.u64(v.n).Some? && IsU64(accessors.u64(v.n).value) then accessors.u64(v.n) else None
  }

  function ReadF64(accessors: Accessors, v: Json): Option<Decimal> {
    if v.Num? then accessors.f64(v.n) else None
  }

  function ReadString(v: Json): Option<string> {
    if v.Str? then Some(v.s) else None
  }

  /** The object built from a list of members: the last write of a name wins. */
  function ObjectOf(members: seq<Member>): map<string, Json> {
    if members == [] then map[]
    else
      var last := members[|members| - 1];
      ObjectOf(members[..|members| - 1])[last.name := last.value]
  }

  lemma {:induction false} ObjectOfConcat(a: seq<Member>, b: seq<Member>)
    ensures ObjectOf(a + b) == ObjectOf(a) + ObjectOf(b)
  {
    if b == [] {
      assert a + b == a;
    } else {
      var n := |b| - 1;
      assert (a + b)[..|a + b| - 1] == a + b[..n];
      ObjectOfConcat(a, b[..n]);
    }
  }
}
