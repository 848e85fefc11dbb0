/** The generated operator==, and what it decides. */
module Equality {
  import opened Collections
  import opened Schemas
  import opened Decoding

  /** lhs == rhs as the generated code computes it: member by member, then base by base. */
  ghost predicate Equal(env: Env, t: Schema, x: Value, y: Value)
    requires env.WellFormed() && HasType(env, t, x) && HasType(env, t, y)
    decreases x, env.Level(t) + 1, t, 2
  {
    match t
    case TVector(e) =>
      |x.elements| == |y.elements| &&
      forall i :: 0 <= i < |x.elements| ==> Equal(env, e, x.elements[i], y.elements[i])
    case TTuple(ts) => forall i :: 0 <= i < |ts| ==> Equal(env, ts[i], x.elements[i], y.elements[i])
    case TMap(e) =>
      x.entries.Keys == y.entries.Keys &&
      forall k :: k in x.entries ==> Equal(env, e, x.entries[k], y.entries[k])
    case TOneOf(ts) =>
      // Visiting an empty OneOf yields a default-initialised bool.
      x.VOneOf? && y.VOneOf? && x.choice == y.choice && Equal(env, ts[x.choice], x.payload, y.payload)
    case TNamed(n) =>
      if n !in env.declarations then true
      else
        assert env.DeclarationOk(n);
        (match env.declarations[n]
         case Alias(ty) => Equal(env, ty, x, y)
         case Structure(_, _, _) => EqualStruct(env, n, x, y))
    case TDecimal => x.d.Equals(y.d)
    case _ => x == y
  }

  ghost predicate EqualStruct(env: Env, n: string, x: Value, y: Value)
    requires env.WellFormed() && env.IsStruct(n) && StructHasType(env, n, x) && StructHasType(env, n, y)
    decreases x, env.Rank(n) + 1, TNamed(n), 1
  {
    var Structure(_, ps, exts) := env.declarations[n];
    && (forall i :: 0 <= i < |ps| ==> EqualField(env, ps[i], x.fields[i], y.fields[i]))
    && (forall i :: 0 <= i < |exts| ==> EqualStruct(env, exts[i], x.bases[i], y.bases[i]))
  }

  ghost predicate EqualField(env: Env, p: Property, f: Field, g: Field)
    requires env.WellFormed() && FieldHasType(env, p, f) && FieldHasType(env, p, g)
    decreases f
  {
    (f.Absent? && g.Absent?) || (f.Present? && g.Present? && Equal(env, p.ty, f.value, g.value))
  }

  // ---- What it decides ----

  /** x with every zero in it without sign: what operator== can tell apart. */
  function Canonical(x: Value): Value {
    match x
    case VDecimal(d) => VDecimal(d.Canonical())
    case VVector(es) => VVector(CanonicalAll(es))
    case VTuple(es) => VTuple(CanonicalAll(es))
    case VMap(entries) => VMap(map k | k in entries :: Canonical(entries[k]))
    case VOneOf(choice, payload) => VOneOf(choice, Canonical(payload))
    case VStruct(fields, bases) => VStruct(CanonicalFields(fields), CanonicalAll(bases))
    case _ => x
  }

  function CanonicalAll(xs: seq<Value>): (cs: seq<Value>)
    ensures |cs| == |xs| && forall i :: 0 <= i < |xs| ==> cs[i] == Canonical(xs[i])
  {
    seq(|xs|, i requires 0 <= i < |xs| => Canonical(xs[i]))
  }

  function CanonicalField(f: Field): Field {
    match f
    case Absent => Absent
    case Present(x) => Present(Canonical(x))
  }

  function CanonicalFields(fs: seq<Field>): (cs: seq<Field>)
    ensures |cs| == |fs| && forall i :: 0 <= i < |fs| ==> cs[i] == CanonicalField(fs[i])
  {
    seq(|fs|, i requires 0 <= i < |fs| => CanonicalField(fs[i]))
  }

  /** No OneOf in x is empty, and no Decimal in it is unequal to itself. */
  predicate Comparable(x: Value) {
    match x
    case VDecimal(d) => !d.IsNaN()
    case VVector(es) => AllComparable(es)
    case VTuple(es) => AllComparable(es)
    case VMap(entries) => forall k :: k in entries ==> Comparable(entries[k])
    case VEmpty => false
    case VOneOf(_, payload) => Comparable(payload)
    case VStruct(fields, bases) =>
      (forall i :: 0 <= i < |fields| ==> ComparableField(fields[i])) && AllComparable(bases)
    case _ => true
  }

  predicate AllComparable(xs: seq<Value>) {
    forall i :: 0 <= i < |xs| ==> Comparable(xs[i])
  }

  predicate ComparableField(f: Field) {
    f.Present? ==> Comparable(f.value)
  }

  ghost predicate Same(x: Value, y: Value) {
    Comparable(x) && Comparable(y) && Canonical(x) == Canonical(y)
  }

  ghost predicate AllSame(xs: seq<Value>, ys: seq<Value>) {
    AllComparable(xs) && AllComparable(ys) && CanonicalAll(xs) == CanonicalAll(ys)
  }

  lemma AllSameIff(xs: seq<Value>, ys: seq<Value>)
    ensures AllSame(xs, ys) <==> |xs| == |ys| && forall i :: 0 <= i < |xs| ==> Same(xs[i], ys[i])
  {
    hide Canonical, Comparable;
    if |xs| == |ys| && forall i :: 0 <= i < |xs| ==> Same(xs[i], ys[i]) {
      forall i | 0 <= i < |xs|
        ensures CanonicalAll(xs)[i] == CanonicalAll(ys)[i] && Comparable(xs[i]) && Comparable(ys[i])
      {
        assert Same(xs[i], ys[i]);
      }
      SameElements(CanonicalAll(xs), CanonicalAll(ys));
    }
    if AllSame(xs, ys) {
      forall i | 0 <= i < |xs| ensures Same(xs[i], ys[i]) {
        assert CanonicalAll(xs)[i] == CanonicalAll(ys)[i];
      }
    }
  }

  lemma PrimitiveEqualIff(env: Env, t: Schema, x: Value, y: Value)
    requires env.WellFormed() && IsPrimitive(t) && HasType(env, t, x) && HasType(env, t, y)
    ensures Equal(env, t, x, y) <==> Same(x, y)
  {
  }

  /** operator== finds two objects equal exactly when it can compare both and they differ at most in
      the signs of zeros. */
  lemma {:induction false} EqualIff(env: Env, t: Schema, x: Value, y: Value)
    requires env.WellFormed() && HasType(env, t, x) && HasType(env, t, y)
    ensures Equal(env, t, x, y) <==> Same(x, y)
    decreases x, env.Level(t) + 1, t, 2
  {
    hide Same;
    match t
    case TVector(e) => VectorEqualIff(env, e, x, y);
    case TTuple(ts) => TupleEqualIff(env, ts, x, y);
    case TMap(e) => MapEqualIff(env, e, x, y);
    case TOneOf(ts) => OneOfEqualIff(env, ts, x, y);
    case TNamed(n) => NamedEqualIff(env, n, x, y);
    case _ => PrimitiveEqualIff(env, t, x, y);
  }

  lemma {:induction false} VectorEqualIff(env: Env, e: Schema, x: Value, y: Value)
    requires env.WellFormed() && HasType(env, TVector(e), x) && HasType(env, TVector(e), y)
    ensures Equal(env, TVector(e), x, y) <==> Same(x, y)
    decreases x, 0
  {
    if |x.elements| == |y.elements| {
      forall i | 0 <= i < |x.elements|
        ensures Equal(env, e, x.elements[i], y.elements[i]) <==> Same(x.elements[i], y.elements[i])
      {
        EqualIff(env, e, x.elements[i], y.elements[i]);
      }
    }
    AllSameIff(x.elements, y.elements);
  }

  lemma {:induction false} TupleEqualIff(env: Env, ts: seq<Schema>, x: Value, y: Value)
    requires env.WellFormed() && HasType(env, TTuple(ts), x) && HasType(env, TTuple(ts), y)
    ensures Equal(env, TTuple(ts), x, y) <==> Same(x, y)
    decreases x, 0
  {
    forall i | 0 <= i < |ts|
      ensures Equal(env, ts[i], x.elements[i], y.elements[i]) <==> Same(x.elements[i], y.elements[i])
    {
      EqualIff(env, ts[i], x.elements[i], y.elements[i]);
    }
    AllSameIff(x.elements, y.elements);
  }

  lemma SameOneOfIff(x: Value, y: Value)
    requires (x.VEmpty? || x.VOneOf?) && (y.VEmpty? || y.VOneOf?)
    ensures Same(x, y) <==> x.VOneOf? && y.VOneOf? && x.choice == y.choice && Same(x.payload, y.payload)
  {
  }

  lemma {:induction false} OneOfEqualIff(env: Env, ts: seq<Schema>, x: Value, y: Value)
    requires env.WellFormed() && HasType(env, TOneOf(ts), x) && HasType(env, TOneOf(ts), y)
    ensures Equal(env, TOneOf(ts), x, y) <==> Same(x, y)
    decreases x, 0
  {
    hide Comparable, Canonical;
    SameOneOfIff(x, y);
    if x.VOneOf? && y.VOneOf? && x.choice == y.choice {
      EqualIff(env, ts[x.choice], x.payload, y.payload);
    }
  }

  lemma SameMapIff(x: Value, y: Value)
    requires x.VMap? && y.VMap?
    ensures Same(x, y) <==>
            x.entries.Keys == y.entries.Keys && forall k :: k in x.entries ==> Same(x.entries[k], y.entries[k])
  {
    var a, b := Canonical(x).entries, Canonical(y).entries;
    assert a.Keys == x.entries.Keys && b.Keys == y.entries.Keys;
    if Same(x, y) {
      forall k | k in x.entries ensures Same(x.entries[k], y.entries[k]) {
        assert a[k] == b[k];
      }
    }
    if x.entries.Keys == y.entries.Keys && forall k :: k in x.entries ==> Same(x.entries[k], y.entries[k]) {
      assert a == b;
    }
  }

  lemma {:induction false} MapEqualIff(env: Env, e: Schema, x: Value, y: Value)
    requires env.WellFormed() && HasType(env, TMap(e), x) && HasType(env, TMap(e), y)
    ensures Equal(env, TMap(e), x, y) <==> Same(x, y)
    decreases x, 0
  {
    if x.entries.Keys == y.entries.Keys {
      forall k | k in x.entries
        ensures Equal(env, e, x.entries[k], y.entries[k]) <==> Same(x.entries[k], y.entries[k])
      {
        EqualIff(env, e, x.entries[k], y.entries[k]);
      }
    }
    SameMapIff(x, y);
  }

  lemma AliasEqual(env: Env, n: string, x: Value, y: Value)
    requires env.WellFormed() && env.IsAlias(n) && HasType(env, TNamed(n), x) && HasType(env, TNamed(n), y)
    requires HasType(env, env.declarations[n].ty, x) && HasType(env, env.declarations[n].ty, y)
    ensures Equal(env, TNamed(n), x, y) <==> Equal(env, env.declarations[n].ty, x, y)
  {
    hide HasType;
  }

  lemma StructureEqual(env: Env, n: string, x: Value, y: Value)
    requires env.WellFormed() && env.IsStruct(n) && HasType(env, TNamed(n), x) && HasType(env, TNamed(n), y)
    requires StructHasType(env, n, x) && StructHasType(env, n, y)
    ensures Equal(env, TNamed(n), x, y) <==> EqualStruct(env, n, x, y)
  {
    hide HasType, StructHasType, EqualStruct;
  }

  lemma {:induction false} NamedEqualIff(env: Env, n: string, x: Value, y: Value)
    requires env.WellFormed() && HasType(env, TNamed(n), x) && HasType(env, TNamed(n), y)
    ensures Equal(env, TNamed(n), x, y) <==> Same(x, y)
    decreases x, env.Rank(n) + 1, TNamed(n), 1
  {
    if env.IsAlias(n) {
      hide HasType, Equal, Same;
      assert env.DeclarationOk(n);
      AliasHasType(env, n, x);
      AliasHasType(env, n, y);
      AliasEqual(env, n, x, y);
      EqualIff(env, env.declarations[n].ty, x, y);
    } else if env.IsStruct(n) {
      hide HasType, Equal, EqualStruct, Same;
      StructureHasType(env, n, x);
      StructureHasType(env, n, y);
      StructureEqual(env, n, x, y);
      StructEqualIff(env, n, x, y);
    }
  }

  ghost predicate SameField(f: Field, g: Field) {
    ComparableField(f) && ComparableField(g) && CanonicalField(f) == CanonicalField(g)
  }

  lemma AllFieldsSameIff(fs: seq<Field>, gs: seq<Field>)
    requires |fs| == |gs|
    ensures (forall i :: 0 <= i < |fs| ==> SameField(fs[i], gs[i])) <==>
            && (forall i :: 0 <= i < |fs| ==> ComparableField(fs[i]))
            && (forall i :: 0 <= i < |gs| ==> ComparableField(gs[i]))
            && CanonicalFields(fs) == CanonicalFields(gs)
  {
    hide CanonicalField, ComparableField;
    if forall i :: 0 <= i < |fs| ==> SameField(fs[i], gs[i]) {
      forall i | 0 <= i < |fs|
        ensures CanonicalFields(fs)[i] == CanonicalFields(gs)[i] && ComparableField(fs[i]) && ComparableField(gs[i])
      {
        assert SameField(fs[i], gs[i]);
      }
      SameElements(CanonicalFields(fs), CanonicalFields(gs));
    }
    if CanonicalFields(fs) == CanonicalFields(gs) {
      forall i | 0 <= i < |fs| ensures CanonicalField(fs[i]) == CanonicalField(gs[i]) {
        assert CanonicalFields(fs)[i] == CanonicalFields(gs)[i];
      }
    }
  }

  lemma SameStructIff(x: Value, y: Value)
    requires x.VStruct? && y.VStruct? && |x.fields| == |y.fields| && |x.bases| == |y.bases|
    ensures Same(x, y) <==>
            && (forall i :: 0 <= i < |x.fields| ==> SameField(x.fields[i], y.fields[i]))
            && (forall i :: 0 <= i < |x.bases| ==> Same(x.bases[i], y.bases[i]))
  {
    AllSameIff(x.bases, y.bases);
    AllFieldsSameIff(x.fields, y.fields);
  }

  lemma {:induction false} StructEqualIff(env: Env, n: string, x: Value, y: Value)
    requires env.WellFormed() && env.IsStruct(n) && StructHasType(env, n, x) && StructHasType(env, n, y)
    ensures EqualStruct(env, n, x, y) <==> Same(x, y)
    decreases x, env.Rank(n) + 1, TNamed(n), 0
  {
    var Structure(_, ps, exts) := env.declarations[n];
    forall i | 0 <= i < |ps|
      ensures EqualField(env, ps[i], x.fields[i], y.fields[i]) <==> SameField(x.fields[i], y.fields[i])
    {
      FieldEqualIff(env, ps[i], x.fields[i], y.fields[i]);
    }
    forall i | 0 <= i < |exts|
      ensures EqualStruct(env, exts[i], x.bases[i], y.bases[i]) <==> Same(x.bases[i], y.bases[i])
    {
      StructEqualIff(env, exts[i], x.bases[i], y.bases[i]);
    }
    SameStructIff(x, y);
  }

  lemma {:induction false} FieldEqualIff(env: Env, p: Property, f: Field, g: Field)
    requires env.WellFormed() && FieldHasType(env, p, f) && FieldHasType(env, p, g)
    ensures EqualField(env, p, f, g) <==> SameField(f, g)
    decreases f
  {
    if f.Present? && g.Present? {
      EqualIff(env, p.ty, f.value, g.value);
    }
  }

  // ---- Consequences ----

  /** Objects that compare equal are the same but for the signs of zeros. */
  lemma EqualIsSound(env: Env, t: Schema, x: Value, y: Value)
    requires env.WellFormed() && HasType(env, t, x) && HasType(env, t, y) && Equal(env, t, x, y)
    ensures Canonical(x) == Canonical(y)
  {
    hide HasType, Equal, Canonical, Comparable;
    EqualIff(env, t, x, y);
  }

  /** An object compares equal to itself exactly when no OneOf in it is empty and no Decimal in it is
      unequal to itself. */
  lemma EqualToItselfIff(env: Env, t: Schema, x: Value)
    requires env.WellFormed() && HasType(env, t, x)
    ensures Equal(env, t, x, x) <==> Comparable(x)
  {
    hide HasType, Equal, Canonical, Comparable;
    EqualIff(env, t, x, x);
  }

  /** Two objects of type t that compare equal. */
  ghost predicate EqualObjects(env: Env, t: Schema, x: Value, y: Value)
    requires env.WellFormed()
  {
    HasType(env, t, x) && HasType(env, t, y) && Equal(env, t, x, y)
  }

  lemma EqualObjectsAreSame(env: Env, t: Schema, x: Value, y: Value)
    requires env.WellFormed() && EqualObjects(env, t, x, y)
    ensures HasType(env, t, x) && HasType(env, t, y) && Same(x, y)
  {
    hide HasType, Equal, Same;
    EqualIff(env, t, x, y);
  }

  lemma SameObjectsAreEqual(env: Env, t: Schema, x: Value, y: Value)
    requires env.WellFormed() && HasType(env, t, x) && HasType(env, t, y) && Same(x, y)
    ensures EqualObjects(env, t, x, y)
  {
    hide HasType, Equal, Same;
    EqualIff(env, t, x, y);
  }

  lemma EqualIsSymmetric(env: Env, t: Schema, x: Value, y: Value)
    requires env.WellFormed() && EqualObjects(env, t, x, y)
    ensures EqualObjects(env, t, y, x)
  {
    hide EqualObjects, HasType, Comparable, Canonical;
    EqualObjectsAreSame(env, t, x, y);
    SameObjectsAreEqual(env, t, y, x);
  }

  lemma EqualIsTransitive(env: Env, t: Schema, x: Value, y: Value, z: Value)
    requires env.WellFormed() && EqualObjects(env, t, x, y) && EqualObjects(env, t, y, z)
    ensures EqualObjects(env, t, x, z)
  {
    hide EqualObjects, HasType, Comparable, Canonical;
    EqualObjectsAreSame(env, t, x, y);
    EqualObjectsAreSame(env, t, y, z);
    SameObjectsAreEqual(env, t, x, z);
  }
}
