/** What encoding means: the JSON value a C++ object is written as, and the objects that can be
    written. */
module Encoding {
  import opened Results
  import opened Json
  import opened Schemas

  function LiteralJson(l: Literal): Json {
    match l
    case IntLiteral(i) => Num(I64(i))
    case StringLiteral(s) => Str(s)
  }

  /** The JSON value written for x, or None when encoding x does not produce one. */
  ghost function Encoded(env: Env, t: Schema, x: Value): Option<Json>
    requires env.WellFormed() && HasType(env, t, x)
    decreases x, env.Level(t) + 1, t, 2
  {
    match t
    case TNull => Some(Null)
    case TBoolean => Some(Bool(x.b))
    case TInteger => Some(Num(I64(x.i)))
    case TUinteger => Some(Num(U64(x.u)))
    case TDecimal => Some(Num(F64(x.d)))
    case TString => Some(Str(x.s))
    case TEnum(_, literals) => if x.index < |literals| then Some(LiteralJson(literals[x.index])) else None
    case TVector(e) =>
      if forall i :: 0 <= i < |x.elements| ==> Encoded(env, e, x.elements[i]).Some?
      then Some(Arr(seq(|x.elements|, i requires 0 <= i < |x.elements| => Encoded(env, e, x.elements[i]).value)))
      else None
    case TTuple(ts) =>
      if forall i :: 0 <= i < |ts| ==> Encoded(env, ts[i], x.elements[i]).Some?
      then Some(Arr(seq(|ts|, i requires 0 <= i < |ts| => Encoded(env, ts[i], x.elements[i]).value)))
      else None
    case TMap(e) =>
      if forall k :: k in x.entries ==> Encoded(env, e, x.entries[k]).Some?
      then Some(Obj(map k | k in x.entries :: Encoded(env, e, x.entries[k]).value))
      else None
    case TOneOf(ts) => if x.VEmpty? then None else Encoded(env, ts[x.choice], x.payload)
    case TNamed(n) =>
      if n !in env.declarations then None
      else
        assert env.DeclarationOk(n);
        (match env.declarations[n]
         case Alias(ty) => Encoded(env, ty, x)
         case Structure(_, _, _) =>
           var m := Written(env, n, x);
           if m.Some? then Some(Obj(m.value)) else None)
  }

  lemma AliasEncoded(env: Env, n: string, x: Value)
    requires env.WellFormed() && env.IsAlias(n) && HasType(env, TNamed(n), x) && HasType(env, env.declarations[n].ty, x)
    ensures Encoded(env, TNamed(n), x) == Encoded(env, env.declarations[n].ty, x)
  {
    hide HasType;
  }

  /** The members structure x writes: its tag, its own members, then those of its bases, a
      later write of a name replacing an earlier one. */
  ghost function Written(env: Env, n: string, x: Value): Option<map<string, Json>>
    requires env.WellFormed() && env.IsStruct(n) && StructHasType(env, n, x)
    decreases x, env.Rank(n) + 1, TNamed(n), 1
  {
    var Structure(kind, ps, exts) := env.declarations[n];
    var tag: map<string, Json> := if kind.Some? then map["kind" := Str(kind.value)] else map[];
    var own := WrittenFields(env, n, x, |ps|);
    var inherited := WrittenBases(env, n, x, |exts|);
    if own.Some? && inherited.Some? then Some(tag + own.value + inherited.value) else None
  }

  lemma StructureEncoded(env: Env, n: string, x: Value)
    requires env.WellFormed() && env.IsStruct(n) && HasType(env, TNamed(n), x) && StructHasType(env, n, x)
    ensures Encoded(env, TNamed(n), x) ==
            if Written(env, n, x).Some? then Some(Obj(Written(env, n, x).value)) else None
  {
    hide HasType, StructHasType, Written;
  }

  /** What the first k members write. */
  ghost function WrittenFields(env: Env, n: string, x: Value, k: nat): Option<map<string, Json>>
    requires env.WellFormed() && env.IsStruct(n) && StructHasType(env, n, x)
    requires k <= |env.declarations[n].properties|
    decreases x, 0, TNull, 0, k
  {
    if k == 0 then Some(map[])
    else
      var p := env.declarations[n].properties[k - 1];
      var before := WrittenFields(env, n, x, k - 1);
      match x.fields[k - 1]
      case Absent => before
      case Present(y) =>
        assert FieldHasType(env, p, x.fields[k - 1]);
        var v := Encoded(env, p.ty, y);
        if before.Some? && v.Some? then Some(before.value[p.name := v.value]) else None
  }

  /** What the first k bases write. */
  ghost function WrittenBases(env: Env, n: string, x: Value, k: nat): Option<map<string, Json>>
    requires env.WellFormed() && env.IsStruct(n) && StructHasType(env, n, x)
    requires k <= |env.declarations[n].parents|
    decreases x, 0, TNull, 0, k
  {
    if k == 0 then Some(map[])
    else
      var before := WrittenBases(env, n, x, k - 1);
      var base := Written(env, env.declarations[n].parents[k - 1], x.bases[k - 1]);
      if before.Some? && base.Some? then Some(before.value + base.value) else None
  }

  /** x holds a value everywhere one is needed: no OneOf in it is empty, and every enumerator
      in it is a named one. */
  ghost predicate Encodable(env: Env, t: Schema, x: Value)
    requires env.WellFormed() && HasType(env, t, x)
    decreases x, env.Level(t) + 1, t, 2
  {
    match t
    case TEnum(_, literals) => x.index < |literals|
    case TVector(e) => forall i :: 0 <= i < |x.elements| ==> Encodable(env, e, x.elements[i])
    case TTuple(ts) => forall i :: 0 <= i < |ts| ==> Encodable(env, ts[i], x.elements[i])
    case TMap(e) => forall k :: k in x.entries ==> Encodable(env, e, x.entries[k])
    case TOneOf(ts) => !x.VEmpty? && Encodable(env, ts[x.choice], x.payload)
    case TNamed(n) =>
      n in env.declarations && env.DeclarationOk(n) &&
      (match env.declarations[n]
       case Alias(ty) => Encodable(env, ty, x)
       case Structure(_, _, _) => EncodableStruct(env, n, x))
    case _ => true
  }

  ghost predicate EncodableStruct(env: Env, n: string, x: Value)
    requires env.WellFormed() && env.IsStruct(n) && StructHasType(env, n, x)
    decreases x, env.Rank(n) + 1, TNamed(n), 1
  {
    var Structure(_, ps, exts) := env.declarations[n];
    && (forall i :: 0 <= i < |ps| ==> EncodableField(env, ps[i], x.fields[i]))
    && (forall i :: 0 <= i < |exts| ==> EncodableStruct(env, exts[i], x.bases[i]))
  }

  ghost predicate EncodableField(env: Env, p: Property, f: Field)
    requires env.WellFormed() && FieldHasType(env, p, f)
    decreases f
  {
    f.Present? ==> Encodable(env, p.ty, f.value)
  }

  lemma AliasEncodable(env: Env, n: string, x: Value)
    requires env.WellFormed() && env.IsAlias(n) && HasType(env, TNamed(n), x) && HasType(env, env.declarations[n].ty, x)
    ensures Encodable(env, TNamed(n), x) <==> Encodable(env, env.declarations[n].ty, x)
  {
    hide HasType;
    assert env.DeclarationOk(n);
  }

  lemma StructureEncodable(env: Env, n: string, x: Value)
    requires env.WellFormed() && env.IsStruct(n) && HasType(env, TNamed(n), x) && StructHasType(env, n, x)
    ensures Encodable(env, TNamed(n), x) <==> EncodableStruct(env, n, x)
  {
    hide HasType, StructHasType, EncodableStruct;
    assert env.DeclarationOk(n);
  }

  lemma {:induction false} EncodedIffEncodable(env: Env, t: Schema, x: Value)
    requires env.WellFormed() && HasType(env, t, x)
    ensures Encoded(env, t, x).Some? <==> Encodable(env, t, x)
    decreases x, env.Level(t) + 1, t, 3
  {
    match t
    case TVector(e) =>
      forall i | 0 <= i < |x.elements|
        ensures Encoded(env, e, x.elements[i]).Some? <==> Encodable(env, e, x.elements[i])
      {
        EncodedIffEncodable(env, e, x.elements[i]);
      }
    case TTuple(ts) =>
      forall i | 0 <= i < |ts|
        ensures Encoded(env, ts[i], x.elements[i]).Some? <==> Encodable(env, ts[i], x.elements[i])
      {
        EncodedIffEncodable(env, ts[i], x.elements[i]);
      }
    case TMap(e) =>
      forall k | k in x.entries ensures Encoded(env, e, x.entries[k]).Some? <==> Encodable(env, e, x.entries[k]) {
        EncodedIffEncodable(env, e, x.entries[k]);
      }
    case TOneOf(ts) =>
      if x.VOneOf? {
        EncodedIffEncodable(env, ts[x.choice], x.payload);
      }
    case TNamed(n) => NamedIffEncodable(env, n, x);
    case _ =>
  }

  lemma {:induction false} NamedIffEncodable(env: Env, n: string, x: Value)
    requires env.WellFormed() && HasType(env, TNamed(n), x)
    ensures Encoded(env, TNamed(n), x).Some? <==> Encodable(env, TNamed(n), x)
    decreases x, env.Rank(n) + 1, TNamed(n), 2
  {
    hide HasType, StructHasType, Written, EncodableStruct;
    if env.IsAlias(n) {
      assert env.DeclarationOk(n);
      AliasHasType(env, n, x);
      EncodedIffEncodable(env, env.declarations[n].ty, x);
    } else if env.IsStruct(n) {
      assert env.DeclarationOk(n);
      StructureHasType(env, n, x);
      WrittenIffEncodable(env, n, x);
    }
  }

  lemma {:induction false} WrittenIffEncodable(env: Env, n: string, x: Value)
    requires env.WellFormed() && env.IsStruct(n) && StructHasType(env, n, x)
    ensures Written(env, n, x).Some? <==> EncodableStruct(env, n, x)
    decreases x, env.Rank(n) + 1, TNamed(n), 1
  {
    var Structure(_, ps, exts) := env.declarations[n];
    FieldsIffEncodable(env, n, x, |ps|);
    BasesIffEncodable(env, n, x, |exts|);
  }

  lemma {:induction false} FieldsIffEncodable(env: Env, n: string, x: Value, k: nat)
    requires env.WellFormed() && env.IsStruct(n) && StructHasType(env, n, x)
    requires k <= |env.declarations[n].properties|
    ensures WrittenFields(env, n, x, k).Some? <==>
            forall i :: 0 <= i < k ==> EncodableField(env, env.declarations[n].properties[i], x.fields[i])
    decreases x, 0, TNull, 0, k
  {
    if k == 0 {
    } else {
      var p := env.declarations[n].properties[k - 1];
      FieldsIffEncodable(env, n, x, k - 1);
      assert FieldHasType(env, p, x.fields[k - 1]);
      if x.fields[k - 1].Present? {
        EncodedIffEncodable(env, p.ty, x.fields[k - 1].value);
      }
    }
  }

  lemma {:induction false} BasesIffEncodable(env: Env, n: string, x: Value, k: nat)
    requires env.WellFormed() && env.IsStruct(n) && StructHasType(env, n, x)
    requires k <= |env.declarations[n].parents|
    ensures WrittenBases(env, n, x, k).Some? <==>
            forall i :: 0 <= i < k ==> EncodableStruct(env, env.declarations[n].parents[i], x.bases[i])
    decreases x, 0, TNull, 0, k
  {
    hide StructHasType, Written, EncodableStruct;
    if k == 0 {
    } else {
      BaseHasType(env, n, x, k - 1);
      BasesIffEncodable(env, n, x, k - 1);
      WrittenIffEncodable(env, env.declarations[n].parents[k - 1], x.bases[k - 1]);
    }
  }
}
