/** The encoders as the code runs them. */
module Encoder {
  import opened Results
  import opened Json
  import opened Schemas
  import opened Encoding

  /** `Failed` is a Failure with its reason. `Invalid` is the result that visiting an empty
      OneOf returns: neither success nor failure, so that inspecting it ends the run. */
  datatype Product<+T> = Made(value: T) | Failed(reason: string) | Invalid

  /** What all encoders promise: they make exactly the specified value, and otherwise they
      report a non-empty reason or meet an empty OneOf. */
  predicate Makes<T(==)>(want: Option<T>, r: Product<T>) {
    match r
    case Made(v) => want == Some(v)
    case Failed(reason) => reason != "" && want == None
    case Invalid => want == None
  }

  method Encode(env: Env, t: Schema, x: Value) returns (r: Product<Json>)
    requires env.WellFormed() && HasType(env, t, x)
    ensures Makes(Encoded(env, t, x), r)
    decreases x, env.Level(t) + 1, t, 2
  {
    match t
    case TNull => r := Made(Null);
    case TBoolean => r := Made(Bool(x.b));
    case TInteger => r := Made(Num(I64(x.i)));
    case TUinteger => r := Made(Num(U64(x.u)));
    case TDecimal => r := Made(Num(F64(x.d)));
    case TString => r := Made(Str(x.s));
    case TEnum(_, literals) =>
      r := if x.index < |literals| then Made(LiteralJson(literals[x.index])) else Failed("invalid value for enum");
    case TVector(e) => r := EncodeVector(env, e, x);
    case TTuple(ts) => r := EncodeTuple(env, ts, x);
    case TMap(e) => r := EncodeMap(env, e, x);
    case TOneOf(ts) =>
      if x.VEmpty? {
        return Invalid;
      }
      r := Encode(env, ts[x.choice], x.payload);
    case TNamed(n) =>
      if n !in env.declarations {
        return Failed("referenced type not found");
      }
      assert env.DeclarationOk(n);
      match env.declarations[n] {
        case Alias(ty) => r := Encode(env, ty, x);
        case Structure(_, _, _) => r := EncodeStruct(env, n, x);
      }
  }

  method EncodeVector(env: Env, e: Schema, x: Value) returns (r: Product<Json>)
    requires env.WellFormed() && HasType(env, TVector(e), x)
    ensures Makes(Encoded(env, TVector(e), x), r)
    decreases x, 0
  {
    var values: seq<Json> := [];
    var i := 0;
    while i < |x.elements|
      invariant i <= |x.elements| && |values| == i
      invariant forall j :: 0 <= j < i ==> Encoded(env, e, x.elements[j]) == Some(values[j])
    {
      var value := Encode(env, e, x.elements[i]);
      if !value.Made? {
        return value;
      }
      values := values + [value.value];
      i := i + 1;
    }
    assert Encoded(env, TVector(e), x).value.elems == values;
    return Made(Arr(values));
  }

  method EncodeTuple(env: Env, ts: seq<Schema>, x: Value) returns (r: Product<Json>)
    requires env.WellFormed() && HasType(env, TTuple(ts), x)
    ensures Makes(Encoded(env, TTuple(ts), x), r)
    decreases x, 0
  {
    var error := "";
    var values: seq<Json> := [];
    var more := true;
    while |values| < |ts| && more
      invariant |values| <= |ts|
      invariant forall j :: 0 <= j < |values| ==> Encoded(env, ts[j], x.elements[j]) == Some(values[j])
      invariant more ==> error == ""
      invariant !more ==> error != "" && |values| < |ts| && Encoded(env, ts[|values|], x.elements[|values|]).None?
      decreases |ts| - |values|, more
    {
      var value := Encode(env, ts[|values|], x.elements[|values|]);
      match value
      case Made(v) => values := values + [v];
      case Failed(reason) =>
        error := reason;
        more := false;
      case Invalid => return Invalid;
    }
    if error == "" {
      assert Encoded(env, TTuple(ts), x).value.elems == values;
      return Made(Arr(values));
    }
    return Failed(error);
  }

  lemma EntriesEncoded(env: Env, e: Schema, x: Value, built: map<string, Json>)
    requires env.WellFormed() && HasType(env, TMap(e), x) && built.Keys == x.entries.Keys
    requires forall k :: k in built ==> Encoded(env, e, x.entries[k]) == Some(built[k])
    ensures Encoded(env, TMap(e), x) == Some(Obj(built))
  {
    assert Encoded(env, TMap(e), x).value.members == built;
  }

  method EncodeMap(env: Env, e: Schema, x: Value) returns (r: Product<Json>)
    requires env.WellFormed() && HasType(env, TMap(e), x)
    ensures Makes(Encoded(env, TMap(e), x), r)
    decreases x, 0
  {
    var members: seq<Member> := [];
    ghost var built := map[];
    var names := x.entries.Keys;
    while names != {}
      invariant names <= x.entries.Keys
      invariant ObjectOf(members) == built && built.Keys == x.entries.Keys - names
      invariant forall k :: k in built ==> Encoded(env, e, x.entries[k]) == Some(built[k])
    {
      var name :| name in names;
      var value := Encode(env, e, x.entries[name]);
      if !value.Made? {
        return value;
      }
      members := members + [Member(name, value.value)];
      built := built[name := value.value];
      names := names - {name};
    }
    EntriesEncoded(env, e, x, built);
    return Made(Obj(ObjectOf(members)));
  }

  method EncodeStruct(env: Env, n: string, x: Value) returns (r: Product<Json>)
    requires env.WellFormed() && env.IsStruct(n) && StructHasType(env, n, x)
    ensures Makes(var w := Written(env, n, x); if w.Some? then Some(Obj(w.value)) else None, r)
    decreases x, env.Rank(n) + 1, TNamed(n), 1
  {
    var members := EncodeMembers(env, n, x, []);
    match members
    case Made(ms) =>
      assert ms[0..] == ms;
      r := Made(Obj(ObjectOf(ms)));
    case Failed(reason) => r := Failed(reason);
    case Invalid => r := Invalid;
  }

  /** Two appends to a list of members, as objects. */
  lemma Appended(a: seq<Member>, b: seq<Member>, c: seq<Member>)
    requires a <= b <= c
    ensures a <= c && ObjectOf(c[|a|..]) == ObjectOf(b[|a|..]) + ObjectOf(c[|b|..])
  {
    assert c[|a|..] == b[|a|..] + c[|b|..];
    ObjectOfConcat(b[|a|..], c[|b|..]);
  }

  /** Appends what structure x writes to `members`: tag, own members, members of its bases. */
  method EncodeMembers(env: Env, n: string, x: Value, members: seq<Member>) returns (r: Product<seq<Member>>)
    requires env.WellFormed() && env.IsStruct(n) && StructHasType(env, n, x)
    ensures r.Made? ==> members <= r.value && Written(env, n, x) == Some(ObjectOf(r.value[|members|..]))
    ensures r.Failed? ==> r.reason != ""
    ensures !r.Made? ==> Written(env, n, x) == None
    decreases x, env.Rank(n) + 1, TNamed(n), 0
  {
    var Structure(kind, ps, exts) := env.declarations[n];
    var tagged := members;
    if kind.Some? {
      tagged := tagged + [Member("kind", Str(kind.value))];
    }
    var own := EncodeFields(env, n, x, tagged);
    if !own.Made? {
      return own;
    }
    r := EncodeBases(env, n, x, own.value);
    if r.Made? {
      Appended(members, tagged, own.value);
      Appended(members, own.value, r.value);
    }
  }

  lemma {:induction false} WrittenFieldsStop(env: Env, n: string, x: Value, i: nat, k: nat)
    requires env.WellFormed() && env.IsStruct(n) && StructHasType(env, n, x)
    requires i <= k <= |env.declarations[n].properties| && WrittenFields(env, n, x, i) == None
    ensures WrittenFields(env, n, x, k) == None
    decreases k - i
  {
    hide StructHasType, Encoded;
    if i == k {
    } else {
      WrittenFieldsStop(env, n, x, i, k - 1);
    }
  }

  lemma OneAppended(a: seq<Member>, b: seq<Member>, name: string, v: Json)
    requires a <= b
    ensures ObjectOf((b + [Member(name, v)])[|a|..]) == ObjectOf(b[|a|..])[name := v]
  {
    var c := b + [Member(name, v)];
    assert c[|a|..][..|c| - |a| - 1] == b[|a|..];
  }

  lemma NoFieldWritten(env: Env, n: string, x: Value, members: seq<Member>)
    requires env.WellFormed() && env.IsStruct(n) && StructHasType(env, n, x)
    ensures WrittenFields(env, n, x, 0) == Some(ObjectOf(members[|members|..]))
  {
    hide StructHasType;
  }

  lemma NextFieldWritten(env: Env, n: string, x: Value, i: nat)
    requires env.WellFormed() && env.IsStruct(n) && StructHasType(env, n, x) && i < |env.declarations[n].properties|
    requires FieldHasType(env, env.declarations[n].properties[i], x.fields[i])
    requires WrittenFields(env, n, x, i).Some?
    ensures var p, before := env.declarations[n].properties[i], WrittenFields(env, n, x, i).value;
            WrittenFields(env, n, x, i + 1) ==
            if x.fields[i].Absent? then Some(before)
            else
              var v := Encoded(env, p.ty, x.fields[i].value);
              if v.Some? then Some(before[p.name := v.value]) else None
  {
    hide StructHasType, Encoded;
  }

  method EncodeFields(env: Env, n: string, x: Value, members: seq<Member>) returns (r: Product<seq<Member>>)
    requires env.WellFormed() && env.IsStruct(n) && StructHasType(env, n, x)
    ensures r.Made? ==> members <= r.value
    ensures r.Made? ==>
              WrittenFields(env, n, x, |env.declarations[n].properties|) == Some(ObjectOf(r.value[|members|..]))
    ensures r.Failed? ==> r.reason != ""
    ensures !r.Made? ==> WrittenFields(env, n, x, |env.declarations[n].properties|) == None
    decreases x, 0, TNull, 0
  {
    hide StructHasType, Encoded, WrittenFields, ObjectOf;
    NoFieldWritten(env, n, x, members);
    var ps := env.declarations[n].properties;
    var all := members;
    var i := 0;
    while i < |ps|
      invariant i <= |ps| && members <= all
      invariant WrittenFields(env, n, x, i) == Some(ObjectOf(all[|members|..]))
    {
      FieldAtHasType(env, n, x, i);
      NextFieldWritten(env, n, x, i);
      if x.fields[i].Present? {
        var value := Encode(env, ps[i].ty, x.fields[i].value);
        if !value.Made? {
          WrittenFieldsStop(env, n, x, i + 1, |ps|);
          return if value.Failed? then Failed(value.reason) else Invalid;
        }
        OneAppended(members, all, ps[i].name, value.value);
        all := all + [Member(ps[i].name, value.value)];
      }
      i := i + 1;
    }
    return Made(all);
  }

  lemma NoBaseWritten(env: Env, n: string, x: Value, members: seq<Member>)
    requires env.WellFormed() && env.IsStruct(n) && StructHasType(env, n, x)
    ensures WrittenBases(env, n, x, 0) == Some(ObjectOf(members[|members|..]))
  {
    hide StructHasType;
  }

  lemma NextBaseWritten(env: Env, n: string, x: Value, i: nat)
    requires env.WellFormed() && env.IsStruct(n) && StructHasType(env, n, x) && i < |env.declarations[n].parents|
    requires env.IsStruct(env.declarations[n].parents[i])
    requires StructHasType(env, env.declarations[n].parents[i], x.bases[i])
    requires WrittenBases(env, n, x, i).Some?
    ensures var base := Written(env, env.declarations[n].parents[i], x.bases[i]);
            WrittenBases(env, n, x, i + 1) ==
            if base.Some? then Some(WrittenBases(env, n, x, i).value + base.value) else None
  {
    hide StructHasType, Written;
  }

  lemma {:induction false} WrittenBasesStop(env: Env, n: string, x: Value, i: nat, k: nat)
    requires env.WellFormed() && env.IsStruct(n) && StructHasType(env, n, x)
    requires i <= k <= |env.declarations[n].parents| && WrittenBases(env, n, x, i) == None
    ensures WrittenBases(env, n, x, k) == None
    decreases k - i
  {
    hide StructHasType, Written;
    if i == k {
    } else {
      WrittenBasesStop(env, n, x, i, k - 1);
    }
  }

  method EncodeBases(env: Env, n: string, x: Value, members: seq<Member>) returns (r: Product<seq<Member>>)
    requires env.WellFormed() && env.IsStruct(n) && StructHasType(env, n, x)
    ensures r.Made? ==> members <= r.value
    ensures r.Made? ==> WrittenBases(env, n, x, |env.declarations[n].parents|) == Some(ObjectOf(r.value[|members|..]))
    ensures r.Failed? ==> r.reason != ""
    ensures !r.Made? ==> WrittenBases(env, n, x, |env.declarations[n].parents|) == None
    decreases x, 0, TNull, 0
  {
    hide StructHasType, Written, WrittenBases, ObjectOf;
    NoBaseWritten(env, n, x, members);
    var exts := env.declarations[n].parents;
    var all := members;
    var i := 0;
    while i < |exts|
      invariant i <= |exts| && members <= all
      invariant WrittenBases(env, n, x, i) == Some(ObjectOf(all[|members|..]))
    {
      BaseHasType(env, n, x, i);
      NextBaseWritten(env, n, x, i);
      var res := EncodeMembers(env, exts[i], x.bases[i], all);
      if !res.Made? {
        WrittenBasesStop(env, n, x, i + 1, |exts|);
        return res;
      }
      Appended(members, all, res.value);
      all := res.value;
      i := i + 1;
    }
    return Made(all);
  }
}
