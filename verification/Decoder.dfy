/** The decoders as the code runs them: each writes into an object step by step and stops at
    the first failure. `out0` is what that object holds on entry, `out` what it holds after. */
module Decoder {
  import opened Results
  import opened Json
  import opened Schemas
  import opened Decoding

  /** What all decoders promise: success leaves exactly the decoded value, and failure comes
      with a reason and only when the value does not decode. */
  predicate Achieves<T(==)>(want: Option<T>, r: Outcome, out: T) {
    if r.Pass? then want == Some(out) else r.reason != "" && want == None
  }

  method MatchKind(v: Json, want: string) returns (r: Outcome)
    requires v.Obj?
    ensures r.Pass? <==> "kind" in v.members && v.members["kind"] == Str(want)
    ensures r.Fail? ==> r.reason != ""
  {
    if "kind" !in v.members {
      return Fail("object has no field with name 'kind'");
    }
    match v.members["kind"]
    case Str(got) =>
      if got != want {
        return Fail("'kind' mismatch.\nGot '" + got + "'");
      }
      return Pass;
    case _ =>
      return Fail("value is not String");
  }

  /** The decoders of the types that JSON has itself: each reads the value as the one kind it wants,
      and assigns what it read. */
  method DecodePrimitive(env: Env, t: Schema, v: Json, out0: Value) returns (r: Outcome, out: Value)
    requires env.WellFormed() && HasType(env, t, out0) && IsPrimitive(t) && !t.TEnum?
    ensures Achieves(DecodedPrimitive(env, t, v), r, out) && HasType(env, t, out)
  {
    out := out0;
    match t {
      case TNull =>
        if v.Null? {
          return Pass, out;
        }
      case TBoolean =>
        var res := ReadBool(v);
        if res.Some? {
          out := VBoolean(res.value);
          return Pass, out;
        }
      case TInteger =>
        var res := ReadI64(env.accessors, v);
        if res.Some? {
          out := VInteger(res.value);
          return Pass, out;
        }
      case TUinteger =>
        var res := ReadU64(env.accessors, v);
        if res.Some? {
          out := VUinteger(res.value);
          return Pass, out;
        }
      case TDecimal =>
        var res := ReadF64(env.accessors, v);
        if res.Some? {
          out := VDecimal(res.value);
          return Pass, out;
        }
      case TString =>
        var res := ReadString(v);
        if res.Some? {
          out := VString(res.value);
          return Pass, out;
        }
      case _ => assert false;
    }
    return Fail("value is of the wrong type"), out;
  }

  method DecodeEnum(env: Env, t: Schema, v: Json, out0: Value) returns (r: Outcome, out: Value)
    requires env.WellFormed() && HasType(env, t, out0) && t.TEnum?
    ensures Achieves(DecodedPrimitive(env, t, v), r, out) && HasType(env, t, out)
  {
    out := out0;
    var val := ReadLiteral(env, t.base, v);
    if val.None? {
      return Fail("value is of the wrong type"), out0;
    }
    var i := 0;
    while i < |t.literals|
      invariant i <= |t.literals|
      invariant forall j :: 0 <= j < i ==> t.literals[j] != val.value
    {
      if val.value == t.literals[i] {
        out := VEnum(i);
        return Pass, out;
      }
      i := i + 1;
    }
    return Fail("invalid value for enum"), out0;
  }

  method Decode(env: Env, t: Schema, v: Json, out0: Value) returns (r: Outcome, out: Value)
    requires env.WellFormed() && HasType(env, t, out0)
    ensures Achieves(Decoded(env, t, v, out0), r, out) && HasType(env, t, out)
    decreases v, env.Level(t) + 1, t, 2
  {
    hide HasType, StructHasType, DecodedVector, DecodedTuple, DecodedMap, DecodedFrom, DecodedPrimitive;
    match t
    case TVector(e) => r, out := DecodeVector(env, e, v, out0);
    case TTuple(ts) => r, out := DecodeTuple(env, ts, v, out0);
    case TMap(e) => r, out := DecodeMap(env, e, v, out0);
    case TOneOf(ts) => r, out := DecodeOneOf(env, ts, v, out0);
    case TNamed(n) => r, out := DecodeNamed(env, n, v, out0);
    case TEnum(_, _) => r, out := DecodeEnum(env, t, v, out0);
    case _ => r, out := DecodePrimitive(env, t, v, out0);
  }

  /** A type alias is decoded as the type it stands for. */
  method DecodeNamed(env: Env, n: string, v: Json, out0: Value) returns (r: Outcome, out: Value)
    requires env.WellFormed() && HasType(env, TNamed(n), out0)
    ensures Achieves(Decoded(env, TNamed(n), v, out0), r, out) && HasType(env, TNamed(n), out)
    decreases v, env.Rank(n) + 1, TNamed(n), 1
  {
    if n !in env.declarations {
      return Fail("referenced type not found"), out0;
    }
    hide HasType, StructHasType, Decoded, DecodedStruct;
    assert env.DeclarationOk(n);
    match env.declarations[n]
    case Alias(ty) =>
      AliasHasType(env, n, out0);
      AliasDecoded(env, n, v, out0);
      r, out := Decode(env, ty, v, out0);
      AliasHasType(env, n, out);
    case Structure(_, _, _) =>
      StructureHasType(env, n, out0);
      StructureDecoded(env, n, v, out0);
      r, out := DecodeStruct(env, n, v, out0);
      StructureHasType(env, n, out);
  }

  lemma NoArray(env: Env, e: Schema, v: Json, out0: Value)
    requires env.WellFormed() && HasType(env, TVector(e), out0) && !v.Arr?
    ensures DecodedVector(env, e, v, out0).None?
  {
    hide HasType;
  }

  lemma VectorStops(env: Env, e: Schema, v: Json, out0: Value, i: nat)
    requires env.WellFormed() && HasType(env, TVector(e), out0) && v.Arr? && i < |v.elems|
    requires Decoded(env, e, v.elems[i], Slot(env, e, out0.elements, i)).None?
    ensures DecodedVector(env, e, v, out0).None?
  {
    hide Decoded;
  }

  lemma VectorDecoded(env: Env, e: Schema, v: Json, out0: Value, elements: seq<Value>)
    requires env.WellFormed() && HasType(env, TVector(e), out0) && v.Arr? && |elements| == |v.elems|
    requires forall i :: 0 <= i < |elements| ==>
               Decoded(env, e, v.elems[i], Slot(env, e, out0.elements, i)) == Some(elements[i])
    ensures DecodedVector(env, e, v, out0) == Some(VVector(elements))
  {
    hide Decoded;
    assert DecodedVector(env, e, v, out0).value.elements == elements;
  }

  method DecodeVector(env: Env, e: Schema, v: Json, out0: Value) returns (r: Outcome, out: Value)
    requires env.WellFormed() && HasType(env, TVector(e), out0)
    ensures Achieves(DecodedVector(env, e, v, out0), r, out) && HasType(env, TVector(e), out)
    decreases v, 0
  {
    hide HasType, Decoded, DecodedVector, Default;
    VectorHasType(env, e, out0);
    if !v.Arr? {
      NoArray(env, e, v, out0);
      return Fail("JSON value is not an array"), out0;
    }
    var n := |v.elems|;
    var elements := seq(n, i requires 0 <= i < n => Slot(env, e, out0.elements, i));
    var i := 0;
    while i < n
      invariant i <= n == |elements|
      invariant forall j :: 0 <= j < n ==> HasType(env, e, elements[j])
      invariant forall j :: 0 <= j < i ==>
        Decoded(env, e, v.elems[j], Slot(env, e, out0.elements, j)) == Some(elements[j])
      invariant forall j :: i <= j < n ==> elements[j] == Slot(env, e, out0.elements, j)
    {
      var res, element := Decode(env, e, v.elems[i], elements[i]);
      elements := elements[i := element];
      if res.Fail? {
        VectorStops(env, e, v, out0, i);
        VectorHasType(env, e, VVector(elements));
        return res, VVector(elements);
      }
      i := i + 1;
    }
    VectorDecoded(env, e, v, out0, elements);
    VectorHasType(env, e, VVector(elements));
    return Pass, VVector(elements);
  }

  method DecodeTuple(env: Env, ts: seq<Schema>, v: Json, out0: Value) returns (r: Outcome, out: Value)
    requires env.WellFormed() && HasType(env, TTuple(ts), out0)
    ensures Achieves(DecodedTuple(env, ts, v, out0), r, out) && HasType(env, TTuple(ts), out)
    decreases v, 0
  {
    hide Decoded;
    if !v.Arr? {
      return Fail("JSON value is not an array"), out0;
    }
    if |v.elems| != |ts| {
      return Fail("JSON array does not match tuple length"), out0;
    }
    var elements := out0.elements;
    var error := "";
    var idx := 0;
    // The fold over the elements stops at the first that returns false.
    var more := true;
    while idx < |ts| && more
      invariant idx <= |ts| == |elements|
      invariant forall j :: 0 <= j < |ts| ==> HasType(env, ts[j], elements[j])
      invariant forall j :: 0 <= j < idx ==>
        Decoded(env, ts[j], v.elems[j], out0.elements[j]) == Some(elements[j])
      invariant more ==> error == "" && forall j :: idx <= j < |ts| ==> elements[j] == out0.elements[j]
      invariant !more ==> error != "" && idx < |ts| && Decoded(env, ts[idx], v.elems[idx], out0.elements[idx]).None?
      decreases |ts| - idx, more
    {
      var res, element := Decode(env, ts[idx], v.elems[idx], elements[idx]);
      elements := elements[idx := element];
      if res.Fail? {
        error := res.reason;
        more := false;
      } else {
        idx := idx + 1;
      }
    }
    out := VTuple(elements);
    if error == "" {
      assert DecodedTuple(env, ts, v, out0).value.elements == elements;
      return Pass, out;
    }
    return Fail(error), out;
  }

  lemma NoneOverlaid(env: Env, e: Schema, v: Json, out0: Value)
    requires env.WellFormed() && HasType(env, TMap(e), out0) && v.Obj?
    ensures Overlaid(env, e, v, out0, v.members.Keys, out0.entries)
  {
    hide HasType, Decoded, EntrySlot;
  }

  lemma NoObject(env: Env, e: Schema, v: Json, out0: Value)
    requires env.WellFormed() && HasType(env, TMap(e), out0) && !v.Obj?
    ensures DecodedMap(env, e, v, out0).None?
  {
    hide HasType;
  }

  lemma MapStops(env: Env, e: Schema, v: Json, out0: Value, name: string)
    requires env.WellFormed() && HasType(env, TMap(e), out0) && v.Obj? && name in v.members
    requires Decoded(env, e, v.members[name], EntrySlot(env, e, out0.entries, name)).None?
    ensures DecodedMap(env, e, v, out0).None?
  {
    hide Decoded, EntrySlot;
  }

  lemma NextOverlaid(env: Env, e: Schema, v: Json, out0: Value, names: set<string>, entries: map<string, Value>,
                     name: string, entry: Value)
    requires env.WellFormed() && HasType(env, TMap(e), out0) && v.Obj? && Overlaid(env, e, v, out0, names, entries)
    requires name in names && names <= v.members.Keys
    requires Decoded(env, e, v.members[name], EntrySlot(env, e, out0.entries, name)) == Some(entry)
    ensures Overlaid(env, e, v, out0, names - {name}, entries[name := entry])
  {
    hide HasType, Decoded, EntrySlot;
  }

  lemma SlotKept(env: Env, e: Schema, v: Json, out0: Value, names: set<string>, entries: map<string, Value>,
                 name: string)
    requires env.WellFormed() && HasType(env, TMap(e), out0) && v.Obj? && Overlaid(env, e, v, out0, names, entries)
    requires name in names && names <= v.members.Keys && forall k :: k in entries ==> HasType(env, e, entries[k])
    ensures EntrySlot(env, e, entries, name) == EntrySlot(env, e, out0.entries, name)
  {
    hide HasType, Decoded;
  }

  method DecodeMap(env: Env, e: Schema, v: Json, out0: Value) returns (r: Outcome, out: Value)
    requires env.WellFormed() && HasType(env, TMap(e), out0)
    ensures Achieves(DecodedMap(env, e, v, out0), r, out) && HasType(env, TMap(e), out)
    decreases v, 0
  {
    hide HasType, Decoded, DecodedMap, Overlaid, EntrySlot;
    if !v.Obj? {
      NoObject(env, e, v, out0);
      return Fail("JSON value is not an object"), out0;
    }
    MapHasType(env, e, out0);
    NoneOverlaid(env, e, v, out0);
    var names := v.members.Keys;
    var entries := out0.entries;
    while names != {}
      invariant names <= v.members.Keys
      invariant forall k :: k in entries ==> HasType(env, e, entries[k])
      invariant Overlaid(env, e, v, out0, names, entries)
    {
      var name :| name in names;
      SlotKept(env, e, v, out0, names, entries, name);
      var res, entry := Decode(env, e, v.members[name], EntrySlot(env, e, entries, name));
      ghost var before := entries;
      entries := entries[name := entry];
      if res.Fail? {
        MapStops(env, e, v, out0, name);
        MapHasType(env, e, VMap(entries));
        return res, VMap(entries);
      }
      NextOverlaid(env, e, v, out0, names, before, name, entry);
      names := names - {name};
    }
    AllOverlaid(env, e, v, out0, entries);
    MapHasType(env, e, VMap(entries));
    return Pass, VMap(entries);
  }

  method DecodeOneOf(env: Env, ts: seq<Schema>, v: Json, out0: Value) returns (r: Outcome, out: Value)
    requires env.WellFormed() && HasType(env, TOneOf(ts), out0)
    ensures Achieves(DecodedFrom(env, ts, v, 0), r, out) && HasType(env, TOneOf(ts), out)
    decreases v, env.LevelOf(ts) + 1, TOneOf(ts), 0
  {
    var k := 0;
    while k < |ts|
      invariant k <= |ts|
      invariant DecodedFrom(env, ts, v, 0) == DecodedFrom(env, ts, v, k)
    {
      var res, val := Decode(env, ts[k], v, Default(env, ts[k]));
      if res.Pass? {
        return Pass, VOneOf(IndexOf(ts, ts[k]), val);
      }
      k := k + 1;
    }
    return Fail("no types matched the OneOf"), out0;
  }

  method DecodeStruct(env: Env, n: string, v: Json, out0: Value) returns (r: Outcome, out: Value)
    requires env.WellFormed() && env.IsStruct(n) && StructHasType(env, n, out0)
    ensures StructHasType(env, n, out)
    ensures Achieves(DecodedStruct(env, n, v, out0), r, out)
    decreases v, env.Rank(n) + 1, TNamed(n), 0, 1
  {
    var Structure(kind, ps, _) := env.declarations[n];
    out := out0;
    if !v.Obj? {
      return Fail("value is not object"), out;
    }
    if kind.Some? {
      var matched := MatchKind(v, kind.value);
      if matched.Fail? {
        return matched, out;
      }
    }
    var res, fields := DecodeFields(env, ps, v, out.fields);
    out := VStruct(fields, out.bases);
    if res.Fail? {
      return res, out;
    }
    var bases;
    res, bases := DecodeBases(env, n, v, out.bases);
    return res, VStruct(fields, bases);
  }

  /** The block of member decoders of a structure. */
  method DecodeFields(env: Env, ps: seq<Property>, v: Json, fields0: seq<Field>)
    returns (r: Outcome, fields: seq<Field>)
    requires env.WellFormed() && v.Obj? && |fields0| == |ps|
    requires forall i :: 0 <= i < |ps| ==> FieldHasType(env, ps[i], fields0[i])
    ensures |fields| == |ps| && forall i :: 0 <= i < |ps| ==> FieldHasType(env, ps[i], fields[i])
    ensures Achieves(DecodedFields(env, ps, v, fields0), r, fields)
    decreases v, 0, TNull, 1
  {
    fields := fields0;
    var i := 0;
    while i < |ps|
      invariant i <= |ps| == |fields|
      invariant forall j :: 0 <= j < |ps| ==> FieldHasType(env, ps[j], fields[j])
      invariant forall j :: 0 <= j < i ==> DecodedField(env, ps[j], v, fields0[j]) == Some(fields[j])
      invariant forall j :: i <= j < |ps| ==> fields[j] == fields0[j]
    {
      var res, field := DecodeField(env, ps[i], v, fields[i]);
      fields := fields[i := field];
      if res.Fail? {
        return res, fields;
      }
      i := i + 1;
    }
    assert DecodedFields(env, ps, v, fields0).value == fields;
    return Pass, fields;
  }

  /** The block of base decoders of a structure. */
  method DecodeBases(env: Env, n: string, v: Json, bases0: seq<Value>) returns (r: Outcome, bases: seq<Value>)
    requires env.WellFormed() && env.IsStruct(n) && BasesHaveType(env, n, bases0)
    ensures BasesHaveType(env, n, bases)
    ensures Achieves(DecodedBases(env, n, v, bases0), r, bases)
    decreases v, env.Rank(n) + 1, TNamed(n), 0, 0
  {
    hide StructHasType, DecodedStruct;
    assert env.DeclarationOk(n);
    var exts := env.declarations[n].parents;
    bases := bases0;
    var b := 0;
    while b < |exts|
      invariant b <= |exts| && BasesHaveType(env, n, bases)
      invariant forall j :: 0 <= j < b ==> DecodedStruct(env, exts[j], v, bases0[j]) == Some(bases[j])
      invariant forall j :: b <= j < |exts| ==> bases[j] == bases0[j]
    {
      var res, base := DecodeStruct(env, exts[b], v, bases[b]);
      bases := bases[b := base];
      if res.Fail? {
        return res, bases;
      }
      b := b + 1;
    }
    assert DecodedBases(env, n, v, bases0).value == bases;
    return Pass, bases;
  }

  /** One property: an optional one is decoded into a fresh value and moved in, a required one
      is decoded in place. */
  method DecodeField(env: Env, p: Property, v: Json, f0: Field) returns (r: Outcome, f: Field)
    requires env.WellFormed() && v.Obj? && FieldHasType(env, p, f0)
    ensures FieldHasType(env, p, f)
    ensures Achieves(DecodedField(env, p, v, f0), r, f)
    decreases v, 0, TNull, 0
  {
    if p.optional {
      if p.name in v.members {
        var res, val := Decode(env, p.ty, v.members[p.name], Default(env, p.ty));
        if res.Fail? {
          return res, f0;
        }
        return Pass, Present(val);
      }
      return Pass, f0;
    }
    if p.name !in v.members {
      return Fail("object has no field with name '" + p.name + "'"), f0;
    }
    var res, val := Decode(env, p.ty, v.members[p.name], f0.value);
    return res, Present(val);
  }
}
