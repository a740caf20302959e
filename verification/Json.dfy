/**
 Unstructured Kubernetes objects as JSON trees, and the nested-field accessors of
 `unstructured` that pkg/helm/config.go edits them with.
 */
module JsonTrees {
  import opened Wrappers

  datatype Json =
    | Null
    | Bool(b: bool)
    | Num(n: int)
    | Str(s: string)
    | Arr(items: seq<Json>)
    | Obj(fields: Manifest)

  /** The `Object` map of an `unstructured.Unstructured`. */
  type Manifest = map<string, Json>

  /** One step of a path through a tree. */
  datatype PathStep = Field(name: string) | Index(i: nat)

  function At(t: Json, path: seq<PathStep>): Option<Json>
    decreases |path|
  {
    if path == [] then Some(t)
    else match path[0]
      case Field(f) => if t.Obj? && f in t.fields then At(t.fields[f], path[1..]) else None
      case Index(i) => if t.Arr? && i < |t.items| then At(t.items[i], path[1..]) else None
  }

  function Fields(path: seq<string>): (keys: seq<PathStep>)
    ensures |keys| == |path|
    ensures forall i :: 0 <= i < |path| ==> keys[i] == Field(path[i])
  {
    if path == [] then [] else [Field(path[0])] + Fields(path[1..])
  }

  /** Neither path runs through the place the other one names. */
  predicate Apart(p: seq<PathStep>, q: seq<PathStep>) {
    !(p <= q) && !(q <= p)
  }

  lemma PrefixTail(p: seq<PathStep>, q: seq<PathStep>)
    requires p != [] && q != [] && p[0] == q[0]
    ensures p <= q <==> p[1..] <= q[1..]
  {
  }

  // ---- unstructured.NestedFieldNoCopy and its typed variants ----

  datatype Found<+T> = Found(value: T) | NotFound | WrongType

  /** A missing field or a null on the way is "not found"; any other non-map is an error. */
  function NestedField(t: Json, path: seq<string>): Found<Json>
    decreases |path|
  {
    if path == [] then Found.Found(t)
    else if t.Null? then NotFound
    else if !t.Obj? then WrongType
    else if path[0] !in t.fields then NotFound
    else NestedField(t.fields[path[0]], path[1..])
  }

  function NestedSlice(m: Manifest, path: seq<string>): Found<seq<Json>> {
    match NestedField(Obj(m), path)
    case Found(Arr(items)) => Found.Found(items)
    case Found(_) => WrongType
    case NotFound => NotFound
    case WrongType => WrongType
  }

  predicate IsStringMap(m: Manifest) {
    forall k :: k in m ==> m[k].Str?
  }

  function AsStrings(m: Manifest): map<string, string>
    requires IsStringMap(m)
  {
    map k | k in m :: m[k].s
  }

  function FromStrings(m: map<string, string>): (r: Manifest)
    ensures IsStringMap(r) && AsStrings(r) == m
  {
    map k | k in m :: Str(m[k])
  }

  function NestedStringMap(m: Manifest, path: seq<string>): Found<map<string, string>> {
    match NestedField(Obj(m), path)
    case Found(Obj(fields)) => if IsStringMap(fields) then Found.Found(AsStrings(fields)) else WrongType
    case Found(_) => WrongType
    case NotFound => NotFound
    case WrongType => WrongType
  }

  /** `getNestedString`: the empty string unless a string is there. */
  function NestedString(m: Manifest, path: seq<string>): string {
    match NestedField(Obj(m), path)
    case Found(Str(s)) => s
    case _ => ""
  }

  // ---- unstructured.SetNestedField ----

  /** Creates missing maps on the way; fails on anything there that is not a map. */
  function SetField(m: Manifest, v: Json, path: seq<string>): Result<Manifest>
    requires path != []
    decreases |path|
  {
    if |path| == 1 then Ok(m[path[0] := v])
    else
      var child := if path[0] in m then m[path[0]] else Obj(map[]);
      if !child.Obj? then Err
      else
        var edited :- SetField(child.fields, v, path[1..]);
        Ok(m[path[0] := Obj(edited)])
  }

  /** `unstructured.RemoveNestedField`. */
  function RemoveField(m: Manifest, path: seq<string>): Manifest
    requires path != []
    decreases |path|
  {
    if |path| == 1 then m - {path[0]}
    else if path[0] in m && m[path[0]].Obj? then
      m[path[0] := Obj(RemoveField(m[path[0]].fields, path[1..]))]
    else m
  }

  lemma {:induction false} SetFieldBelow(m: Manifest, v: Json, path: seq<string>, rest: seq<PathStep>)
    requires path != [] && SetField(m, v, path).Ok?
    ensures At(Obj(SetField(m, v, path).value), Fields(path) + rest) == At(v, rest)
    decreases |path|
  {
    var q := Fields(path) + rest;
    assert q[0] == Field(path[0]);
    if |path| == 1 {
      assert q[1..] == rest;
    } else {
      var child := if path[0] in m then m[path[0]] else Obj(map[]);
      SetFieldBelow(child.fields, v, path[1..], rest);
      assert q[1..] == Fields(path[1..]) + rest;
    }
  }

  lemma {:induction false} SetFieldApart(m: Manifest, v: Json, path: seq<string>, q: seq<PathStep>)
    requires path != [] && SetField(m, v, path).Ok? && Apart(Fields(path), q)
    ensures At(Obj(SetField(m, v, path).value), q) == At(Obj(m), q)
    decreases |path|
  {
    if q[0] == Field(path[0]) {
      PrefixTail(Fields(path), q);
      PrefixTail(q, Fields(path));
      assert Fields(path)[1..] == Fields(path[1..]);
      var child := if path[0] in m then m[path[0]] else Obj(map[]);
      SetFieldApart(child.fields, v, path[1..], q[1..]);
    }
  }

  /** Below its path SetField yields the new value; everywhere apart from it, the old tree. */
  lemma SetFieldAt(m: Manifest, v: Json, path: seq<string>, q: seq<PathStep>)
    requires path != [] && SetField(m, v, path).Ok?
    ensures Fields(path) <= q ==> At(Obj(SetField(m, v, path).value), q) == At(v, q[|path|..])
    ensures Apart(Fields(path), q) ==> At(Obj(SetField(m, v, path).value), q) == At(Obj(m), q)
  {
    if Fields(path) <= q {
      assert q == Fields(path) + q[|path|..];
      SetFieldBelow(m, v, path, q[|path|..]);
    }
    if Apart(Fields(path), q) {
      SetFieldApart(m, v, path, q);
    }
  }

  /** Writing the same value at the same place twice is writing it once. */
  lemma {:induction false} SetFieldTwice(m: Manifest, v: Json, w: Json, path: seq<string>)
    requires path != [] && SetField(m, v, path).Ok?
    ensures SetField(SetField(m, v, path).value, w, path) == SetField(m, w, path)
    decreases |path|
  {
    var once := SetField(m, v, path).value;
    if |path| == 1 {
      assert once[path[0] := w] == m[path[0] := w];
    } else {
      var child := if path[0] in m then m[path[0]] else Obj(map[]);
      SetFieldTwice(child.fields, v, w, path[1..]);
      var r := SetField(child.fields, w, path[1..]);
      if r.Ok? {
        assert once[path[0] := Obj(r.value)] == m[path[0] := Obj(r.value)];
      }
    }
  }

  /** Every proper ancestor of a written place is a map afterwards. */
  lemma {:induction false} SetFieldAncestor(m: Manifest, v: Json, path: seq<string>, q: seq<PathStep>)
    requires path != [] && SetField(m, v, path).Ok?
    requires q < Fields(path)
    ensures At(Obj(SetField(m, v, path).value), q).Some?
    ensures At(Obj(SetField(m, v, path).value), q).value.Obj?
    ensures At(Obj(m), q).Some? ==> At(Obj(m), q).value.Obj?
    decreases |path|
  {
    if q != [] {
      var child := if path[0] in m then m[path[0]] else Obj(map[]);
      assert Fields(path) == [Field(path[0])] + Fields(path[1..]);
      assert q[0] == Field(path[0]);
      assert q[1..] < Fields(path[1..]);
      SetFieldAncestor(child.fields, v, path[1..], q[1..]);
    }
  }

  lemma {:induction false} NestedIsAt(t: Json, path: seq<string>)
    ensures NestedField(t, path).Found? <==> At(t, Fields(path)).Some?
    ensures NestedField(t, path).Found? ==> NestedField(t, path).value == At(t, Fields(path)).value
    decreases |path|
  {
    if path != [] {
      assert Fields(path)[1..] == Fields(path[1..]);
      if t.Obj? && path[0] in t.fields {
        NestedIsAt(t.fields[path[0]], path[1..]);
      }
    }
  }

  /** A read fails exactly when something on the way is neither a map nor null. */
  predicate Blocks(t: Json, path: seq<string>, q: seq<PathStep>) {
    q < Fields(path) && At(t, q).Some? && !At(t, q).value.Obj? && !At(t, q).value.Null?
  }

  lemma {:induction false} NestedFails(t: Json, path: seq<string>)
    ensures NestedField(t, path).WrongType? <==> exists q :: Blocks(t, path, q)
    decreases |path|
  {
    if path != [] {
      assert Fields(path)[1..] == Fields(path[1..]);
      assert At(t, []) == Some(t);
      if t.Obj? && path[0] in t.fields {
        var child := t.fields[path[0]];
        NestedFails(child, path[1..]);
        if q :| Blocks(child, path[1..], q) {
          var longer := [Field(path[0])] + q;
          assert longer[1..] == q;
          assert Blocks(t, path, longer);
        }
        if q :| Blocks(t, path, q) {
          assert q != [] && q[0] == Field(path[0]);
          assert Blocks(child, path[1..], q[1..]);
        }
      } else if !t.Obj? {
        assert [] < Fields(path);
        if !t.Null? {
          assert Blocks(t, path, []);
        }
        if q :| Blocks(t, path, q) {
          assert q == [] || At(t, q).None?;
        }
      }
    }
  }

  /** What the typed reads find: a list, a map of strings only, a string; anything else there is an error or "". */
  lemma TypedReads(m: Manifest, path: seq<string>)
    ensures
      var there := At(Obj(m), Fields(path));
      && (NestedSlice(m, path).Found? <==> there.Some? && there.value.Arr?)
      && (NestedSlice(m, path).Found? ==> there == Some(Arr(NestedSlice(m, path).value)))
      && (NestedStringMap(m, path).Found? <==>
            there.Some? && there.value.Obj? && forall k :: k in there.value.fields ==> there.value.fields[k].Str?)
      && (NestedStringMap(m, path).Found? ==> there == Some(Obj(FromStrings(NestedStringMap(m, path).value))))
      && (NestedStringMap(m, path).WrongType? <==>
            (there.Some? && !NestedStringMap(m, path).Found?) || exists q :: Blocks(Obj(m), path, q))
      && NestedString(m, path) == (match there case Some(Str(s)) => s case _ => "")
  {
    NestedIsAt(Obj(m), path);
    NestedFails(Obj(m), path);
    var there := NestedField(Obj(m), path);
    if there.Found? && there.value.Obj? && IsStringMap(there.value.fields) {
      assert FromStrings(AsStrings(there.value.fields)) == there.value.fields;
    }
  }

  /** A read at a path apart from the written one is not affected, error cases included. */
  lemma {:induction false} SetFieldKeepsNested(m: Manifest, v: Json, path: seq<string>, q: seq<string>)
    requires path != [] && SetField(m, v, path).Ok?
    requires Apart(Fields(path), Fields(q))
    requires q != []
    ensures NestedField(Obj(SetField(m, v, path).value), q) == NestedField(Obj(m), q)
    decreases |path|
  {
    assert Fields(path)[1..] == Fields(path[1..]);
    assert Fields(q)[1..] == Fields(q[1..]);
    if q[0] == path[0] {
      PrefixTail(Fields(path), Fields(q));
      PrefixTail(Fields(q), Fields(path));
      var child := if path[0] in m then m[path[0]] else Obj(map[]);
      SetFieldKeepsNested(child.fields, v, path[1..], q[1..]);
    }
  }

  /** Reading back what was written. */
  lemma SetFieldThenNested(m: Manifest, v: Json, path: seq<string>)
    requires path != [] && SetField(m, v, path).Ok?
    ensures NestedField(Obj(SetField(m, v, path).value), path) == Found.Found(v)
  {
    SetFieldAt(m, v, path, Fields(path));
    NestedIsAt(Obj(SetField(m, v, path).value), path);
  }
}
