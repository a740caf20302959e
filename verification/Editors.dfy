/**
 The in-place editors of pkg/helm/config.go. Each method rewrites the tree of a heap object;
 the function beside it says what the tree becomes, and the lemmas say what that means.
 */
module Editors {
  import opened Wrappers
  import opened JsonTrees

  const EndpointsPath := ["spec", "endpoints"]
  const InsecurePath := ["tlsConfig", "insecureSkipVerify"]
  const AnnotationsPath := ["metadata", "annotations"]
  const PodAnnotationsPath := ["spec", "template", "metadata", "annotations"]
  const RequiredSCC := "openshift.io/required-scc"
  const SpeakerSCCName := "metallb-speaker"

  /** An `*unstructured.Unstructured`: a pointer to a tree that several variables may share. */
  class Unstructured {
    var tree: Manifest

    constructor (tree: Manifest)
      ensures this.tree == tree
    {
      this.tree := tree;
    }
  }

  function Kind(m: Manifest): string { NestedString(m, ["kind"]) }
  function Name(m: Manifest): string { NestedString(m, ["metadata", "name"]) }
  function Namespace(m: Manifest): string { NestedString(m, ["metadata", "namespace"]) }

  /** `SetNamespace`: an empty namespace removes the field; a failing write is ignored. */
  function WithNamespace(m: Manifest, ns: string): Manifest {
    if ns == "" then RemoveField(m, ["metadata", "namespace"])
    else
      match SetField(m, Str(ns), ["metadata", "namespace"])
      case Ok(r) => r
      case Err => m
  }

  // ---- setOcpMonitorFields ----

  /**
   The endpoints with certificate verification switched on. The Go code panics on an endpoint that
   is not a map; here that is a failure like any other.
   */
  function SecureEndpoints(eps: seq<Json>): (r: Result<seq<Json>>)
    ensures r.Ok? ==> |r.value| == |eps|
  {
    if eps == [] then Ok([])
    else if !eps[0].Obj? then Err
    else
      var first :- SetField(eps[0].fields, Bool(false), InsecurePath);
      var rest :- SecureEndpoints(eps[1..]);
      Ok([Obj(first)] + rest)
  }

  function MonitorEdit(m: Manifest): Result<Manifest>
  {
    var eps := NestedSlice(m, EndpointsPath);
    if !eps.Found? then Err
    else
      var secured :- SecureEndpoints(eps.value);
      SetField(m, Arr(secured), EndpointsPath)
  }

  /** The loop over the endpoints, which works on the copy that NestedSlice returned. */
  method SecureAll(found: seq<Json>) returns (r: Result<seq<Json>>)
    ensures r == SecureEndpoints(found)
  {
    var eps := found;
    for i := 0 to |found|
      invariant |eps| == |found| && eps[i..] == found[i..]
      invariant forall k :: 0 <= k < i ==> SecuredPair(found[k], eps[k])
    {
      assert eps[i] == found[i];
      if !eps[i].Obj? || SetField(eps[i].fields, Bool(false), InsecurePath).Err? {
        SecureEndpointsFails(found, i);
        return Err;
      }
      var edited := SetField(eps[i].fields, Bool(false), InsecurePath);
      eps := eps[i := Obj(edited.value)];
    }
    SecureEndpointsPairs(found, eps);
    return Ok(eps);
  }

  predicate SecuredPair(ep: Json, secured: Json) {
    ep.Obj? && secured.Obj? && SetField(ep.fields, Bool(false), InsecurePath) == Ok(secured.fields)
  }

  lemma {:induction false} SecureEndpointsPairs(eps: seq<Json>, secured: seq<Json>)
    requires |eps| == |secured| && forall k :: 0 <= k < |eps| ==> SecuredPair(eps[k], secured[k])
    ensures SecureEndpoints(eps) == Ok(secured)
  {
    if eps != [] {
      assert SecuredPair(eps[0], secured[0]);
      SecureEndpointsPairs(eps[1..], secured[1..]);
      assert secured == [secured[0]] + secured[1..];
    }
  }

  lemma {:induction false} SecureEndpointsFails(eps: seq<Json>, i: nat)
    requires i < |eps| && (!eps[i].Obj? || SetField(eps[i].fields, Bool(false), InsecurePath).Err?)
    ensures SecureEndpoints(eps).Err?
  {
    if i > 0 {
      SecureEndpointsFails(eps[1..], i - 1);
    }
  }

  method SetOcpMonitorFields(obj: Unstructured) returns (ok: bool)
    modifies obj
    ensures ok <==> MonitorEdit(old(obj.tree)).Ok?
    ensures obj.tree == if ok then MonitorEdit(old(obj.tree)).value else old(obj.tree)
  {
    var found := NestedSlice(obj.tree, EndpointsPath);
    if !found.Found? {
      return false;
    }
    var eps := SecureAll(found.value);
    if eps.Err? {
      return false;
    }
    var r := SetField(obj.tree, Arr(eps.value), EndpointsPath);
    if r.Err? {
      return false;
    }
    obj.tree := r.value;
    return true;
  }

  // ---- updateAnnotations and setRequiredSCCAnnotationForSpeaker ----

  function MergeAt(m: Manifest, annotations: map<string, string>, path: seq<string>): Result<Manifest>
    requires path != []
  {
    match NestedStringMap(m, path)
    case WrongType => Err
    case NotFound => SetField(m, Obj(FromStrings(annotations)), path)
    case Found(curr) => SetField(m, Obj(FromStrings(curr + annotations)), path)
  }

  /** The merging loop; ranging over a Go map visits the keys in no particular order. */
  method MergeInto<K(==), V(==)>(start: map<K, V>, annotations: map<K, V>) returns (curr: map<K, V>)
    ensures curr == start + annotations
  {
    curr := start;
    var keys := annotations.Keys;
    while keys != {}
      invariant keys <= annotations.Keys
      invariant forall k <- start :: k in curr
      invariant forall k <- annotations :: k in keys || (k in curr && curr[k] == annotations[k])
      invariant forall k <- curr ::
        if k in annotations && k !in keys then curr[k] == annotations[k] else k in start && curr[k] == start[k]
      decreases |keys|
    {
      var k :| k in keys;
      curr := curr[k := annotations[k]];
      keys := keys - {k};
    }
  }

  method UpdateAnnotations(obj: Unstructured, annotations: map<string, string>) returns (ok: bool)
    modifies obj
    ensures ok <==> MergeAt(old(obj.tree), annotations, AnnotationsPath).Ok?
    ensures obj.tree == if ok then MergeAt(old(obj.tree), annotations, AnnotationsPath).value else old(obj.tree)
  {
    var found := NestedStringMap(obj.tree, AnnotationsPath);
    if found.WrongType? {
      return false;
    }
    var curr := MergeInto(if found.Found? then found.value else map[], annotations);
    assert found.NotFound? ==> curr == annotations;
    var r := SetField(obj.tree, Obj(FromStrings(curr)), AnnotationsPath);
    if r.Err? {
      return false;
    }
    obj.tree := r.value;
    return true;
  }

  const SpeakerSCCAnnotation: map<string, string> := map[RequiredSCC := SpeakerSCCName]

  method SetRequiredSCCAnnotationForSpeaker(obj: Unstructured) returns (ok: bool)
    modifies obj
    ensures ok <==> MergeAt(old(obj.tree), SpeakerSCCAnnotation, PodAnnotationsPath).Ok?
    ensures obj.tree ==
      if ok then MergeAt(old(obj.tree), SpeakerSCCAnnotation, PodAnnotationsPath).value else old(obj.tree)
  {
    var found := NestedStringMap(obj.tree, PodAnnotationsPath);
    if found.WrongType? {
      return false;
    }
    var annotations := if found.Found? then found.value else map[];
    annotations := annotations[RequiredSCC := SpeakerSCCName];
    assert found.Found? ==> annotations == found.value + SpeakerSCCAnnotation;
    assert found.NotFound? ==> annotations == SpeakerSCCAnnotation;
    var r := SetField(obj.tree, Obj(FromStrings(annotations)), PodAnnotationsPath);
    if r.Err? {
      return false;
    }
    obj.tree := r.value;
    return true;
  }

  // ---- What the edits mean ----

  /** The paths the monitor edit may change: some endpoint's insecureSkipVerify, or an ancestor of one. */
  predicate TouchesMonitor(q: seq<PathStep>) {
    && (|q| > 0 ==> q[0] == Field("spec"))
    && (|q| > 1 ==> q[1] == Field("endpoints"))
    && (|q| > 2 ==> q[2].Index?)
    && (|q| > 3 ==> q[3] == Field("tlsConfig"))
    && (|q| > 4 ==> q[4] == Field("insecureSkipVerify"))
  }

  /** Every endpoint ends with verification on, none is added or dropped, and nothing else moves. */
  lemma MonitorEditFrame(m: Manifest, q: seq<PathStep>)
    requires MonitorEdit(m).Ok?
    ensures NestedSlice(m, EndpointsPath).Found?
    ensures
      var eps := NestedSlice(m, EndpointsPath).value;
      var eps' := NestedSlice(MonitorEdit(m).value, EndpointsPath);
      && eps'.Found? && |eps'.value| == |eps|
      && forall i :: 0 <= i < |eps| ==> At(eps'.value[i], Fields(InsecurePath)) == Some(Bool(false))
    ensures !TouchesMonitor(q) ==> At(Obj(MonitorEdit(m).value), q) == At(Obj(m), q)
  {
    var eps := NestedSlice(m, EndpointsPath).value;
    var secured := SecureEndpoints(eps).value;
    var r := MonitorEdit(m).value;
    SetFieldThenNested(m, Arr(secured), EndpointsPath);
    forall i | 0 <= i < |eps|
      ensures At(secured[i], Fields(InsecurePath)) == Some(Bool(false))
    {
      SecureEndpointsAt(eps, i, Fields(InsecurePath));
    }
    SetFieldAt(m, Arr(secured), EndpointsPath, q);
    var e := Fields(EndpointsPath);
    if e <= q && !TouchesMonitor(q) {
      NestedIsAt(Obj(m), EndpointsPath);
      AtSplit(Obj(m), q, 2);
      assert q[..2] == e;
      var rest := q[2..];
      if rest != [] && rest[0].Index? && rest[0].i < |eps| {
        assert rest[1..] == q[3..];
        var p := Fields(InsecurePath);
        assert Apart(p, rest[1..]) by {
          assert p == [Field("tlsConfig"), Field("insecureSkipVerify")];
          assert |q| > 3;
          assert |q| > 3 && (q[3] != p[0] || (|q| > 4 && q[4] != p[1]));
        }
        SecureEndpointsAt(eps, rest[0].i, rest[1..]);
      }
    } else if !TouchesMonitor(q) {
      assert e == [Field("spec"), Field("endpoints")];
      assert Apart(e, q);
    }
  }

  lemma {:induction false} SecureEndpointsAt(eps: seq<Json>, i: nat, q: seq<PathStep>)
    requires SecureEndpoints(eps).Ok? && i < |eps|
    ensures SecureEndpoints(eps).value[i].Obj?
    ensures Fields(InsecurePath) <= q ==>
      At(SecureEndpoints(eps).value[i], q) == At(Bool(false), q[2..])
    ensures Apart(Fields(InsecurePath), q) ==> At(SecureEndpoints(eps).value[i], q) == At(eps[i], q)
  {
    if i == 0 {
      SetFieldAt(eps[0].fields, Bool(false), InsecurePath, q);
    } else {
      SecureEndpointsAt(eps[1..], i - 1, q);
    }
  }

  lemma {:induction false} AtSplit(t: Json, q: seq<PathStep>, n: nat)
    requires n <= |q|
    ensures At(t, q) == match At(t, q[..n]) case None => None case Some(u) => At(u, q[n..])
    decreases n
  {
    if n == 0 {
      assert q[..0] == [] && q[0..] == q;
    } else {
      assert q[..n][1..] == q[1..][..n - 1];
      assert q[1..][n - 1..] == q[n..];
      match q[0]
      case Field(f) =>
        if t.Obj? && f in t.fields { AtSplit(t.fields[f], q[1..], n - 1); }
      case Index(i) =>
        if t.Arr? && i < |t.items| { AtSplit(t.items[i], q[1..], n - 1); }
    }
  }

  /** A second monitor edit succeeds and changes nothing. */
  lemma MonitorEditIdempotent(m: Manifest)
    requires MonitorEdit(m).Ok?
    ensures MonitorEdit(MonitorEdit(m).value) == MonitorEdit(m)
  {
    var eps := NestedSlice(m, EndpointsPath).value;
    var secured := SecureEndpoints(eps).value;
    SetFieldThenNested(m, Arr(secured), EndpointsPath);
    SecureTwice(eps);
    SetFieldTwice(m, Arr(secured), Arr(secured), EndpointsPath);
  }

  lemma {:induction false} SecureTwice(eps: seq<Json>)
    requires SecureEndpoints(eps).Ok?
    ensures SecureEndpoints(SecureEndpoints(eps).value) == SecureEndpoints(eps)
  {
    if eps != [] {
      SecureTwice(eps[1..]);
      SetFieldTwice(eps[0].fields, Bool(false), Bool(false), InsecurePath);
      assert SecureEndpoints(eps).value[1..] == SecureEndpoints(eps[1..]).value;
    }
  }

  /** Exactly when setOcpMonitorFields reports an error. */
  lemma MonitorEditFails(m: Manifest)
    ensures MonitorEdit(m).Ok? <==>
      && NestedSlice(m, EndpointsPath).Found?
      && forall ep :: ep in NestedSlice(m, EndpointsPath).value ==>
           ep.Obj? && ("tlsConfig" in ep.fields ==> ep.fields["tlsConfig"].Obj?)
  {
    var eps := NestedSlice(m, EndpointsPath);
    if eps.Found? {
      SecureFails(eps.value);
      if SecureEndpoints(eps.value).Ok? {
        NestedIsAt(Obj(m), EndpointsPath);
        PresentIsWritable(m, Arr(SecureEndpoints(eps.value).value), EndpointsPath);
      }
    }
  }

  lemma {:induction false} SecureFails(eps: seq<Json>)
    ensures SecureEndpoints(eps).Ok? <==>
      forall ep :: ep in eps ==> ep.Obj? && ("tlsConfig" in ep.fields ==> ep.fields["tlsConfig"].Obj?)
  {
    if eps != [] {
      SecureFails(eps[1..]);
      assert eps == [eps[0]] + eps[1..];
    }
  }

  /** A place that can be read can be written. */
  lemma {:induction false} PresentIsWritable(m: Manifest, v: Json, path: seq<string>)
    requires path != [] && NestedField(Obj(m), path).Found?
    ensures SetField(m, v, path).Ok?
    decreases |path|
  {
    if |path| > 1 {
      assert m[path[0]].Obj?;
      PresentIsWritable(m[path[0]].fields, v, path[1..]);
    }
  }

  /**
   The merged annotations are the old ones overridden by the new ones; every path apart from the
   annotations keeps its value; merging again changes nothing.
   */
  lemma MergeAtMeaning(m: Manifest, annotations: map<string, string>, path: seq<string>, q: seq<PathStep>)
    requires path != [] && MergeAt(m, annotations, path).Ok?
    ensures
      var was := NestedStringMap(m, path);
      NestedStringMap(MergeAt(m, annotations, path).value, path)
      == Found.Found((if was.Found? then was.value else map[]) + annotations)
    ensures Apart(Fields(path), q) ==> At(Obj(MergeAt(m, annotations, path).value), q) == At(Obj(m), q)
    ensures MergeAt(MergeAt(m, annotations, path).value, annotations, path) == MergeAt(m, annotations, path)
  {
    var was := NestedStringMap(m, path);
    var curr := if was.Found? then was.value else map[];
    assert map[] + annotations == annotations;
    var merged := Obj(FromStrings(curr + annotations));
    SetFieldThenNested(m, merged, path);
    SetFieldAt(m, merged, path, q);
    SetFieldTwice(m, merged, merged, path);
    assert (curr + annotations) + annotations == curr + annotations;
  }

  /** A merge fails exactly when the annotations, or a node on the way to them, have the wrong type. */
  lemma MergeAtFails(m: Manifest, annotations: map<string, string>, path: seq<string>)
    requires path != []
    ensures MergeAt(m, annotations, path).Ok? <==>
      && !NestedStringMap(m, path).WrongType?
      && forall q: seq<PathStep> {:trigger At(Obj(m), q)} ::
           q < Fields(path) && At(Obj(m), q).Some? ==> At(Obj(m), q).value.Obj?
  {
    var was := NestedStringMap(m, path);
    var v := if was.Found? then Obj(FromStrings(was.value + annotations)) else Obj(FromStrings(annotations));
    SetFieldOkIffMaps(m, v, path);
  }

  lemma {:induction false} SetFieldOkIffMaps(m: Manifest, v: Json, path: seq<string>)
    requires path != []
    ensures SetField(m, v, path).Ok? <==>
      forall q: seq<PathStep> {:trigger At(Obj(m), q)} ::
        q < Fields(path) && At(Obj(m), q).Some? ==> At(Obj(m), q).value.Obj?
    decreases |path|
  {
    if SetField(m, v, path).Ok? {
      forall q: seq<PathStep> | q < Fields(path) && At(Obj(m), q).Some? ensures At(Obj(m), q).value.Obj? {
        SetFieldAncestor(m, v, path, q);
      }
    } else {
      var q := BlockedAt(m, v, path);
      assert At(Obj(m), q).Some?;
    }
  }

  lemma {:induction false} BlockedAt(m: Manifest, v: Json, path: seq<string>) returns (q: seq<PathStep>)
    requires path != [] && SetField(m, v, path).Err?
    ensures q < Fields(path) && At(Obj(m), q).Some? && !At(Obj(m), q).value.Obj?
    decreases |path|
  {
    assert Fields(path)[1..] == Fields(path[1..]);
    if path[0] in m && !m[path[0]].Obj? {
      q := [Field(path[0])];
      assert q[1..] == [];
    } else {
      var child := if path[0] in m then m[path[0]] else Obj(map[]);
      var deeper := BlockedAt(child.fields, v, path[1..]);
      q := [Field(path[0])] + deeper;
      assert q[1..] == deeper;
      assert path[0] !in m ==> deeper == [];
    }
  }
}
