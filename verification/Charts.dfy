/**
 The post-processing of rendered charts (pkg/helm/metallb.go, pkg/helm/frrk8s.go). Rendering itself
 is a function of the environment, the resource and the chart values; what is modelled is how the
 loops rewrite the rendered objects, and which pointer each rewrite goes through.
 */
module Charts {
  import opened Api
  import opened Editors
  import opened JsonTrees
  import opened Wrappers

  const SecurityContextPath := ["spec", "template", "spec", "securityContext"]
  const RunAsNonRoot := Obj(map["runAsNonRoot" := Bool(true)])
  const WebhookSecretName := "frr-k8s-webhook-server-cert"

  predicate IsControllerDeployment(m: Manifest) { Kind(m) == "Deployment" && Name(m) == "controller" }
  predicate IsSpeakerDaemonSet(m: Manifest) { Kind(m) == "DaemonSet" && Name(m) == "speaker" }
  predicate IsServiceMonitor(m: Manifest) { Kind(m) == "ServiceMonitor" }
  predicate IsFRRK8SDaemonset(m: Manifest) { Kind(m) == "DaemonSet" && Name(m) == "frr-k8s" }
  predicate IsFRRK8SWebhookDeployment(m: Manifest) { Kind(m) == "Deployment" && Name(m) == "statuscleaner" }
  predicate IsFRRK8SWebhookService(m: Manifest) { Kind(m) == "Service" && Name(m) == "frr-k8s-webhook-service" }
  predicate IsFRRK8SWebhookSecret(m: Manifest) { Kind(m) == "Secret" && Name(m) == WebhookSecretName }
  predicate IsFRRK8SValidatingWebhook(m: Manifest) {
    Kind(m) == "ValidatingWebhookConfiguration" && Name(m) == "frr-k8s-validating-webhook-configuration"
  }

  // ---- Typed workloads ----

  datatype Container = Container(name: string, resources: Json, rest: Json)

  /** The parts of a Deployment or DaemonSet the overrides touch; `rest` is everything else. */
  datatype Workload = Workload(affinity: Option<Json>, containers: seq<Container>, rest: Json)

  /** The conversions between unstructured and typed objects. */
  datatype Codec = Codec(decode: Manifest -> Result<Workload>, encode: Workload -> Result<Manifest>)

  predicate SameIdentity(a: Manifest, b: Manifest) {
    Kind(a) == Kind(b) && Name(a) == Name(b) && Namespace(a) == Namespace(b)
  }

  /** Converting to a typed object, editing affinity and containers, and converting back keeps the identity. */
  ghost predicate KeepsIdentity(codec: Codec) {
    forall m: Manifest, w: Workload {:trigger codec.decode(m), codec.encode(w)} ::
      codec.decode(m).Ok? && w.rest == codec.decode(m).value.rest && codec.encode(w).Ok?
      ==> SameIdentity(codec.encode(w).value, m)
  }

  function PatchedContainer(c: Container, config: Config, name: string): Container {
    if c.name == name && config.resources.Some? then c.(resources := config.resources.value) else c
  }

  function Patched(w: Workload, config: Config, name: string): Workload {
    w.(affinity := if config.affinity.Some? then Some(config.affinity.value.body) else w.affinity,
       containers := seq(|w.containers|, i requires 0 <= i < |w.containers| =>
                         PatchedContainer(w.containers[i], config, name)))
  }

  function Override(codec: Codec, config: Config, name: string, m: Manifest): Result<Manifest> {
    var w :- codec.decode(m);
    codec.encode(Patched(w, config, name))
  }

  /** The shared body of the three override functions: a new object, made from an edited typed copy. */
  method OverrideParameters(codec: Codec, config: Config, name: string, obj: Unstructured)
    returns (r: Result<Unstructured>)
    ensures r.Ok? <==> Override(codec, config, name, obj.tree).Ok?
    ensures r.Ok? ==> fresh(r.value) && r.value.tree == Override(codec, config, name, obj.tree).value
  {
    var decoded := codec.decode(obj.tree);
    if decoded.Err? {
      return Err;
    }
    var w := decoded.value;
    if config.affinity.Some? {
      w := w.(affinity := Some(config.affinity.value.body));
    }
    var containers := w.containers;
    for j := 0 to |containers|
      invariant w == decoded.value.(affinity := w.affinity, containers := w.containers)
      invariant w.affinity == Patched(decoded.value, config, name).affinity
      invariant |w.containers| == |containers|
      invariant forall k :: 0 <= k < j ==> w.containers[k] == PatchedContainer(containers[k], config, name)
      invariant forall k :: j <= k < |containers| ==> w.containers[k] == containers[k]
    {
      if containers[j].name == name && config.resources.Some? {
        w := w.(containers := w.containers[j := w.containers[j].(resources := config.resources.value)]);
      }
    }
    assert w == Patched(decoded.value, config, name);
    var encoded := codec.encode(w);
    if encoded.Err? {
      return Err;
    }
    var replacement := new Unstructured(encoded.value);
    return Ok(replacement);
  }

  // ---- MetalLBChart.Objects ----

  /** What an override replaces the object by; None when it returns the pointer it was given. */
  function ControllerOverride(codec: Codec, spec: Spec, m: Manifest): Result<Option<Manifest>> {
    if spec.controllerConfig.None? || !IsControllerDeployment(m) then Ok(None)
    else
      var r :- Override(codec, spec.controllerConfig.value, "controller", m);
      Ok(Some(r))
  }

  function SpeakerOverride(codec: Codec, spec: Spec, m: Manifest): Result<Option<Manifest>> {
    if spec.speakerConfig.None? || !IsSpeakerDaemonSet(m) then Ok(None)
    else
      var r :- Override(codec, spec.speakerConfig.value, "speaker", m);
      Ok(Some(r))
  }

  function Placed(env: Env, m: Manifest): Manifest {
    if Kind(m) != "PodSecurityPolicy" then WithNamespace(m, env.namespace) else m
  }

  /** The objects an override replaces by a new one. */
  predicate Overridden(spec: Spec, m: Manifest) {
    || (IsControllerDeployment(m) && spec.controllerConfig.Some?)
    || (IsSpeakerDaemonSet(m) && spec.speakerConfig.Some?)
  }

  /** The edits the MetalLB loop makes through `obj` on OpenShift. */
  function MetalLBEdits(env: Env, m: Manifest): Result<Manifest> {
    var m1 :-
      if IsControllerDeployment(m) && env.isOpenshift then SetField(m, RunAsNonRoot, SecurityContextPath) else Ok(m);
    var m2 :-
      if IsSpeakerDaemonSet(m1) && env.isOpenshift then MergeAt(m1, SpeakerSCCAnnotation, PodAnnotationsPath)
      else Ok(m1);
    if IsServiceMonitor(m2) && env.isOpenshift then MonitorEdit(m2) else Ok(m2)
  }

  /**
   One turn of the loop: the overrides replace `objs[i]`, the later edits go through `obj`, and the
   entry returned is `objs[i]`.
   */
  function MetalLBEntry(env: Env, codec: Codec, spec: Spec, m: Manifest): Result<Manifest> {
    var placed := Placed(env, m);
    var c :- ControllerOverride(codec, spec, placed);
    var s :- SpeakerOverride(codec, spec, c.GetOr(placed));
    var edited :- MetalLBEdits(env, placed);
    Ok(if s.Some? then s.value else if c.Some? then c.value else edited)
  }

  function MetalLBEntries(env: Env, codec: Codec, spec: Spec, rendered: seq<Manifest>): (r: Result<seq<Manifest>>)
    ensures r.Ok? ==> |r.value| == |rendered|
  {
    if rendered == [] then Ok([])
    else
      var first :- MetalLBEntry(env, codec, spec, rendered[0]);
      var rest :- MetalLBEntries(env, codec, spec, rendered[1..]);
      Ok([first] + rest)
  }

  /** The rules of the SCC are constants and not listed. */
  const SpeakerSCC: Manifest := map[
    "apiVersion" := Str("security.openshift.io/v1"),
    "kind" := Str("SecurityContextConstraints"),
    "metadata" := Obj(map["name" := Str(SpeakerSCCName)])]

  datatype MetalLBChart = MetalLBChart(render: (Env, Spec, MetalLBValues) -> Result<seq<Manifest>>, codec: Codec)
  {
    function Manifests(env: Env, spec: Spec): Result<seq<Manifest>> {
      var rendered :- render(env, spec, ChartValues(env, spec));
      var entries :- MetalLBEntries(env, codec, spec, rendered);
      Ok(if env.isOpenshift then entries + [SpeakerSCC] else entries)
    }

    /** `parsed` are the objects made from the rendered trees, which the loop edits. */
    method Objects(env: Env, spec: Spec) returns (r: Result<seq<Unstructured>>, ghost parsed: seq<Unstructured>)
      ensures r.Ok? <==> Manifests(env, spec).Ok?
      ensures r.Ok? ==> Hold(r.value, Manifests(env, spec).value) && fresh(r.value)
      ensures r.Ok? ==>
        ReturnedWhereNotOverridden(env, codec, spec, render(env, spec, ChartValues(env, spec)).value, parsed, r.value)
    {
      hide MetalLBEntries;
      hide MetalLBEntry;
      hide MetalLBEdits;
      hide Placed;
      hide Overridden;
      hide KeepsIdentity;
      hide ChartValues;
      parsed := [];
      var rendered := render(env, spec, ChartValues(env, spec));
      if rendered.Err? {
        return Err, parsed;
      }
      var objs := ParseManifest(rendered.value);
      parsed := objs;
      var res := RewriteMetalLB(env, codec, spec, objs, rendered.value);
      if res.Err? {
        return Err, parsed;
      }
      objs := res.value;
      assert fresh(objs);
      if env.isOpenshift {
        var scc := new Unstructured(SpeakerSCC);
        objs := objs + [scc];
      }
      return Ok(objs), parsed;
    }
  }

  /**
   Every edit went to the object made from the rendered tree, and that object is the one returned exactly
   when no override replaced it.
   */
  ghost predicate ReturnedWhereNotOverridden(env: Env, codec: Codec, spec: Spec, rendered: seq<Manifest>,
                                             parsed: seq<Unstructured>, returned: seq<Unstructured>)
    reads parsed
  {
    && |parsed| == |rendered| <= |returned|
    && forall k :: 0 <= k < |rendered| ==>
         && MetalLBEdits(env, Placed(env, rendered[k])) == Ok(parsed[k].tree)
         && (KeepsIdentity(codec) ==> (returned[k] == parsed[k] <==> !Overridden(spec, Placed(env, rendered[k]))))
  }

  /** The loop over the rendered objects; each turn stores back into `objs[i]`. */
  method RewriteMetalLB(env: Env, codec: Codec, spec: Spec, start: seq<Unstructured>, ghost rendered: seq<Manifest>)
    returns (r: Result<seq<Unstructured>>)
    requires Hold(start, rendered)
    modifies start
    ensures r.Ok? <==> MetalLBEntries(env, codec, spec, rendered).Ok?
    ensures r.Ok? ==> Hold(r.value, MetalLBEntries(env, codec, spec, rendered).value)
    ensures r.Ok? ==> forall k :: 0 <= k < |r.value| ==> r.value[k] in start || fresh(r.value[k])
    ensures r.Ok? ==> ReturnedWhereNotOverridden(env, codec, spec, rendered, start, r.value)
  {
    hide MetalLBEntry;
    hide MetalLBEdits;
    hide Overridden;
    hide Placed;
    hide KeepsIdentity;
    var objs := start;
    ghost var done: seq<Manifest> := [];
    for i := 0 to |objs|
      invariant |objs| == |start| && Distinct(objs) && |done| == i
      invariant forall k :: 0 <= k < i ==> objs[k] == start[k] || fresh(objs[k])
      invariant forall k :: i <= k < |objs| ==> objs[k] == start[k] && objs[k].tree == rendered[k]
      invariant forall k :: 0 <= k < i ==> objs[k].tree == done[k]
      invariant forall k :: 0 <= k < i ==> MetalLBEntry(env, codec, spec, rendered[k]) == Ok(done[k])
      invariant forall k :: 0 <= k < i ==> MetalLBEdits(env, Placed(env, rendered[k])) == Ok(start[k].tree)
      invariant KeepsIdentity(codec) ==>
        forall k :: 0 <= k < i ==> (objs[k] == start[k] <==> !Overridden(spec, Placed(env, rendered[k])))
    {
      assert objs[i] in start;
      var entry := MetalLBTurn(env, codec, spec, objs[i]);
      if entry.Err? {
        MetalLBEntriesFail(env, codec, spec, rendered, i);
        return Err;
      }
      objs := objs[i := entry.value];
      done := done + [entry.value.tree];
    }
    MetalLBEntriesPairs(env, codec, spec, rendered, done);
    return Ok(objs);
  }

  lemma {:induction false} MetalLBEntriesPairs(env: Env, codec: Codec, spec: Spec, rendered: seq<Manifest>,
                                               entries: seq<Manifest>)
    requires |rendered| == |entries|
    requires forall k :: 0 <= k < |rendered| ==> MetalLBEntry(env, codec, spec, rendered[k]) == Ok(entries[k])
    ensures MetalLBEntries(env, codec, spec, rendered) == Ok(entries)
  {
    if rendered != [] {
      MetalLBEntriesPairs(env, codec, spec, rendered[1..], entries[1..]);
      assert entries == [entries[0]] + entries[1..];
    }
  }

  lemma {:induction false} MetalLBEntriesFail(env: Env, codec: Codec, spec: Spec, rendered: seq<Manifest>, i: nat)
    requires i < |rendered| && MetalLBEntry(env, codec, spec, rendered[i]).Err?
    ensures MetalLBEntries(env, codec, spec, rendered).Err?
  {
    hide MetalLBEntry;
    if i > 0 {
      MetalLBEntriesFail(env, codec, spec, rendered[1..], i - 1);
    }
  }

  predicate Distinct(objs: seq<Unstructured>) {
    forall j, k :: 0 <= j < k < |objs| ==> objs[j] != objs[k]
  }

  /** Pairwise different objects holding exactly these trees. */
  predicate Hold(objs: seq<Unstructured>, trees: seq<Manifest>)
    reads objs
  {
    Distinct(objs) && |objs| == |trees| && forall k :: 0 <= k < |objs| ==> objs[k].tree == trees[k]
  }

  lemma HoldAppend(a: seq<Unstructured>, b: seq<Unstructured>, s: seq<Manifest>, t: seq<Manifest>)
    requires Hold(a, s) && Hold(b, t)
    requires forall j, k :: 0 <= j < |a| && 0 <= k < |b| ==> a[j] != b[k]
    ensures Hold(a + b, s + t)
  {
  }

  method ParseManifest(trees: seq<Manifest>) returns (out: seq<Unstructured>)
    ensures Hold(out, trees) && fresh(out)
  {
    out := [];
    for i := 0 to |trees|
      invariant Hold(out, trees[..i]) && fresh(out)
    {
      var u := new Unstructured(trees[i]);
      out := out + [u];
    }
    assert trees[..|trees|] == trees;
  }

  method Place(env: Env, obj: Unstructured)
    modifies obj
    ensures obj.tree == Placed(env, old(obj.tree))
  {
    var kind := Kind(obj.tree);
    if kind != "PodSecurityPolicy" {
      obj.tree := WithNamespace(obj.tree, env.namespace);
    }
  }

  /** Whether an override came back with the pointer it was given or with a new object. */
  twostate predicate Replaces(replacement: Result<Option<Manifest>>, obj: Unstructured, new r: Result<Unstructured>)
    reads if r.Ok? then {r.value} else {}
  {
    && (r.Ok? <==> replacement.Ok?)
    && (r.Ok? && replacement.value.None? ==> r.value == obj)
    && (r.Ok? && replacement.value.Some? ==> fresh(r.value) && r.value.tree == replacement.value.value)
  }

  method OverrideControllerParameters(codec: Codec, spec: Spec, obj: Unstructured) returns (r: Result<Unstructured>)
    ensures Replaces(ControllerOverride(codec, spec, obj.tree), obj, r)
  {
    var config := spec.controllerConfig;
    if config.None? || !IsControllerDeployment(obj.tree) {
      return Ok(obj);
    }
    r := OverrideParameters(codec, config.value, "controller", obj);
  }

  method OverrideSpeakerParameters(codec: Codec, spec: Spec, obj: Unstructured) returns (r: Result<Unstructured>)
    ensures Replaces(SpeakerOverride(codec, spec, obj.tree), obj, r)
  {
    var config := spec.speakerConfig;
    if config.None? || !IsSpeakerDaemonSet(obj.tree) {
      return Ok(obj);
    }
    r := OverrideParameters(codec, config.value, "speaker", obj);
  }

  method SetSecurityContext(obj: Unstructured) returns (ok: bool)
    modifies obj
    ensures ok <==> SetField(old(obj.tree), RunAsNonRoot, SecurityContextPath).Ok?
    ensures ok ==> obj.tree == SetField(old(obj.tree), RunAsNonRoot, SecurityContextPath).value
  {
    var r := SetField(obj.tree, RunAsNonRoot, SecurityContextPath);
    ok := r.Ok?;
    if ok {
      obj.tree := r.value;
    }
  }

  method EditMetalLBObject(env: Env, obj: Unstructured) returns (ok: bool)
    modifies obj
    ensures ok <==> MetalLBEdits(env, old(obj.tree)).Ok?
    ensures ok ==> obj.tree == MetalLBEdits(env, old(obj.tree)).value
  {
    ok := true;
    if IsControllerDeployment(obj.tree) && env.isOpenshift {
      ok := SetSecurityContext(obj);
    }
    if ok && IsSpeakerDaemonSet(obj.tree) && env.isOpenshift {
      ok := SetRequiredSCCAnnotationForSpeaker(obj);
    }
    if ok && IsServiceMonitor(obj.tree) && env.isOpenshift {
      ok := SetOcpMonitorFields(obj);
    }
  }

  /** The body of the loop in MetalLBChart.Objects, with its two variables `obj` and `objs[i]`. */
  method MetalLBTurn(env: Env, codec: Codec, spec: Spec, obj: Unstructured) returns (entry: Result<Unstructured>)
    modifies obj
    ensures entry.Ok? <==> MetalLBEntry(env, codec, spec, old(obj.tree)).Ok?
    ensures entry.Ok? ==> entry.value == obj || fresh(entry.value)
    ensures entry.Ok? ==> entry.value.tree == MetalLBEntry(env, codec, spec, old(obj.tree)).value
    ensures entry.Ok? ==> MetalLBEdits(env, Placed(env, old(obj.tree))) == Ok(obj.tree)
    ensures entry.Ok? && KeepsIdentity(codec) ==>
      (entry.value == obj <==> !Overridden(spec, Placed(env, old(obj.tree))))
  {
    Place(env, obj);
    var c := OverrideControllerParameters(codec, spec, obj);
    if c.Err? {
      return Err;
    }
    var s := OverrideSpeakerParameters(codec, spec, c.value);
    if s.Err? {
      return Err;
    }
    var ok := EditMetalLBObject(env, obj);
    if !ok {
      return Err;
    }
    return s;
  }

  // ---- FRRK8SChart.Objects ----

  const InjectCABundle: map<string, string> := map["service.beta.openshift.io/inject-cabundle" := "true"]
  const ServingCert: map<string, string> :=
    map["service.beta.openshift.io/serving-cert-secret-name" := WebhookSecretName]

  /** The edits the FRR-K8s loop makes on OpenShift, through the variable it also returns. */
  function FRRK8SEdits(env: Env, m: Manifest): Result<Manifest> {
    if !env.isOpenshift then Ok(m)
    else
      var m1 :- if IsFRRK8SValidatingWebhook(m) then MergeAt(m, InjectCABundle, AnnotationsPath) else Ok(m);
      var m2 :- if IsFRRK8SWebhookService(m1) then MergeAt(m1, ServingCert, AnnotationsPath) else Ok(m1);
      var m3 :- if IsFRRK8SWebhookDeployment(m2) then SetField(m2, RunAsNonRoot, SecurityContextPath) else Ok(m2);
      if IsServiceMonitor(m3) then MonitorEdit(m3) else Ok(m3)
  }

  /** One turn of the loop; None for the webhook secret that OpenShift manages itself. */
  function FRRK8SEntry(env: Env, codec: Codec, spec: Spec, m: Manifest): Result<Option<Manifest>> {
    var placed := Placed(env, m);
    var current :-
      if IsFRRK8SDaemonset(placed) && spec.speakerConfig.Some?
      then Override(codec, spec.speakerConfig.value, "controller", placed) else Ok(placed);
    if IsFRRK8SWebhookSecret(current) && env.isOpenshift then Ok(None)
    else
      var edited :- FRRK8SEdits(env, current);
      Ok(Some(edited))
  }

  function Kept(entry: Option<Manifest>): seq<Manifest> {
    if entry.Some? then [entry.value] else []
  }

  function FRRK8SEntries(env: Env, codec: Codec, spec: Spec, rendered: seq<Manifest>): Result<seq<Manifest>> {
    if rendered == [] then Ok([])
    else
      var first :- FRRK8SEntry(env, codec, spec, rendered[0]);
      var rest :- FRRK8SEntries(env, codec, spec, rendered[1..]);
      Ok(Kept(first) + rest)
  }

  datatype FRRK8SChart = FRRK8SChart(render: (Env, Spec, Option<string>) -> Result<seq<Manifest>>, codec: Codec)
  {
    function Manifests(env: Env, spec: Spec): Result<seq<Manifest>> {
      var values :- FRRK8sValues(spec);
      var rendered :- render(env, spec, values);
      FRRK8SEntries(env, codec, spec, rendered)
    }

    method Objects(env: Env, spec: Spec) returns (r: Result<seq<Unstructured>>)
      ensures r.Ok? <==> Manifests(env, spec).Ok?
      ensures r.Ok? ==> Hold(r.value, Manifests(env, spec).value) && fresh(r.value)
    {
      var values := FRRK8sValues(spec);
      if values.Err? {
        return Err;
      }
      var rendered := render(env, spec, values.value);
      if rendered.Err? {
        return Err;
      }
      var objs := ParseManifest(rendered.value);
      r := RewriteFRRK8S(env, codec, spec, objs, rendered.value);
      assert r.Ok? ==> fresh(r.value);
    }
  }

  /** The loop over the rendered objects; each turn appends to `res` or skips. */
  method RewriteFRRK8S(env: Env, codec: Codec, spec: Spec, objs: seq<Unstructured>, ghost rendered: seq<Manifest>)
    returns (r: Result<seq<Unstructured>>)
    requires Hold(objs, rendered)
    modifies objs
    ensures r.Ok? <==> FRRK8SEntries(env, codec, spec, rendered).Ok?
    ensures r.Ok? ==> Hold(r.value, FRRK8SEntries(env, codec, spec, rendered).value)
    ensures r.Ok? ==> forall k :: 0 <= k < |r.value| ==> r.value[k] in objs || fresh(r.value[k])
  {
    hide FRRK8SEntry;
    var res: seq<Unstructured> := [];
    ghost var kept: seq<Manifest> := [];
    assert rendered[..0] == [];
    for i := 0 to |objs|
      invariant forall k :: 0 <= k < |res| ==> fresh(res[k]) || res[k] in objs
      invariant forall k, j :: i <= k < |objs| && 0 <= j < |res| ==> objs[k] != res[j]
      invariant forall k :: i <= k < |objs| ==> objs[k].tree == rendered[k]
      invariant Hold(res, kept)
      invariant FRRK8SEntries(env, codec, spec, rendered[..i]) == Ok(kept)
    {
      assert objs[i] in objs;
      FRRK8SEntriesStep(env, codec, spec, rendered, i);
      var entry := FRRK8STurn(env, codec, spec, objs[i]);
      if entry.Err? {
        return Err;
      }
      assert kept + [] == kept;
      if entry.value.Some? {
        forall k | i < k < |objs| ensures objs[k] != entry.value.value {
          assert objs[k] != objs[i] && objs[k] in objs;
        }
        res := res + [entry.value.value];
        kept := kept + [entry.value.value.tree];
      }
    }
    assert rendered[..|objs|] == rendered;
    return Ok(res);
  }

  /** One more turn of the loop appends the entry it keeps, and a failing turn fails the whole list. */
  lemma FRRK8SEntriesStep(env: Env, codec: Codec, spec: Spec, rendered: seq<Manifest>, i: nat)
    requires i < |rendered| && FRRK8SEntries(env, codec, spec, rendered[..i]).Ok?
    ensures FRRK8SEntry(env, codec, spec, rendered[i]).Err? ==> FRRK8SEntries(env, codec, spec, rendered).Err?
    ensures FRRK8SEntry(env, codec, spec, rendered[i]).Ok? ==>
      FRRK8SEntries(env, codec, spec, rendered[..i + 1])
      == Ok(FRRK8SEntries(env, codec, spec, rendered[..i]).value
            + Kept(FRRK8SEntry(env, codec, spec, rendered[i]).value))
  {
    hide FRRK8SEntry;
    assert rendered[..i + 1] == rendered[..i] + [rendered[i]];
    FRRK8SEntriesAppend(env, codec, spec, rendered[..i], [rendered[i]]);
    assert rendered == rendered[..i + 1] + rendered[i + 1..];
    FRRK8SEntriesAppend(env, codec, spec, rendered[..i + 1], rendered[i + 1..]);
    assert [rendered[i]][1..] == [];
    var entry := FRRK8SEntry(env, codec, spec, rendered[i]);
    assert entry.Ok? ==> Kept(entry.value) + [] == Kept(entry.value);
  }

  lemma {:induction false} FRRK8SEntriesAppend(env: Env, codec: Codec, spec: Spec, a: seq<Manifest>, b: seq<Manifest>)
    ensures
      var x, y := FRRK8SEntries(env, codec, spec, a), FRRK8SEntries(env, codec, spec, b);
      FRRK8SEntries(env, codec, spec, a + b) == if x.Ok? && y.Ok? then Ok(x.value + y.value) else Err
  {
    if a == [] {
      assert a + b == b;
      var y := FRRK8SEntries(env, codec, spec, b);
      assert y.Ok? ==> [] + y.value == y.value;
    } else {
      assert (a + b)[1..] == a[1..] + b;
      FRRK8SEntriesAppend(env, codec, spec, a[1..], b);
      var first := FRRK8SEntry(env, codec, spec, a[0]);
      var x, y := FRRK8SEntries(env, codec, spec, a[1..]), FRRK8SEntries(env, codec, spec, b);
      if first.Ok? && x.Ok? && y.Ok? {
        assert (Kept(first.value) + x.value) + y.value == Kept(first.value) + (x.value + y.value);
      }
    }
  }

  method EditFRRK8SObject(env: Env, obj: Unstructured) returns (ok: bool)
    modifies obj
    ensures ok <==> FRRK8SEdits(env, old(obj.tree)).Ok?
    ensures ok ==> obj.tree == FRRK8SEdits(env, old(obj.tree)).value
  {
    ok := true;
    if IsFRRK8SValidatingWebhook(obj.tree) && env.isOpenshift {
      ok := UpdateAnnotations(obj, InjectCABundle);
    }
    if ok && IsFRRK8SWebhookService(obj.tree) && env.isOpenshift {
      ok := UpdateAnnotations(obj, ServingCert);
    }
    if ok && IsFRRK8SWebhookDeployment(obj.tree) && env.isOpenshift {
      ok := SetSecurityContext(obj);
    }
    if ok && IsServiceMonitor(obj.tree) && env.isOpenshift {
      ok := SetOcpMonitorFields(obj);
    }
  }

  /** The body of the loop in FRRK8SChart.Objects, where one variable is replaced, edited and kept. */
  method FRRK8STurn(env: Env, codec: Codec, spec: Spec,
                    start: Unstructured) returns (entry: Result<Option<Unstructured>>)
    modifies start
    ensures entry.Ok? <==> FRRK8SEntry(env, codec, spec, old(start.tree)).Ok?
    ensures entry.Ok? ==> (entry.value.Some? <==> FRRK8SEntry(env, codec, spec, old(start.tree)).value.Some?)
    ensures entry.Ok? && entry.value.Some? ==>
      && (entry.value.value == start || fresh(entry.value.value))
      && entry.value.value.tree == FRRK8SEntry(env, codec, spec, old(start.tree)).value.value
      && (entry.value.value == start <==>
            !(IsFRRK8SDaemonset(Placed(env, old(start.tree))) && spec.speakerConfig.Some?))
  {
    var obj := start;
    Place(env, obj);
    if IsFRRK8SDaemonset(obj.tree) && spec.speakerConfig.Some? {
      var r := OverrideParameters(codec, spec.speakerConfig.value, "controller", obj);
      if r.Err? {
        return Err;
      }
      obj := r.value;
    }
    if IsFRRK8SWebhookSecret(obj.tree) && env.isOpenshift {
      return Ok(None);
    }
    var ok := EditFRRK8SObject(env, obj);
    if !ok {
      return Err;
    }
    return Ok(Some(obj));
  }
}
