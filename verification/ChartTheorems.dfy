/** What the two Objects loops return, and which edits reach the returned entries. */
module ChartTheorems {
  import opened Api
  import opened Charts
  import opened Editors
  import opened JsonTrees
  import opened Wrappers

  // ---- Identities ----

  lemma PathsApart(path: seq<string>)
    requires path == AnnotationsPath || (path != [] && path[0] == "spec")
    ensures Apart(Fields(path), Fields(["kind"]))
    ensures Apart(Fields(path), Fields(["metadata", "name"]))
    ensures Apart(Fields(path), Fields(["metadata", "namespace"]))
  {
  }

  lemma WriteKeepsIdentity(m: Manifest, v: Json, path: seq<string>)
    requires path == AnnotationsPath || (path != [] && path[0] == "spec")
    requires SetField(m, v, path).Ok?
    ensures SameIdentity(SetField(m, v, path).value, m)
  {
    PathsApart(path);
    SetFieldKeepsNested(m, v, path, ["kind"]);
    SetFieldKeepsNested(m, v, path, ["metadata", "name"]);
    SetFieldKeepsNested(m, v, path, ["metadata", "namespace"]);
  }

  lemma MergeKeepsIdentity(m: Manifest, annotations: map<string, string>, path: seq<string>)
    requires path == AnnotationsPath || (path != [] && path[0] == "spec")
    requires MergeAt(m, annotations, path).Ok?
    ensures SameIdentity(MergeAt(m, annotations, path).value, m)
  {
  }

  lemma MonitorKeepsIdentity(m: Manifest)
    requires MonitorEdit(m).Ok?
    ensures SameIdentity(MonitorEdit(m).value, m)
  {
  }

  /** Setting the namespace keeps kind and name, and takes effect on every object that has a name. */
  lemma PlacedIdentity(env: Env, m: Manifest)
    ensures Kind(Placed(env, m)) == Kind(m) && Name(Placed(env, m)) == Name(m)
    ensures Kind(m) != "PodSecurityPolicy" && Name(m) != "" ==> Namespace(Placed(env, m)) == env.namespace
    ensures Kind(m) == "PodSecurityPolicy" ==> Placed(env, m) == m
  {
  }

  lemma MetalLBEditsKeepIdentity(env: Env, m: Manifest)
    requires MetalLBEdits(env, m).Ok?
    ensures SameIdentity(MetalLBEdits(env, m).value, m)
  {
    hide MergeAt;
    hide MonitorEdit;
    if env.isOpenshift {
      if IsControllerDeployment(m) {
        WriteKeepsIdentity(m, RunAsNonRoot, SecurityContextPath);
      } else if IsSpeakerDaemonSet(m) {
        MergeKeepsIdentity(m, SpeakerSCCAnnotation, PodAnnotationsPath);
      } else if IsServiceMonitor(m) {
        MonitorKeepsIdentity(m);
      }
    }
  }

  lemma FRRK8SEditsKeepIdentity(env: Env, m: Manifest)
    requires FRRK8SEdits(env, m).Ok?
    ensures SameIdentity(FRRK8SEdits(env, m).value, m)
  {
    hide MergeAt;
    hide MonitorEdit;
    if env.isOpenshift {
      if IsFRRK8SValidatingWebhook(m) {
        MergeKeepsIdentity(m, InjectCABundle, AnnotationsPath);
      } else if IsFRRK8SWebhookService(m) {
        MergeKeepsIdentity(m, ServingCert, AnnotationsPath);
      } else if IsFRRK8SWebhookDeployment(m) {
        WriteKeepsIdentity(m, RunAsNonRoot, SecurityContextPath);
      } else if IsServiceMonitor(m) {
        MonitorKeepsIdentity(m);
      }
    }
  }

  lemma OverrideKeepsIdentity(codec: Codec, config: Config, name: string, m: Manifest)
    requires KeepsIdentity(codec) && Override(codec, config, name, m).Ok?
    ensures SameIdentity(Override(codec, config, name, m).value, m)
  {
  }

  /** Every rendered MetalLB object is returned under its own kind and name, in the operator's namespace. */
  lemma MetalLBEntryIdentity(env: Env, codec: Codec, spec: Spec, m: Manifest)
    requires KeepsIdentity(codec) && MetalLBEntry(env, codec, spec, m).Ok?
    ensures SameIdentity(MetalLBEntry(env, codec, spec, m).value, Placed(env, m))
  {
    var placed := Placed(env, m);
    if spec.controllerConfig.Some? && IsControllerDeployment(placed) {
      OverrideKeepsIdentity(codec, spec.controllerConfig.value, "controller", placed);
    }
    if spec.speakerConfig.Some? && IsSpeakerDaemonSet(placed) {
      OverrideKeepsIdentity(codec, spec.speakerConfig.value, "speaker", placed);
    }
    MetalLBEditsKeepIdentity(env, placed);
  }

  lemma {:induction false} MetalLBEntriesAt(env: Env, codec: Codec, spec: Spec, rendered: seq<Manifest>, i: nat)
    requires MetalLBEntries(env, codec, spec, rendered).Ok? && i < |rendered|
    ensures MetalLBEntry(env, codec, spec, rendered[i]) == Ok(MetalLBEntries(env, codec, spec, rendered).value[i])
  {
    hide MetalLBEntry;
    if i > 0 {
      MetalLBEntriesAt(env, codec, spec, rendered[1..], i - 1);
    }
  }

  lemma SpeakerSCCNames()
    ensures Kind(SpeakerSCC) == "SecurityContextConstraints" && Name(SpeakerSCC) == "metallb-speaker"
    ensures Namespace(SpeakerSCC) == ""
  {
  }

  /**
   The list returned by MetalLBChart.Objects: the rendered objects in their order, each with its kind
   and name and in the operator's namespace (a PodSecurityPolicy keeps its own), followed by the SCC on
   OpenShift and by nothing elsewhere.
   */
  lemma MetalLBObjectsShape(chart: MetalLBChart, env: Env, spec: Spec)
    requires KeepsIdentity(chart.codec) && chart.Manifests(env, spec).Ok?
    ensures chart.render(env, spec, ChartValues(env, spec)).Ok?
    ensures
      var rendered := chart.render(env, spec, ChartValues(env, spec)).value;
      var objs := chart.Manifests(env, spec).value;
      && |objs| == |rendered| + (if env.isOpenshift then 1 else 0)
      && (env.isOpenshift ==>
            && objs[|rendered|] == SpeakerSCC && Namespace(SpeakerSCC) == ""
            && Kind(SpeakerSCC) == "SecurityContextConstraints" && Name(SpeakerSCC) == "metallb-speaker")
      && forall i :: 0 <= i < |rendered| ==>
           && Kind(objs[i]) == Kind(rendered[i]) && Name(objs[i]) == Name(rendered[i])
           && (Kind(rendered[i]) != "PodSecurityPolicy" && Name(rendered[i]) != "" ==>
                Namespace(objs[i]) == env.namespace)
           && (Kind(rendered[i]) == "PodSecurityPolicy" ==> Namespace(objs[i]) == Namespace(rendered[i]))
  {
    var rendered := chart.render(env, spec, ChartValues(env, spec)).value;
    var objs := chart.Manifests(env, spec).value;
    SpeakerSCCNames();
    forall i | 0 <= i < |rendered|
      ensures SameIdentity(objs[i], Placed(env, rendered[i]))
      ensures Kind(Placed(env, rendered[i])) == Kind(rendered[i]) && Name(Placed(env, rendered[i])) == Name(rendered[i])
      ensures Kind(rendered[i]) != "PodSecurityPolicy" && Name(rendered[i]) != "" ==>
        Namespace(Placed(env, rendered[i])) == env.namespace
      ensures Kind(rendered[i]) == "PodSecurityPolicy" ==> Placed(env, rendered[i]) == rendered[i]
    {
      MetalLBEntriesAt(env, chart.codec, spec, rendered, i);
      MetalLBEntryIdentity(env, chart.codec, spec, rendered[i]);
      PlacedIdentity(env, rendered[i]);
    }
  }

  // ---- Aliasing ----

  /**
   Which edits reach the entry the MetalLB loop returns. The OpenShift edits go through `obj`, so they
   reach it exactly when no override replaced `objs[i]`; otherwise the entry is the override's result,
   as if the edit had never been made.
   */
  lemma MetalLBEntryAliasing(env: Env, codec: Codec, spec: Spec, m: Manifest)
    requires KeepsIdentity(codec) && MetalLBEntry(env, codec, spec, m).Ok?
    ensures
      var placed := Placed(env, m);
      var entry := MetalLBEntry(env, codec, spec, m).value;
      && MetalLBEdits(env, placed).Ok?
      && entry ==
         if IsControllerDeployment(placed) && spec.controllerConfig.Some?
         then Override(codec, spec.controllerConfig.value, "controller", placed).value
         else if IsSpeakerDaemonSet(placed) && spec.speakerConfig.Some?
         then Override(codec, spec.speakerConfig.value, "speaker", placed).value
         else MetalLBEdits(env, placed).value
    ensures IsServiceMonitor(m) && env.isOpenshift ==>
      MonitorEdit(Placed(env, m)) == MetalLBEntry(env, codec, spec, m)
  {
    PlacedIdentity(env, m);
    hide Placed;
    hide MergeAt;
    hide MonitorEdit;
    hide SetField;
  }

  function PodAnnotation(m: Manifest, key: string): Option<string> {
    var annotations := NestedStringMap(m, PodAnnotationsPath);
    if annotations.Found? && key in annotations.value then Some(annotations.value[key]) else None
  }

  /**
   The typed conversion keeps every annotation of the pod template, where these are strings. It may drop
   or add an empty map.
   */
  ghost predicate KeepsPodAnnotations(codec: Codec) {
    forall m: Manifest, w: Workload {:trigger codec.decode(m), codec.encode(w)} ::
      && codec.decode(m).Ok? && w.rest == codec.decode(m).value.rest && codec.encode(w).Ok?
      && !NestedStringMap(m, PodAnnotationsPath).WrongType?
      ==> forall key :: PodAnnotation(codec.encode(w).value, key) == PodAnnotation(m, key)
  }

  /**
   The typed conversion keeps the security context of this tree, as it does when no field there is null,
   empty or unknown to the type.
   */
  ghost predicate KeepsSecurityContext(codec: Codec, m: Manifest) {
    forall w: Workload {:trigger codec.encode(w)} ::
      codec.decode(m).Ok? && w.rest == codec.decode(m).value.rest && codec.encode(w).Ok?
      ==> NestedField(Obj(codec.encode(w).value), SecurityContextPath) == NestedField(Obj(m), SecurityContextPath)
  }

  predicate RequiresSpeakerSCC(m: Manifest) {
    PodAnnotation(m, RequiredSCC) == Some(SpeakerSCCName)
  }

  lemma PlacedKeeps(env: Env, m: Manifest, q: seq<string>)
    requires q != [] && q[0] == "spec"
    ensures NestedField(Obj(Placed(env, m)), q) == NestedField(Obj(m), q)
  {
  }

  /**
   On OpenShift the speaker is returned with the required-scc annotation exactly when the resource has
   no SpeakerConfig, or the chart had rendered the annotation already.
   */
  lemma SpeakerAnnotationReaches(env: Env, codec: Codec, spec: Spec, m: Manifest)
    requires KeepsIdentity(codec) && KeepsPodAnnotations(codec)
    requires env.isOpenshift && IsSpeakerDaemonSet(m) && MetalLBEntry(env, codec, spec, m).Ok?
    ensures RequiresSpeakerSCC(MetalLBEntry(env, codec, spec, m).value)
      <==> spec.speakerConfig.None? || RequiresSpeakerSCC(m)
  {
    var placed := Placed(env, m);
    PlacedIdentity(env, m);
    PlacedKeeps(env, m, PodAnnotationsPath);
    SpeakerEntry(env, codec, spec, m);
    hide MetalLBEntry;
    if spec.speakerConfig.Some? {
      OverrideKeepsPodAnnotation(codec, spec.speakerConfig.value, "speaker", placed, RequiredSCC);
    } else {
      MergedRequiresSpeakerSCC(placed);
    }
  }

  lemma SpeakerEntry(env: Env, codec: Codec, spec: Spec, m: Manifest)
    requires KeepsIdentity(codec) && env.isOpenshift && IsSpeakerDaemonSet(m) && MetalLBEntry(env, codec, spec, m).Ok?
    ensures MetalLBEntry(env, codec, spec, m)
      == if spec.speakerConfig.Some? then Override(codec, spec.speakerConfig.value, "speaker", Placed(env, m))
         else MergeAt(Placed(env, m), SpeakerSCCAnnotation, PodAnnotationsPath)
    ensures !NestedStringMap(Placed(env, m), PodAnnotationsPath).WrongType?
  {
    PlacedIdentity(env, m);
    MetalLBEntryAliasing(env, codec, spec, m);
    if spec.speakerConfig.None? {
      MergeKeepsIdentity(Placed(env, m), SpeakerSCCAnnotation, PodAnnotationsPath);
    }
  }

  lemma OverrideKeepsPodAnnotation(codec: Codec, config: Config, name: string, m: Manifest, key: string)
    requires KeepsPodAnnotations(codec) && Override(codec, config, name, m).Ok?
    requires !NestedStringMap(m, PodAnnotationsPath).WrongType?
    ensures PodAnnotation(Override(codec, config, name, m).value, key) == PodAnnotation(m, key)
  {
    hide PodAnnotation;
  }

  lemma MergedRequiresSpeakerSCC(m: Manifest)
    requires MergeAt(m, SpeakerSCCAnnotation, PodAnnotationsPath).Ok?
    ensures RequiresSpeakerSCC(MergeAt(m, SpeakerSCCAnnotation, PodAnnotationsPath).value)
  {
    MergeAtMeaning(m, SpeakerSCCAnnotation, PodAnnotationsPath, []);
    assert RequiredSCC in SpeakerSCCAnnotation;
  }

  /**
   On OpenShift the controller is returned with exactly the security context the loop sets when the
   resource has no ControllerConfig, and otherwise with the one the chart rendered, as far as the typed
   conversion keeps that.
   */
  lemma ControllerSecurityContextReaches(env: Env, codec: Codec, spec: Spec, m: Manifest)
    requires KeepsIdentity(codec)
    requires env.isOpenshift && IsControllerDeployment(m) && MetalLBEntry(env, codec, spec, m).Ok?
    ensures spec.controllerConfig.None? ==>
      NestedField(Obj(MetalLBEntry(env, codec, spec, m).value), SecurityContextPath) == Found.Found(RunAsNonRoot)
    ensures spec.controllerConfig.Some? && KeepsSecurityContext(codec, Placed(env, m)) ==>
      NestedField(Obj(MetalLBEntry(env, codec, spec, m).value), SecurityContextPath)
      == NestedField(Obj(m), SecurityContextPath)
  {
    var placed := Placed(env, m);
    PlacedIdentity(env, m);
    PlacedKeeps(env, m, SecurityContextPath);
    ControllerEntry(env, codec, spec, m);
    hide MetalLBEntry;
    hide Placed;
    hide IsControllerDeployment;
    if spec.controllerConfig.Some? {
      var w := codec.decode(placed).value;
      assert codec.encode(Patched(w, spec.controllerConfig.value, "controller")).Ok?;
    } else {
      SetFieldThenNested(placed, RunAsNonRoot, SecurityContextPath);
    }
  }

  lemma ControllerEntry(env: Env, codec: Codec, spec: Spec, m: Manifest)
    requires KeepsIdentity(codec) && env.isOpenshift && IsControllerDeployment(m)
    requires MetalLBEntry(env, codec, spec, m).Ok?
    ensures MetalLBEntry(env, codec, spec, m)
      == if spec.controllerConfig.Some? then Override(codec, spec.controllerConfig.value, "controller", Placed(env, m))
         else SetField(Placed(env, m), RunAsNonRoot, SecurityContextPath)
  {
    PlacedIdentity(env, m);
    MetalLBEntryAliasing(env, codec, spec, m);
    if spec.controllerConfig.None? {
      WriteKeepsIdentity(Placed(env, m), RunAsNonRoot, SecurityContextPath);
    }
    hide Placed;
    hide SetField;
  }

  // ---- FRRK8SChart.Objects ----

  /** The annotations are the old ones overridden by the given ones. */
  predicate Annotated(before: Manifest, after: Manifest, annotations: map<string, string>) {
    var was := NestedStringMap(before, AnnotationsPath);
    NestedStringMap(after, AnnotationsPath) == Found.Found((if was.Found? then was.value else map[]) + annotations)
  }

  /** What a turn of the FRR-K8s loop keeps, skips and rewrites. */
  lemma FRRK8SEntryMeaning(env: Env, codec: Codec, spec: Spec, m: Manifest)
    requires KeepsIdentity(codec) && FRRK8SEntry(env, codec, spec, m).Ok?
    ensures
      var entry := FRRK8SEntry(env, codec, spec, m).value;
      && (entry.None? <==> env.isOpenshift && IsFRRK8SWebhookSecret(m))
      && (entry.Some? ==> SameIdentity(entry.value, Placed(env, m)))
      && (entry.Some? && env.isOpenshift && IsServiceMonitor(m) ==> Ok(entry.value) == MonitorEdit(Placed(env, m)))
      && (entry.Some? && env.isOpenshift && IsFRRK8SWebhookDeployment(m) ==>
            NestedField(Obj(entry.value), SecurityContextPath) == Found.Found(RunAsNonRoot))
      && (entry.Some? && env.isOpenshift && IsFRRK8SValidatingWebhook(m) ==>
            Annotated(Placed(env, m), entry.value, InjectCABundle))
      && (entry.Some? && env.isOpenshift && IsFRRK8SWebhookService(m) ==>
            Annotated(Placed(env, m), entry.value, ServingCert))
  {
    var placed := Placed(env, m);
    PlacedIdentity(env, m);
    var current := placed;
    if IsFRRK8SDaemonset(placed) && spec.speakerConfig.Some? {
      OverrideKeepsIdentity(codec, spec.speakerConfig.value, "controller", placed);
      current := Override(codec, spec.speakerConfig.value, "controller", placed).value;
    }
    if FRRK8SEntry(env, codec, spec, m).value.Some? {
      FRRK8SEditsKeepIdentity(env, current);
      if env.isOpenshift {
        FRRK8SEditsByKind(env, current);
      }
      hide FRRK8SEdits;
    }
  }

  lemma FRRK8SEditsByKind(env: Env, m: Manifest)
    requires env.isOpenshift && FRRK8SEdits(env, m).Ok?
    ensures IsServiceMonitor(m) ==> FRRK8SEdits(env, m) == MonitorEdit(m)
    ensures IsFRRK8SWebhookDeployment(m) ==>
      NestedField(Obj(FRRK8SEdits(env, m).value), SecurityContextPath) == Found.Found(RunAsNonRoot)
    ensures IsFRRK8SValidatingWebhook(m) ==> Annotated(m, FRRK8SEdits(env, m).value, InjectCABundle)
    ensures IsFRRK8SWebhookService(m) ==> Annotated(m, FRRK8SEdits(env, m).value, ServingCert)
  {
    hide MergeAt;
    hide MonitorEdit;
    if IsFRRK8SValidatingWebhook(m) {
      MergeAtMeaning(m, InjectCABundle, AnnotationsPath, []);
      MergeKeepsIdentity(m, InjectCABundle, AnnotationsPath);
    }
    if IsFRRK8SWebhookService(m) {
      MergeAtMeaning(m, ServingCert, AnnotationsPath, []);
      MergeKeepsIdentity(m, ServingCert, AnnotationsPath);
    }
    if IsFRRK8SWebhookDeployment(m) {
      SetFieldThenNested(m, RunAsNonRoot, SecurityContextPath);
      WriteKeepsIdentity(m, RunAsNonRoot, SecurityContextPath);
    }
    hide SetField;
  }
}
