/** What the overrides and the edits of the two Objects loops change in an object, and what they keep. */
module ChartEdits {
  import opened Api
  import opened ChartTheorems
  import opened Charts
  import opened Editors
  import opened JsonTrees
  import opened Wrappers

  // ---- Overrides ----

  /**
   The configured workload: the same but for the affinity, where one is given, and the resources of the
   containers of this name, where they are given.
   */
  predicate Configured(was: Workload, now: Workload, config: Config, name: string) {
    && now.rest == was.rest
    && now.affinity == (if config.affinity.Some? then Some(config.affinity.value.body) else was.affinity)
    && |now.containers| == |was.containers|
    && forall i :: 0 <= i < |was.containers| ==>
         var before, after := was.containers[i], now.containers[i];
         if before.name == name && config.resources.Some?
         then after.name == before.name && after.rest == before.rest && after.resources == config.resources.value
         else after == before
  }

  /** `r` is the conversion back of this object, configured. */
  ghost predicate ConfiguredFrom(codec: Codec, m: Manifest, config: Config, name: string, r: Result<Manifest>) {
    codec.decode(m).Ok? && exists w :: r == codec.encode(w) && Configured(codec.decode(m).value, w, config, name)
  }

  /** An override decodes, configures and encodes; it fails exactly when one of the conversions does. */
  lemma OverrideMeaning(codec: Codec, config: Config, name: string, m: Manifest)
    ensures codec.decode(m).Ok? ==> ConfiguredFrom(codec, m, config, name, Override(codec, config, name, m))
    ensures codec.decode(m).Err? ==> Override(codec, config, name, m).Err?
  {
    if codec.decode(m).Ok? {
      var w := Patched(codec.decode(m).value, config, name);
      assert Configured(codec.decode(m).value, w, config, name);
    }
  }

  /** Deployment controller has its container "controller" configured from the ControllerConfig. */
  lemma ControllerConfigured(env: Env, codec: Codec, spec: Spec, m: Manifest)
    requires KeepsIdentity(codec) && Kind(m) == "Deployment" && Name(m) == "controller" && spec.controllerConfig.Some?
    requires MetalLBEntry(env, codec, spec, m).Ok?
    ensures ConfiguredFrom(codec, Placed(env, m), spec.controllerConfig.value, "controller",
                           MetalLBEntry(env, codec, spec, m))
  {
    PlacedIdentity(env, m);
    MetalLBEntryAliasing(env, codec, spec, m);
    OverrideMeaning(codec, spec.controllerConfig.value, "controller", Placed(env, m));
    hide Placed;
    hide ConfiguredFrom;
    hide MetalLBEdits;
    hide KeepsIdentity;
  }

  /** DaemonSet speaker has its container "speaker" configured from the SpeakerConfig. */
  lemma SpeakerConfigured(env: Env, codec: Codec, spec: Spec, m: Manifest)
    requires KeepsIdentity(codec) && Kind(m) == "DaemonSet" && Name(m) == "speaker" && spec.speakerConfig.Some?
    requires MetalLBEntry(env, codec, spec, m).Ok?
    ensures ConfiguredFrom(codec, Placed(env, m), spec.speakerConfig.value, "speaker",
                           MetalLBEntry(env, codec, spec, m))
  {
    PlacedIdentity(env, m);
    MetalLBEntryAliasing(env, codec, spec, m);
    OverrideMeaning(codec, spec.speakerConfig.value, "speaker", Placed(env, m));
    hide Placed;
    hide ConfiguredFrom;
    hide MetalLBEdits;
    hide KeepsIdentity;
  }

  /** DaemonSet frr-k8s has its container "controller" configured from the SpeakerConfig, and is not edited further. */
  lemma FRRK8SConfigured(env: Env, codec: Codec, spec: Spec, m: Manifest)
    requires KeepsIdentity(codec) && Kind(m) == "DaemonSet" && Name(m) == "frr-k8s" && spec.speakerConfig.Some?
    requires FRRK8SEntry(env, codec, spec, m).Ok?
    ensures FRRK8SEntry(env, codec, spec, m).value.Some?
    ensures ConfiguredFrom(codec, Placed(env, m), spec.speakerConfig.value, "controller",
                           Ok(FRRK8SEntry(env, codec, spec, m).value.value))
  {
    PlacedIdentity(env, m);
    OverrideMeaning(codec, spec.speakerConfig.value, "controller", Placed(env, m));
    var over := Override(codec, spec.speakerConfig.value, "controller", Placed(env, m));
    assert over.Ok?;
    OverrideKeepsIdentity(codec, spec.speakerConfig.value, "controller", Placed(env, m));
    hide Placed;
    hide ConfiguredFrom;
    hide Override;
    hide KeepsIdentity;
  }

  // ---- Frames ----

  const NamespacePlace := [Field("metadata"), Field("namespace")]
  const AnnotationsPlace := [Field("metadata"), Field("annotations")]
  const PodAnnotationsPlace := [Field("spec"), Field("template"), Field("metadata"), Field("annotations")]
  const SecurityContextPlace := [Field("spec"), Field("template"), Field("spec"), Field("securityContext")]

  /** The places the constants of the model name. */
  lemma Places()
    ensures Fields(["metadata", "namespace"]) == NamespacePlace
    ensures Fields(AnnotationsPath) == AnnotationsPlace
    ensures Fields(PodAnnotationsPath) == PodAnnotationsPlace
    ensures Fields(SecurityContextPath) == SecurityContextPlace
  {
  }

  lemma {:induction false} RemoveFieldApart(m: Manifest, path: seq<string>, q: seq<PathStep>)
    requires path != [] && Apart(Fields(path), q)
    ensures At(Obj(RemoveField(m, path)), q) == At(Obj(m), q)
    decreases |path|
  {
    if q[0] == Field(path[0]) {
      PrefixTail(Fields(path), q);
      PrefixTail(q, Fields(path));
      assert Fields(path)[1..] == Fields(path[1..]);
      if |path| > 1 && path[0] in m && m[path[0]].Obj? {
        RemoveFieldApart(m[path[0]].fields, path[1..], q[1..]);
      }
    }
  }

  /** Placing an object in the operator's namespace changes its namespace only. */
  lemma PlacedFrame(env: Env, m: Manifest, q: seq<PathStep>)
    requires Apart(NamespacePlace, q)
    ensures At(Obj(Placed(env, m)), q) == At(Obj(m), q)
  {
    Places();
    var path := ["metadata", "namespace"];
    RemoveFieldApart(m, path, q);
    if SetField(m, Str(env.namespace), path).Ok? {
      SetFieldAt(m, Str(env.namespace), path, q);
    }
    hide SetField;
    hide RemoveField;
    hide Apart;
    hide At;
  }

  /** Where the MetalLB loop may change an object no override replaces. */
  predicate MetalLBTouches(env: Env, m: Manifest, q: seq<PathStep>) {
    || !Apart(NamespacePlace, q)
    || (env.isOpenshift && Kind(m) == "Deployment" && Name(m) == "controller" && !Apart(SecurityContextPlace, q))
    || (env.isOpenshift && Kind(m) == "DaemonSet" && Name(m) == "speaker" && !Apart(PodAnnotationsPlace, q))
    || (env.isOpenshift && Kind(m) == "ServiceMonitor" && TouchesMonitor(q))
  }

  /** The object is one that an override replaces. */
  predicate IsOverridden(spec: Spec, m: Manifest) {
    || (Kind(m) == "Deployment" && Name(m) == "controller" && spec.controllerConfig.Some?)
    || (Kind(m) == "DaemonSet" && Name(m) == "speaker" && spec.speakerConfig.Some?)
  }

  lemma MetalLBEditsFrame(env: Env, m: Manifest, q: seq<PathStep>)
    requires MetalLBEdits(env, m).Ok? && !MetalLBTouches(env, m, q)
    ensures At(Obj(MetalLBEdits(env, m).value), q) == At(Obj(m), q)
  {
    Places();
    hide At;
    hide Apart;
    hide Kind;
    hide Name;
    hide MergeAt;
    hide MonitorEdit;
    if env.isOpenshift {
      if IsControllerDeployment(m) {
        WriteKeepsIdentity(m, RunAsNonRoot, SecurityContextPath);
        SetFieldAt(m, RunAsNonRoot, SecurityContextPath, q);
      } else if IsSpeakerDaemonSet(m) {
        MergeKeepsIdentity(m, SpeakerSCCAnnotation, PodAnnotationsPath);
        MergeAtMeaning(m, SpeakerSCCAnnotation, PodAnnotationsPath, q);
      } else if IsServiceMonitor(m) {
        MonitorEditFrame(m, q);
      }
    }
    hide SetField;
    hide TouchesMonitor;
  }

  /** An entry no override replaced is the rendered object everywhere the loop does not touch. */
  lemma MetalLBEntryFrame(env: Env, codec: Codec, spec: Spec, m: Manifest, q: seq<PathStep>)
    requires KeepsIdentity(codec) && MetalLBEntry(env, codec, spec, m).Ok?
    requires !IsOverridden(spec, m) && !MetalLBTouches(env, m, q)
    ensures At(Obj(MetalLBEntry(env, codec, spec, m).value), q) == At(Obj(m), q)
  {
    PlacedIdentity(env, m);
    MetalLBEntryAliasing(env, codec, spec, m);
    PlacedFrame(env, m, q);
    hide Placed;
    hide MetalLBEntry;
    hide KeepsIdentity;
    hide At;
    hide Apart;
    hide Kind;
    hide Name;
    hide TouchesMonitor;
    MetalLBEditsFrame(env, Placed(env, m), q);
  }

  /** Off OpenShift, setting the namespace is all either loop does to an object no override replaces. */
  lemma OffOpenshiftOnlyPlaced(env: Env, codec: Codec, spec: Spec, m: Manifest)
    requires !env.isOpenshift
    ensures !IsOverridden(spec, m) ==> MetalLBEntry(env, codec, spec, m) == Ok(Placed(env, m))
    ensures !(Kind(m) == "DaemonSet" && Name(m) == "frr-k8s" && spec.speakerConfig.Some?) ==>
      FRRK8SEntry(env, codec, spec, m) == Ok(Some(Placed(env, m)))
  {
    PlacedIdentity(env, m);
    hide Placed;
    hide Override;
    hide Kind;
    hide Name;
  }

  /** A turn of the MetalLB loop fails exactly when an override or an edit does. */
  lemma MetalLBEntrySucceeds(env: Env, codec: Codec, spec: Spec, m: Manifest)
    requires KeepsIdentity(codec)
    ensures
      var placed := Placed(env, m);
      MetalLBEntry(env, codec, spec, m).Ok? <==>
        && MetalLBEdits(env, placed).Ok?
        && (IsControllerDeployment(placed) && spec.controllerConfig.Some? ==>
              Override(codec, spec.controllerConfig.value, "controller", placed).Ok?)
        && (IsSpeakerDaemonSet(placed) && spec.speakerConfig.Some? ==>
              Override(codec, spec.speakerConfig.value, "speaker", placed).Ok?)
  {
    var placed := Placed(env, m);
    if IsControllerDeployment(placed) && spec.controllerConfig.Some? {
      if Override(codec, spec.controllerConfig.value, "controller", placed).Ok? {
        OverrideKeepsIdentity(codec, spec.controllerConfig.value, "controller", placed);
      }
    }
    hide Placed;
    hide Override;
    hide MetalLBEdits;
    hide KeepsIdentity;
  }

  /** On OpenShift, what each edit of the MetalLB loop leaves in the object returned. */
  lemma MetalLBEditsAt(env: Env, codec: Codec, spec: Spec, m: Manifest)
    requires KeepsIdentity(codec) && MetalLBEntry(env, codec, spec, m).Ok? && env.isOpenshift && !IsOverridden(spec, m)
    ensures
      var entry := Obj(MetalLBEntry(env, codec, spec, m).value);
      && (Kind(m) == "Deployment" && Name(m) == "controller" ==>
            At(entry, SecurityContextPlace) == Some(Obj(map["runAsNonRoot" := Bool(true)])))
      && (Kind(m) == "DaemonSet" && Name(m) == "speaker" ==>
            At(entry, PodAnnotationsPlace + [Field("openshift.io/required-scc")]) == Some(Str("metallb-speaker")))
  {
    var placed := Placed(env, m);
    Places();
    PlacedIdentity(env, m);
    MetalLBEntryAliasing(env, codec, spec, m);
    hide Placed;
    hide KeepsIdentity;
    hide At;
    hide Kind;
    hide Name;
    if IsControllerDeployment(m) {
      ControllerEntry(env, codec, spec, m);
      SetFieldAt(placed, RunAsNonRoot, SecurityContextPath, SecurityContextPlace);
      AtHere(RunAsNonRoot);
    } else if IsSpeakerDaemonSet(m) {
      SpeakerEntry(env, codec, spec, m);
      AnnotatedAt(placed, SpeakerSCCAnnotation, PodAnnotationsPath, "openshift.io/required-scc");
    }
    hide MetalLBEntry;
  }

  lemma AtHere(v: Json)
    ensures At(v, []) == Some(v)
  {
  }

  /** A merged annotation is found below the annotations. */
  lemma AnnotatedAt(m: Manifest, annotations: map<string, string>, path: seq<string>, key: string)
    requires path != [] && MergeAt(m, annotations, path).Ok? && key in annotations
    ensures At(Obj(MergeAt(m, annotations, path).value), Fields(path) + [Field(key)]) == Some(Str(annotations[key]))
  {
    var was := NestedStringMap(m, path);
    var merged := if was.Found? then was.value + annotations else annotations;
    SetFieldBelow(m, Obj(FromStrings(merged)), path, [Field(key)]);
    assert [Field(key)][1..] == [];
  }

  /** Where the FRR-K8s loop may change an object no override replaces. */
  predicate FRRK8STouches(env: Env, m: Manifest, q: seq<PathStep>) {
    || !Apart(NamespacePlace, q)
    || (env.isOpenshift && !Apart(AnnotationsPlace, q)
        && ((Kind(m) == "ValidatingWebhookConfiguration" && Name(m) == "frr-k8s-validating-webhook-configuration")
            || (Kind(m) == "Service" && Name(m) == "frr-k8s-webhook-service")))
    || (env.isOpenshift && Kind(m) == "Deployment" && Name(m) == "statuscleaner" && !Apart(SecurityContextPlace, q))
    || (env.isOpenshift && Kind(m) == "ServiceMonitor" && TouchesMonitor(q))
  }

  lemma FRRK8SEditsFrame(env: Env, m: Manifest, q: seq<PathStep>)
    requires FRRK8SEdits(env, m).Ok? && !FRRK8STouches(env, m, q)
    ensures At(Obj(FRRK8SEdits(env, m).value), q) == At(Obj(m), q)
  {
    hide At;
    hide Apart;
    hide Kind;
    hide Name;
    hide MergeAt;
    hide MonitorEdit;
    hide TouchesMonitor;
    if env.isOpenshift {
      if IsFRRK8SValidatingWebhook(m) {
        MergedFrame(m, InjectCABundle, q);
      } else if IsFRRK8SWebhookService(m) {
        MergedFrame(m, ServingCert, q);
      } else if IsFRRK8SWebhookDeployment(m) {
        SecuredFrame(m, q);
      } else if IsServiceMonitor(m) {
        MonitorEditFrame(m, q);
      }
    }
    hide SetField;
  }

  lemma MergedFrame(m: Manifest, annotations: map<string, string>, q: seq<PathStep>)
    requires MergeAt(m, annotations, AnnotationsPath).Ok?
    ensures SameIdentity(MergeAt(m, annotations, AnnotationsPath).value, m)
    ensures Apart(AnnotationsPlace, q) ==> At(Obj(MergeAt(m, annotations, AnnotationsPath).value), q) == At(Obj(m), q)
  {
    Places();
    MergeKeepsIdentity(m, annotations, AnnotationsPath);
    MergeAtMeaning(m, annotations, AnnotationsPath, q);
    hide MergeAt;
    hide At;
    hide Apart;
  }

  lemma SecuredFrame(m: Manifest, q: seq<PathStep>)
    requires SetField(m, RunAsNonRoot, SecurityContextPath).Ok?
    ensures SameIdentity(SetField(m, RunAsNonRoot, SecurityContextPath).value, m)
    ensures Apart(SecurityContextPlace, q) ==>
      At(Obj(SetField(m, RunAsNonRoot, SecurityContextPath).value), q) == At(Obj(m), q)
  {
    Places();
    WriteKeepsIdentity(m, RunAsNonRoot, SecurityContextPath);
    SetFieldAt(m, RunAsNonRoot, SecurityContextPath, q);
    hide SetField;
    hide At;
    hide Apart;
  }

  /** The same of the FRR-K8s loop: what it returns is the rendered object everywhere it does not touch. */
  lemma FRRK8SEntryFrame(env: Env, codec: Codec, spec: Spec, m: Manifest, q: seq<PathStep>)
    requires FRRK8SEntry(env, codec, spec, m).Ok? && FRRK8SEntry(env, codec, spec, m).value.Some?
    requires !(Kind(m) == "DaemonSet" && Name(m) == "frr-k8s" && spec.speakerConfig.Some?) && !FRRK8STouches(env, m, q)
    ensures At(Obj(FRRK8SEntry(env, codec, spec, m).value.value), q) == At(Obj(m), q)
  {
    PlacedIdentity(env, m);
    PlacedFrame(env, m, q);
    hide Placed;
    hide At;
    hide Apart;
    hide Kind;
    hide Name;
    hide TouchesMonitor;
    hide FRRK8SEdits;
    FRRK8SEditsFrame(env, Placed(env, m), q);
  }

  /** On OpenShift, what is skipped and what each edit of the FRR-K8s loop leaves in the object returned. */
  lemma FRRK8SEditsAt(env: Env, codec: Codec, spec: Spec, m: Manifest)
    requires KeepsIdentity(codec) && FRRK8SEntry(env, codec, spec, m).Ok? && env.isOpenshift
    ensures FRRK8SEntry(env, codec, spec, m).value.None? <==>
      Kind(m) == "Secret" && Name(m) == "frr-k8s-webhook-server-cert"
    ensures FRRK8SEntry(env, codec, spec, m).value.Some? ==>
      var entry := FRRK8SEntry(env, codec, spec, m).value.value;
      && (Kind(m) == "Deployment" && Name(m) == "statuscleaner" ==>
            NestedField(Obj(entry), ["spec", "template", "spec", "securityContext"])
            == Found.Found(Obj(map["runAsNonRoot" := Bool(true)])))
      && (Kind(m) == "ValidatingWebhookConfiguration" && Name(m) == "frr-k8s-validating-webhook-configuration" ==>
            Annotated(Placed(env, m), entry, map["service.beta.openshift.io/inject-cabundle" := "true"]))
      && (Kind(m) == "Service" && Name(m) == "frr-k8s-webhook-service" ==>
            Annotated(Placed(env, m), entry,
                      map["service.beta.openshift.io/serving-cert-secret-name" := "frr-k8s-webhook-server-cert"]))
  {
    FRRK8SEntryMeaning(env, codec, spec, m);
    hide FRRK8SEntry;
    hide Placed;
    hide KeepsIdentity;
    hide Kind;
    hide Name;
    hide Annotated;
    hide NestedField;
    hide MonitorEdit;
  }
}
