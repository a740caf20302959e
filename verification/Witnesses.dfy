/** Concrete inputs for the defects the theorems describe in general. */
module Witnesses {
  import opened Api
  import opened ChartTheorems
  import opened Charts
  import opened Clusters
  import opened Convergence
  import opened Editors
  import opened JsonTrees
  import opened Reconciling
  import opened Runs
  import opened Status
  import opened Wrappers

  const Plain := Spec("", [], [], None, None, None, Null)
  const OffOpenshift := Env("metallb-system", "", false, false, Null)
  const OnOpenshift := Env("metallb-system", "", true, true, Null)
  const NoOverride := Config(None, None, Null)

  // ---- The ConfigMap that both charts render in frr mode ----

  /** No object of these charts is converted. */
  const NoCodec := Codec(_ => Err, _ => Err)

  function StartupMap(component: string): Manifest {
    map["kind" := Str("ConfigMap"), "metadata" := Obj(map["name" := Str("frr-startup"), "component" := Str(component)])]
  }

  const FRROperator := Operator(OffOpenshift,
    FRRK8SChart((_, _, _) => Ok([StartupMap("frr-k8s")]), NoCodec),
    MetalLBChart((_, _, _) => Ok([StartupMap("speaker")]), NoCodec))

  const StartupId := Id("ConfigMap", "metallb-system", "frr-startup")

  lemma StartupNames(component: string)
    ensures Kind(StartupMap(component)) == "ConfigMap" && Name(StartupMap(component)) == "frr-startup"
  {
  }

  /** Off OpenShift and without overrides a turn of either loop only sets the namespace. */
  lemma PlainEntries(x: Manifest)
    ensures FRRK8SEntries(OffOpenshift, NoCodec, Plain, [x]) == Ok([Placed(OffOpenshift, x)])
    ensures MetalLBEntries(OffOpenshift, NoCodec, Plain, [x]) == Ok([Placed(OffOpenshift, x)])
  {
    assert [x][1..] == [];
    hide Placed;
    assert FRRK8SEntry(OffOpenshift, NoCodec, Plain, x) == Ok(Some(Placed(OffOpenshift, x)));
    assert [Placed(OffOpenshift, x)] + [] == [Placed(OffOpenshift, x)];
    assert MetalLBEntry(OffOpenshift, NoCodec, Plain, x) == Ok(Placed(OffOpenshift, x));
  }

  /** Each chart returns its one ConfigMap, both under the same identity. */
  lemma FRRChartsRender(cr: MetalLB) returns (f: Manifest, m: Manifest)
    requires cr.spec == Plain
    ensures Renders(FRROperator, cr, [f], [m])
    ensures IdOf(f) == IdOf(m) == StartupId
  {
    StartupNames("frr-k8s");
    StartupNames("speaker");
    f, m := Placed(OffOpenshift, StartupMap("frr-k8s")), Placed(OffOpenshift, StartupMap("speaker"));
    PlacedIdentity(OffOpenshift, StartupMap("frr-k8s"));
    PlacedIdentity(OffOpenshift, StartupMap("speaker"));
    PlainEntries(StartupMap("frr-k8s"));
    PlainEntries(StartupMap("speaker"));
    hide Placed;
    hide Kind;
    hide Name;
    hide StartupMap;
    hide FRRK8SEntries;
    hide MetalLBEntries;
  }

  /** The calls are: delete, set the owner, apply. */
  lemma StartupCalls(cr: MetalLB, f: Manifest, m: Manifest)
    requires cr.spec == Plain && IdOf(f) == IdOf(m) == StartupId
    ensures Calls(FRROperator, cr, [f], [m]) == [Del(StartupId), Own(StartupId), Put(AsApplied(m, cr))]
  {
    StartupShared(cr, f, m);
    assert [f][1..] == [] && [m][1..] == [];
    assert Dels([f]) == [Del(StartupId)];
    assert Puts([m], cr) == [Own(StartupId), Put(AsApplied(m, cr))];
  }

  lemma PlainIsValid(cr: MetalLB, sc: Script)
    requires cr.spec == Plain
    ensures Valid(FRROperator, cr, sc)
  {
  }

  lemma StartupInterrupted(cr: MetalLB, f: Manifest, m: Manifest, fails: nat -> bool, k: nat)
    requires cr.spec == Plain && IdOf(f) == IdOf(m) == StartupId
    requires 1 <= k <= 2 && forall n :: fails(n) <==> n == k
    ensures Interrupted(MadeCalls(FRROperator, cr, [f], [m], fails), StartupId)
  {
    StartupCalls(cr, f, m);
    hide FRROperator;
    hide Calls;
    hide IdOf;
    hide AsApplied;
    MadeUpTo(3, k, fails);
    assert MadeCalls(FRROperator, cr, [f], [m], fails)[0] == Del(StartupId);
  }

  /**
   In frr mode, the default off OpenShift, the ConfigMap frr-startup is deleted for the one chart and
   applied for the other. From any store, a converged one included, a sync whose apply is refused, or that
   cannot set the owner before it, leaves it gone.
   */
  lemma FRRStartupIsLost(cr: MetalLB, objects: Store, sc: Script, k: nat)
    requires cr.spec == Plain && 1 <= k <= 2 && forall n :: sc.fails(n) <==> n == k
    ensures BGPType(cr.spec, FRROperator.env) == FRRMode
    ensures SyncObjects(FRROperator, cr, objects, sc).1 == SyncFailed
    ensures StartupId !in SyncObjects(FRROperator, cr, objects, sc).0
  {
    var op := FRROperator;
    var f, m := FRRChartsRender(cr);
    StartupShared(cr, f, m);
    StartupInterrupted(cr, f, m, sc.fails, k);
    PlainIsValid(cr, sc);
    hide FRROperator;
    hide Renders;
    hide Valid;
    hide SharedIds;
    hide WrongIds;
    hide SyncObjects;
    hide Calls;
    hide Interrupted;
    hide MadeCalls;
    SharedObjectIsLost(op, cr, objects, sc, [f], [m], StartupId);
  }

  /** A sync that goes through leaves it there, for the MetalLB chart: the FRR-K8s side is then not final. */
  lemma FRRStartupStays(cr: MetalLB, objects: Store, sc: Script, f: Manifest, m: Manifest)
    requires cr.spec == Plain && forall n :: !sc.fails(n)
    requires Renders(FRROperator, cr, [f], [m]) && IdOf(f) == IdOf(m) == StartupId
    ensures SyncObjects(FRROperator, cr, objects, sc).1 == Synced
    ensures Applied(SyncObjects(FRROperator, cr, objects, sc).0, m, cr)
    ensures !FRRK8SFinal(FRROperator, cr, [f], SyncObjects(FRROperator, cr, objects, sc).0)
  {
    var op := FRROperator;
    StartupShared(cr, f, m);
    SyncIsPrefix(op, cr, objects, sc, [f], [m]);
    SyncConverges(op, cr, objects, sc, [f], [m]);
    assert m in [m];
    hide FRROperator;
    hide SharedIds;
    hide SyncObjects;
    hide WrongIds;
    hide Applied;
    hide FRRK8SFinal;
    hide Renders;
  }

  lemma StartupShared(cr: MetalLB, f: Manifest, m: Manifest)
    requires cr.spec == Plain && IdOf(f) == IdOf(m) == StartupId
    ensures BGPType(cr.spec, FRROperator.env) == FRRMode && !IsRBAC(m)
    ensures StartupId in SharedIds(FRROperator, cr, [f], [m])
  {
    assert f in [f] && m in [m] && Shared(FRROperator, cr, f, m);
  }

  // ---- Edits that do not reach the returned object ----

  /** A conversion that loses nothing. */
  const Lossless := Codec(
    (m: Manifest) => Ok(Workload(None, [], Obj(m))),
    (w: Workload) => if w.rest.Obj? then Ok(w.rest.fields) else Err)

  function Bare(kind: string, name: string): Manifest {
    map["kind" := Str(kind), "metadata" := Obj(map["name" := Str(name)])]
  }

  lemma LosslessKeeps()
    ensures KeepsIdentity(Lossless) && KeepsPodAnnotations(Lossless)
    ensures forall m :: KeepsSecurityContext(Lossless, m)
    ensures forall config, name, m :: Override(Lossless, config, name, m) == Ok(m)
  {
  }

  /** What the loop sees of such an object: its kind and name, and no spec. */
  lemma BarePlaced(kind: string, name: string)
    requires kind != "PodSecurityPolicy"
    ensures
      var placed := Placed(OnOpenshift, Bare(kind, name));
      && Kind(placed) == Kind(Bare(kind, name)) == kind && Name(placed) == Name(Bare(kind, name)) == name
      && "spec" !in placed && "spec" !in Bare(kind, name)
  {
    PlacedIdentity(OnOpenshift, Bare(kind, name));
  }

  /** A write under a field that is not there succeeds. */
  lemma {:induction false} FreshWrite(m: Manifest, v: Json, path: seq<string>)
    requires path != [] && path[0] !in m
    ensures SetField(m, v, path).Ok?
    decreases |path|
  {
    if |path| > 1 {
      FreshWrite(map[], v, path[1..]);
    }
  }

  /** Without a failing conversion a turn fails only if an edit does. */
  lemma TurnSucceeds(spec: Spec, m: Manifest)
    requires MetalLBEdits(OnOpenshift, Placed(OnOpenshift, m)).Ok?
    ensures MetalLBEntry(OnOpenshift, Lossless, spec, m).Ok?
  {
    LosslessKeeps();
    hide Placed;
    hide MetalLBEdits;
    hide Override;
    hide Lossless;
    hide KeepsIdentity;
    hide IsControllerDeployment;
    hide IsSpeakerDaemonSet;
  }

  lemma SpeakerEditsSucceed()
    ensures MetalLBEdits(OnOpenshift, Placed(OnOpenshift, Bare("DaemonSet", "speaker"))).Ok?
  {
    var placed := Placed(OnOpenshift, Bare("DaemonSet", "speaker"));
    BarePlaced("DaemonSet", "speaker");
    FreshWrite(placed, Obj(FromStrings(SpeakerSCCAnnotation)), PodAnnotationsPath);
    MergeKeepsIdentity(placed, SpeakerSCCAnnotation, PodAnnotationsPath);
    hide Bare;
    hide Placed;
    hide Kind;
    hide Name;
    hide SetField;
  }

  /** On OpenShift even an empty SpeakerConfig costs the speaker the required-scc annotation. */
  lemma SpeakerAnnotationLost()
    ensures
      var entry := MetalLBEntry(OnOpenshift, Lossless, Plain.(speakerConfig := Some(NoOverride)),
                                Bare("DaemonSet", "speaker"));
      entry.Ok? && !RequiresSpeakerSCC(entry.value)
    ensures
      var entry := MetalLBEntry(OnOpenshift, Lossless, Plain, Bare("DaemonSet", "speaker"));
      entry.Ok? && RequiresSpeakerSCC(entry.value)
  {
    var speaker, with := Bare("DaemonSet", "speaker"), Plain.(speakerConfig := Some(NoOverride));
    LosslessKeeps();
    BarePlaced("DaemonSet", "speaker");
    assert !RequiresSpeakerSCC(speaker);
    hide MetalLBEntry;
    hide MetalLBEdits;
    hide RequiresSpeakerSCC;
    hide KeepsIdentity;
    hide KeepsPodAnnotations;
    SpeakerEditsSucceed();
    TurnSucceeds(with, speaker);
    TurnSucceeds(Plain, speaker);
    SpeakerAnnotationReaches(OnOpenshift, Lossless, with, speaker);
    SpeakerAnnotationReaches(OnOpenshift, Lossless, Plain, speaker);
  }

  /** The chart's default for the controller. */
  const ChartContext := Obj(map["runAsNonRoot" := Bool(true), "runAsUser" := Num(65534), "fsGroup" := Num(65534)])

  /** A controller Deployment rendered with that default. */
  const RenderedController: Manifest := map[
    "kind" := Str("Deployment"),
    "metadata" := Obj(map["name" := Str("controller")]),
    "spec" := Obj(map["template" := Obj(map["spec" := Obj(map["securityContext" := ChartContext])])])]

  lemma RenderedControllerRead()
    ensures IsControllerDeployment(RenderedController)
    ensures NestedField(Obj(RenderedController), SecurityContextPath) == Found.Found(ChartContext)
  {
    var spec := RenderedController["spec"];
    var pod := spec.fields["template"].fields["spec"];
    assert NestedField(pod, ["securityContext"]) == Found.Found(ChartContext);
    assert SecurityContextPath[1..][1..][1..] == ["securityContext"];
    assert SecurityContextPath[1..] == ["template", "spec", "securityContext"];
    assert SecurityContextPath[1..][1..] == ["spec", "securityContext"];
  }

  /** The security context is all the loop edits in a controller. */
  lemma ControllerEdits(m: Manifest)
    requires IsControllerDeployment(m) && SetField(m, RunAsNonRoot, SecurityContextPath).Ok?
    ensures MetalLBEdits(OnOpenshift, m).Ok?
  {
    WriteKeepsIdentity(m, RunAsNonRoot, SecurityContextPath);
    hide SetField;
    hide MergeAt;
    hide MonitorEdit;
    hide Kind;
    hide Name;
    hide Namespace;
  }

  lemma ControllerEditsSucceed()
    ensures MetalLBEdits(OnOpenshift, Placed(OnOpenshift, RenderedController)).Ok?
  {
    RenderedControllerRead();
    PlacedIdentity(OnOpenshift, RenderedController);
    PlacedKeeps(OnOpenshift, RenderedController, SecurityContextPath);
    hide RenderedController;
    hide Placed;
    hide NestedField;
    hide SetField;
    hide Kind;
    hide Name;
    hide MetalLBEdits;
    PresentIsWritable(Placed(OnOpenshift, RenderedController), RunAsNonRoot, SecurityContextPath);
    ControllerEdits(Placed(OnOpenshift, RenderedController));
  }

  /**
   On OpenShift even an empty ControllerConfig has the controller returned with the user and group of the
   chart's security context, which the loop is there to reset.
   */
  lemma ChartContextKept()
    ensures
      var entry := MetalLBEntry(OnOpenshift, Lossless, Plain.(controllerConfig := Some(NoOverride)),
                                RenderedController);
      entry.Ok? && NestedField(Obj(entry.value), SecurityContextPath) == Found.Found(ChartContext)
    ensures
      var entry := MetalLBEntry(OnOpenshift, Lossless, Plain, RenderedController);
      entry.Ok? && NestedField(Obj(entry.value), SecurityContextPath) == Found.Found(RunAsNonRoot)
    ensures ChartContext != RunAsNonRoot
  {
    var with := Plain.(controllerConfig := Some(NoOverride));
    assert ChartContext.fields.Keys != RunAsNonRoot.fields.Keys by {
      assert "fsGroup" in ChartContext.fields.Keys;
    }
    LosslessKeeps();
    RenderedControllerRead();
    hide RenderedController;
    hide MetalLBEntry;
    hide MetalLBEdits;
    hide NestedField;
    hide KeepsIdentity;
    hide KeepsSecurityContext;
    ControllerEditsSucceed();
    TurnSucceeds(with, RenderedController);
    TurnSucceeds(Plain, RenderedController);
    ControllerSecurityContextReaches(OnOpenshift, Lossless, with, RenderedController);
    ControllerSecurityContextReaches(OnOpenshift, Lossless, Plain, RenderedController);
  }

  // ---- External mode without a namespace ----

  /** A valid resource that names no backend can be rendered in external mode with an empty namespace. */
  lemma EmptyExternalNamespace()
    ensures Validate(Plain, OnOpenshift.frrk8sExternalNamespace) && ValidBGPMode(Plain, OnOpenshift.isOpenshift)
    ensures ChartValues(OnOpenshift, Plain).frrk8sExternal && ChartValues(OnOpenshift, Plain).frrk8sNamespace == ""
  {
  }

  // ---- An invalid resource reported Available ----

  const ManagedKey := Key("metallb-system", DefaultName)

  /** The workloads of an earlier resource are ready; `objects` is whatever that resource left. */
  function StaleWorld(objects: Store): World {
    World(
      objects,
      map[ManagedKey := MetalLB("uid", Plain.(bgpBackend := "ospf"), [])],
      None,
      map[Key("metallb-system", "speaker") := DaemonSet(1, 1, 1, 1, 1, 1)],
      map[Key("metallb-system", "controller") := Deployment(1, 1, None, 1, 1)])
  }

  /** A resource asking for a backend that does not exist is reported Available though nothing is changed. */
  lemma InvalidYetAvailable(op: Operator, objects: Store, sc: Script, enforced: bool)
    requires !sc.getFails && !sc.statusFails && !sc.daemonSetGetFails && !sc.deploymentGetFails
    ensures
      var (after, r) := Reconcile(op, ManagedKey, StaleWorld(objects), sc, enforced);
      && r == Return(0, false) && after.objects == objects
      && exists now :: StatusIs(after, ManagedKey, Conditions(Available, Available, "", now))
  {
    InvalidReportedAvailable(op, ManagedKey, StaleWorld(objects), sc, enforced);
  }
}
