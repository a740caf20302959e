/**
 What controllers/metallb_controller.go, status.Update and openshift.DeployFRRK8s do to the cluster,
 as functions of its value. The methods of the same names in Controller make the calls one by one.
 */
module Reconciling {
  import opened Api
  import opened Charts
  import opened Clusters
  import opened Editors
  import opened JsonTrees
  import opened Status
  import opened Wrappers

  const DefaultName := "metallb"

  datatype Support = Supports | Lacks | SupportFails

  /** How every call of one reconcile request turns out, and what it reads from outside the model. */
  datatype Script = Script(
    getFails: bool,
    support: Support,
    networkGetFails: bool,
    others: seq<Option<seq<string>>>,
    networkUpdateFails: bool,
    fails: nat -> bool,
    daemonSetGetFails: bool,
    deploymentGetFails: bool,
    statusFails: bool,
    externalNamespace: string,
    message: string,
    compared: int,
    written: int)

  datatype Operator = Operator(env: Env, frrk8s: FRRK8SChart, metallb: MetalLBChart)

  // ---- openshift.DeployFRRK8s ----

  function Providers(net: Network): seq<string> {
    net.providers.GetOr([])
  }

  /** The Network afterwards, and whether the call succeeded. */
  function DeployFRRK8s(net: Option<Network>, sc: Script): (Option<Network>, bool) {
    if sc.networkGetFails || net.None? then (net, false)
    else if FRRProvider in Providers(net.value) then (net, true)
    else
      var current := OtherWrites(net.value, sc.others);
      if sc.networkUpdateFails || current.version != net.value.version then (Some(current), false)
      else (Some(current.(version := current.version + 1,
                          providers := Some(Providers(net.value) + [FRRProvider]))), true)
  }

  // ---- The calls of a sync ----

  /** The controller reference to the MetalLB resource. */
  function OwnerRef(cr: MetalLB): Json {
    Obj(map["kind" := Str("MetalLB"), "name" := Str(DefaultName), "uid" := Str(cr.uid), "controller" := Bool(true)])
  }

  const OwnersPath := ["metadata", "ownerReferences"]

  function OwnerRefs(m: Manifest): seq<Json> {
    var refs := NestedSlice(m, OwnersPath);
    if refs.Found? then refs.value else []
  }

  /** SetControllerReference adds the reference to those the object already has. */
  function Owned(m: Manifest, cr: MetalLB): Manifest {
    var refs := if OwnerRef(cr) in OwnerRefs(m) then OwnerRefs(m) else OwnerRefs(m) + [OwnerRef(cr)];
    match SetField(m, Arr(refs), OwnersPath)
    case Ok(r) => r
    case Err => m
  }

  predicate IsRBAC(m: Manifest) {
    Kind(m) == "Role" || Kind(m) == "RoleBinding"
  }

  function PutCalls(m: Manifest, cr: MetalLB): seq<Action> {
    if IsRBAC(m) then []
    else if Namespace(m) != "" then [Own(IdOf(m)), Put(Owned(m, cr))]
    else [Put(m)]
  }

  function Puts(objs: seq<Manifest>, cr: MetalLB): seq<Action> {
    if objs == [] then [] else PutCalls(objs[0], cr) + Puts(objs[1..], cr)
  }

  function Dels(objs: seq<Manifest>): seq<Action> {
    if objs == [] then [] else [Del(IdOf(objs[0]))] + Dels(objs[1..])
  }

  /** The calls on FRR-K8s objects: applies in frr-k8s mode, deletes in every other mode. */
  function FRRK8SCalls(op: Operator, cr: MetalLB, frrk8s: seq<Manifest>): seq<Action> {
    if BGPType(cr.spec, op.env) == FRRK8sMode then Puts(frrk8s, cr) else Dels(frrk8s)
  }

  function Calls(op: Operator, cr: MetalLB, frrk8s: seq<Manifest>, metallb: seq<Manifest>): seq<Action> {
    FRRK8SCalls(op, cr, frrk8s) + Puts(metallb, cr)
  }

  /** Makes the calls in order until one fails; `n` numbers the next call. */
  function Run(objects: map<Id, Manifest>, calls: seq<Action>, fails: nat -> bool, n: nat): (map<Id, Manifest>, bool)
    decreases |calls|
  {
    if calls == [] then (objects, true)
    else if fails(n) then (objects, false)
    else Run(Step(objects, calls[0]), calls[1..], fails, n + 1)
  }

  /** What has been asked of the API server once `Run` is done: a failing call counts, setting an owner does not. */
  function Requests(requested: seq<Action>, calls: seq<Action>, fails: nat -> bool, n: nat): seq<Action>
    decreases |calls|
  {
    if calls == [] then requested
    else
      var now := if calls[0].Own? then requested else requested + [calls[0]];
      if fails(n) then now else Requests(now, calls[1..], fails, n + 1)
  }

  /** One call of `Run` and `Requests`. */
  lemma RunOne(objects: map<Id, Manifest>, requested: seq<Action>, a: Action, rest: seq<Action>, fails: nat -> bool,
               n: nat)
    ensures Run(objects, [a] + rest, fails, n)
      == if fails(n) then (objects, false) else Run(Step(objects, a), rest, fails, n + 1)
    ensures
      var now := if a.Own? then requested else requested + [a];
      Requests(requested, [a] + rest, fails, n) == if fails(n) then now else Requests(now, rest, fails, n + 1)
  {
    assert ([a] + rest)[1..] == rest;
  }

  // ---- syncMetalLBResources ----

  datatype Outcome = Synced | NoSupport | SyncFailed

  predicate NeedsNetwork(op: Operator, cr: MetalLB) {
    op.env.mustDeployFRRK8sFromCNO && op.env.isOpenshift && BGPType(cr.spec, op.env) == FRRK8sExternalMode
  }

  function SyncObjects(op: Operator, cr: MetalLB, objects: map<Id, Manifest>, sc: Script): (map<Id, Manifest>,
                       Outcome) {
    if !Validate(cr.spec, sc.externalNamespace) then (objects, Synced)
    else if !ValidBGPMode(cr.spec, op.env.isOpenshift) then (objects, SyncFailed)
    else
      var frrk8s := op.frrk8s.Manifests(op.env, cr.spec);
      var metallb := op.metallb.Manifests(op.env, cr.spec);
      if frrk8s.Err? || metallb.Err? then (objects, SyncFailed)
      else
        var (after, ok) := Run(objects, Calls(op, cr, frrk8s.value, metallb.value), sc.fails, 0);
        (after, if ok then Synced else SyncFailed)
  }

  /** The deletes and applies asked for once `SyncObjects` is done. */
  function SyncObjectsRequests(requested: seq<Action>, op: Operator, cr: MetalLB, sc: Script): seq<Action> {
    if !Validate(cr.spec, sc.externalNamespace) || !ValidBGPMode(cr.spec, op.env.isOpenshift) then requested
    else
      var frrk8s := op.frrk8s.Manifests(op.env, cr.spec);
      var metallb := op.metallb.Manifests(op.env, cr.spec);
      if frrk8s.Err? || metallb.Err? then requested
      else Requests(requested, Calls(op, cr, frrk8s.value, metallb.value), sc.fails, 0)
  }

  function Sync(op: Operator, cr: MetalLB, w: World, sc: Script): (World, Outcome) {
    if NeedsNetwork(op, cr) && sc.support == SupportFails then (w, SyncFailed)
    else if NeedsNetwork(op, cr) && sc.support == Lacks then (w, NoSupport)
    else
      var (network, deployed) := if NeedsNetwork(op, cr) then DeployFRRK8s(w.network, sc) else (w.network, true);
      if !deployed then (w.(network := network), SyncFailed)
      else
        var (objects, outcome) := SyncObjects(op, cr, w.objects, sc);
        (w.(network := network, objects := objects), outcome)
  }

  /** The deletes and applies asked for once a sync is done. */
  function SyncRequests(requested: seq<Action>, op: Operator, cr: MetalLB, w: World, sc: Script): seq<Action> {
    if NeedsNetwork(op, cr) && (sc.support != Supports || !DeployFRRK8s(w.network, sc).1) then requested
    else SyncObjectsRequests(requested, op, cr, sc)
  }

  // ---- status.IsMetalLBAvailable, reconcileResource, status.Update ----

  function IsMetalLBAvailable(w: World, namespace: string, sc: Script): Readiness {
    var speaker, controller := Key(namespace, "speaker"), Key(namespace, "controller");
    if sc.daemonSetGetFails || speaker !in w.daemonSets then ReadFailed
    else if IsDaemonSetReady(w.daemonSets[speaker]) != Ready then IsDaemonSetReady(w.daemonSets[speaker])
    else if sc.deploymentGetFails || controller !in w.deployments then ReadFailed
    else IsDeploymentReady(w.deployments[controller])
  }

  /** ctrl.Result and error; `requeueAfter` is in seconds, 0 for none. */
  datatype Return = Return(requeueAfter: nat, err: bool)

  /** What reconcileResource asks for: a condition ("" for none) and whether it carries an error. */
  datatype Verdict = Verdict(requeueAfter: nat, condition: string, err: bool)

  function VerdictOf(outcome: Outcome, w: World, namespace: string, sc: Script): Verdict {
    match outcome
    case NoSupport => Verdict(120, "", false)
    case SyncFailed => Verdict(0, Degraded, true)
    case Synced =>
      match IsMetalLBAvailable(w, namespace, sc)
      case Ready => Verdict(0, Available, false)
      case NotReady => Verdict(5, Progressing, false)
      case ReadFailed => Verdict(0, Progressing, true)
  }

  /** The world after the status write, and whether status.Update returned nil. */
  function Update(w: World, key: Key, condition: string, reason: string, message: string, sc: Script,
                  enforced: bool): (World, bool)
    requires key in w.resources
  {
    if Conditions(condition, reason, message, sc.compared) == w.resources[key].conditions then (w, true)
    else
      var conditions := Conditions(condition, reason, message, sc.written);
      if sc.statusFails || (enforced && !ReasonsOk(conditions)) then (w, false)
      else (w.(resources := w.resources[key := w.resources[key].(conditions := conditions)]), true)
  }

  // ---- Reconcile ----

  /** Writes the verdict to the status; the verdict's own error is dropped once the write succeeds. */
  function Report(key: Key, synced: World, v: Verdict, sc: Script, enforced: bool): (World, Return)
    requires key in synced.resources
  {
    if v.condition == "" then (synced, Return(v.requeueAfter, false))
    else
      var (w, ok) := Update(synced, key, v.condition, if v.err then InternalError else v.condition,
                            if v.err then sc.message else "", sc, enforced);
      if ok then (w, Return(v.requeueAfter, false)) else (w, Return(0, true))
  }

  function Reconcile(op: Operator, key: Key, w: World, sc: Script, enforced: bool): (World, Return) {
    if sc.getFails then (w, Return(0, true))
    else if key !in w.resources then (w, Return(0, false))
    else if key.name != DefaultName then
      var (w', _) := Update(w, key, Degraded, IncorrectName, sc.message, sc, enforced);
      (w', Return(0, false))
    else
      var (synced, outcome) := Sync(op, w.resources[key], w, sc);
      Report(key, synced, VerdictOf(outcome, synced, key.namespace, sc), sc, enforced)
  }

  lemma {:induction false} PutsAppend(a: seq<Manifest>, b: seq<Manifest>, cr: MetalLB)
    ensures Puts(a + b, cr) == Puts(a, cr) + Puts(b, cr)
  {
    if a == [] {
      assert a + b == b;
    } else {
      assert (a + b)[1..] == a[1..] + b;
      PutsAppend(a[1..], b, cr);
    }
  }
}
