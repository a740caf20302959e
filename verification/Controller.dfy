/**
 controllers/metallb_controller.go with pkg/status Update and pkg/openshift DeployFRRK8s, making its
 calls against the mutable cluster one by one.
 */
module Controller {
  import opened Api
  import opened Charts
  import opened Clusters
  import opened Editors
  import opened JsonTrees
  import opened Reconciling
  import opened Status

  /** The controller: it holds the client and turns requests into calls. */
  class MetalLBReconciler {
    const client: Cluster
    const op: Operator

    constructor (client: Cluster, op: Operator)
      ensures this.client == client && this.op == op
    {
      this.client := client;
      this.op := op;
    }

    method DeployFRRK8s(sc: Script) returns (ok: bool)
      modifies client`network
      ensures (client.network, ok) == Reconciling.DeployFRRK8s(old(client.network), sc)
    {
      if sc.networkGetFails || client.network.None? {
        return false;
      }
      var network := client.network.value;
      var providers := if network.providers.None? then [] else network.providers.value;
      if FRRProvider in providers {
        return true;
      }
      providers := providers + [FRRProvider];
      client.Interfere(sc.others);
      ok := client.UpdateNetwork(network, providers, sc.networkUpdateFails);
    }

    method SyncMetalLBResources(cr: MetalLB, sc: Script) returns (outcome: Outcome)
      modifies client`network, client`objects, client`requested
      ensures (client.View(), outcome) == Sync(op, cr, old(client.View()), sc)
      ensures client.requested == SyncRequests(old(client.requested), op, cr, old(client.View()), sc)
    {
      var bgpType := BGPType(cr.spec, op.env);
      if op.env.mustDeployFRRK8sFromCNO && op.env.isOpenshift && bgpType == FRRK8sExternalMode {
        if sc.support == SupportFails {
          return SyncFailed;
        }
        if sc.support == Lacks {
          return NoSupport;
        }
        var deployed := DeployFRRK8s(sc);
        if !deployed {
          return SyncFailed;
        }
      }
      if !Validate(cr.spec, sc.externalNamespace) {
        return Synced;
      }
      if !ValidBGPMode(cr.spec, op.env.isOpenshift) {
        return SyncFailed;
      }
      outcome := SyncObjects(cr, sc);
    }

    /** The second half of syncMetalLBResources, once the resource has passed both validations. */
    method SyncObjects(cr: MetalLB, sc: Script) returns (outcome: Outcome)
      requires Validate(cr.spec, sc.externalNamespace) && ValidBGPMode(cr.spec, op.env.isOpenshift)
      modifies client`objects, client`requested
      ensures (client.objects, outcome) == Reconciling.SyncObjects(op, cr, old(client.objects), sc)
      ensures client.requested == SyncObjectsRequests(old(client.requested), op, cr, sc)
    {
      var frrk8sObjs := op.frrk8s.Objects(op.env, cr.spec);
      if frrk8sObjs.Err? {
        return SyncFailed;
      }
      var mlbObjs, _ := op.metallb.Objects(op.env, cr.spec);
      if mlbObjs.Err? {
        return SyncFailed;
      }
      var ok := MakeCalls(cr, sc, frrk8sObjs.value, mlbObjs.value,
                          op.frrk8s.Manifests(op.env, cr.spec).value, op.metallb.Manifests(op.env, cr.spec).value);
      return if ok then Synced else SyncFailed;
    }

    /** Sorts the objects into those to delete and those to apply, and makes the calls. */
    method MakeCalls(cr: MetalLB, sc: Script, frrk8sObjs: seq<Unstructured>, mlbObjs: seq<Unstructured>,
                     ghost frrk8s: seq<Manifest>, ghost metallb: seq<Manifest>)
      returns (ok: bool)
      requires Hold(frrk8sObjs, frrk8s) && Hold(mlbObjs, metallb)
      requires forall j, k :: 0 <= j < |frrk8sObjs| && 0 <= k < |mlbObjs| ==> frrk8sObjs[j] != mlbObjs[k]
      modifies client`objects, client`requested, frrk8sObjs, mlbObjs
      ensures (client.objects, ok) == Run(old(client.objects), Calls(op, cr, frrk8s, metallb), sc.fails, 0)
      ensures client.requested == Requests(old(client.requested), Calls(op, cr, frrk8s, metallb), sc.fails, 0)
    {
      var objs, toDel := mlbObjs, frrk8sObjs;
      ghost var applied, deleted := metallb, frrk8s;
      if BGPType(cr.spec, op.env) == FRRK8sMode {
        objs, toDel := frrk8sObjs + mlbObjs, [];
        applied, deleted := frrk8s + metallb, [];
        HoldAppend(frrk8sObjs, mlbObjs, frrk8s, metallb);
        PutsAppend(frrk8s, metallb, cr);
      }
      assert Calls(op, cr, frrk8s, metallb) == Dels(deleted) + Puts(applied, cr);
      var n: nat;
      n, ok := DeleteAll(toDel, sc, deleted, Puts(applied, cr));
      if ok {
        ok := ApplyAll(objs, cr, sc, n, applied);
      }
    }

    method DeleteAll(toDel: seq<Unstructured>, sc: Script, ghost trees: seq<Manifest>, ghost rest: seq<Action>)
      returns (n: nat, ok: bool)
      requires Hold(toDel, trees)
      modifies client`objects, client`requested
      ensures Run(old(client.objects), Dels(trees) + rest, sc.fails, 0)
        == if ok then Run(client.objects, rest, sc.fails, n) else (client.objects, false)
      ensures Requests(old(client.requested), Dels(trees) + rest, sc.fails, 0)
        == if ok then Requests(client.requested, rest, sc.fails, n) else client.requested
    {
      n := 0;
      for i := 0 to |toDel|
        invariant n == i
        invariant Run(old(client.objects), Dels(trees) + rest, sc.fails, 0)
          == Run(client.objects, Dels(trees[i..]) + rest, sc.fails, n)
        invariant Requests(old(client.requested), Dels(trees) + rest, sc.fails, 0)
          == Requests(client.requested, Dels(trees[i..]) + rest, sc.fails, n)
      {
        assert trees[i..][1..] == trees[i + 1..];
        var id := IdOf(toDel[i].tree);
        assert Dels(trees[i..]) + rest == [Del(id)] + (Dels(trees[i + 1..]) + rest);
        RunOne(client.objects, client.requested, Del(id), Dels(trees[i + 1..]) + rest, sc.fails, n);
        hide Run;
        hide Requests;
        hide IdOf;
        var r := client.Delete(id, sc.fails(n));
        if r == DeleteFailed {
          return n, false;
        }
        n := n + 1;
      }
      assert Dels(trees[|toDel|..]) + rest == rest;
      return n, true;
    }

    method ApplyAll(objs: seq<Unstructured>, cr: MetalLB, sc: Script, start: nat, ghost trees: seq<Manifest>)
      returns (ok: bool)
      requires Hold(objs, trees)
      modifies client`objects, client`requested, objs
      ensures Run(old(client.objects), Puts(trees, cr), sc.fails, start) == (client.objects, ok)
      ensures client.requested == Requests(old(client.requested), Puts(trees, cr), sc.fails, start)
    {
      var n := start;
      for i := 0 to |objs|
        invariant forall k :: i <= k < |objs| ==> objs[k].tree == trees[k]
        invariant Run(old(client.objects), Puts(trees, cr), sc.fails, start)
          == Run(client.objects, Puts(trees[i..], cr), sc.fails, n)
        invariant Requests(old(client.requested), Puts(trees, cr), sc.fails, start)
          == Requests(client.requested, Puts(trees[i..], cr), sc.fails, n)
      {
        assert trees[i..][1..] == trees[i + 1..];
        assert objs[i] in objs;
        ok, n := ApplyOne(objs[i], cr, sc, n, Puts(trees[i + 1..], cr));
        if !ok {
          return false;
        }
      }
      return true;
    }

    /** The body of the apply loop. */
    method ApplyOne(obj: Unstructured, cr: MetalLB, sc: Script, start: nat, ghost rest: seq<Action>)
      returns (ok: bool, n: nat)
      modifies client`objects, client`requested, obj
      ensures Run(old(client.objects), PutCalls(old(obj.tree), cr) + rest, sc.fails, start)
        == if ok then Run(client.objects, rest, sc.fails, n) else (client.objects, false)
      ensures Requests(old(client.requested), PutCalls(old(obj.tree), cr) + rest, sc.fails, start)
        == if ok then Requests(client.requested, rest, sc.fails, n) else client.requested
    {
      n := start;
      var objKind := Kind(obj.tree);
      ghost var calls := PutCalls(obj.tree, cr);
      ghost var objects, requested := client.objects, client.requested;
      hide Run;
      hide Requests;
      if objKind == "Role" || objKind == "RoleBinding" {
        assert calls + rest == rest;
        return true, n;
      }
      var objNS := Namespace(obj.tree);
      if objNS != "" {
        assert calls + rest == [Own(IdOf(obj.tree))] + ([Put(Owned(obj.tree, cr))] + rest);
        RunOne(objects, requested, Own(IdOf(obj.tree)), [Put(Owned(obj.tree, cr))] + rest, sc.fails, n);
        if sc.fails(n) {
          return false, n;
        }
        obj.tree := Owned(obj.tree, cr);
        n := n + 1;
      }
      RunOne(objects, requested, Put(obj.tree), rest, sc.fails, n);
      ok := client.Apply(obj.tree, sc.fails(n));
      n := n + 1;
    }

    method Update(key: Key, instance: MetalLB, condition: string, reason: string, message: string, sc: Script)
      returns (ok: bool)
      requires key in client.resources && client.resources[key] == instance
      modifies client`resources
      ensures (client.View(), ok) ==
        Reconciling.Update(old(client.View()), key, condition, reason, message, sc, client.enforced)
    {
      var conditions := GetConditions(condition, reason, message, sc.compared);
      if conditions == instance.conditions {
        return true;
      }
      conditions := GetConditions(condition, reason, message, sc.written);
      ok := client.UpdateStatus(key, conditions, sc.statusFails);
    }

    /** reconcileResource, with the Result, the condition and whether there is an error. */
    method ReconcileResource(key: Key, cr: MetalLB, sc: Script) returns (v: Verdict)
      modifies client`network, client`objects, client`requested
      ensures
        var (synced, outcome) := Sync(op, cr, old(client.View()), sc);
        client.View() == synced && v == VerdictOf(outcome, synced, key.namespace, sc)
      ensures client.requested == SyncRequests(old(client.requested), op, cr, old(client.View()), sc)
    {
      var outcome := SyncMetalLBResources(cr, sc);
      if outcome == NoSupport {
        return Verdict(120, "", false);
      }
      if outcome == SyncFailed {
        return Verdict(0, Degraded, true);
      }
      var available := IsMetalLBAvailable(client.View(), key.namespace, sc);
      if available == NotReady {
        return Verdict(5, Progressing, false);
      }
      if available == ReadFailed {
        return Verdict(0, Progressing, true);
      }
      return Verdict(0, Available, false);
    }

    method Reconcile(key: Key, sc: Script) returns (r: Return)
      modifies client
      ensures (client.View(), r) == Reconciling.Reconcile(op, key, old(client.View()), sc, client.enforced)
      ensures client.requested ==
        if !sc.getFails && key in old(client.resources) && key.name == DefaultName
        then SyncRequests(old(client.requested), op, old(client.resources)[key], old(client.View()), sc)
        else old(client.requested)
    {
      var got := client.Get(key, sc.getFails);
      if got.Err? {
        return Return(0, true);
      }
      if got.value.None? {
        return Return(0, false);
      }
      var instance := got.value.value;
      if key.name != DefaultName {
        var _ := Update(key, instance, Degraded, IncorrectName, sc.message, sc);
        return Return(0, false);
      }
      var v := ReconcileResource(key, instance, sc);
      if v.condition != "" {
        var errorMsg, wrappedErrMsg := v.condition, "";
        if v.err {
          errorMsg := InternalError;
          wrappedErrMsg := sc.message;
        }
        var ok := Update(key, instance, v.condition, errorMsg, wrappedErrMsg, sc);
        if !ok {
          return Return(0, true);
        }
      }
      return Return(v.requeueAfter, false);
    }
  }
}
