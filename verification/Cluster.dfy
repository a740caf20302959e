/**
 The API server as the operator sees it: a store of objects, the MetalLB resources with their
 statuses, the OpenShift Network under optimistic locking, and the rollout state of workloads.
 `World` is its value; `Cluster` is the mutable server whose calls the operator makes.
 */
module Clusters {
  import opened Api
  import opened Editors
  import opened JsonTrees
  import opened Status
  import opened Wrappers

  /** Namespace and name. */
  datatype Key = Key(namespace: string, name: string)

  /** What addresses an object in the store. */
  datatype Id = Id(kind: string, namespace: string, name: string)

  function IdOf(m: Manifest): Id {
    Id(Kind(m), Namespace(m), Name(m))
  }

  datatype MetalLB = MetalLB(uid: string, spec: Spec, conditions: seq<Condition>)

  const FRRProvider := "FRR"

  /**
   The Network: its resource version, spec.additionalRoutingCapabilities.providers (None when the
   capabilities are absent), and, for the record, the capabilities as someone other than the
   operator last wrote them.
   */
  datatype Network = Network(version: nat, providers: Option<seq<string>>, foreign: Option<seq<string>>)

  datatype World = World(
    objects: map<Id, Manifest>,
    resources: map<Key, MetalLB>,
    network: Option<Network>,
    daemonSets: map<Key, DaemonSet>,
    deployments: map<Key, Deployment>)

  /** The calls that change objects, in the order the operator makes them. */
  datatype Action =
    | Del(id: Id)
    | Own(id: Id)       // SetControllerReference: touches nothing on the server, but may fail
    | Put(obj: Manifest)

  function Step(objects: map<Id, Manifest>, action: Action): map<Id, Manifest> {
    match action
    case Del(id) => objects - {id}
    case Own(_) => objects
    case Put(obj) => objects[IdOf(obj) := obj]
  }

  /** A write by another client: it replaces the capabilities and moves the version on. */
  function OtherWrite(net: Network, providers: Option<seq<string>>): Network {
    Network(net.version + 1, providers, providers)
  }

  function OtherWrites(net: Network, writes: seq<Option<seq<string>>>): Network
    decreases |writes|
  {
    if writes == [] then net else OtherWrites(OtherWrite(net, writes[0]), writes[1..])
  }

  datatype DeleteOutcome = Deleted | Missing | DeleteFailed

  class Cluster {
    var objects: map<Id, Manifest>
    var resources: map<Key, MetalLB>
    var network: Option<Network>
    var daemonSets: map<Key, DaemonSet>
    var deployments: map<Key, Deployment>
    /** Whether the CRD's pattern for reasons is enforced on status writes. */
    const enforced: bool
    /** Every delete and apply asked for so far, whether or not it succeeded. */
    ghost var requested: seq<Action>

    constructor (w: World, enforced: bool)
      ensures View() == w && this.enforced == enforced && requested == []
    {
      objects := w.objects;
      resources := w.resources;
      network := w.network;
      daemonSets := w.daemonSets;
      deployments := w.deployments;
      this.enforced := enforced;
      requested := [];
    }

    function View(): World
      reads this
    {
      World(objects, resources, network, daemonSets, deployments)
    }

    method Get(key: Key, fails: bool) returns (r: Result<Option<MetalLB>>)
      ensures r == if fails then Err else if key in resources then Ok(Some(resources[key])) else Ok(None)
    {
      if fails {
        return Err;
      }
      return Ok(if key in resources then Some(resources[key]) else None);
    }

    method Delete(id: Id, fails: bool) returns (r: DeleteOutcome)
      modifies this`objects, this`requested
      ensures requested == old(requested) + [Del(id)]
      ensures r == if fails then DeleteFailed else if id in old(objects) then Deleted else Missing
      ensures objects == if fails then old(objects) else Step(old(objects), Del(id))
    {
      requested := requested + [Del(id)];
      if fails {
        return DeleteFailed;
      }
      if id !in objects {
        assert objects - {id} == objects;
        return Missing;
      }
      objects := objects - {id};
      return Deleted;
    }

    /** Forced server-side apply by the operator's field manager. */
    method Apply(obj: Manifest, fails: bool) returns (ok: bool)
      modifies this`objects, this`requested
      ensures requested == old(requested) + [Put(obj)]
      ensures ok == !fails
      ensures objects == if fails then old(objects) else Step(old(objects), Put(obj))
    {
      requested := requested + [Put(obj)];
      if fails {
        return false;
      }
      objects := objects[IdOf(obj) := obj];
      return true;
    }

    /** Someone else writing the Network between two of the operator's calls. */
    method Interfere(writes: seq<Option<seq<string>>>)
      requires network.Some?
      modifies this`network
      ensures network == Some(OtherWrites(old(network).value, writes))
    {
      for i := 0 to |writes|
        invariant network.Some?
        invariant OtherWrites(network.value, writes[i..]) == OtherWrites(old(network).value, writes)
      {
        assert writes[i..][1..] == writes[i + 1..];
        network := Some(OtherWrite(network.value, writes[i]));
      }
    }

    /** An update is refused when the version it was read at is no longer the current one. */
    method UpdateNetwork(read: Network, providers: seq<string>, fails: bool) returns (ok: bool)
      requires network.Some?
      modifies this`network
      ensures ok == (!fails && old(network).value.version == read.version)
      ensures network ==
        if ok then Some(old(network).value.(version := old(network).value.version + 1, providers := Some(providers)))
                         else old(network)
    {
      if fails || network.value.version != read.version {
        return false;
      }
      network := Some(network.value.(version := network.value.version + 1, providers := Some(providers)));
      return true;
    }

    /** Writing a status: refused on a failing call, or when a reason breaks the pattern. */
    method UpdateStatus(key: Key, conditions: seq<Condition>, fails: bool) returns (ok: bool)
      requires key in resources
      modifies this`resources
      ensures ok == (!fails && (enforced ==> ReasonsOk(conditions)))
      ensures resources ==
        if ok then old(resources)[key := old(resources)[key].(conditions := conditions)] else old(resources)
    {
      if fails || (enforced && !ReasonsOk(conditions)) {
        return false;
      }
      resources := resources[key := resources[key].(conditions := conditions)];
      return true;
    }
  }
}
