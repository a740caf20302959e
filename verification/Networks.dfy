/** The OpenShift Network under optimistic locking: no update of anyone is lost. */
module Networks {
  import opened Api
  import opened Clusters
  import opened Reconciling
  import opened Runs
  import opened Wrappers

  lemma {:induction false} OtherWritesVersion(net: Network, writes: seq<Option<seq<string>>>)
    ensures OtherWrites(net, writes).version == net.version + |writes|
    ensures writes != [] ==>
      OtherWrites(net, writes).providers == OtherWrites(net, writes).foreign == writes[|writes| - 1]
    decreases |writes|
  {
    if writes != [] {
      OtherWritesVersion(OtherWrite(net, writes[0]), writes[1..]);
    }
  }

  /**
   DeployFRRK8s succeeds exactly when the Network could be read and either FRR is there already, or nobody
   else wrote since the read and the update is not refused. With FRR there it writes nothing. Otherwise a
   success keeps the providers in order, adds FRR once and moves the version on, and a failure leaves what
   others wrote.
   */
  lemma DeployMeaning(net: Network, sc: Script)
    ensures
      var (after, ok) := DeployFRRK8s(Some(net), sc);
      var there := "FRR" in Providers(net);
      && (ok <==> !sc.networkGetFails && (there || (sc.others == [] && !sc.networkUpdateFails)))
      && (sc.networkGetFails || there ==> after == Some(net))
      && (ok && !there ==>
            && after == Some(Network(net.version + 1, Some(Providers(net) + ["FRR"]), net.foreign))
            && multiset(Providers(after.value))["FRR"] == 1)
      && (!ok && !sc.networkGetFails ==> after == Some(OtherWrites(net, sc.others)))
    ensures DeployFRRK8s(None, sc) == (None, false)
  {
    OtherWritesVersion(net, sc.others);
  }

  /** The providers are what others last wrote, with FRR added at the end if it was missing. */
  predicate NothingLost(net: Option<Network>) {
    net.Some? ==>
      || net.value.providers == net.value.foreign
      || (FRRProvider !in net.value.foreign.GetOr([])
          && net.value.providers == Some(net.value.foreign.GetOr([]) + [FRRProvider]))
  }

  lemma DeployLosesNothing(net: Option<Network>, sc: Script)
    requires NothingLost(net)
    ensures NothingLost(DeployFRRK8s(net, sc).0)
  {
    if net.Some? {
      OtherWritesVersion(net.value, sc.others);
    }
  }

  /** In every run, with other clients writing between requests and inside them, no provider is lost. */
  lemma {:induction false} NoLostUpdate(op: Operator, w: World, events: seq<Event>, enforced: bool)
    requires NothingLost(w.network)
    ensures NothingLost(After(op, w, events, enforced).network)
    decreases |events|
  {
    hide Reconcile;
    hide DeployFRRK8s;
    if events != [] {
      var e := events[0];
      if e.Request? {
        ReconcileEffect(op, e.key, w, e.sc, enforced);
        DeployLosesNothing(w.network, e.sc);
      }
      NoLostUpdate(op, Next(op, w, e, enforced), events[1..], enforced);
    }
  }

  /**
   When frr-k8s comes from the network operator, by name or by default, a sync asks for no delete and no
   apply, not even one that fails or changes nothing, and does not succeed, unless support was confirmed
   and FRR seen or written in the Network.
   */
  lemma ExternalModeGate(op: Operator, cr: MetalLB, w: World, sc: Script, requested: seq<Action>)
    requires FromNetworkOperator(cr.spec, op.env)
    ensures
      var (after, outcome) := Sync(op, cr, w, sc);
      outcome == Synced || SyncRequests(requested, op, cr, w, sc) != requested || after.objects != w.objects ==>
        sc.support == Supports && after.network.Some? && "FRR" in Providers(after.network.value)
    ensures sc.support == Lacks ==> Sync(op, cr, w, sc) == (w, NoSupport)
    ensures sc.support == SupportFails ==> Sync(op, cr, w, sc) == (w, SyncFailed)
  {
    hide SyncObjects;
    hide SyncObjectsRequests;
  }

  /** For any other resource or environment the Network is left alone, and support is not asked about. */
  lemma OtherwiseNetworkUntouched(op: Operator, cr: MetalLB, w: World, sc: Script, support: Support)
    requires !FromNetworkOperator(cr.spec, op.env)
    ensures Sync(op, cr, w, sc).0.network == w.network
    ensures Sync(op, cr, w, sc) == Sync(op, cr, w, sc.(support := support))
    ensures Sync(op, cr, w, sc).1 != NoSupport
  {
    hide DeployFRRK8s;
  }
}
