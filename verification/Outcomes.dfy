/** When a sync succeeds, what a request returns, and what one for a wrongly named resource does. */
module Outcomes {
  import opened Api
  import opened Clusters
  import opened Convergence
  import opened Networks
  import opened Reconciling
  import opened Runs
  import opened Status

  /** The Network let the sync go on: support was confirmed, and FRR found there or written. */
  predicate GatePassed(w: World, sc: Script) {
    && sc.support == Supports && !sc.networkGetFails && w.network.Some?
    && ("FRR" in Providers(w.network.value) || (sc.others == [] && !sc.networkUpdateFails))
  }

  /** Every call that setting up the objects takes succeeded. */
  predicate ObjectsSucceed(op: Operator, cr: MetalLB, sc: Script) {
    var f, m := op.frrk8s.Manifests(op.env, cr.spec), op.metallb.Manifests(op.env, cr.spec);
    && ValidBGPMode(cr.spec, op.env.isOpenshift) && f.Ok? && m.Ok?
    && forall n :: 0 <= n < |Calls(op, cr, f.value, m.value)| ==> !sc.fails(n)
  }

  lemma ObjectsOutcome(op: Operator, cr: MetalLB, objects: Store, sc: Script)
    ensures
      var (after, outcome) := SyncObjects(op, cr, objects, sc);
      && outcome == (if !Validate(cr.spec, sc.externalNamespace) || ObjectsSucceed(op, cr, sc)
                     then Synced else SyncFailed)
      && (!Validate(cr.spec, sc.externalNamespace) || !ValidBGPMode(cr.spec, op.env.isOpenshift) ==> after == objects)
  {
    var f, m := op.frrk8s.Manifests(op.env, cr.spec), op.metallb.Manifests(op.env, cr.spec);
    hide Validate;
    hide ValidBGPMode;
    if f.Ok? && m.Ok? {
      var calls := Calls(op, cr, f.value, m.value);
      FailureGivesPrefix(objects, calls, sc.fails, 0);
      hide Calls;
      hide Run;
    }
  }

  /**
   Exactly how a sync ends: without support it waits; it succeeds when the Network lets it go on and the
   resource is invalid or its mode fits, both charts render and no call fails; else it fails.
   */
  lemma SyncOutcome(op: Operator, cr: MetalLB, w: World, sc: Script)
    ensures
      var outcome := Sync(op, cr, w, sc).1;
      var gated := FromNetworkOperator(cr.spec, op.env);
      && (outcome == NoSupport <==> gated && sc.support == Lacks)
      && (outcome == Synced <==>
            && (gated ==> GatePassed(w, sc))
            && (!Validate(cr.spec, sc.externalNamespace) || ObjectsSucceed(op, cr, sc)))
  {
    ObjectsOutcome(op, cr, w.objects, sc);
    if w.network.Some? {
      DeployMeaning(w.network.value, sc);
    }
    hide SyncObjects;
    hide ObjectsSucceed;
    hide DeployFRRK8s;
    hide Validate;
  }

  /** After any run, a request of a valid resource none of whose calls fails converges. */
  lemma CleanRequestConverges(op: Operator, w: World, events: seq<Event>, key: Key, sc: Script, enforced: bool)
    requires
      var before := After(op, w, events, enforced);
      && !sc.getFails && key in before.resources && key.name == DefaultName
      && DistinctCharts(op, before.resources[key])
      && Validate(before.resources[key].spec, sc.externalNamespace) && ObjectsSucceed(op, before.resources[key], sc)
      && (FromNetworkOperator(before.resources[key].spec, op.env) ==> GatePassed(before, sc))
    ensures
      var cr := After(op, w, events, enforced).resources[key];
      exists frrk8s, metallb :: Renders(op, cr, frrk8s, metallb)
        && Converged(op, cr, frrk8s, metallb, After(op, w, events + [Request(key, sc)], enforced).objects)
  {
    var before := After(op, w, events, enforced);
    SyncOutcome(op, before.resources[key], before, sc);
    AfterSnoc(op, w, events, Request(key, sc), enforced);
    SyncedIsSound(op, before, key, sc, enforced);
    hide Reconcile;
    hide Sync;
    hide Converged;
    hide Renders;
  }

  // ---- What a request returns ----

  /** A failed read is an error; a resource that is gone ends the matter; neither touches anything. */
  lemma EarlyReturns(op: Operator, key: Key, w: World, sc: Script, enforced: bool)
    ensures sc.getFails ==> Reconcile(op, key, w, sc, enforced) == (w, Return(0, true))
    ensures !sc.getFails && key !in w.resources ==> Reconcile(op, key, w, sc, enforced) == (w, Return(0, false))
  {
  }

  /** Equal conditions are not written; others are unless the write is refused; nothing else is touched. */
  lemma UpdateMeaning(w: World, key: Key, condition: string, reason: string, message: string,
                      sc: Script, enforced: bool)
    requires key in w.resources
    ensures
      var (after, ok) := Update(w, key, condition, reason, message, sc, enforced);
      var same := w.resources[key].conditions == Conditions(condition, reason, message, sc.compared);
      var refused := sc.statusFails || (enforced && !ReasonsOk(Conditions(condition, reason, message, sc.written)));
      && (ok <==> same || !refused)
      && (same || refused ==> after == w)
      && (!same && !refused ==> StatusIs(after, key, Conditions(condition, reason, message, sc.written)))
  {
    hide Conditions;
    hide ReasonsOk;
  }

  /**
   A request for a resource not named "metallb" never asks for a retry and changes nothing but that
   resource's conditions; unless the write fails these say Degraded, for the wrong name.
   */
  lemma WrongNameMeaning(op: Operator, key: Key, w: World, sc: Script, enforced: bool)
    requires !sc.getFails && key in w.resources && key.name != "metallb"
    ensures
      var (after, r) := Reconcile(op, key, w, sc, enforced);
      && r == Return(0, false)
      && after == w.(resources := after.resources) && after.resources.Keys == w.resources.Keys
      && (forall k :: k in w.resources && k != key ==> after.resources[k] == w.resources[k])
      && (sc.statusFails ==> after == w)
      && (!sc.statusFails ==> exists now ::
            StatusIs(after, key, Conditions("Degraded", "IncorrectMetalLBResourceName", sc.message, now)))
  {
    KnownReasons();
    ConditionsMeaning(Degraded, IncorrectName, sc.message, sc.written);
    UpdateMeaning(w, key, Degraded, IncorrectName, sc.message, sc, enforced);
    UpdateKeepsSpecs(w, key, Degraded, IncorrectName, sc.message, sc, enforced);
    hide Conditions;
    hide ReasonsOk;
    hide Update;
    var after := Reconcile(op, key, w, sc, enforced).0;
    assert StatusIs(w, key, Conditions(Degraded, IncorrectName, sc.message, sc.compared))
        || sc.statusFails || StatusIs(after, key, Conditions(Degraded, IncorrectName, sc.message, sc.written));
  }

  /**
   What a request for the managed resource returns: two minutes without support; else an error, only
   when the status could not be written, or else five seconds while a rollout is pending and nothing when
   it is done or failed.
   */
  lemma ReturnMeaning(op: Operator, key: Key, w: World, sc: Script, enforced: bool)
    requires !sc.getFails && key in w.resources && key.name == "metallb"
    ensures
      var outcome, r := Sync(op, w.resources[key], w, sc).1, Reconcile(op, key, w, sc, enforced).1;
      && (outcome == NoSupport ==> r == Return(120, false))
      && (outcome != NoSupport ==>
            || r == Return(0, true)
            || r == Return(if outcome == Synced && RolloutPending(w, key.namespace, sc) then 5 else 0, false))
      && (r.err ==> sc.statusFails || (enforced && MustRetry(op, key, w, sc)))
  {
    var (synced, outcome) := Sync(op, w.resources[key], w, sc);
    SyncKeepsResources(op, w.resources[key], w, sc);
    VerdictMeaning(outcome, w, synced, key.namespace, sc);
    RolloutMeaning(w, key.namespace, sc);
    RolloutMeaning(synced, key.namespace, sc);
    hide Sync;
    var v := VerdictOf(outcome, synced, key.namespace, sc);
    hide VerdictOf;
    hide IsMetalLBAvailable;
    if v.condition != "" {
      KnownReasons();
      ConditionsMeaning(v.condition, if v.err then InternalError else v.condition,
                        if v.err then sc.message else "", sc.written);
      UpdateMeaning(synced, key, v.condition, if v.err then InternalError else v.condition,
                    if v.err then sc.message else "", sc, enforced);
    }
    hide Conditions;
    hide ReasonsOk;
    hide ReasonOk;
    hide Update;
    hide RolloutPending;
    hide RolloutUnread;
    hide RolloutSeen;
  }
}
