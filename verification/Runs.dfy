/** Whole runs: any interleaving of reconcile requests with what users and other clients do. */
module Runs {
  import opened Api
  import opened Clusters
  import opened Convergence
  import opened JsonTrees
  import opened Reconciling
  import opened Status
  import opened Wrappers

  datatype Event =
    | Request(key: Key, sc: Script)
    | EditResource(edited: Key, uid: string, spec: Spec)
    | RemoveResource(removed: Key)
    | OutsideDelete(id: Id)
    | OutsideWrite(written: Id, obj: Manifest)
    | NetworkWrite(providers: Option<seq<string>>)
    | Rollout(daemonSets: map<Key, DaemonSet>, deployments: map<Key, Deployment>)
    | StatusWrite(target: Key, conditions: seq<Condition>)

  /** One event. `enforced` is whether the API server checks reasons against the CRD's pattern. */
  function Next(op: Operator, w: World, e: Event, enforced: bool): World {
    match e
    case Request(key, sc) => Reconcile(op, key, w, sc, enforced).0
    case EditResource(key, uid, spec) =>
      var conditions := if key in w.resources && w.resources[key].uid == uid then w.resources[key].conditions else [];
      w.(resources := w.resources[key := MetalLB(uid, spec, conditions)])
    case RemoveResource(key) => w.(resources := w.resources - {key})
    case OutsideDelete(id) => w.(objects := w.objects - {id})
    case OutsideWrite(id, obj) => w.(objects := w.objects[id := obj])
    case NetworkWrite(providers) =>
      if w.network.None? then w else w.(network := Some(OtherWrite(w.network.value, providers)))
    case Rollout(daemonSets, deployments) => w.(daemonSets := daemonSets, deployments := deployments)
    case StatusWrite(key, conditions) =>
      if key !in w.resources || (enforced && !ReasonsOk(conditions)) then w
      else w.(resources := w.resources[key := w.resources[key].(conditions := conditions)])
  }

  function After(op: Operator, w: World, events: seq<Event>, enforced: bool): World
    decreases |events|
  {
    if events == [] then w else After(op, Next(op, w, events[0], enforced), events[1..], enforced)
  }

  /** A reconcile changes resources only by writing the conditions of the one it was asked about. */
  lemma ReconcileKeepsSpecs(op: Operator, key: Key, w: World, sc: Script, enforced: bool)
    ensures
      var w' := Reconcile(op, key, w, sc, enforced).0;
      && w'.resources.Keys == w.resources.Keys
      && (forall k :: k in w.resources ==>
            w'.resources[k].uid == w.resources[k].uid && w'.resources[k].spec == w.resources[k].spec)
      && (forall k :: k in w.resources && k != key ==> w'.resources[k] == w.resources[k])
      && w'.daemonSets == w.daemonSets && w'.deployments == w.deployments
  {
    ReconcileShape(op, key, w, sc, enforced);
    hide Reconcile;
  }

  lemma ReconcileShape(op: Operator, key: Key, w: World, sc: Script, enforced: bool)
    ensures
      var w' := Reconcile(op, key, w, sc, enforced).0;
      && w' == w.(network := w'.network, objects := w'.objects, resources := w'.resources)
      && (w'.resources == w.resources
          || (key in w.resources && key in w'.resources
              && w'.resources == w.resources[key := w.resources[key].(conditions := w'.resources[key].conditions)]))
  {
    hide Conditions;
    if !sc.getFails && key in w.resources && key.name == DefaultName {
      var cr := w.resources[key];
      SyncKeepsResources(op, cr, w, sc);
      hide Sync;
      hide VerdictOf;
      var (synced, outcome) := Sync(op, cr, w, sc);
      ReportKeepsSpecs(key, synced, VerdictOf(outcome, synced, key.namespace, sc), sc, enforced);
      hide Report;
    } else if !sc.getFails && key in w.resources {
      UpdateKeepsSpecs(w, key, Degraded, IncorrectName, sc.message, sc, enforced);
      hide Update;
    }
  }

  /** Objects and Network change only as the sync of a request for the managed resource changes them. */
  lemma ReconcileEffect(op: Operator, key: Key, w: World, sc: Script, enforced: bool)
    ensures
      var w' := Reconcile(op, key, w, sc, enforced).0;
      && (w'.objects == w.objects
          || (key in w.resources && key.name == DefaultName
              && w'.objects == SyncObjects(op, w.resources[key], w.objects, sc).0))
      && (w'.network == w.network || w'.network == DeployFRRK8s(w.network, sc).0)
    ensures !sc.getFails && key in w.resources && key.name == DefaultName ==>
      var w' := Reconcile(op, key, w, sc, enforced).0;
      var synced := Sync(op, w.resources[key], w, sc).0;
      w'.objects == synced.objects && w'.network == synced.network
  {
    hide Update;
    hide VerdictOf;
    hide DeployFRRK8s;
    hide SyncObjects;
    if !sc.getFails && key in w.resources && key.name == DefaultName {
      var cr := w.resources[key];
      var (synced, outcome) := Sync(op, cr, w, sc);
      ReportKeepsSpecs(key, synced, VerdictOf(outcome, synced, key.namespace, sc), sc, enforced);
    } else if !sc.getFails && key in w.resources {
      UpdateKeepsSpecs(w, key, Degraded, IncorrectName, sc.message, sc, enforced);
    }
  }

  lemma SyncKeepsResources(op: Operator, cr: MetalLB, w: World, sc: Script)
    ensures
      var synced := Sync(op, cr, w, sc).0;
      synced == w.(network := synced.network, objects := synced.objects)
  {
    hide DeployFRRK8s;
    hide SyncObjects;
  }

  lemma UpdateKeepsSpecs(w: World, key: Key, condition: string, reason: string, message: string, sc: Script,
                         enforced: bool)
    requires key in w.resources
    ensures
      var w' := Update(w, key, condition, reason, message, sc, enforced).0;
      || w' == w
      || w' == w.(resources := w.resources[key :=
           w.resources[key].(conditions := Conditions(condition, reason, message, sc.written))])
  {
  }

  lemma ReportKeepsSpecs(key: Key, synced: World, v: Verdict, sc: Script, enforced: bool)
    requires key in synced.resources
    ensures
      var w' := Report(key, synced, v, sc, enforced).0;
      || w' == synced
      || w' == synced.(resources := synced.resources[key :=
           synced.resources[key].(conditions := w'.resources[key].conditions)])
  {
  }

  // ---- Convergence over runs ----

  /** The FRR-K8s chart renders the same identities whatever the resource asks for. */
  ghost predicate FixedFRRK8SIds(op: Operator, ids: set<Id>) {
    forall spec :: op.frrk8s.Manifests(op.env, spec).Ok? ==>
      ids == set m | m in op.frrk8s.Manifests(op.env, spec).value :: IdOf(m)
  }

  /**
   After any run whatever, one request whose sync is valid and whose calls all succeed leaves the store
   as the resource then asks for; outside frr-k8s mode, of everything the FRR-K8s chart ever rendered, for
   any earlier resource, only what the MetalLB chart applies itself is there.
   */
  lemma ConvergesAfterAnyRun(op: Operator, w: World, events: seq<Event>, key: Key, sc: Script, enforced: bool,
                             ids: set<Id>,
                             frrk8s: seq<Manifest>, metallb: seq<Manifest>)
    requires FixedFRRK8SIds(op, ids)
    requires
      var before := After(op, w, events, enforced);
      && key in before.resources && key.name == DefaultName && !sc.getFails
      && Renders(op, before.resources[key], frrk8s, metallb) && Valid(op, before.resources[key], sc)
      && Sync(op, before.resources[key], before, sc).1 == Synced
    ensures
      var cr := After(op, w, events, enforced).resources[key];
      var after := After(op, w, events + [Request(key, sc)], enforced).objects;
      && Converged(op, cr, frrk8s, metallb, after)
      && (BGPType(cr.spec, op.env) != FRRK8sMode ==>
            forall id :: id in ids ==> (id in after <==> exists m :: m in metallb && !IsRBAC(m) && IdOf(m) == id))
  {
    AfterSnoc(op, w, events, Request(key, sc), enforced);
    var before := After(op, w, events, enforced);
    RequestConverges(op, before, key, sc, enforced, frrk8s, metallb);
    FixedIdsLeft(op, before.resources[key], ids, frrk8s, metallb, Next(op, before, Request(key, sc), enforced).objects);
    hide Reconcile;
    hide Sync;
    hide Renders;
    hide Valid;
    hide Converged;
    hide FixedFRRK8SIds;
  }

  lemma RequestConverges(op: Operator, w: World, key: Key, sc: Script, enforced: bool, frrk8s: seq<Manifest>,
                         metallb: seq<Manifest>)
    requires key in w.resources && key.name == DefaultName && !sc.getFails
    requires Renders(op, w.resources[key], frrk8s, metallb) && Valid(op, w.resources[key], sc)
    requires Sync(op, w.resources[key], w, sc).1 == Synced
    ensures Converged(op, w.resources[key], frrk8s, metallb, Next(op, w, Request(key, sc), enforced).objects)
  {
    ReconcileEffect(op, key, w, sc, enforced);
    hide Reconcile;
    hide Renders;
    hide Valid;
    hide Converged;
    SyncedObjects(op, w.resources[key], w, sc);
    hide Sync;
    SyncConverges(op, w.resources[key], w.objects, sc, frrk8s, metallb);
  }

  lemma SyncedObjects(op: Operator, cr: MetalLB, w: World, sc: Script)
    requires Sync(op, cr, w, sc).1 == Synced
    ensures (Sync(op, cr, w, sc).0.objects, Synced) == SyncObjects(op, cr, w.objects, sc)
  {
  }

  lemma FixedIdsLeft(op: Operator, cr: MetalLB, ids: set<Id>, frrk8s: seq<Manifest>, metallb: seq<Manifest>,
                     objects: Store)
    requires FixedFRRK8SIds(op, ids) && Renders(op, cr, frrk8s, metallb) && Converged(op, cr, frrk8s, metallb, objects)
    ensures BGPType(cr.spec, op.env) != FRRK8sMode ==>
      forall id :: id in ids ==> (id in objects <==> exists m :: m in metallb && !IsRBAC(m) && IdOf(m) == id)
  {
    assert ids == set m | m in frrk8s :: IdOf(m);
    if BGPType(cr.spec, op.env) != FRRK8sMode {
      assert forall f :: f in frrk8s ==>
        (IdOf(f) in objects <==> exists m :: m in metallb && !IsRBAC(m) && IdOf(m) == IdOf(f));
      hide IdOf;
    }
  }

  lemma {:induction false} AfterSnoc(op: Operator, w: World, events: seq<Event>, e: Event, enforced: bool)
    ensures After(op, w, events + [e], enforced) == Next(op, After(op, w, events, enforced), e, enforced)
    decreases |events|
  {
    if events == [] {
      assert ([] + [e])[1..] == [];
    } else {
      assert (events + [e])[1..] == events[1..] + [e];
      AfterSnoc(op, Next(op, w, events[0], enforced), events[1..], e, enforced);
    }
  }

  /** Nobody edits the managed resource, and nobody but the operator changes objects. */
  predicate Calm(e: Event, key: Key) {
    match e
    case Request(k, _) => k.name == DefaultName ==> k == key
    case EditResource(k, _, _) => k != key
    case RemoveResource(k) => k != key
    case OutsideDelete(_) => false
    case OutsideWrite(_, _) => false
    case _ => true
  }

  /**
   Over any calm run, with reconciles failing anywhere in between, an object that was right stays as it
   was, unless the charts share it (see ConvergedSurvives, which shows the exception to be exact); so
   with nothing shared a store that had converged is never changed again.
   */
  lemma {:induction false} CalmRunsProgress(op: Operator, w: World, events: seq<Event>, key: Key, enforced: bool,
                                            frrk8s: seq<Manifest>, metallb: seq<Manifest>)
    requires key in w.resources && key.name == DefaultName && Renders(op, w.resources[key], frrk8s, metallb)
    requires forall e :: e in events ==> Calm(e, key)
    ensures
      var cr, after := w.resources[key], After(op, w, events, enforced);
      && Undisturbed(op, cr, frrk8s, metallb, w.objects, after.objects)
      && key in after.resources && after.resources[key].uid == cr.uid && after.resources[key].spec == cr.spec
      && (WrongIds(w.objects, Calls(op, cr, frrk8s, metallb)) == {} && SharedIds(op, cr, frrk8s, metallb) == {} ==>
            after.objects == w.objects)
    decreases |events|
  {
    if events != [] {
      var w' := Next(op, w, events[0], enforced);
      CalmStep(op, w, events[0], key, enforced, frrk8s, metallb);
      SameSync(op, w.resources[key], w'.resources[key], frrk8s, metallb);
      CalmRunsProgress(op, w', events[1..], key, enforced, frrk8s, metallb);
      UndisturbedTwice(op, w.resources[key], frrk8s, metallb, w.objects, w'.objects,
                       After(op, w, events, enforced).objects);
    }
    UndisturbedIsSame(op, w.resources[key], frrk8s, metallb, w.objects, After(op, w, events, enforced).objects);
    hide Next;
    hide Calls;
    hide SharedIds;
    hide Renders;
    hide WrongIds;
    hide Undisturbed;
  }

  /** Only objects that were wrong or that the charts share may differ or be wrong. */
  ghost predicate Undisturbed(op: Operator, cr: MetalLB, frrk8s: seq<Manifest>, metallb: seq<Manifest>, before: Store,
                              after: Store) {
    var calls := Calls(op, cr, frrk8s, metallb);
    var open := WrongIds(before, calls) + SharedIds(op, cr, frrk8s, metallb);
    WrongIds(after, calls) <= open && forall id :: id !in open ==> SameAt(after, before, id)
  }

  lemma UndisturbedTwice(op: Operator, cr: MetalLB, frrk8s: seq<Manifest>, metallb: seq<Manifest>, a: Store, b: Store,
                         c: Store)
    requires Undisturbed(op, cr, frrk8s, metallb, a, b) && Undisturbed(op, cr, frrk8s, metallb, b, c)
    ensures Undisturbed(op, cr, frrk8s, metallb, a, c)
  {
    hide Calls;
    hide SharedIds;
    hide WrongIds;
    var open := WrongIds(a, Calls(op, cr, frrk8s, metallb)) + SharedIds(op, cr, frrk8s, metallb);
    forall id | id !in open ensures SameAt(c, a, id) {
      assert SameAt(b, a, id) && SameAt(c, b, id);
    }
  }

  lemma UndisturbedIsSame(op: Operator, cr: MetalLB, frrk8s: seq<Manifest>, metallb: seq<Manifest>, before: Store,
                          after: Store)
    requires Undisturbed(op, cr, frrk8s, metallb, before, after)
    ensures WrongIds(before, Calls(op, cr, frrk8s, metallb)) == {} && SharedIds(op, cr, frrk8s, metallb) == {} ==>
      after == before
  {
    hide Calls;
    hide SharedIds;
    hide WrongIds;
    if WrongIds(before, Calls(op, cr, frrk8s, metallb)) == {} && SharedIds(op, cr, frrk8s, metallb) == {} {
      SameStore(after, before);
    }
  }

  lemma CalmStep(op: Operator, w: World, e: Event, key: Key, enforced: bool, frrk8s: seq<Manifest>,
                 metallb: seq<Manifest>)
    requires key in w.resources && key.name == DefaultName && Renders(op, w.resources[key], frrk8s, metallb)
    requires Calm(e, key)
    ensures
      var w' := Next(op, w, e, enforced);
      && Undisturbed(op, w.resources[key], frrk8s, metallb, w.objects, w'.objects)
      && key in w'.resources
      && w'.resources[key].uid == w.resources[key].uid && w'.resources[key].spec == w.resources[key].spec
  {
    hide Reconcile;
    hide Calls;
    hide SharedIds;
    hide Renders;
    hide WrongIds;
    if e.Request? {
      ReconcileKeepsSpecs(op, e.key, w, e.sc, enforced);
      ReconcileEffect(op, e.key, w, e.sc, enforced);
      SyncProgresses(op, w.resources[key], w.objects, e.sc, frrk8s, metallb);
      hide SyncObjects;
    }
  }

  /** What a sync does depends on the resource's spec and uid, not on its status. */
  lemma SameSync(op: Operator, a: MetalLB, b: MetalLB, frrk8s: seq<Manifest>, metallb: seq<Manifest>)
    requires a.uid == b.uid && a.spec == b.spec
    ensures Calls(op, a, frrk8s, metallb) == Calls(op, b, frrk8s, metallb)
    ensures SharedIds(op, a, frrk8s, metallb) == SharedIds(op, b, frrk8s, metallb)
    ensures Renders(op, a, frrk8s, metallb) ==> Renders(op, b, frrk8s, metallb)
  {
    SamePuts(a, b, frrk8s);
    SamePuts(a, b, metallb);
    SameShared(op, a, b, frrk8s, metallb);
    hide SharedIds;
    hide Puts;
  }

  lemma SameShared(op: Operator, a: MetalLB, b: MetalLB, frrk8s: seq<Manifest>, metallb: seq<Manifest>)
    requires a.uid == b.uid && a.spec == b.spec
    ensures SharedIds(op, a, frrk8s, metallb) == SharedIds(op, b, frrk8s, metallb)
  {
    forall f, m ensures Shared(op, a, f, m) == Shared(op, b, f, m) {
      assert AsApplied(f, a) == AsApplied(f, b) && AsApplied(m, a) == AsApplied(m, b);
    }
    hide Shared;
  }

  lemma {:induction false} SamePuts(a: MetalLB, b: MetalLB, objs: seq<Manifest>)
    requires a.uid == b.uid
    ensures Puts(objs, a) == Puts(objs, b)
  {
    if objs != [] {
      SamePuts(a, b, objs[1..]);
    }
  }

  // ---- Retries ----

  /** Every stored reason matches the CRD's pattern. */
  predicate StoredReasonsOk(w: World) {
    forall key :: key in w.resources ==> ReasonsOk(w.resources[key].conditions)
  }

  lemma {:induction false} ReasonsStayOk(op: Operator, w: World, events: seq<Event>)
    requires StoredReasonsOk(w)
    ensures StoredReasonsOk(After(op, w, events, true))
    decreases |events|
  {
    if events != [] {
      NextReasonsOk(op, w, events[0]);
      hide Next;
      ReasonsStayOk(op, Next(op, w, events[0], true), events[1..]);
    }
  }

  lemma NextReasonsOk(op: Operator, w: World, e: Event)
    requires StoredReasonsOk(w)
    ensures StoredReasonsOk(Next(op, w, e, true))
  {
    assert ReasonsOk([]);
    hide ReasonsOk;
    if e.Request? {
      ReconcileReasonsOk(op, e.key, w, e.sc);
      hide Reconcile;
    }
  }

  lemma ReconcileReasonsOk(op: Operator, key: Key, w: World, sc: Script)
    requires StoredReasonsOk(w)
    ensures StoredReasonsOk(Reconcile(op, key, w, sc, true).0)
  {
    hide ReasonsOk;
    hide Conditions;
    hide VerdictOf;
    if !sc.getFails && key in w.resources && key.name == DefaultName {
      SyncKeepsResources(op, w.resources[key], w, sc);
      hide Sync;
    }
  }

  /** The outcomes after which the operator must try again: the sync failed, or rollout could not be read. */
  predicate MustRetry(op: Operator, key: Key, w: World, sc: Script)
    requires key in w.resources
  {
    var (synced, outcome) := Sync(op, w.resources[key], w, sc);
    outcome == SyncFailed || (outcome == Synced && IsMetalLBAvailable(synced, key.namespace, sc) == ReadFailed)
  }

  /**
   The error of a failed reconcile reaches the workqueue only because the status write carrying the
   reason "internal error" is refused: it is reported if and only if the pattern is enforced or that
   write fails for another reason.
   */
  lemma FailureReported(op: Operator, key: Key, w: World, sc: Script, enforced: bool)
    requires StoredReasonsOk(w)
    requires !sc.getFails && key in w.resources && key.name == DefaultName && MustRetry(op, key, w, sc)
    ensures Reconcile(op, key, w, sc, enforced).1.err <==> enforced || sc.statusFails
    ensures Reconcile(op, key, w, sc, enforced).1.err || Reconcile(op, key, w, sc, enforced).1 == Return(0, false)
  {
    SyncKeepsResources(op, w.resources[key], w, sc);
    hide Sync;
    var (synced, outcome) := Sync(op, w.resources[key], w, sc);
    var v := VerdictOf(outcome, synced, key.namespace, sc);
    ReportOfFailure(key, synced, v, sc, enforced);
    hide Report;
  }

  lemma ReportOfFailure(key: Key, synced: World, v: Verdict, sc: Script, enforced: bool)
    requires key in synced.resources && ReasonsOk(synced.resources[key].conditions)
    requires v.err && v.condition in {Degraded, Progressing} && v.requeueAfter == 0
    ensures Report(key, synced, v, sc, enforced).1 == Return(0, enforced || sc.statusFails)
  {
    KnownReasons();
    ConditionsMeaning(v.condition, InternalError, sc.message, sc.compared);
    ConditionsMeaning(v.condition, InternalError, sc.message, sc.written);
    hide Conditions;
    hide ReasonsOk;
  }

  /** With the pattern enforced, no run ever reaches a point where a failed reconcile is forgotten. */
  lemma RetryNeverLost(op: Operator, w: World, events: seq<Event>, key: Key, sc: Script)
    requires StoredReasonsOk(w)
    requires
      var before := After(op, w, events, true);
      !sc.getFails && key in before.resources && key.name == DefaultName && MustRetry(op, key, before, sc)
    ensures Reconcile(op, key, After(op, w, events, true), sc, true).1.err
  {
    ReasonsStayOk(op, w, events);
    FailureReported(op, key, After(op, w, events, true), sc, true);
  }

  /**
   When a request for the managed resource asks for no retry at all, its sync had nothing to complain
   about and both workloads were fully rolled out.
   */
  lemma QuietMeansRolledOut(op: Operator, w: World, events: seq<Event>, key: Key, sc: Script)
    requires StoredReasonsOk(w)
    requires
      var before := After(op, w, events, true);
      key in before.resources && key.name == DefaultName && Reconcile(op, key, before, sc, true).1 == Return(0, false)
    ensures
      var before := After(op, w, events, true);
      !sc.getFails && Sync(op, before.resources[key], before, sc).1 == Synced && RolloutSeen(before, key.namespace, sc)
  {
    var before := After(op, w, events, true);
    if MustRetry(op, key, before, sc) {
      RetryNeverLost(op, w, events, key, sc);
    }
  }

  /** Both charts return objects under identities that differ pairwise, whenever they return any. */
  predicate DistinctCharts(op: Operator, cr: MetalLB) {
    var f, m := op.frrk8s.Manifests(op.env, cr.spec), op.metallb.Manifests(op.env, cr.spec);
    (f.Ok? ==> DistinctIds(f.value)) && (m.Ok? ==> DistinctIds(m.value))
  }

  /** A sync that returns nil converged, unless the resource failed Validate: then it changed nothing. */
  ghost predicate SoundSync(op: Operator, cr: MetalLB, sc: Script, before: Store, after: Store) {
    if Validate(cr.spec, sc.externalNamespace)
    then exists frrk8s, metallb :: Renders(op, cr, frrk8s, metallb) && Converged(op, cr, frrk8s, metallb, after)
    else after == before
  }

  lemma SyncedIsSound(op: Operator, w: World, key: Key, sc: Script, enforced: bool)
    requires key in w.resources && key.name == DefaultName && !sc.getFails && DistinctCharts(op, w.resources[key])
    requires Sync(op, w.resources[key], w, sc).1 == Synced
    ensures SoundSync(op, w.resources[key], sc, w.objects, Reconcile(op, key, w, sc, enforced).0.objects)
  {
    var cr := w.resources[key];
    ReconcileEffect(op, key, w, sc, enforced);
    SyncedObjects(op, cr, w, sc);
    hide Reconcile;
    hide Sync;
    hide DistinctIds;
    hide Converged;
    if Validate(cr.spec, sc.externalNamespace) {
      SyncConverges(op, cr, w.objects, sc, op.frrk8s.Manifests(op.env, cr.spec).value,
                    op.metallb.Manifests(op.env, cr.spec).value);
    }
  }

  /**
   At every point of every enforced run: when a request for the managed resource asks for no retry, both
   workloads were rolled out and the store is what the resource asks for, unless it failed Validate.
   */
  lemma QuietMeansConverged(op: Operator, w: World, events: seq<Event>, key: Key, sc: Script)
    requires StoredReasonsOk(w)
    requires
      var before := After(op, w, events, true);
      && key in before.resources && key.name == DefaultName && DistinctCharts(op, before.resources[key])
      && Reconcile(op, key, before, sc, true).1 == Return(0, false)
    ensures
      var before, after := After(op, w, events, true), After(op, w, events + [Request(key, sc)], true);
      RolloutSeen(before, key.namespace, sc) && SoundSync(op, before.resources[key], sc, before.objects, after.objects)
  {
    QuietMeansRolledOut(op, w, events, key, sc);
    AfterSnoc(op, w, events, Request(key, sc), true);
    SyncedIsSound(op, After(op, w, events, true), key, sc, true);
    hide Reconcile;
    hide SoundSync;
  }

  /**
   When Available is to be trusted: a request that writes Available found both workloads rolled
   out and left the store as the resource asks, unless the resource failed Validate.
   */
  lemma AvailableMeansConverged(op: Operator, key: Key, w: World, sc: Script, enforced: bool, reason: string,
                                message: string)
    requires key in w.resources && DistinctCharts(op, w.resources[key])
    requires Reconcile(op, key, w, sc, enforced).0.resources != w.resources
    requires StatusIs(Reconcile(op, key, w, sc, enforced).0, key, Conditions(Available, reason, message, sc.written))
    ensures key.name == DefaultName && RolloutSeen(w, key.namespace, sc)
    ensures SoundSync(op, w.resources[key], sc, w.objects, Reconcile(op, key, w, sc, enforced).0.objects)
  {
    WrittenStatus(op, key, w, sc, enforced);
    assert Conditions(Available, reason, message, sc.written)[0].status;
    assert !sc.getFails;
    hide Reconcile;
    hide SoundSync;
    hide RolloutSeen;
    hide Sync;
    SyncedIsSound(op, w, key, sc, enforced);
  }

  /** Without support in the network operator nothing is changed at all, and the request comes back in two minutes. */
  lemma UnsupportedWaits(op: Operator, key: Key, w: World, sc: Script, enforced: bool)
    requires !sc.getFails && key in w.resources && key.name == DefaultName
    requires FromNetworkOperator(w.resources[key].spec, op.env) && sc.support == Lacks
    ensures Reconcile(op, key, w, sc, enforced) == (w, Return(120, false))
  {
  }

  /**
   A resource that fails Validate is left as it is, yet reported Available as soon as the workloads of an
   earlier resource are rolled out: the sync returns nil for it.
   */
  lemma InvalidReportedAvailable(op: Operator, key: Key, w: World, sc: Script, enforced: bool)
    requires !sc.getFails && key in w.resources && key.name == DefaultName && !sc.statusFails
    requires !Validate(w.resources[key].spec, sc.externalNamespace)
    requires !FromNetworkOperator(w.resources[key].spec, op.env)
    requires RolloutSeen(w, key.namespace, sc)
    ensures
      var (after, r) := Reconcile(op, key, w, sc, enforced);
      && after.objects == w.objects && r == Return(0, false)
      && exists now :: StatusIs(after, key, Conditions(Available, Available, "", now))
  {
    var (synced, outcome) := Sync(op, w.resources[key], w, sc);
    assert synced == w && outcome == Synced;
    hide Sync;
    KnownReasons();
    ConditionsMeaning(Available, Available, "", sc.written);
    hide Conditions;
    hide ReasonsOk;
    var after := Reconcile(op, key, w, sc, enforced).0;
    assert StatusIs(after, key, Conditions(Available, Available, "", sc.compared))
        || StatusIs(after, key, Conditions(Available, Available, "", sc.written));
  }

  // ---- Status ----

  predicate StatusIs(w: World, key: Key, conditions: seq<Condition>) {
    key in w.resources && w.resources[key].conditions == conditions
  }

  predicate SpeakerRead(w: World, namespace: string, sc: Script) {
    !sc.daemonSetGetFails && Key(namespace, "speaker") in w.daemonSets
  }

  predicate ControllerRead(w: World, namespace: string, sc: Script) {
    !sc.deploymentGetFails && Key(namespace, "controller") in w.deployments
  }

  predicate SpeakerDone(w: World, namespace: string, sc: Script) {
    SpeakerRead(w, namespace, sc) && DaemonSetDone(w.daemonSets[Key(namespace, "speaker")])
  }

  predicate ControllerDone(w: World, namespace: string, sc: Script) {
    ControllerRead(w, namespace, sc) && DeploymentDone(w.deployments[Key(namespace, "controller")])
  }

  /** Both workloads could be read and were fully rolled out. */
  predicate RolloutSeen(w: World, namespace: string, sc: Script) {
    SpeakerDone(w, namespace, sc) && ControllerDone(w, namespace, sc)
  }

  /** A workload was read and is not done; the controller is looked at once the speaker is. */
  predicate RolloutPending(w: World, namespace: string, sc: Script) {
    || (SpeakerRead(w, namespace, sc) && !SpeakerDone(w, namespace, sc))
    || (SpeakerDone(w, namespace, sc) && ControllerRead(w, namespace, sc) && !ControllerDone(w, namespace, sc))
  }

  /** A workload could not be read. */
  predicate RolloutUnread(w: World, namespace: string, sc: Script) {
    !SpeakerRead(w, namespace, sc) || (SpeakerDone(w, namespace, sc) && !ControllerRead(w, namespace, sc))
  }

  /** What the two reads and the counts make of the rollout; exactly one of the three holds. */
  lemma RolloutMeaning(w: World, namespace: string, sc: Script)
    ensures IsMetalLBAvailable(w, namespace, sc) == Ready <==> RolloutSeen(w, namespace, sc)
    ensures IsMetalLBAvailable(w, namespace, sc) == NotReady <==> RolloutPending(w, namespace, sc)
    ensures IsMetalLBAvailable(w, namespace, sc) == ReadFailed <==> RolloutUnread(w, namespace, sc)
  {
  }

  /** The whole table: the condition asked for, whether it carries an error, and when to come back. */
  lemma VerdictMeaning(outcome: Outcome, w: World, synced: World, namespace: string, sc: Script)
    requires synced.daemonSets == w.daemonSets && synced.deployments == w.deployments
    ensures
      var v := VerdictOf(outcome, synced, namespace, sc);
      && (v.condition == "" <==> outcome == NoSupport)
      && (v.condition == "Degraded" <==> outcome == SyncFailed)
      && (v.condition == "Available" <==> outcome == Synced && RolloutSeen(w, namespace, sc))
      && (v.condition == "Progressing" <==> outcome == Synced && !RolloutSeen(w, namespace, sc))
      && (v.err <==> outcome == SyncFailed || (outcome == Synced && RolloutUnread(w, namespace, sc)))
      && (v.requeueAfter == 120 <==> outcome == NoSupport)
      && (v.requeueAfter == 5 <==> outcome == Synced && RolloutPending(w, namespace, sc))
      && (v.requeueAfter == 0 <==> v.err || v.condition == "Available")
  {
    RolloutMeaning(w, namespace, sc);
  }

  /**
   Whatever Reconcile writes to a status is a list of conditions for Available, Progressing or Degraded
   (see ConditionsMeaning). It is Degraded for a wrong name and after a failed sync, Available after a
   sync that returned nil with both workloads rolled out, Progressing after one without; the reason is
   "internal error" exactly when the sync failed or a workload could not be read.
   */
  lemma WrittenStatus(op: Operator, key: Key, w: World, sc: Script, enforced: bool)
    requires key in w.resources
    requires Reconcile(op, key, w, sc, enforced).0.resources != w.resources
    ensures exists desired, reason, message ::
      && StatusIs(Reconcile(op, key, w, sc, enforced).0, key, Conditions(desired, reason, message, sc.written))
      && Written(key, w, Sync(op, w.resources[key], w, sc).1, sc, desired, reason, message)
  {
    if key.name != DefaultName {
      UpdateKeepsSpecs(w, key, Degraded, IncorrectName, sc.message, sc, enforced);
      hide Conditions;
      assert StatusIs(Reconcile(op, key, w, sc, enforced).0, key,
                      Conditions(Degraded, IncorrectName, sc.message, sc.written));
      WrittenForName(key, w, Sync(op, w.resources[key], w, sc).1, sc);
      hide Written;
    } else {
      var desired, reason, message := ManagedStatus(op, key, w, sc, enforced);
      hide Written;
      hide Reconcile;
      hide Conditions;
      hide Sync;
    }
  }

  lemma ManagedStatus(op: Operator, key: Key, w: World, sc: Script, enforced: bool)
    returns (desired: string, reason: string, message: string)
    requires key in w.resources && key.name == DefaultName
    requires Reconcile(op, key, w, sc, enforced).0.resources != w.resources
    ensures StatusIs(Reconcile(op, key, w, sc, enforced).0, key, Conditions(desired, reason, message, sc.written))
    ensures Written(key, w, Sync(op, w.resources[key], w, sc).1, sc, desired, reason, message)
  {
    hide Conditions;
    SyncKeepsResources(op, w.resources[key], w, sc);
    hide Sync;
    var (synced, outcome) := Sync(op, w.resources[key], w, sc);
    var v := VerdictOf(outcome, synced, key.namespace, sc);
    desired, reason := v.condition, if v.err then InternalError else v.condition;
    message := if v.err then sc.message else "";
    NoSupportNoCondition(outcome, synced, key.namespace, sc);
    hide VerdictOf;
    if v.condition != "" {
      WrittenForVerdict(key, w, synced, outcome, sc);
      UpdateKeepsSpecs(synced, key, v.condition, reason, message, sc, enforced);
    }
    hide Written;
  }

  lemma NoSupportNoCondition(outcome: Outcome, w: World, namespace: string, sc: Script)
    ensures VerdictOf(outcome, w, namespace, sc).condition == "" <==> outcome == NoSupport
  {
  }

  /** The condition, reason and message that belong in the status. */
  predicate Written(key: Key, w: World, outcome: Outcome, sc: Script,
                    desired: string, reason: string, message: string) {
    var managed, seen := key.name == "metallb", RolloutSeen(w, key.namespace, sc);
    && desired in {"Available", "Progressing", "Degraded"}
    && (desired == "Available" <==> managed && outcome == Synced && seen)
    && (desired == "Progressing" <==> managed && outcome == Synced && !seen)
    && (reason == "internal error" <==>
          managed && (outcome == SyncFailed || (outcome == Synced && RolloutUnread(w, key.namespace, sc))))
    && (reason == "IncorrectMetalLBResourceName" <==> !managed)
    && (reason in {"internal error", "IncorrectMetalLBResourceName"} || reason == desired)
    && message == if reason == desired then "" else sc.message
  }

  lemma WrittenForName(key: Key, w: World, outcome: Outcome, sc: Script)
    requires key.name != DefaultName
    ensures Written(key, w, outcome, sc, Degraded, IncorrectName, sc.message)
  {
    KnownReasons();
    hide RolloutSeen;
    hide RolloutUnread;
    hide ReasonOk;
  }

  lemma WrittenForVerdict(key: Key, w: World, synced: World, outcome: Outcome, sc: Script)
    requires key.name == DefaultName && outcome != NoSupport
    requires synced.daemonSets == w.daemonSets && synced.deployments == w.deployments
    ensures
      var v := VerdictOf(outcome, synced, key.namespace, sc);
      Written(key, w, outcome, sc, v.condition, if v.err then InternalError else v.condition,
              if v.err then sc.message else "")
  {
    VerdictMeaning(outcome, w, synced, key.namespace, sc);
    KnownReasons();
    hide RolloutSeen;
    hide RolloutUnread;
    hide RolloutPending;
    hide VerdictOf;
    hide ReasonOk;
    var v := VerdictOf(outcome, synced, key.namespace, sc);
    assert v.condition in {Available, Progressing, Degraded};
  }

  // ---- Other MetalLB resources ----

  predicate ForDefault(e: Event) {
    e.Request? ==> e.key.name == DefaultName
  }

  /** The run without the requests for wrongly named resources. */
  function OnlyDefault(events: seq<Event>): seq<Event> {
    if events == [] then []
    else if ForDefault(events[0]) then [events[0]] + OnlyDefault(events[1..])
    else OnlyDefault(events[1..])
  }

  /** Equal but for the conditions of wrongly named resources. */
  predicate SameForDefault(a: World, b: World) {
    && a.objects == b.objects && a.network == b.network
    && a.daemonSets == b.daemonSets && a.deployments == b.deployments
    && a.resources.Keys == b.resources.Keys
    && forall k :: k in a.resources ==>
         && a.resources[k].uid == b.resources[k].uid && a.resources[k].spec == b.resources[k].spec
         && (k.name == DefaultName ==> a.resources[k] == b.resources[k])
  }

  /**
   Requests for resources not named "metallb" leave no trace but their own conditions: every run ends as
   the run without them.
   */
  lemma {:induction false} NonInterference(op: Operator, a: World, b: World, events: seq<Event>, enforced: bool)
    requires SameForDefault(a, b)
    ensures SameForDefault(After(op, a, events, enforced), After(op, b, OnlyDefault(events), enforced))
    decreases |events|
  {
    if events != [] {
      var e := events[0];
      if ForDefault(e) {
        NextSame(op, a, b, e, enforced);
        assert ([e] + OnlyDefault(events[1..]))[1..] == OnlyDefault(events[1..]);
        NonInterference(op, Next(op, a, e, enforced), Next(op, b, e, enforced), events[1..], enforced);
      } else {
        OtherRequestSame(op, a, b, e.key, e.sc, enforced);
        NonInterference(op, Next(op, a, e, enforced), b, events[1..], enforced);
      }
      hide Reconcile;
      hide SameForDefault;
    }
  }

  lemma OtherRequestSame(op: Operator, a: World, b: World, key: Key, sc: Script, enforced: bool)
    requires SameForDefault(a, b) && key.name != DefaultName
    ensures SameForDefault(Reconcile(op, key, a, sc, enforced).0, b)
  {
    if !sc.getFails && key in a.resources {
      UpdateKeepsSpecs(a, key, Degraded, IncorrectName, sc.message, sc, enforced);
      hide Update;
    }
  }

  lemma NextSame(op: Operator, a: World, b: World, e: Event, enforced: bool)
    requires SameForDefault(a, b) && ForDefault(e)
    ensures SameForDefault(Next(op, a, e, enforced), Next(op, b, e, enforced))
  {
    if e.Request? {
      ReconcileSame(op, e.key, a, b, e.sc, enforced);
    } else {
      OtherEventSame(op, a, b, e, enforced);
    }
    hide Reconcile;
    hide SameForDefault;
  }

  lemma OtherEventSame(op: Operator, a: World, b: World, e: Event, enforced: bool)
    requires SameForDefault(a, b) && !e.Request?
    ensures SameForDefault(Next(op, a, e, enforced), Next(op, b, e, enforced))
  {
    if e.EditResource? {
      EditEventSame(op, a, b, e, enforced);
    } else if e.StatusWrite? {
      StatusWriteSame(op, a, b, e, enforced);
    } else if e.RemoveResource? {
      RemoveSame(op, a, b, e, enforced);
    } else {
      ElsewhereSame(op, a, b, e, enforced);
    }
    hide Next;
    hide SameForDefault;
  }

  /** Events that touch no MetalLB resource. */
  lemma ElsewhereSame(op: Operator, a: World, b: World, e: Event, enforced: bool)
    requires SameForDefault(a, b) && !e.Request? && !e.EditResource? && !e.StatusWrite? && !e.RemoveResource?
    ensures SameForDefault(Next(op, a, e, enforced), Next(op, b, e, enforced))
  {
  }

  lemma RemoveSame(op: Operator, a: World, b: World, e: Event, enforced: bool)
    requires SameForDefault(a, b) && e.RemoveResource?
    ensures SameForDefault(Next(op, a, e, enforced), Next(op, b, e, enforced))
  {
  }

  lemma EditEventSame(op: Operator, a: World, b: World, e: Event, enforced: bool)
    requires SameForDefault(a, b) && e.EditResource?
    ensures SameForDefault(Next(op, a, e, enforced), Next(op, b, e, enforced))
  {
    EditSame(a, b, e.edited, Next(op, a, e, enforced).resources[e.edited],
             Next(op, b, e, enforced).resources[e.edited]);
  }

  /** Storing a resource on both sides, alike but for the conditions of a wrongly named one. */
  lemma EditSame(a: World, b: World, key: Key, x: MetalLB, y: MetalLB)
    requires SameForDefault(a, b)
    requires x.uid == y.uid && x.spec == y.spec && (key.name == DefaultName ==> x == y)
    ensures SameForDefault(a.(resources := a.resources[key := x]), b.(resources := b.resources[key := y]))
  {
  }

  lemma StatusWriteSame(op: Operator, a: World, b: World, e: Event, enforced: bool)
    requires SameForDefault(a, b) && e.StatusWrite?
    ensures SameForDefault(Next(op, a, e, enforced), Next(op, b, e, enforced))
  {
    hide ReasonsOk;
    if e.target in a.resources {
      EditSame(a, b, e.target, a.resources[e.target].(conditions := e.conditions),
               b.resources[e.target].(conditions := e.conditions));
    }
  }

  lemma ReconcileSame(op: Operator, key: Key, a: World, b: World, sc: Script, enforced: bool)
    requires SameForDefault(a, b) && key.name == DefaultName
    ensures SameForDefault(Reconcile(op, key, a, sc, enforced).0, Reconcile(op, key, b, sc, enforced).0)
  {
    if !sc.getFails && key in a.resources {
      var cr := a.resources[key];
      SyncSame(op, cr, a, b, sc);
      SyncKeepsResources(op, cr, a, sc);
      SyncKeepsResources(op, cr, b, sc);
      hide Sync;
      var (x, outcome) := Sync(op, cr, a, sc);
      var (y, _) := Sync(op, cr, b, sc);
      VerdictSame(outcome, x, y, key.namespace, sc);
      hide VerdictOf;
      ReportSame(key, x, y, VerdictOf(outcome, x, key.namespace, sc), sc, enforced);
      hide Report;
      hide SameForDefault;
    }
  }

  lemma VerdictSame(outcome: Outcome, a: World, b: World, namespace: string, sc: Script)
    requires a.daemonSets == b.daemonSets && a.deployments == b.deployments
    ensures VerdictOf(outcome, a, namespace, sc) == VerdictOf(outcome, b, namespace, sc)
  {
  }

  lemma ReportSame(key: Key, a: World, b: World, v: Verdict, sc: Script, enforced: bool)
    requires SameForDefault(a, b) && key in a.resources && key.name == DefaultName
    ensures SameForDefault(Report(key, a, v, sc, enforced).0, Report(key, b, v, sc, enforced).0)
  {
    hide Conditions;
    hide ReasonsOk;
    assert a.resources[key] == b.resources[key];
    var reason, message := if v.err then InternalError else v.condition, if v.err then sc.message else "";
    UpdateKeepsSpecs(a, key, v.condition, reason, message, sc, enforced);
    UpdateKeepsSpecs(b, key, v.condition, reason, message, sc, enforced);
    UpdateSame(key, a, b, v.condition, reason, message, sc, enforced);
    hide Update;
    hide SameForDefault;
  }

  lemma UpdateSame(key: Key, a: World, b: World, condition: string, reason: string, message: string, sc: Script,
                   enforced: bool)
    requires SameForDefault(a, b) && key in a.resources && key.name == DefaultName
    ensures SameForDefault(Update(a, key, condition, reason, message, sc, enforced).0,
                           Update(b, key, condition, reason, message, sc, enforced).0)
    ensures Update(a, key, condition, reason, message, sc, enforced).1
      == Update(b, key, condition, reason, message, sc, enforced).1
  {
  }

  lemma SyncSame(op: Operator, cr: MetalLB, a: World, b: World, sc: Script)
    requires SameForDefault(a, b)
    ensures SameForDefault(Sync(op, cr, a, sc).0, Sync(op, cr, b, sc).0)
    ensures Sync(op, cr, a, sc).1 == Sync(op, cr, b, sc).1
  {
    hide DeployFRRK8s;
    hide SyncObjects;
    hide BGPType;
    if NeedsNetwork(op, cr) {
      var network := DeployFRRK8s(a.network, sc).0;
      assert SameForDefault(a.(network := network), b.(network := network));
    }
  }
}
