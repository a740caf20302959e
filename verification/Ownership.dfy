/** Who made the objects in the store, and which objects the operator never touches. */
module Ownership {
  import opened Api
  import opened ChartTheorems
  import opened Charts
  import opened Clusters
  import opened Convergence
  import opened Editors
  import opened JsonTrees
  import opened Reconciling
  import opened Runs
  import opened Wrappers

  predicate IsControllerRef(j: Json) {
    && j.Obj? && {"kind", "name", "controller"} <= j.fields.Keys
    && j.fields["kind"] == Str("MetalLB") && j.fields["name"] == Str(DefaultName)
    && j.fields["controller"] == Bool(true)
  }

  predicate CarriesController(m: Manifest) {
    exists r :: r in OwnerRefs(m) && IsControllerRef(r)
  }

  /** What the operator may put on the server. */
  predicate Lawful(m: Manifest) {
    && !IsRBAC(m)
    && if Namespace(m) != "" then CarriesController(m)
       else Kind(m) in {"PodSecurityPolicy", "SecurityContextConstraints"}
  }

  lemma OwnedCarriesController(m: Manifest, cr: MetalLB)
    requires Name(m) != ""
    ensures CarriesController(Owned(m, cr))
  {
    var refs := if OwnerRef(cr) in OwnerRefs(m) then OwnerRefs(m) else OwnerRefs(m) + [OwnerRef(cr)];
    assert "metadata" in m && m["metadata"].Obj? by {
      assert NestedField(Obj(m), ["metadata", "name"]).Found?;
    }
    SetFieldThenNested(m, Arr(refs), OwnersPath);
    assert OwnerRef(cr) in refs && IsControllerRef(OwnerRef(cr));
  }

  // ---- The objects the charts return ----

  predicate Named(objs: seq<Manifest>) {
    forall m :: m in objs ==> Name(m) != ""
  }

  /** Rendered objects have names, and the typed conversions keep identities. */
  ghost predicate GoodCharts(op: Operator) {
    && KeepsIdentity(op.frrk8s.codec) && KeepsIdentity(op.metallb.codec)
    && (forall spec, v :: op.frrk8s.render(op.env, spec, v).Ok? ==> Named(op.frrk8s.render(op.env, spec, v).value))
    && (forall spec, v :: op.metallb.render(op.env, spec, v).Ok? ==> Named(op.metallb.render(op.env, spec, v).value))
  }

  predicate Placeable(m: Manifest) {
    Name(m) != "" && (Namespace(m) == "" ==> Kind(m) in {"PodSecurityPolicy", "SecurityContextConstraints"})
  }

  lemma MetalLBPlaceable(op: Operator, spec: Spec)
    requires GoodCharts(op) && op.env.namespace != "" && op.metallb.Manifests(op.env, spec).Ok?
    ensures forall m :: m in op.metallb.Manifests(op.env, spec).value ==> Placeable(m)
  {
    MetalLBObjectsShape(op.metallb, op.env, spec);
    hide MetalLBEntries;
    var rendered := op.metallb.render(op.env, spec, ChartValues(op.env, spec)).value;
    var objs := op.metallb.Manifests(op.env, spec).value;
    assert Named(rendered);
    hide GoodCharts;
    SCCPlaceable();
    hide Kind;
    hide Name;
    hide Namespace;
    forall m | m in objs ensures Placeable(m) {
      var i :| 0 <= i < |objs| && objs[i] == m;
      if i < |rendered| {
        assert rendered[i] in rendered;
      }
    }
  }

  lemma SCCPlaceable()
    ensures Placeable(SpeakerSCC)
  {
  }

  lemma {:induction false} FRRK8SEntriesMember(env: Env, codec: Codec, spec: Spec, rendered: seq<Manifest>, m: Manifest)
    requires FRRK8SEntries(env, codec, spec, rendered).Ok? && m in FRRK8SEntries(env, codec, spec, rendered).value
    ensures exists r :: r in rendered && FRRK8SEntry(env, codec, spec, r) == Ok(Some(m))
  {
    var first := FRRK8SEntry(env, codec, spec, rendered[0]).value;
    hide FRRK8SEntry;
    if m in Kept(first) {
      assert rendered[0] in rendered && FRRK8SEntry(env, codec, spec, rendered[0]) == Ok(Some(m));
    } else {
      FRRK8SEntriesMember(env, codec, spec, rendered[1..], m);
    }
  }

  lemma FRRK8SPlaceable(op: Operator, spec: Spec)
    requires GoodCharts(op) && op.env.namespace != "" && op.frrk8s.Manifests(op.env, spec).Ok?
    ensures forall m :: m in op.frrk8s.Manifests(op.env, spec).value ==>
      Placeable(m) && !(op.env.isOpenshift && IsFRRK8SWebhookSecret(m))
  {
    var rendered := op.frrk8s.render(op.env, spec, FRRK8sValues(spec).value).value;
    assert Named(rendered);
    forall m | m in op.frrk8s.Manifests(op.env, spec).value
      ensures Placeable(m) && !(op.env.isOpenshift && IsFRRK8SWebhookSecret(m))
    {
      FRRK8SEntriesMember(op.env, op.frrk8s.codec, spec, rendered, m);
      var r :| r in rendered && FRRK8SEntry(op.env, op.frrk8s.codec, spec, r) == Ok(Some(m));
      FRRK8SEntryMeaning(op.env, op.frrk8s.codec, spec, r);
      PlacedIdentity(op.env, r);
    }
  }

  lemma AsAppliedLawful(m: Manifest, cr: MetalLB)
    requires Placeable(m) && !IsRBAC(m)
    ensures Lawful(AsApplied(m, cr))
  {
    OwnedKeepsIdentity(m, cr);
    OwnedCarriesController(m, cr);
  }

  /** Every object a sync applies is lawful. */
  lemma PutsAreLawful(op: Operator, cr: MetalLB, m: Manifest)
    requires GoodCharts(op) && op.env.namespace != ""
    requires op.frrk8s.Manifests(op.env, cr.spec).Ok? && op.metallb.Manifests(op.env, cr.spec).Ok?
    requires Put(m) in Calls(op, cr,
                             op.frrk8s.Manifests(op.env, cr.spec).value, op.metallb.Manifests(op.env, cr.spec).value)
    ensures Lawful(m)
  {
    var frrk8s, metallb := op.frrk8s.Manifests(op.env, cr.spec).value, op.metallb.Manifests(op.env, cr.spec).value;
    FRRK8SPlaceable(op, cr.spec);
    MetalLBPlaceable(op, cr.spec);
    PutsMeaning(metallb, cr, Put(m));
    PutsMeaning(frrk8s, cr, Put(m));
    DelsMeaning(frrk8s, Put(m));
    var x :| x in frrk8s + metallb && !IsRBAC(x) && Put(m) == Put(AsApplied(x, cr));
    AsAppliedLawful(x, cr);
  }

  // ---- Over runs ----

  lemma {:induction false} EffectProvenance(objects: Store, calls: seq<Action>, id: Id)
    requires id in Effect(objects, calls)
    ensures
      var m := Effect(objects, calls)[id];
      (id in objects && objects[id] == m) || (Put(m) in calls && IdOf(m) == id)
    decreases |calls|
  {
    if calls != [] {
      EffectProvenance(Step(objects, calls[0]), calls[1..], id);
    }
  }

  /** An object was there from the start, or someone other than the operator wrote it. */
  ghost predicate Foreign(w: World, events: seq<Event>, id: Id, m: Manifest) {
    (id in w.objects && w.objects[id] == m) || OutsideWrite(id, m) in events
  }

  /** After any run every object is someone else's, left exactly as they wrote it, or lawfully the operator's. */
  lemma {:induction false} ProvenanceOverRuns(op: Operator, w: World, events: seq<Event>, enforced: bool, id: Id)
    requires GoodCharts(op) && op.env.namespace != ""
    requires id in After(op, w, events, enforced).objects
    ensures
      var m := After(op, w, events, enforced).objects[id];
      Foreign(w, events, id, m) || (Lawful(m) && IdOf(m) == id)
    decreases |events|
  {
    if events != [] {
      var w' := Next(op, w, events[0], enforced);
      ProvenanceOverRuns(op, w', events[1..], enforced, id);
      if id in w'.objects {
        NextProvenance(op, w, events[0], enforced, id);
      }
      hide Next;
      hide Lawful;
    }
  }

  lemma NextProvenance(op: Operator, w: World, e: Event, enforced: bool, id: Id)
    requires GoodCharts(op) && op.env.namespace != ""
    requires id in Next(op, w, e, enforced).objects
    ensures
      var m := Next(op, w, e, enforced).objects[id];
      Foreign(w, [e], id, m) || (Lawful(m) && IdOf(m) == id)
  {
    hide Reconcile;
    hide SyncObjects;
    hide Lawful;
    hide GoodCharts;
    if e.Request? {
      ReconcileEffect(op, e.key, w, e.sc, enforced);
      if e.key in w.resources {
        SyncProvenance(op, w.resources[e.key], w.objects, e.sc, id);
      }
    }
  }

  lemma SyncProvenance(op: Operator, cr: MetalLB, objects: Store, sc: Script, id: Id)
    requires GoodCharts(op) && op.env.namespace != ""
    ensures id in SyncObjects(op, cr, objects, sc).0 ==>
      var m := SyncObjects(op, cr, objects, sc).0[id];
      (id in objects && objects[id] == m) || (Lawful(m) && IdOf(m) == id)
  {
    var frrk8s, metallb := op.frrk8s.Manifests(op.env, cr.spec), op.metallb.Manifests(op.env, cr.spec);
    if frrk8s.Ok? && metallb.Ok? {
      var calls := Calls(op, cr, frrk8s.value, metallb.value);
      var k := Made(|calls|, sc.fails, 0);
      FailureGivesPrefix(objects, calls, sc.fails, 0);
      var after := Effect(objects, calls[..k]);
      if id in after {
        EffectProvenance(objects, calls[..k], id);
        if Put(after[id]) in calls[..k] {
          PutsAreLawful(op, cr, after[id]);
        }
      }
      hide Calls;
      hide Lawful;
    }
  }

  // ---- Role and RoleBinding ----

  predicate IsRBACId(id: Id) {
    id.kind == "Role" || id.kind == "RoleBinding"
  }

  ghost predicate NotWritten(events: seq<Event>, id: Id) {
    forall e :: e in events && e.OutsideWrite? ==> e.written != id
  }

  /** A Role or RoleBinding that is gone stays gone until someone other than the operator writes it. */
  lemma {:induction false} RBACNeverApplied(op: Operator, w: World, events: seq<Event>, enforced: bool, id: Id)
    requires IsRBACId(id) && id !in w.objects && NotWritten(events, id)
    ensures id !in After(op, w, events, enforced).objects
    decreases |events|
  {
    hide Reconcile;
    hide SyncObjects;
    if events != [] {
      var e := events[0];
      if e.Request? {
        ReconcileEffect(op, e.key, w, e.sc, enforced);
        if e.key in w.resources {
          SyncAddsNoRBAC(op, w.resources[e.key], w.objects, e.sc, id);
        }
      }
      RBACNeverApplied(op, Next(op, w, e, enforced), events[1..], enforced, id);
    }
  }

  lemma SyncAddsNoRBAC(op: Operator, cr: MetalLB, objects: Store, sc: Script, id: Id)
    requires IsRBACId(id) && id !in objects
    ensures id !in SyncObjects(op, cr, objects, sc).0
  {
    var frrk8s, metallb := op.frrk8s.Manifests(op.env, cr.spec), op.metallb.Manifests(op.env, cr.spec);
    if frrk8s.Ok? && metallb.Ok? {
      var calls := Calls(op, cr, frrk8s.value, metallb.value);
      var k := Made(|calls|, sc.fails, 0);
      FailureGivesPrefix(objects, calls, sc.fails, 0);
      var after := Effect(objects, calls[..k]);
      if id in after {
        EffectProvenance(objects, calls[..k], id);
        var m := after[id];
        PutsMeaning(metallb.value, cr, Put(m));
        PutsMeaning(frrk8s.value, cr, Put(m));
        DelsMeaning(frrk8s.value, Put(m));
        var x :| x in frrk8s.value + metallb.value && !IsRBAC(x) && Put(m) == Put(AsApplied(x, cr));
        OwnedKeepsIdentity(x, cr);
        assert false;
      }
    }
  }

  /**
   The deletes do not skip RBAC as the applies do. If the FRR-K8s chart rendered a Role or RoleBinding,
   leaving frr-k8s mode would delete it, and no later sync, in frr-k8s mode or any other, would bring it
   back. The shipped chart renders them only with prometheus.rbacPrometheus, which stays off.
   */
  lemma ModeSwitchLosesRBAC(op: Operator, w: World, key: Key, sc: Script, later: seq<Event>, enforced: bool,
                            frrk8s: seq<Manifest>, metallb: seq<Manifest>, m: Manifest)
    requires key in w.resources && key.name == DefaultName && !sc.getFails
    requires Renders(op, w.resources[key], frrk8s, metallb) && Valid(op, w.resources[key], sc)
    requires Sync(op, w.resources[key], w, sc).1 == Synced
    requires BGPType(w.resources[key].spec, op.env) != FRRK8sMode
    requires m in frrk8s && IsRBAC(m) && NotWritten(later, IdOf(m))
    ensures IdOf(m) !in After(op, w, [Request(key, sc)] + later, enforced).objects
  {
    var w' := Next(op, w, Request(key, sc), enforced);
    RequestConverges(op, w, key, sc, enforced, frrk8s, metallb);
    assert forall x :: x in metallb && IdOf(x) == IdOf(m) ==> IsRBAC(x);
    assert IdOf(m) !in w'.objects;
    RBACNeverApplied(op, w', later, enforced, IdOf(m));
    assert ([Request(key, sc)] + later)[1..] == later;
  }

  // ---- The webhook secret on OpenShift ----

  function WebhookSecretId(env: Env): Id {
    Id("Secret", env.namespace, WebhookSecretName)
  }

  ghost predicate NotTouched(events: seq<Event>, id: Id) {
    forall e :: e in events ==> (e.OutsideWrite? ==> e.written != id) && (e.OutsideDelete? ==> e.id != id)
  }

  ghost predicate NoWebhookSecret(op: Operator) {
    forall spec :: op.metallb.Manifests(op.env, spec).Ok? ==>
      forall m :: m in op.metallb.Manifests(op.env, spec).value ==> !IsFRRK8SWebhookSecret(m)
  }

  /** On OpenShift no run of the operator, in any mode, creates, changes or deletes the FRR-K8s webhook secret. */
  lemma {:induction false} WebhookSecretUntouched(op: Operator, w: World, events: seq<Event>, enforced: bool)
    requires GoodCharts(op) && op.env.namespace != "" && op.env.isOpenshift && NoWebhookSecret(op)
    requires NotTouched(events, WebhookSecretId(op.env))
    ensures
      var id := WebhookSecretId(op.env);
      var after := After(op, w, events, enforced).objects;
      && (id in after <==> id in w.objects)
      && (id in after ==> after[id] == w.objects[id])
    decreases |events|
  {
    hide Next;
    hide GoodCharts;
    hide NoWebhookSecret;
    if events != [] {
      NextSkipsSecret(op, w, events[0], enforced);
      WebhookSecretUntouched(op, Next(op, w, events[0], enforced), events[1..], enforced);
    }
  }

  lemma NextSkipsSecret(op: Operator, w: World, e: Event, enforced: bool)
    requires GoodCharts(op) && op.env.namespace != "" && op.env.isOpenshift && NoWebhookSecret(op)
    requires NotTouched([e], WebhookSecretId(op.env))
    ensures
      var id := WebhookSecretId(op.env);
      var after := Next(op, w, e, enforced).objects;
      && (id in after <==> id in w.objects)
      && (id in after ==> after[id] == w.objects[id])
  {
    hide Reconcile;
    hide SyncObjects;
    hide GoodCharts;
    hide NoWebhookSecret;
    assert e in [e];
    if e.Request? {
      ReconcileEffect(op, e.key, w, e.sc, enforced);
      if e.key in w.resources {
        SyncSkipsSecret(op, w.resources[e.key], w.objects, e.sc);
      }
    }
  }

  lemma SyncSkipsSecret(op: Operator, cr: MetalLB, objects: Store, sc: Script)
    requires GoodCharts(op) && op.env.namespace != "" && op.env.isOpenshift && NoWebhookSecret(op)
    ensures
      var id := WebhookSecretId(op.env);
      var after := SyncObjects(op, cr, objects, sc).0;
      && (id in after <==> id in objects)
      && (id in after ==> after[id] == objects[id])
  {
    var frrk8s, metallb := op.frrk8s.Manifests(op.env, cr.spec), op.metallb.Manifests(op.env, cr.spec);
    if frrk8s.Ok? && metallb.Ok? {
      var calls := Calls(op, cr, frrk8s.value, metallb.value);
      var k := Made(|calls|, sc.fails, 0);
      FailureGivesPrefix(objects, calls, sc.fails, 0);
      FRRK8SPlaceable(op, cr.spec);
      PutsTargets(frrk8s.value, cr);
      PutsTargets(metallb.value, cr);
      DelsTargets(frrk8s.value);
      forall a | a in calls[..k] && !a.Own? ensures Target(a) != WebhookSecretId(op.env) {
        var m :| m in frrk8s.value + metallb.value && Target(a) == IdOf(m);
      }
      EffectFrame(objects, calls[..k], WebhookSecretId(op.env));
    }
  }
}
