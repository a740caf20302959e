/** What an applied object keeps of the rendered one, and in which order the calls of a sync come. */
module Applies {
  import opened Api
  import opened Clusters
  import opened Convergence
  import opened Editors
  import opened JsonTrees
  import opened Reconciling

  // ---- Setting the owner ----

  /** The place the owner references are kept at. */
  const OwnersPlace := [Field("metadata"), Field("ownerReferences")]

  /** A controller reference to the MetalLB resource with this uid. */
  predicate RefersTo(r: Json, uid: string) {
    r == Obj(map["kind" := Str("MetalLB"), "name" := Str("metallb"), "uid" := Str(uid), "controller" := Bool(true)])
  }

  /** Setting the owner changes nothing but the owner references. */
  lemma OwnedFrame(m: Manifest, cr: MetalLB, q: seq<PathStep>)
    requires Apart(OwnersPlace, q)
    ensures At(Obj(Owned(m, cr)), q) == At(Obj(m), q)
  {
    assert Fields(OwnersPath) == OwnersPlace;
    var refs := if OwnerRef(cr) in OwnerRefs(m) then OwnerRefs(m) else OwnerRefs(m) + [OwnerRef(cr)];
    if SetField(m, Arr(refs), OwnersPath).Ok? {
      SetFieldAt(m, Arr(refs), OwnersPath, q);
    }
  }

  /**
   And of the references it keeps the old ones in their order and adds at most one, at the end: the
   reference to this resource, if it was not there.
   */
  lemma OwnedReferences(m: Manifest, cr: MetalLB)
    requires Name(m) != ""
    ensures
      var before, after := OwnerRefs(m), OwnerRefs(Owned(m, cr));
      && before <= after && |after| <= |before| + 1
      && (exists r :: r in after && RefersTo(r, cr.uid))
      && (|after| == |before| + 1 <==> forall r :: r in before ==> !RefersTo(r, cr.uid))
      && (|after| == |before| + 1 ==> RefersTo(after[|before|], cr.uid))
  {
    var before := OwnerRefs(m);
    var refs := if OwnerRef(cr) in before then before else before + [OwnerRef(cr)];
    assert "metadata" in m && m["metadata"].Obj? by {
      assert NestedField(Obj(m), ["metadata", "name"]).Found?;
    }
    SetFieldThenNested(m, Arr(refs), OwnersPath);
    assert OwnerRefs(Owned(m, cr)) == refs;
    assert RefersTo(OwnerRef(cr), cr.uid);
    assert OwnerRef(cr) in refs;
  }

  /**
   What the server holds for a rendered object: the same object when it has no namespace; otherwise one
   that differs from it in the owner references only, the old ones in order and one to the resource.
   */
  ghost predicate Carries(stored: Manifest, m: Manifest, cr: MetalLB) {
    && (forall q :: Apart(OwnersPlace, q) ==> At(Obj(stored), q) == At(Obj(m), q))
    && (Namespace(m) == "" ==> stored == m)
    && (Namespace(m) != "" && Name(m) != "" ==>
          && OwnerRefs(m) <= OwnerRefs(stored) && |OwnerRefs(stored)| <= |OwnerRefs(m)| + 1
          && exists r :: r in OwnerRefs(stored) && RefersTo(r, cr.uid))
  }

  lemma AppliedCarries(m: Manifest, cr: MetalLB)
    ensures Carries(AsApplied(m, cr), m, cr)
  {
    if Namespace(m) != "" {
      forall q | Apart(OwnersPlace, q) ensures At(Obj(Owned(m, cr)), q) == At(Obj(m), q) {
        OwnedFrame(m, cr, q);
      }
      if Name(m) != "" {
        OwnedReferences(m, cr);
      }
    }
    hide Owned;
  }

  /**
   A converged store holds every MetalLB object that is not RBAC as it was rendered but for its owner, and
   in frr-k8s mode every FRR-K8s object the charts do not share.
   */
  lemma ConvergedCarries(op: Operator, cr: MetalLB, frrk8s: seq<Manifest>, metallb: seq<Manifest>, objects: Store)
    requires Converged(op, cr, frrk8s, metallb, objects)
    ensures forall m :: m in metallb && !IsRBAC(m) ==> IdOf(m) in objects && Carries(objects[IdOf(m)], m, cr)
    ensures BGPType(cr.spec, op.env) == FRRK8sMode ==>
      forall f :: f in frrk8s && !IsRBAC(f) && IdOf(f) !in SharedIds(op, cr, frrk8s, metallb) ==>
        IdOf(f) in objects && Carries(objects[IdOf(f)], f, cr)
  {
    hide Carries;
    hide SharedIds;
    hide WrongIds;
    hide FRRK8SFinal;
    hide AsApplied;
    forall m | m in frrk8s + metallb ensures Carries(AsApplied(m, cr), m, cr) {
      AppliedCarries(m, cr);
    }
  }

  /** The same for a single sync, from any store, all of whose calls succeed. */
  lemma SyncStoresRendered(op: Operator, cr: MetalLB, objects: Store, sc: Script,
                           frrk8s: seq<Manifest>, metallb: seq<Manifest>, m: Manifest)
    requires Renders(op, cr, frrk8s, metallb) && Valid(op, cr, sc) && SyncObjects(op, cr, objects, sc).1 == Synced
    requires m in metallb && !IsRBAC(m)
    ensures
      var after := SyncObjects(op, cr, objects, sc).0;
      IdOf(m) in after && Carries(after[IdOf(m)], m, cr)
  {
    SyncConverges(op, cr, objects, sc, frrk8s, metallb);
    ConvergedCarries(op, cr, frrk8s, metallb, SyncObjects(op, cr, objects, sc).0);
    hide Carries;
    hide Converged;
    hide SyncObjects;
    hide Renders;
  }

  /** And for a sync cut short anywhere: whatever it puts on the server is some rendered object but for its owner. */
  lemma PutsCarry(objs: seq<Manifest>, cr: MetalLB, x: Manifest)
    requires Put(x) in Puts(objs, cr)
    ensures exists m :: m in objs && !IsRBAC(m) && Carries(x, m, cr)
  {
    PutsMeaning(objs, cr, Put(x));
    var m :| m in objs && !IsRBAC(m) && Put(x) == Put(AsApplied(m, cr));
    AppliedCarries(m, cr);
  }

  // ---- The order of the calls ----

  /** A delete of every object, in their order. */
  function DeletesOf(objs: seq<Manifest>): seq<Action> {
    seq(|objs|, i requires 0 <= i < |objs| => Del(IdOf(objs[i])))
  }

  /** An apply of every object as it is stored, in their order. */
  function AppliesOf(objs: seq<Manifest>, cr: MetalLB): seq<Action> {
    seq(|objs|, i requires 0 <= i < |objs| => Put(AsApplied(objs[i], cr)))
  }

  /** The objects that are applied. */
  function Wanted(objs: seq<Manifest>): seq<Manifest> {
    if objs == [] then []
    else (if Kind(objs[0]) in {"Role", "RoleBinding"} then [] else [objs[0]]) + Wanted(objs[1..])
  }

  /** The deletes and applies among the calls. */
  function Asked(calls: seq<Action>): seq<Action> {
    if calls == [] then [] else (if calls[0].Own? then [] else [calls[0]]) + Asked(calls[1..])
  }

  lemma AskedCons(a: Action, rest: seq<Action>)
    ensures Asked([a] + rest) == (if a.Own? then [] else [a]) + Asked(rest)
  {
    assert ([a] + rest)[1..] == rest;
  }

  lemma {:induction false} AskedAppend(a: seq<Action>, b: seq<Action>)
    ensures Asked(a + b) == Asked(a) + Asked(b)
  {
    if a == [] {
      assert a + b == b;
    } else {
      assert (a + b)[1..] == a[1..] + b;
      AskedAppend(a[1..], b);
    }
  }

  lemma {:induction false} DelsInOrder(objs: seq<Manifest>)
    ensures Dels(objs) == Asked(Dels(objs)) == DeletesOf(objs)
  {
    if objs != [] {
      DelsInOrder(objs[1..]);
      AskedCons(Del(IdOf(objs[0])), Dels(objs[1..]));
      hide IdOf;
    }
  }

  lemma {:induction false} PutsInOrder(objs: seq<Manifest>, cr: MetalLB)
    ensures Asked(Puts(objs, cr)) == AppliesOf(Wanted(objs), cr)
  {
    if objs != [] {
      PutsInOrder(objs[1..], cr);
      AskedAppend(PutCalls(objs[0], cr), Puts(objs[1..], cr));
      AskedPut(objs[0], cr);
      hide PutCalls;
      hide AsApplied;
      hide Kind;
    }
  }

  lemma AskedPut(m: Manifest, cr: MetalLB)
    ensures Asked(PutCalls(m, cr)) == if Kind(m) in {"Role", "RoleBinding"} then [] else [Put(AsApplied(m, cr))]
  {
    var p := Put(AsApplied(m, cr));
    AskedCons(p, []);
    AskedCons(Own(IdOf(m)), [p]);
    assert [p] + [] == [p] && [Own(IdOf(m))] + [p] == [Own(IdOf(m)), p];
    hide Owned;
    hide IdOf;
  }

  /**
   What a sync asks of the server: in frr-k8s mode the applies of the FRR-K8s objects that are not RBAC,
   in any other mode the deletes of all of them; then the applies of the MetalLB objects that are not
   RBAC; each in the order rendered. RequestsMeaning says how much of it a failing sync asks for.
   */
  lemma CallsInOrder(op: Operator, cr: MetalLB, frrk8s: seq<Manifest>, metallb: seq<Manifest>)
    ensures Asked(Calls(op, cr, frrk8s, metallb))
      == (if BGPType(cr.spec, op.env) == "frr-k8s" then AppliesOf(Wanted(frrk8s), cr) else DeletesOf(frrk8s))
         + AppliesOf(Wanted(metallb), cr)
  {
    PutsInOrder(frrk8s, cr);
    PutsInOrder(metallb, cr);
    DelsInOrder(frrk8s);
    AskedAppend(FRRK8SCalls(op, cr, frrk8s), Puts(metallb, cr));
    hide Puts;
    hide Dels;
    hide Asked;
    hide AppliesOf;
    hide DeletesOf;
    hide BGPType;
  }

  /** The calls reached: all up to and including the first that fails. */
  function Reached(calls: seq<Action>, fails: nat -> bool, n: nat): seq<Action>
    decreases |calls|
  {
    if calls == [] then []
    else [calls[0]] + (if fails(n) then [] else Reached(calls[1..], fails, n + 1))
  }

  lemma {:induction false} ReachedIs(calls: seq<Action>, fails: nat -> bool, n: nat)
    ensures
      var k := Made(|calls|, fails, n);
      Reached(calls, fails, n) == if k < |calls| then calls[..k + 1] else calls
    decreases |calls|
  {
    if calls != [] && !fails(n) {
      ReachedIs(calls[1..], fails, n + 1);
    }
  }

  lemma {:induction false} RequestsReached(requested: seq<Action>, calls: seq<Action>, fails: nat -> bool, n: nat)
    ensures Requests(requested, calls, fails, n) == requested + Asked(Reached(calls, fails, n))
    decreases |calls|
  {
    if calls != [] {
      var now := if calls[0].Own? then requested else requested + [calls[0]];
      var rest := if fails(n) then [] else Reached(calls[1..], fails, n + 1);
      AskedCons(calls[0], rest);
      if !fails(n) {
        RequestsReached(now, calls[1..], fails, n + 1);
      }
      hide Asked;
    }
  }

  /** A sync asks for the calls up to and including the first that fails, setting owners aside. */
  lemma RequestsMeaning(requested: seq<Action>, calls: seq<Action>, fails: nat -> bool)
    ensures
      var k := Made(|calls|, fails, 0);
      Requests(requested, calls, fails, 0) == requested + Asked(if k < |calls| then calls[..k + 1] else calls)
  {
    RequestsReached(requested, calls, fails, 0);
    ReachedIs(calls, fails, 0);
    hide Asked;
    hide Requests;
    hide Reached;
  }

  // ---- Owners ----

  /**
   An object with a namespace has its owner set by the call just before its apply, so that a failure there
   keeps it from being applied; owners are set for such objects only.
   */
  predicate OwnersFirst(calls: seq<Action>) {
    && (forall i :: 0 <= i < |calls| && calls[i].Put? && IdOf(calls[i].obj).namespace != "" ==>
          i > 0 && calls[i - 1] == Own(IdOf(calls[i].obj)))
    && (forall i :: 0 <= i < |calls| && calls[i].Own? ==>
          i + 1 < |calls| && calls[i + 1].Put? && IdOf(calls[i + 1].obj) == calls[i].id && calls[i].id.namespace != "")
  }

  lemma OwnersFirstAppend(a: seq<Action>, b: seq<Action>)
    requires OwnersFirst(a) && OwnersFirst(b)
    ensures OwnersFirst(a + b)
  {
    hide IdOf;
    var c := a + b;
    forall i | 0 <= i < |c| && c[i].Put? && IdOf(c[i].obj).namespace != ""
      ensures i > 0 && c[i - 1] == Own(IdOf(c[i].obj))
    {
      if i >= |a| {
        assert c[i] == b[i - |a|];
        assert c[i - 1] == b[i - |a| - 1];
      }
    }
    forall i | 0 <= i < |c| && c[i].Own?
      ensures i + 1 < |c| && c[i + 1].Put? && IdOf(c[i + 1].obj) == c[i].id && c[i].id.namespace != ""
    {
      if i >= |a| {
        assert c[i] == b[i - |a|];
        assert c[i + 1] == b[i - |a| + 1];
      }
    }
  }

  lemma {:induction false} PutsOwnersFirst(objs: seq<Manifest>, cr: MetalLB)
    ensures OwnersFirst(Puts(objs, cr))
  {
    if objs != [] {
      PutsOwnersFirst(objs[1..], cr);
      OwnedKeepsIdentity(objs[0], cr);
      assert OwnersFirst(PutCalls(objs[0], cr));
      OwnersFirstAppend(PutCalls(objs[0], cr), Puts(objs[1..], cr));
    }
  }

  lemma CallsOwnersFirst(op: Operator, cr: MetalLB, frrk8s: seq<Manifest>, metallb: seq<Manifest>)
    ensures OwnersFirst(Calls(op, cr, frrk8s, metallb))
  {
    PutsOwnersFirst(frrk8s, cr);
    PutsOwnersFirst(metallb, cr);
    NoApplies(frrk8s);
    OwnersFirstAppend(FRRK8SCalls(op, cr, frrk8s), Puts(metallb, cr));
  }
}
