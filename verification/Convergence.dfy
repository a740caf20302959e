/** What one sync does to the object store: prefixes under failure, progress, convergence, ordering. */
module Convergence {
  import opened Api
  import opened Charts
  import opened Clusters
  import opened Editors
  import opened JsonTrees
  import opened Reconciling
  import opened Wrappers

  type Store = map<Id, Manifest>

  /** All the calls, none failing. */
  function Effect(objects: Store, calls: seq<Action>): Store
    decreases |calls|
  {
    if calls == [] then objects else Effect(Step(objects, calls[0]), calls[1..])
  }

  /** How many calls are made before the first one that fails. */
  function Made(count: nat, fails: nat -> bool, n: nat): (k: nat)
    ensures k <= count
    ensures forall j :: n <= j < n + k ==> !fails(j)
    ensures k < count ==> fails(n + k)
  {
    if count == 0 || fails(n) then 0 else 1 + Made(count - 1, fails, n + 1)
  }

  /** A sync cut short has the effect of exactly the calls before the failing one. */
  lemma {:induction false} FailureGivesPrefix(objects: Store, calls: seq<Action>, fails: nat -> bool, n: nat)
    ensures
      var k := Made(|calls|, fails, n);
      Run(objects, calls, fails, n) == (Effect(objects, calls[..k]), k == |calls|)
    decreases |calls|
  {
    var k := Made(|calls|, fails, n);
    if calls != [] && !fails(n) {
      FailureGivesPrefix(Step(objects, calls[0]), calls[1..], fails, n + 1);
      assert calls[..k][1..] == calls[1..][..k - 1];
    }
  }

  // ---- Progress ----

  function Target(a: Action): Id {
    match a
    case Del(id) => id
    case Own(id) => id
    case Put(obj) => IdOf(obj)
  }

  /** The store already is what the call would make it. */
  predicate Settled(objects: Store, a: Action) {
    match a
    case Del(id) => id !in objects
    case Own(_) => true
    case Put(obj) => IdOf(obj) in objects && objects[IdOf(obj)] == obj
  }

  predicate SameAt(a: Store, b: Store, id: Id) {
    (id in a <==> id in b) && (id in a ==> a[id] == b[id])
  }

  /** The objects that all the calls together would still change. */
  function WrongIds(objects: Store, calls: seq<Action>): set<Id> {
    set a | a in calls && !a.Own? && !SameAt(objects, Effect(objects, calls), Target(a)) :: Target(a)
  }

  /** Two calls that want the same object differently. */
  predicate Conflict(a: Action, b: Action) {
    !a.Own? && !b.Own? && Target(a) == Target(b) && a != b
  }

  /** The objects some two of the calls want differently. */
  function Contested(calls: seq<Action>): set<Id> {
    set a, b | a in calls && b in calls && Conflict(a, b) :: Target(a)
  }

  /** The last call that writes the object. */
  function Last(calls: seq<Action>, id: Id): (r: Option<Action>)
    ensures r.Some? ==> r.value in calls && !r.value.Own? && Target(r.value) == id
    ensures r.None? ==> forall a :: a in calls && !a.Own? ==> Target(a) != id
  {
    if calls == [] then None
    else if Last(calls[1..], id).Some? then Last(calls[1..], id)
    else if !calls[0].Own? && Target(calls[0]) == id then Some(calls[0])
    else None
  }

  lemma StepSettles(objects: Store, a: Action)
    ensures Settled(Step(objects, a), a)
    ensures forall id :: a.Own? || id != Target(a) ==> SameAt(Step(objects, a), objects, id)
  {
  }

  /** The last call on an object decides what it is afterwards; without one it is left alone. */
  lemma {:induction false} EffectIsLast(objects: Store, calls: seq<Action>, id: Id)
    ensures
      var last := Last(calls, id);
      if last.Some? then Settled(Effect(objects, calls), last.value) else SameAt(Effect(objects, calls), objects, id)
    decreases |calls|
  {
    if calls != [] {
      StepSettles(objects, calls[0]);
      EffectIsLast(Step(objects, calls[0]), calls[1..], id);
      assert calls == [calls[0]] + calls[1..];
    }
  }

  lemma SettledPins(x: Store, y: Store, a: Action, id: Id)
    requires !a.Own? && Target(a) == id
    ensures Settled(x, a) && Settled(y, a) ==> SameAt(x, y, id)
    ensures SameAt(x, y, id) ==> (Settled(x, a) <==> Settled(y, a))
    ensures forall b :: Settled(x, a) && Conflict(a, b) ==> !Settled(x, b)
  {
  }

  /** An object is wrong exactly when the last call on it has something to change. */
  lemma WrongMeans(objects: Store, calls: seq<Action>, id: Id)
    ensures id in WrongIds(objects, calls) <==> Last(calls, id).Some? && !Settled(objects, Last(calls, id).value)
  {
    EffectIsLast(objects, calls, id);
    if Last(calls, id).Some? {
      var a := Last(calls, id).value;
      SettledPins(objects, Effect(objects, calls), a, id);
      hide SameAt;
      hide Settled;
      assert a in calls;
    }
  }

  /** Calls of a sync leave alone every object that is right and that no two calls want differently. */
  lemma RightStaysRight(objects: Store, calls: seq<Action>, done: seq<Action>, id: Id)
    requires forall a :: a in done ==> a in calls
    requires id !in WrongIds(objects, calls) && id !in Contested(calls)
    ensures SameAt(Effect(objects, done), objects, id)
    ensures id !in WrongIds(Effect(objects, done), calls)
  {
    var after := Effect(objects, done);
    WrongMeans(objects, calls, id);
    WrongMeans(after, calls, id);
    EffectIsLast(objects, done, id);
    hide WrongIds;
    hide Effect;
    if Last(calls, id).Some? {
      var b := Last(calls, id).value;
      if Last(done, id).Some? {
        assert !Conflict(Last(done, id).value, b);
      }
      SettledPins(after, objects, b, id);
    }
  }

  /** Nothing is wrong exactly when all the calls together change nothing. */
  lemma NothingWrong(objects: Store, calls: seq<Action>)
    ensures WrongIds(objects, calls) == {} <==> Effect(objects, calls) == objects
  {
    if WrongIds(objects, calls) == {} {
      forall id ensures SameAt(Effect(objects, calls), objects, id) {
        EffectIsLast(objects, calls, id);
        if Last(calls, id).Some? {
          assert Last(calls, id).value in calls;
          assert id !in WrongIds(objects, calls);
        }
      }
      SameStore(Effect(objects, calls), objects);
    }
  }

  lemma SameStore(a: Store, b: Store)
    requires forall id :: SameAt(a, b, id)
    ensures a == b
  {
    forall id ensures id in a <==> id in b {
      assert SameAt(a, b, id);
    }
    forall id | id in a ensures a[id] == b[id] {
      assert SameAt(a, b, id);
    }
  }

  lemma SubsetCount<T>(a: set<T>, b: set<T>)
    requires a <= b
    ensures |a| <= |b|
  {
    assert b == a + (b - a);
    assert a !! (b - a);
  }

  /**
   At no point of a sync is an object wrong that was right at an earlier point, unless two calls want
   it differently; after the last call nothing is wrong, whatever the store was.
   */
  lemma ProgressDuringSync(objects: Store, calls: seq<Action>, j: nat, k: nat)
    requires j <= k <= |calls|
    ensures WrongIds(Effect(objects, calls[..k]), calls) <=
      WrongIds(Effect(objects, calls[..j]), calls) + Contested(calls)
    ensures Contested(calls) == {} ==>
      |WrongIds(Effect(objects, calls[..k]), calls)| <= |WrongIds(Effect(objects, calls[..j]), calls)|
    ensures WrongIds(Effect(objects, calls), calls) == {}
  {
    var mid := Effect(objects, calls[..j]);
    EffectAppend(objects, calls[..j], calls[j..k]);
    assert calls[..j] + calls[j..k] == calls[..k];
    var w, w' := WrongIds(mid, calls), WrongIds(Effect(mid, calls[j..k]), calls);
    forall id | id in w' && id !in Contested(calls) ensures id in w {
      if id !in w {
        RightStaysRight(mid, calls, calls[j..k], id);
      }
    }
    SyncEndsRight(objects, calls);
    hide WrongIds;
    hide Contested;
    if Contested(calls) == {} {
      SubsetCount(w', w);
    }
  }

  lemma SyncEndsRight(objects: Store, calls: seq<Action>)
    ensures WrongIds(Effect(objects, calls), calls) == {}
  {
    forall id ensures id !in WrongIds(Effect(objects, calls), calls) {
      WrongMeans(Effect(objects, calls), calls, id);
      EffectIsLast(objects, calls, id);
    }
  }

  /**
   The condition is exact. From any store with nothing wrong, an object is wrong at some point of the
   sync if and only if two of the calls want it differently.
   */
  lemma ContestedExactly(objects: Store, calls: seq<Action>, id: Id)
    requires WrongIds(objects, calls) == {}
    ensures id in Contested(calls) <==>
      exists k :: 0 <= k <= |calls| && id in WrongIds(Effect(objects, calls[..k]), calls)
  {
    if id in Contested(calls) {
      ContestedGoesWrong(objects, calls, id);
    } else {
      hide WrongIds;
      hide Contested;
      forall k | 0 <= k <= |calls| ensures id !in WrongIds(Effect(objects, calls[..k]), calls) {
        RightStaysRight(objects, calls, calls[..k], id);
      }
    }
  }

  lemma ContestedGoesWrong(objects: Store, calls: seq<Action>, id: Id)
    requires id in Contested(calls)
    ensures exists k :: 0 <= k <= |calls| && id in WrongIds(Effect(objects, calls[..k]), calls)
  {
    var a, b :| a in calls && b in calls && Conflict(a, b) && Target(a) == id;
    var c := Last(calls, id).value;
    var x := if c == a then b else a;
    var i :| 0 <= i < |calls| && calls[i] == x;
    SettledOnceMade(objects, calls, i);
    var after := Effect(objects, calls[..i + 1]);
    WrongMeans(after, calls, id);
    hide WrongIds;
    hide Contested;
    hide Effect;
    assert Conflict(x, c);
    SettledPins(after, after, x, id);
    assert id in WrongIds(Effect(objects, calls[..i + 1]), calls);
  }

  lemma SettledOnceMade(objects: Store, calls: seq<Action>, i: nat)
    requires i < |calls|
    ensures Settled(Effect(objects, calls[..i + 1]), calls[i])
  {
    assert calls[..i + 1] == calls[..i] + [calls[i]];
    EffectAppend(objects, calls[..i], [calls[i]]);
    var mid := Effect(objects, calls[..i]);
    StepSettles(mid, calls[i]);
    assert [calls[i]][1..] == [];
    assert Effect(mid, [calls[i]]) == Step(mid, calls[i]);
  }

  lemma {:induction false} EffectAppend(objects: Store, a: seq<Action>, b: seq<Action>)
    ensures Effect(objects, a + b) == Effect(Effect(objects, a), b)
    decreases |a|
  {
    if a == [] {
      assert a + b == b;
    } else {
      assert (a + b)[1..] == a[1..] + b;
      EffectAppend(Step(objects, a[0]), a[1..], b);
    }
  }

  lemma {:induction false} EffectFrame(objects: Store, calls: seq<Action>, id: Id)
    requires forall a :: a in calls && !a.Own? ==> Target(a) != id
    ensures id in Effect(objects, calls) <==> id in objects
    ensures id in objects ==> Effect(objects, calls)[id] == objects[id]
    decreases |calls|
  {
    if calls != [] {
      var a := calls[0];
      assert a.Own? || Target(a) != id;
      assert id in Step(objects, a) <==> id in objects;
      forall b | b in calls[1..] && !b.Own? ensures Target(b) != id {
        assert b in calls;
      }
      EffectFrame(Step(objects, a), calls[1..], id);
    }
  }

  // ---- The calls of a sync ----

  predicate DistinctIds(objs: seq<Manifest>) {
    forall i, j :: 0 <= i < j < |objs| ==> IdOf(objs[i]) != IdOf(objs[j])
  }

  /** The object as the operator stores it. */
  function AsApplied(m: Manifest, cr: MetalLB): Manifest {
    if Namespace(m) != "" then Owned(m, cr) else m
  }

  /** Setting the owner does not move the object. */
  lemma OwnedKeepsIdentity(m: Manifest, cr: MetalLB)
    ensures SameIdentity(Owned(m, cr), m) && IdOf(AsApplied(m, cr)) == IdOf(m)
  {
  }

  /** Exactly the non-RBAC objects are put, each as applied; nothing is deleted. */
  lemma {:induction false} PutsMeaning(objs: seq<Manifest>, cr: MetalLB, a: Action)
    ensures a in Puts(objs, cr) && !a.Own? ==> exists m :: m in objs && !IsRBAC(m) && a == Put(AsApplied(m, cr))
    ensures forall m :: m in objs && !IsRBAC(m) ==> Put(AsApplied(m, cr)) in Puts(objs, cr)
  {
    if objs != [] {
      PutsMeaning(objs[1..], cr, a);
      assert objs == [objs[0]] + objs[1..];
      if a in PutCalls(objs[0], cr) && !a.Own? {
        assert objs[0] in objs && a == Put(AsApplied(objs[0], cr));
      }
    }
  }

  lemma {:induction false} DelsMeaning(objs: seq<Manifest>, a: Action)
    ensures a in Dels(objs) <==> a.Del? && exists m :: m in objs && a == Del(IdOf(m))
  {
    if objs != [] {
      DelsMeaning(objs[1..], a);
      assert objs == [objs[0]] + objs[1..];
      if a == Del(IdOf(objs[0])) {
        assert objs[0] in objs;
      }
    }
  }

  ghost predicate TargetsAmong(calls: seq<Action>, objs: seq<Manifest>) {
    forall a :: a in calls && !a.Own? ==> exists m :: m in objs && Target(a) == IdOf(m)
  }

  lemma PutsTargets(objs: seq<Manifest>, cr: MetalLB)
    ensures TargetsAmong(Puts(objs, cr), objs)
  {
    forall a | a in Puts(objs, cr) && !a.Own? ensures exists m :: m in objs && Target(a) == IdOf(m) {
      PutsMeaning(objs, cr, a);
      var m :| m in objs && !IsRBAC(m) && a == Put(AsApplied(m, cr));
      OwnedKeepsIdentity(m, cr);
    }
  }

  lemma DelsTargets(objs: seq<Manifest>)
    ensures TargetsAmong(Dels(objs), objs)
  {
  }

  /** The call a sync makes on an FRR-K8s object. */
  function FRRK8SCall(op: Operator, cr: MetalLB, f: Manifest): Action {
    if BGPType(cr.spec, op.env) == FRRK8sMode then Put(AsApplied(f, cr)) else Del(IdOf(f))
  }

  /** Where a call of a sync comes from. */
  ghost predicate Stems(op: Operator, cr: MetalLB, frrk8s: seq<Manifest>, metallb: seq<Manifest>, a: Action) {
    || (exists f :: f in frrk8s && a == FRRK8SCall(op, cr, f) && (a.Put? ==> !IsRBAC(f)))
    || (exists m :: m in metallb && !IsRBAC(m) && a == Put(AsApplied(m, cr)))
  }

  lemma CallsStem(op: Operator, cr: MetalLB, frrk8s: seq<Manifest>, metallb: seq<Manifest>, a: Action)
    requires a in Calls(op, cr, frrk8s, metallb) && !a.Own?
    ensures Stems(op, cr, frrk8s, metallb, a)
  {
    PutsMeaning(frrk8s, cr, a);
    PutsMeaning(metallb, cr, a);
    DelsMeaning(frrk8s, a);
  }

  lemma CallsCover(op: Operator, cr: MetalLB, frrk8s: seq<Manifest>, metallb: seq<Manifest>, m: Manifest)
    ensures m in frrk8s && (IsRBAC(m) ==> BGPType(cr.spec, op.env) != FRRK8sMode) ==>
      FRRK8SCall(op, cr, m) in FRRK8SCalls(op, cr, frrk8s)
    ensures m in metallb && !IsRBAC(m) ==> Put(AsApplied(m, cr)) in Puts(metallb, cr)
  {
    PutsMeaning(frrk8s, cr, Put(m));
    PutsMeaning(metallb, cr, Put(m));
    DelsMeaning(frrk8s, Del(IdOf(m)));
  }

  /**
   The identities the charts share: deleted for the one chart and applied for the other, or, in frr-k8s
   mode, applied for both and not alike.
   */
  function SharedIds(op: Operator, cr: MetalLB, frrk8s: seq<Manifest>, metallb: seq<Manifest>): set<Id> {
    set f, m | f in frrk8s && m in metallb && Shared(op, cr, f, m) :: IdOf(m)
  }

  predicate Shared(op: Operator, cr: MetalLB, f: Manifest, m: Manifest) {
    !IsRBAC(m) && IdOf(f) == IdOf(m)
    && (BGPType(cr.spec, op.env) == FRRK8sMode ==> AsApplied(f, cr) != AsApplied(m, cr))
  }

  lemma SameIdSameObject(objs: seq<Manifest>, m: Manifest, n: Manifest)
    requires DistinctIds(objs) && m in objs && n in objs && IdOf(m) == IdOf(n)
    ensures m == n
  {
  }

  lemma ConflictIsShared(op: Operator, cr: MetalLB, frrk8s: seq<Manifest>, metallb: seq<Manifest>, a: Action, b: Action)
    requires DistinctIds(frrk8s) && DistinctIds(metallb) && Conflict(a, b)
    requires Stems(op, cr, frrk8s, metallb, a) && Stems(op, cr, frrk8s, metallb, b)
    ensures exists f, m :: f in frrk8s && m in metallb && Shared(op, cr, f, m) && IdOf(m) == Target(a)
  {
    hide IdOf;
    hide Owned;
    hide IsRBAC;
    hide Shared;
    if x :| x in frrk8s && a == FRRK8SCall(op, cr, x) && (a.Put? ==> !IsRBAC(x)) {
      if y :| y in frrk8s && b == FRRK8SCall(op, cr, y) && (b.Put? ==> !IsRBAC(y)) {
        OwnedKeepsIdentity(x, cr);
        OwnedKeepsIdentity(y, cr);
        SameIdSameObject(frrk8s, x, y);
      } else {
        var m :| m in metallb && !IsRBAC(m) && b == Put(AsApplied(m, cr));
        CrossConflict(op, cr, x, m);
      }
    } else {
      var m :| m in metallb && !IsRBAC(m) && a == Put(AsApplied(m, cr));
      if f :| f in frrk8s && b == FRRK8SCall(op, cr, f) && (b.Put? ==> !IsRBAC(f)) {
        CrossConflict(op, cr, f, m);
      } else {
        var n :| n in metallb && !IsRBAC(n) && b == Put(AsApplied(n, cr));
        OwnedKeepsIdentity(m, cr);
        OwnedKeepsIdentity(n, cr);
        SameIdSameObject(metallb, m, n);
      }
    }
  }

  lemma CrossConflict(op: Operator, cr: MetalLB, f: Manifest, m: Manifest)
    requires !IsRBAC(m) && Conflict(FRRK8SCall(op, cr, f), Put(AsApplied(m, cr)))
    ensures Shared(op, cr, f, m) && IdOf(m) == Target(FRRK8SCall(op, cr, f))
  {
    OwnedKeepsIdentity(f, cr);
    OwnedKeepsIdentity(m, cr);
  }

  /** With distinct identities within each chart, what two calls want differently is exactly what the charts share. */
  lemma ContestedIsShared(op: Operator, cr: MetalLB, frrk8s: seq<Manifest>, metallb: seq<Manifest>)
    requires DistinctIds(frrk8s) && DistinctIds(metallb)
    ensures Contested(Calls(op, cr, frrk8s, metallb)) == SharedIds(op, cr, frrk8s, metallb)
  {
    var calls := Calls(op, cr, frrk8s, metallb);
    forall id | id in Contested(calls) ensures id in SharedIds(op, cr, frrk8s, metallb) {
      var a, b :| a in calls && b in calls && Conflict(a, b) && Target(a) == id;
      CallsStem(op, cr, frrk8s, metallb, a);
      CallsStem(op, cr, frrk8s, metallb, b);
      ConflictIsShared(op, cr, frrk8s, metallb, a, b);
    }
    forall id | id in SharedIds(op, cr, frrk8s, metallb) ensures id in Contested(calls) {
      var f, m :| f in frrk8s && m in metallb && Shared(op, cr, f, m) && IdOf(m) == id;
      SharedConflict(op, cr, frrk8s, metallb, f, m);
    }
  }

  lemma SharedConflict(op: Operator, cr: MetalLB, frrk8s: seq<Manifest>, metallb: seq<Manifest>, f: Manifest,
                       m: Manifest)
    requires f in frrk8s && m in metallb && Shared(op, cr, f, m)
    ensures
      var a, b := FRRK8SCall(op, cr, f), Put(AsApplied(m, cr));
      Conflict(a, b) && Target(a) == IdOf(m) && a in FRRK8SCalls(op, cr, frrk8s) && b in Puts(metallb, cr)
  {
    CallsCover(op, cr, frrk8s, metallb, f);
    CallsCover(op, cr, frrk8s, metallb, m);
    OwnedKeepsIdentity(f, cr);
    OwnedKeepsIdentity(m, cr);
  }

  // ---- Convergence and ordering ----

  predicate Applied(objects: Store, m: Manifest, cr: MetalLB) {
    IdOf(m) in objects && objects[IdOf(m)] == AsApplied(m, cr)
  }

  /** The FRR-K8s object is as its mode wants it: applied in frr-k8s mode unless RBAC, gone in any other mode. */
  predicate Final(op: Operator, cr: MetalLB, f: Manifest, objects: Store) {
    if BGPType(cr.spec, op.env) == FRRK8sMode then !IsRBAC(f) ==> Applied(objects, f, cr) else IdOf(f) !in objects
  }

  predicate FRRK8SFinal(op: Operator, cr: MetalLB, frrk8s: seq<Manifest>, objects: Store) {
    forall f :: f in frrk8s ==> Final(op, cr, f, objects)
  }

  lemma SettledIsApplied(objects: Store, m: Manifest, cr: MetalLB)
    ensures Settled(objects, Put(AsApplied(m, cr))) <==> Applied(objects, m, cr)
  {
    OwnedKeepsIdentity(m, cr);
  }

  lemma SettledIsFinal(op: Operator, cr: MetalLB, f: Manifest, objects: Store)
    requires IsRBAC(f) ==> BGPType(cr.spec, op.env) != FRRK8sMode
    ensures Settled(objects, FRRK8SCall(op, cr, f)) <==> Final(op, cr, f, objects)
  {
    SettledIsApplied(objects, f, cr);
  }

  /** The last call on an object is the one given, if no call made wants it differently. */
  lemma SoleCallSettles(objects: Store, calls: seq<Action>, a: Action)
    requires a in calls && !a.Own? && forall b :: b in calls ==> !Conflict(a, b)
    ensures Settled(Effect(objects, calls), a)
  {
    EffectIsLast(objects, calls, Target(a));
    assert !Conflict(a, Last(calls, Target(a)).value);
  }

  /**
   From whatever store the sync started: when the last call for the FRR-K8s chart is made, the FRR-K8s
   side is final. Every object of it that the charts do not share stays so while MetalLB objects are
   applied; and all of it is final at the end if and only if the charts share none.
   */
  lemma FRRK8SSettledFirst(op: Operator, cr: MetalLB, frrk8s: seq<Manifest>, metallb: seq<Manifest>, objects: Store,
                           k: nat)
    requires DistinctIds(frrk8s) && DistinctIds(metallb)
    requires |FRRK8SCalls(op, cr, frrk8s)| <= k <= |Calls(op, cr, frrk8s, metallb)|
    ensures
      var calls, shared := Calls(op, cr, frrk8s, metallb), SharedIds(op, cr, frrk8s, metallb);
      && FRRK8SFinal(op, cr, frrk8s, Effect(objects, calls[..|FRRK8SCalls(op, cr, frrk8s)|]))
      && (forall f :: f in frrk8s && IdOf(f) !in shared ==> Final(op, cr, f, Effect(objects, calls[..k])))
      && (FRRK8SFinal(op, cr, frrk8s, Effect(objects, calls)) <==> shared == {})
  {
    var calls, first := Calls(op, cr, frrk8s, metallb), FRRK8SCalls(op, cr, frrk8s);
    assert calls[..|first|] == first && calls[..|calls|] == calls;
    forall f | f in frrk8s ensures Final(op, cr, f, Effect(objects, first)) {
      FinalFirst(op, cr, frrk8s, objects, f);
    }
    forall f | f in frrk8s && IdOf(f) !in SharedIds(op, cr, frrk8s, metallb)
      ensures Final(op, cr, f, Effect(objects, calls[..k]))
    {
      FinalStays(op, cr, frrk8s, metallb, objects, f, k);
    }
    if f, m :| f in frrk8s && m in metallb && Shared(op, cr, f, m) {
      SharedNotFinal(op, cr, frrk8s, metallb, objects, f, m);
      assert IdOf(m) in SharedIds(op, cr, frrk8s, metallb);
    } else {
      forall f | f in frrk8s ensures Final(op, cr, f, Effect(objects, calls)) {
        FinalStays(op, cr, frrk8s, metallb, objects, f, |calls|);
      }
    }
  }

  lemma FinalFirst(op: Operator, cr: MetalLB, frrk8s: seq<Manifest>, objects: Store, f: Manifest)
    requires DistinctIds(frrk8s) && f in frrk8s
    ensures Final(op, cr, f, Effect(objects, FRRK8SCalls(op, cr, frrk8s)))
  {
    var first, a := FRRK8SCalls(op, cr, frrk8s), FRRK8SCall(op, cr, f);
    if IsRBAC(f) ==> BGPType(cr.spec, op.env) != FRRK8sMode {
      CallsCover(op, cr, frrk8s, [], f);
      ContestedIsShared(op, cr, frrk8s, []);
      assert first + [] == first;
      forall b | b in first ensures !Conflict(a, b) {
        assert Conflict(a, b) ==> Target(a) in Contested(first);
      }
      SoleCallSettles(objects, first, a);
      SettledIsFinal(op, cr, f, Effect(objects, first));
    }
  }

  lemma FinalStays(op: Operator, cr: MetalLB,
                   frrk8s: seq<Manifest>, metallb: seq<Manifest>, objects: Store, f: Manifest, k: nat)
    requires DistinctIds(frrk8s) && DistinctIds(metallb)
    requires f in frrk8s && IdOf(f) !in SharedIds(op, cr, frrk8s, metallb)
    requires |FRRK8SCalls(op, cr, frrk8s)| <= k <= |Calls(op, cr, frrk8s, metallb)|
    ensures Final(op, cr, f, Effect(objects, Calls(op, cr, frrk8s, metallb)[..k]))
  {
    var first, calls, a := FRRK8SCalls(op, cr, frrk8s), Calls(op, cr, frrk8s, metallb), FRRK8SCall(op, cr, f);
    if IsRBAC(f) ==> BGPType(cr.spec, op.env) != FRRK8sMode {
      CallsCover(op, cr, frrk8s, metallb, f);
      ContestedIsShared(op, cr, frrk8s, metallb);
      OwnedKeepsIdentity(f, cr);
      hide IdOf;
      hide AsApplied;
      hide SharedIds;
      hide Final;
      var i :| 0 <= i < |first| && first[i] == a;
      assert calls[..k][i] == a;
      forall b | b in calls[..k] ensures !Conflict(a, b) {
        assert Conflict(a, b) ==> Target(a) in Contested(calls);
      }
      SoleCallSettles(objects, calls[..k], a);
      SettledIsFinal(op, cr, f, Effect(objects, calls[..k]));
    }
  }

  lemma SharedNotFinal(op: Operator, cr: MetalLB,
                       frrk8s: seq<Manifest>, metallb: seq<Manifest>, objects: Store, f: Manifest, m: Manifest)
    requires DistinctIds(frrk8s) && DistinctIds(metallb)
    requires f in frrk8s && m in metallb && Shared(op, cr, f, m)
    ensures !Final(op, cr, f, Effect(objects, Calls(op, cr, frrk8s, metallb)))
  {
    MetalLBApplied(op, cr, frrk8s, metallb, objects, m);
    assert IsRBAC(f) <==> IsRBAC(m);
  }

  /** The MetalLB objects come last, so all that are not RBAC are applied whatever the charts share. */
  lemma MetalLBApplied(op: Operator, cr: MetalLB, frrk8s: seq<Manifest>, metallb: seq<Manifest>, objects: Store,
                       m: Manifest)
    requires DistinctIds(metallb) && m in metallb && !IsRBAC(m)
    ensures Applied(Effect(objects, Calls(op, cr, frrk8s, metallb)), m, cr)
  {
    var puts, a := Puts(metallb, cr), Put(AsApplied(m, cr));
    EffectAppend(objects, FRRK8SCalls(op, cr, frrk8s), puts);
    CallsCover(op, cr, [], metallb, m);
    forall b | b in puts ensures !Conflict(a, b) {
      if Conflict(a, b) {
        PutsMeaning(metallb, cr, b);
        var n :| n in metallb && !IsRBAC(n) && b == Put(AsApplied(n, cr));
        OwnedKeepsIdentity(m, cr);
        OwnedKeepsIdentity(n, cr);
        SameIdSameObject(metallb, m, n);
      }
    }
    SoleCallSettles(Effect(objects, FRRK8SCalls(op, cr, frrk8s)), puts, a);
    SettledIsApplied(Effect(objects, Calls(op, cr, frrk8s, metallb)), m, cr);
  }

  /** FRR-K8s objects are applied exactly when the charts are told frrk8s.enabled, and deleted otherwise. */
  lemma AppliedExactlyWhenEnabled(op: Operator, cr: MetalLB, frrk8s: seq<Manifest>, metallb: seq<Manifest>, m: Manifest)
    requires m in frrk8s && !IsRBAC(m)
    ensures
      var enabled := ChartValues(op.env, cr.spec).frrk8sEnabled;
      && (Put(AsApplied(m, cr)) in FRRK8SCalls(op, cr, frrk8s) <==> enabled)
      && (Del(IdOf(m)) in Calls(op, cr, frrk8s, metallb) <==> !enabled)
  {
    var put, del := Put(AsApplied(m, cr)), Del(IdOf(m));
    PutsMeaning(frrk8s, cr, put);
    PutsMeaning(frrk8s, cr, del);
    DelsMeaning(frrk8s, put);
    DelsMeaning(frrk8s, del);
    PutsMeaning(metallb, cr, del);
  }

  /** The charts render this resource to these objects, each under identities that differ pairwise. */
  predicate Renders(op: Operator, cr: MetalLB, frrk8s: seq<Manifest>, metallb: seq<Manifest>) {
    && op.frrk8s.Manifests(op.env, cr.spec) == Ok(frrk8s)
    && op.metallb.Manifests(op.env, cr.spec) == Ok(metallb)
    && DistinctIds(frrk8s) && DistinctIds(metallb)
  }

  predicate Valid(op: Operator, cr: MetalLB, sc: Script) {
    Validate(cr.spec, sc.externalNamespace) && ValidBGPMode(cr.spec, op.env.isOpenshift)
  }

  /**
   The store after a clean sync: every MetalLB object that is not RBAC is applied. An FRR-K8s object
   that the charts do not share is final; a shared one is the MetalLB chart's, so in every mode but
   frr-k8s an FRR-K8s identity is there exactly when the MetalLB chart wants it.
   */
  predicate Converged(op: Operator, cr: MetalLB, frrk8s: seq<Manifest>, metallb: seq<Manifest>, objects: Store) {
    && (forall m :: m in metallb && !IsRBAC(m) ==> Applied(objects, m, cr))
    && (forall f :: f in frrk8s && IdOf(f) !in SharedIds(op, cr, frrk8s, metallb) ==> Final(op, cr, f, objects))
    && (BGPType(cr.spec, op.env) != FRRK8sMode ==>
          forall f :: f in frrk8s ==> (IdOf(f) in objects <==>
              exists m :: m in metallb && !IsRBAC(m) && IdOf(m) == IdOf(f)))
    && (FRRK8SFinal(op, cr, frrk8s, objects) <==> SharedIds(op, cr, frrk8s, metallb) == {})
    && WrongIds(objects, Calls(op, cr, frrk8s, metallb)) == {}
  }

  /** A sync of a valid resource makes its calls up to the first that fails, and succeeds if none does. */
  lemma SyncIsPrefix(op: Operator, cr: MetalLB, objects: Store, sc: Script, frrk8s: seq<Manifest>,
                     metallb: seq<Manifest>)
    requires Renders(op, cr, frrk8s, metallb) && Valid(op, cr, sc)
    ensures
      var calls := Calls(op, cr, frrk8s, metallb);
      var k := Made(|calls|, sc.fails, 0);
      SyncObjects(op, cr, objects, sc) == (Effect(objects, calls[..k]), if k == |calls| then Synced else SyncFailed)
  {
    FailureGivesPrefix(objects, Calls(op, cr, frrk8s, metallb), sc.fails, 0);
  }

  /** From any store: a sync of a valid resource whose calls all succeed converges, and touches nothing else. */
  lemma SyncConverges(op: Operator, cr: MetalLB, objects: Store, sc: Script, frrk8s: seq<Manifest>,
                      metallb: seq<Manifest>)
    requires Renders(op, cr, frrk8s, metallb) && Valid(op, cr, sc)
    requires SyncObjects(op, cr, objects, sc).1 == Synced
    ensures
      var after := SyncObjects(op, cr, objects, sc).0;
      && Converged(op, cr, frrk8s, metallb, after)
      && forall id :: (forall m :: m in frrk8s + metallb ==> IdOf(m) != id) ==> SameAt(after, objects, id)
  {
    var calls := Calls(op, cr, frrk8s, metallb);
    SyncIsPrefix(op, cr, objects, sc, frrk8s, metallb);
    hide SyncObjects;
    assert calls[..|calls|] == calls;
    EffectConverges(op, cr, frrk8s, metallb, objects);
    hide Converged;
    forall id | forall m :: m in frrk8s + metallb ==> IdOf(m) != id
      ensures SameAt(Effect(objects, calls), objects, id)
    {
      CallsTargets(op, cr, frrk8s, metallb);
      EffectIsLast(objects, calls, id);
    }
  }

  lemma CallsTargets(op: Operator, cr: MetalLB, frrk8s: seq<Manifest>, metallb: seq<Manifest>)
    ensures TargetsAmong(Calls(op, cr, frrk8s, metallb), frrk8s + metallb)
  {
    PutsTargets(frrk8s, cr);
    PutsTargets(metallb, cr);
    DelsTargets(frrk8s);
  }

  lemma EffectConverges(op: Operator, cr: MetalLB, frrk8s: seq<Manifest>, metallb: seq<Manifest>, objects: Store)
    requires DistinctIds(frrk8s) && DistinctIds(metallb)
    ensures Converged(op, cr, frrk8s, metallb, Effect(objects, Calls(op, cr, frrk8s, metallb)))
  {
    var calls := Calls(op, cr, frrk8s, metallb);
    assert calls[..|calls|] == calls;
    SyncEndsRight(objects, calls);
    FRRK8SSettledFirst(op, cr, frrk8s, metallb, objects, |calls|);
    forall m | m in metallb && !IsRBAC(m) ensures Applied(Effect(objects, calls), m, cr) {
      MetalLBApplied(op, cr, frrk8s, metallb, objects, m);
    }
    hide Calls;
    hide Effect;
    hide WrongIds;
    hide FRRK8SFinal;
  }

  /**
   Any sync of the resource, however it fares: an object that was right stays as it was, unless the
   charts share it.
   */
  lemma SyncProgresses(op: Operator, cr: MetalLB, objects: Store, sc: Script, frrk8s: seq<Manifest>,
                       metallb: seq<Manifest>)
    requires Renders(op, cr, frrk8s, metallb)
    ensures
      var calls, shared := Calls(op, cr, frrk8s, metallb), SharedIds(op, cr, frrk8s, metallb);
      var after := SyncObjects(op, cr, objects, sc).0;
      && WrongIds(after, calls) <= WrongIds(objects, calls) + shared
      && forall id :: id !in WrongIds(objects, calls) + shared ==> SameAt(after, objects, id)
  {
    var calls := Calls(op, cr, frrk8s, metallb);
    ContestedIsShared(op, cr, frrk8s, metallb);
    hide WrongIds;
    hide Contested;
    hide SharedIds;
    hide Calls;
    if Valid(op, cr, sc) {
      SyncIsPrefix(op, cr, objects, sc, frrk8s, metallb);
      var done := calls[..Made(|calls|, sc.fails, 0)];
      forall id | id !in WrongIds(objects, calls) + Contested(calls)
        ensures SameAt(Effect(objects, done), objects, id) && id !in WrongIds(Effect(objects, done), calls)
      {
        RightStaysRight(objects, calls, done, id);
      }
    }
  }

  /**
   The condition is exact: a converged store survives every sync of its resource, wherever that fails,
   if and only if the charts share no identity. What a sync cut short leaves wrong is shared, and every
   shared object is left wrong by some sync cut short.
   */
  lemma ConvergedSurvives(op: Operator, cr: MetalLB, objects: Store, sc: Script,
                          frrk8s: seq<Manifest>, metallb: seq<Manifest>, id: Id)
    requires Renders(op, cr, frrk8s, metallb) && Valid(op, cr, sc)
    requires WrongIds(objects, Calls(op, cr, frrk8s, metallb)) == {}
    ensures id in SharedIds(op, cr, frrk8s, metallb) <==>
      exists fails ::
        id in WrongIds(SyncObjects(op, cr, objects, sc.(fails := fails)).0, Calls(op, cr, frrk8s, metallb))
    ensures SharedIds(op, cr, frrk8s, metallb) == {} <==>
      forall fails :: SyncObjects(op, cr, objects, sc.(fails := fails)).0 == objects
  {
    var calls, shared := Calls(op, cr, frrk8s, metallb), SharedIds(op, cr, frrk8s, metallb);
    forall fails: nat -> bool ensures WrongIds(SyncObjects(op, cr, objects, sc.(fails := fails)).0, calls) <= shared {
      SyncProgresses(op, cr, objects, sc.(fails := fails), frrk8s, metallb);
    }
    if shared == {} {
      forall fails: nat -> bool ensures SyncObjects(op, cr, objects, sc.(fails := fails)).0 == objects {
        SyncProgresses(op, cr, objects, sc.(fails := fails), frrk8s, metallb);
        SameStore(SyncObjects(op, cr, objects, sc.(fails := fails)).0, objects);
      }
    }
    forall x | x in shared
      ensures exists fails :: x in WrongIds(SyncObjects(op, cr, objects, sc.(fails := fails)).0, calls)
    {
      var fails := SharedGoesWrong(op, cr, objects, sc, frrk8s, metallb, x);
    }
  }

  lemma SharedGoesWrong(op: Operator, cr: MetalLB, objects: Store, sc: Script,
                        frrk8s: seq<Manifest>, metallb: seq<Manifest>, id: Id)
    returns (fails: nat -> bool)
    requires Renders(op, cr, frrk8s, metallb) && Valid(op, cr, sc)
    requires id in SharedIds(op, cr, frrk8s, metallb)
    ensures id in WrongIds(SyncObjects(op, cr, objects, sc.(fails := fails)).0, Calls(op, cr, frrk8s, metallb))
  {
    var calls := Calls(op, cr, frrk8s, metallb);
    ContestedIsShared(op, cr, frrk8s, metallb);
    ContestedGoesWrong(objects, calls, id);
    var k :| 0 <= k <= |calls| && id in WrongIds(Effect(objects, calls[..k]), calls);
    fails := n => n == k;
    SyncIsPrefix(op, cr, objects, sc.(fails := fails), frrk8s, metallb);
    MadeUpTo(|calls|, k, fails);
    hide SyncObjects;
    hide Calls;
    hide WrongIds;
    hide SharedIds;
  }

  lemma MadeUpTo(count: nat, k: nat, fails: nat -> bool)
    requires k <= count && forall n :: fails(n) <==> n == k
    ensures Made(count, fails, 0) == k
  {
    assert !(k < Made(count, fails, 0)) || !fails(k);
  }

  // ---- What a sync cut short deletes for good ----

  /** The calls a sync makes before the first that fails. */
  function MadeCalls(op: Operator, cr: MetalLB, frrk8s: seq<Manifest>, metallb: seq<Manifest>,
                     fails: nat -> bool): seq<Action> {
    var calls := Calls(op, cr, frrk8s, metallb);
    calls[..Made(|calls|, fails, 0)]
  }

  /** The object was deleted and not applied again. */
  predicate Interrupted(made: seq<Action>, id: Id) {
    Del(id) in made && forall a :: a in made && a.Put? ==> IdOf(a.obj) != id
  }

  /** Every delete comes before every apply. */
  predicate DeletesFirst(calls: seq<Action>) {
    forall i, j :: 0 <= i < j < |calls| && calls[i].Put? ==> !calls[j].Del?
  }

  lemma CallsDeleteFirst(op: Operator, cr: MetalLB, frrk8s: seq<Manifest>, metallb: seq<Manifest>)
    ensures DeletesFirst(Calls(op, cr, frrk8s, metallb))
  {
    NoDeletes(frrk8s, cr);
    NoDeletes(metallb, cr);
    NoApplies(frrk8s);
    hide Puts;
    hide Dels;
    var first, calls := FRRK8SCalls(op, cr, frrk8s), Calls(op, cr, frrk8s, metallb);
    assert forall i :: 0 <= i < |first| ==> calls[i] == first[i];
    assert forall i :: |first| <= i < |calls| ==> calls[i] == Puts(metallb, cr)[i - |first|];
  }

  lemma NoDeletes(objs: seq<Manifest>, cr: MetalLB)
    ensures forall i :: 0 <= i < |Puts(objs, cr)| ==> !Puts(objs, cr)[i].Del?
  {
    forall i | 0 <= i < |Puts(objs, cr)| ensures !Puts(objs, cr)[i].Del? {
      PutsMeaning(objs, cr, Puts(objs, cr)[i]);
    }
  }

  lemma NoApplies(objs: seq<Manifest>)
    ensures forall i :: 0 <= i < |Dels(objs)| ==> Dels(objs)[i].Del?
  {
    forall i | 0 <= i < |Dels(objs)| ensures Dels(objs)[i].Del? {
      DelsMeaning(objs, Dels(objs)[i]);
    }
  }

  /** With deletes first, the last call on an object is a delete exactly when it was deleted and not applied again. */
  lemma {:induction false} LastIsDelete(made: seq<Action>, id: Id)
    requires DeletesFirst(made)
    ensures Last(made, id) == Some(Del(id)) <==> Interrupted(made, id)
    decreases |made|
  {
    if made != [] {
      LastIsDelete(made[1..], id);
      assert made == [made[0]] + made[1..];
      if made[0].Put? {
        assert forall a :: a in made[1..] ==> !a.Del?;
      }
    }
  }

  /**
   Exactly which objects a sync removes, wherever it fails: those it deletes and does not come to apply.
   It leaves gone those, and what was missing and it does not come to apply.
   */
  lemma GoneExactly(op: Operator, cr: MetalLB, objects: Store, sc: Script, frrk8s: seq<Manifest>,
                    metallb: seq<Manifest>, id: Id)
    requires Renders(op, cr, frrk8s, metallb) && Valid(op, cr, sc)
    ensures
      var made, after := MadeCalls(op, cr, frrk8s, metallb, sc.fails), SyncObjects(op, cr, objects, sc).0;
      && (id in objects ==> (id !in after <==> Interrupted(made, id)))
      && (id !in objects ==> (id !in after <==> forall a :: a in made && a.Put? ==> IdOf(a.obj) != id))
  {
    var made := MadeCalls(op, cr, frrk8s, metallb, sc.fails);
    SyncIsPrefix(op, cr, objects, sc, frrk8s, metallb);
    CallsDeleteFirst(op, cr, frrk8s, metallb);
    LastIsDelete(made, id);
    EffectIsLast(objects, made, id);
    hide SyncObjects;
    hide Calls;
    hide Made;
    hide Effect;
    hide IdOf;
    hide Renders;
    hide Valid;
    assert Last(made, id).None? ==> Del(id) !in made;
  }

  /**
   In every mode but frr-k8s, an object the charts share is deleted before it is applied again. From any
   store, a sync that fails anywhere in between, the apply itself included, leaves it gone and wrong.
   */
  lemma SharedObjectIsLost(op: Operator, cr: MetalLB, objects: Store, sc: Script, frrk8s: seq<Manifest>,
                           metallb: seq<Manifest>, id: Id)
    requires Renders(op, cr, frrk8s, metallb) && Valid(op, cr, sc)
    requires id in SharedIds(op, cr, frrk8s, metallb)
    requires Interrupted(MadeCalls(op, cr, frrk8s, metallb, sc.fails), id)
    ensures
      var (after, outcome) := SyncObjects(op, cr, objects, sc);
      outcome == SyncFailed && id !in after && id in WrongIds(after, Calls(op, cr, frrk8s, metallb))
  {
    var f, m :| f in frrk8s && m in metallb && Shared(op, cr, f, m) && IdOf(m) == id;
    hide Shared;
    hide SharedIds;
    hide WrongIds;
    hide SyncObjects;
    hide IdOf;
    hide IsRBAC;
    SyncIsPrefix(op, cr, objects, sc, frrk8s, metallb);
    GoneExactly(op, cr, objects, sc, frrk8s, metallb, id);
    SharedIsWanted(op, cr, f, m);
    MissingIsWrong(op, cr, frrk8s, metallb, SyncObjects(op, cr, objects, sc).0, m);
    InterruptedIsCut(op, cr, frrk8s, metallb, sc.fails, m);
  }

  lemma SharedIsWanted(op: Operator, cr: MetalLB, f: Manifest, m: Manifest)
    requires Shared(op, cr, f, m)
    ensures !IsRBAC(m)
  {
  }

  lemma InterruptedIsCut(op: Operator, cr: MetalLB, frrk8s: seq<Manifest>, metallb: seq<Manifest>, fails: nat -> bool,
                         m: Manifest)
    requires m in metallb && !IsRBAC(m) && Interrupted(MadeCalls(op, cr, frrk8s, metallb, fails), IdOf(m))
    ensures
      var calls := Calls(op, cr, frrk8s, metallb);
      Made(|calls|, fails, 0) != |calls|
  {
    var calls := Calls(op, cr, frrk8s, metallb);
    CallsCover(op, cr, [], metallb, m);
    OwnedKeepsIdentity(m, cr);
    hide IdOf;
    hide AsApplied;
    assert calls[..|calls|] == calls;
    assert Put(AsApplied(m, cr)) in calls;
  }

  lemma MissingIsWrong(op: Operator, cr: MetalLB, frrk8s: seq<Manifest>, metallb: seq<Manifest>, objects: Store,
                       m: Manifest)
    requires DistinctIds(metallb) && m in metallb && !IsRBAC(m) && IdOf(m) !in objects
    ensures IdOf(m) in WrongIds(objects, Calls(op, cr, frrk8s, metallb))
  {
    var calls := Calls(op, cr, frrk8s, metallb);
    MetalLBApplied(op, cr, frrk8s, metallb, objects, m);
    CallsCover(op, cr, [], metallb, m);
    OwnedKeepsIdentity(m, cr);
    assert Put(AsApplied(m, cr)) in calls;
    assert !SameAt(objects, Effect(objects, calls), IdOf(m));
  }
}
