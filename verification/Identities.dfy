/** The rendered names alone decide which objects the two charts share. */
module Identities {
  import opened Api
  import opened ChartTheorems
  import opened Charts
  import opened Clusters
  import opened Convergence
  import opened Editors
  import opened JsonTrees
  import opened Reconciling
  import opened Wrappers

  function KindName(m: Manifest): (string, string) {
    (Kind(m), Name(m))
  }

  predicate Unique(objs: seq<Manifest>) {
    forall i, j :: 0 <= i < j < |objs| ==> KindName(objs[i]) != KindName(objs[j])
  }

  /** Every object goes by the kind and name of one of the others. */
  ghost predicate NamesFrom(objs: seq<Manifest>, others: seq<Manifest>) {
    forall m :: m in objs ==> exists r :: r in others && KindName(r) == KindName(m)
  }

  lemma UniqueConcat(a: seq<Manifest>, b: seq<Manifest>, x: seq<Manifest>, y: seq<Manifest>)
    requires Unique(a) && Unique(b) && NamesFrom(a, x) && NamesFrom(b, y) && Unique(x + y)
    ensures Unique(a + b)
  {
    hide KindName;
    var c := a + b;
    forall i, j | 0 <= i < |a| <= j < |c| ensures KindName(c[i]) != KindName(c[j]) {
      assert c[i] in a && c[j] in b;
      var m :| m in x && KindName(m) == KindName(c[i]);
      var n :| n in y && KindName(n) == KindName(c[j]);
      var k :| 0 <= k < |x| && x[k] == m;
      var l :| 0 <= l < |y| && y[l] == n;
      assert (x + y)[k] == m && (x + y)[|x| + l] == n;
    }
  }

  lemma UniqueParts(a: seq<Manifest>, b: seq<Manifest>)
    requires Unique(a + b)
    ensures Unique(a) && Unique(b)
  {
    hide KindName;
    assert forall i :: 0 <= i < |a| ==> (a + b)[i] == a[i];
    assert forall i :: 0 <= i < |b| ==> (a + b)[|a| + i] == b[i];
  }

  lemma {:induction false} FRRK8SNames(env: Env, codec: Codec, spec: Spec, rendered: seq<Manifest>)
    requires KeepsIdentity(codec) && Unique(rendered) && FRRK8SEntries(env, codec, spec, rendered).Ok?
    ensures
      var objs := FRRK8SEntries(env, codec, spec, rendered).value;
      Unique(objs) && NamesFrom(objs, rendered)
  {
    if rendered != [] {
      var r, rest := rendered[0], rendered[1..];
      assert rendered == [r] + rest;
      UniqueParts([r], rest);
      FRRK8SNames(env, codec, spec, rest);
      FRRK8SEntryMeaning(env, codec, spec, r);
      PlacedIdentity(env, r);
      var first := Kept(FRRK8SEntry(env, codec, spec, r).value);
      hide FRRK8SEntry;
      hide KeepsIdentity;
      assert r in [r];
      assert NamesFrom(first, [r]);
      UniqueConcat(first, FRRK8SEntries(env, codec, spec, rest).value, [r], rest);
    }
  }

  /** The objects a chart can be expected to render besides those it does, on OpenShift. */
  function Added(env: Env): seq<Manifest> {
    if env.isOpenshift then [SpeakerSCC] else []
  }

  lemma MetalLBNames(chart: MetalLBChart, env: Env, spec: Spec, rendered: seq<Manifest>)
    requires KeepsIdentity(chart.codec) && chart.Manifests(env, spec).Ok?
    requires chart.render(env, spec, ChartValues(env, spec)) == Ok(rendered) && Unique(rendered + Added(env))
    ensures
      var objs := chart.Manifests(env, spec).value;
      Unique(objs) && NamesFrom(objs, rendered + Added(env))
  {
    MetalLBObjectsShape(chart, env, spec);
    var objs, all := chart.Manifests(env, spec).value, rendered + Added(env);
    hide KeepsIdentity;
    assert |objs| == |all|;
    forall i | 0 <= i < |objs| ensures KindName(objs[i]) == KindName(all[i]) && all[i] in all {
    }
  }

  /**
   If each chart renders objects of pairwise different kind and name (and none named like the SCC), then
   what it returns satisfies what the convergence theorems assume of it; and the charts share no identity
   but one whose kind and name they both render.
   */
  lemma ChartsRender(op: Operator, cr: MetalLB, frrk8s: seq<Manifest>, metallb: seq<Manifest>)
    requires KeepsIdentity(op.frrk8s.codec) && KeepsIdentity(op.metallb.codec)
    requires op.frrk8s.Manifests(op.env, cr.spec).Ok? && op.metallb.Manifests(op.env, cr.spec).Ok?
    requires op.frrk8s.render(op.env, cr.spec, FRRK8sValues(cr.spec).value) == Ok(frrk8s)
    requires op.metallb.render(op.env, cr.spec, ChartValues(op.env, cr.spec)) == Ok(metallb)
    requires Unique(frrk8s) && Unique(metallb + Added(op.env))
    ensures
      var f, m := op.frrk8s.Manifests(op.env, cr.spec).value, op.metallb.Manifests(op.env, cr.spec).value;
      && Renders(op, cr, f, m)
      && forall id :: id in SharedIds(op, cr, f, m) ==>
           && (exists r :: r in frrk8s && KindName(r) == (id.kind, id.name))
           && (exists r :: r in metallb + Added(op.env) && KindName(r) == (id.kind, id.name))
  {
    FRRK8SNames(op.env, op.frrk8s.codec, cr.spec, frrk8s);
    MetalLBNames(op.metallb, op.env, cr.spec, metallb);
    var f, m := op.frrk8s.Manifests(op.env, cr.spec).value, op.metallb.Manifests(op.env, cr.spec).value;
    hide KeepsIdentity;
    UniqueIsDistinct(f);
    UniqueIsDistinct(m);
    SharedByName(op, cr, f, m, frrk8s, metallb + Added(op.env));
  }

  lemma UniqueIsDistinct(objs: seq<Manifest>)
    requires Unique(objs)
    ensures DistinctIds(objs)
  {
    forall i, j | 0 <= i < j < |objs| ensures IdOf(objs[i]) != IdOf(objs[j]) {
      assert KindName(objs[i]) != KindName(objs[j]);
    }
  }

  lemma SharedByName(op: Operator, cr: MetalLB, f: seq<Manifest>, m: seq<Manifest>, x: seq<Manifest>, y: seq<Manifest>)
    requires NamesFrom(f, x) && NamesFrom(m, y)
    ensures forall id :: id in SharedIds(op, cr, f, m) ==>
      && (exists r :: r in x && KindName(r) == (id.kind, id.name))
      && (exists r :: r in y && KindName(r) == (id.kind, id.name))
  {
    forall id | id in SharedIds(op, cr, f, m)
      ensures exists r :: r in x && KindName(r) == (id.kind, id.name)
      ensures exists r :: r in y && KindName(r) == (id.kind, id.name)
    {
      var a, b :| a in f && b in m && Shared(op, cr, a, b) && IdOf(b) == id;
      assert KindName(a) == KindName(b) == (id.kind, id.name);
    }
  }
}
