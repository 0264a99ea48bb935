// Built inventories keep non-cascading actions inside the target's namespace.
module Confinement {
  import opened Prelude
  import opened Model
  import opened Inventory
  import opened Classification
  import opened Graph
  import opened Closures
  import opened ClosureTheory
  import opened Verdicts
  import opened Sorting
  import opened Trees
  import opened Cluster

  // Every cross-reference stays in its object's namespace, and a uid it carries is that
  // of an object there.
  ghost predicate LocalRef(objs: seq<Object>, o: Object, cr: CrossRef) {
    && cr.ref.namespace == o.ref.namespace
    && (cr.ref.uid != "" ==> exists p :: p in objs && p.ref.uid == cr.ref.uid && p.ref.namespace == o.ref.namespace)
  }

  ghost predicate LocalRefs(objs: seq<Object>) {
    forall o, cr :: o in objs && cr in o.crossRefs ==> LocalRef(objs, o, cr)
  }

  // Some listed tree has this uid and namespace.
  ghost predicate Listed(vs: seq<Value>, scope: ScopeInfo, uid: string, ns: string) {
    exists v :: v in vs && TreeRef(v, scope).uid == uid && TreeRef(v, scope).namespace == ns
  }

  lemma {:induction false} IndexNamesTrees(vs: seq<Value>, scope: ScopeInfo, k: HumanKey)
    requires NameIndex(vs, scope).Ok? && k in NameIndex(vs, scope).value
    ensures Listed(vs, scope, NameIndex(vs, scope).value[k], k.namespace)
  {
    var init, last := vs[..|vs| - 1], vs[|vs| - 1];
    var r := TreeRef(last, scope);
    if r.uid == "" || HumanKey(r.gvk.kind, r.namespace, r.name) != k {
      IndexNamesTrees(init, scope, k);
      var v :| v in init
        && TreeRef(v, scope).uid == NameIndex(init, scope).value[k] && TreeRef(v, scope).namespace == k.namespace;
      assert v in vs;
    } else {
      assert last in vs;
    }
  }

  // What BuildObjects returns has only local references.
  lemma BuiltIsLocal(vs: seq<Value>, scope: ScopeInfo, objs: seq<Object>)
    requires Built(vs, scope) == Ok(objs)
    ensures LocalRefs(objs)
  {
    var ix := NameIndex(vs, scope).value;
    forall o, cr | o in objs && cr in o.crossRefs ensures LocalRef(objs, o, cr) {
      var i :| 0 <= i < |objs| && objs[i] == o;
      TraverseAt(Maker(scope, ix), vs, i);
      ResolvedIsLocal(vs, scope, objs, o, TreeMentions(vs[i]), cr);
    }
  }

  lemma ListedIsBuilt(vs: seq<Value>, scope: ScopeInfo, objs: seq<Object>, uid: string, ns: string)
    requires Built(vs, scope) == Ok(objs) && Listed(vs, scope, uid, ns)
    ensures exists p :: p in objs && p.ref.uid == uid && p.ref.namespace == ns
  {
    var v :| v in vs && TreeRef(v, scope).uid == uid && TreeRef(v, scope).namespace == ns;
    var i :| 0 <= i < |vs| && vs[i] == v;
    TraverseAt(Maker(scope, NameIndex(vs, scope).value), vs, i);
    assert objs[i] in objs;
  }

  lemma ResolvedIsLocal(vs: seq<Value>, scope: ScopeInfo, objs: seq<Object>, o: Object, ms: seq<Mention>, cr: CrossRef)
    requires Built(vs, scope) == Ok(objs)
    requires cr in ResolveAll(ms, o.ref.namespace, NameIndex(vs, scope).value)
    ensures LocalRef(objs, o, cr)
  {
    var ix := NameIndex(vs, scope).value;
    var refs := ResolveAll(ms, o.ref.namespace, ix);
    var j :| 0 <= j < |refs| && refs[j] == cr;
    assert cr == Resolve(ms[j], o.ref.namespace, ix);
    var k := HumanKey(ms[j].gvk.kind, o.ref.namespace, ms[j].name);
    if k in ix {
      IndexNamesTrees(vs, scope, k);
      ListedIsBuilt(vs, scope, objs, ix[k], o.ref.namespace);
    }
  }

  // The effects that stay in a namespace.
  predicate StaysLocal(fx: EffectSet) {
    !fx.cascadeDelete && !fx.containment
  }

  lemma SameUidSameObject(objs: seq<Object>, o: Object, p: Object)
    requires WellFormed(objs) && o in objs && p in objs
    requires o.ref.uid == p.ref.uid != ""
    ensures o == p
  {
    ObjectKeysDistinct(objs, o.ref, p.ref);
    OwnRefLookup(objs, o);
    OwnRefLookup(objs, p);
  }

  lemma ReferrerIsLocal(objs: seq<Object>, o: Object, scaling: bool, y: Ref)
    requires WellFormed(objs) && LocalRefs(objs) && o in objs
    requires y in Scan(objs, ReferrersOf(scaling, o.ref))
    ensures y.namespace == o.ref.namespace
  {
    ScanFinds(objs, ReferrersOf(scaling, o.ref));
    var p :| p in objs && p.ref == y && Hits(ReferrersOf(scaling, o.ref), p);
    var i :| 0 <= i < |p.crossRefs| && Names(p.crossRefs[i], scaling, o.ref);
    var cr := p.crossRefs[i];
    assert LocalRef(objs, p, cr);
    if cr.ref.uid != "" && o.ref.uid != "" {
      var q :| q in objs && q.ref.uid == cr.ref.uid && q.ref.namespace == p.ref.namespace;
      SameUidSameObject(objs, q, o);
    }
  }

  lemma ScanIsLocal(objs: seq<Object>, q: Query, y: Ref)
    requires y in Scan(objs, q)
    ensures q.PodsBound? || q.SelectorsBinding? ==> y.namespace == q.ns
  {
    ScanFinds(objs, q);
  }

  // The target lies in the namespace of the object it resolves to.
  ghost predicate AtHome(objs: seq<Object>, target: Ref) {
    Lookup(objs, target).Some? ==> Lookup(objs, target).value.ref.namespace == target.namespace
  }

  lemma EdgeIsLocal(objs: seq<Object>, a: Action, fx: EffectSet, x: Ref, y: Ref)
    requires WellFormed(objs) && LocalRefs(objs) && AtHome(objs, a.target) && StaysLocal(fx)
    requires Node(objs, a.target, x) && x.namespace == a.target.namespace
    requires Edge(objs, a, fx, x, y)
    ensures y.namespace == a.target.namespace
  {
    if Lookup(objs, x).Some? {
      var o := Lookup(objs, x).value;
      LookupIsTracked(objs, x);
      NodeNamespace(objs, a.target, x);
      if y in Scan(objs, ReferrersOf(false, o.ref)) { ReferrerIsLocal(objs, o, false, y); }
      if y in Scan(objs, ReferrersOf(true, o.ref)) { ReferrerIsLocal(objs, o, true, y); }
    }
    forall q: Query | y in Scan(objs, q) ensures q.PodsBound? || q.SelectorsBinding? ==> y.namespace == q.ns {
      ScanIsLocal(objs, q, y);
    }
  }

  lemma NodeNamespace(objs: seq<Object>, target: Ref, x: Ref)
    requires WellFormed(objs) && AtHome(objs, target) && Node(objs, target, x) && Lookup(objs, x).Some?
    ensures Lookup(objs, x).value.ref.namespace == x.namespace
  {
    if x != target {
      var o :| o in objs && o.ref == x;
      OwnRefLookup(objs, o);
    }
  }

  lemma ReachedIsLocal(objs: seq<Object>, a: Action, fx: EffectSet, r: Ref)
    requires WellFormed(objs) && LocalRefs(objs) && AtHome(objs, a.target) && StaysLocal(fx)
    requires Reached(objs, a, fx, r)
    ensures r.namespace == a.target.namespace
  {
    var e := Edges(objs, a, fx);
    forall x, y | Reach(e, a.target, x) && x.namespace == a.target.namespace && e(x, y)
      ensures y.namespace == a.target.namespace
    {
      ReachedIsTracked(objs, a, fx, x);
      EdgeIsLocal(objs, a, fx, x, y);
    }
    Invariant(e, a.target, (x: Ref) => x.namespace == a.target.namespace, r);
  }

  // Neither a cascading delete nor the delete of a Namespace.
  predicate Contained(a: Action) {
    !(a.verb.Delete? && (a.cascade || a.target.gvk.kind == "Namespace"))
  }

  // On objects BuildObjects returns, such an action affects nothing outside the target's
  // namespace.
  lemma ClosureStaysInNamespace(vs: seq<Value>, scope: ScopeInfo, objs: seq<Object>, a: Action, c: seq<Ref>, r: Ref)
    requires Built(vs, scope) == Ok(objs) && WellFormed(objs) && AtHome(objs, a.target) && Contained(a)
    requires ClosureOf(objs, a, Effects(a), c) && r in c
    ensures r.namespace == a.target.namespace
  {
    var fx := Effects(a);
    BuiltIsLocal(vs, scope, objs);
    var done, m :| Walk(objs, a, fx, done, m) && Lists(c, m);
    WalkedIsReached(objs, a, fx, done, m);
    if r in done {
      ReachedIsLocal(objs, a, fx, r);
    } else {
      assert m[r.Key()] == r;
      var x :| x in done && Binds(objs, x, r);
      ReachedIsLocal(objs, a, fx, x);
      ScanIsLocal(objs, SelectorsBinding(x.namespace, Lookup(objs, x).value.labels), r);
    }
  }

  // So an ungated namespace clause for that namespace leaves nothing escaping: only an
  // unresolvable target is blocked.
  lemma NamespaceClauseSuffices(vs: seq<Value>, scope: ScopeInfo, objs: seq<Object>, glob: Glob, a: Action, d: Decision)
    requires Built(vs, scope) == Ok(objs) && WellFormed(objs) && AtHome(objs, a.target) && Contained(a)
    requires SafeDecision(objs, glob, a, [NamespaceClause(NO_GVK, a.target.namespace)], d)
    ensures d.escaping == []
    ensures d.verdict.Block? <==> Lookup(objs, a.target).None?
  {
    var clauses := [NamespaceClause(NO_GVK, a.target.namespace)];
    if Lookup(objs, a.target).Some? {
      PlainKeysResolve(objs);
      RunIsOutcome(objs, a, Effects(a), d.closure);
      forall r | r in d.closure ensures CoveredByMemo(objs, glob, clauses, r) {
        ClosureStaysInNamespace(vs, scope, objs, a, d.closure, r);
        assert clauses[0] in clauses && MemoCovers(objs, glob, clauses, clauses[0], r);
      }
      EmptyWithoutMembers(d.escaping);
    }
  }
}
