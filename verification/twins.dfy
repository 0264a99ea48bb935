// Twin inventories answer every query, walk every closure and decide every action alike.
module TwinTheory {
  import opened Prelude
  import opened Model
  import opened Inventory
  import opened Classification
  import opened Graph
  import opened Closures
  import opened Verdicts
  import opened Trees
  import opened Cluster
  import opened Scenario
  import opened Parity

  predicate SlashFree(r: Ref) {
    '/' !in r.gvk.kind && '/' !in r.namespace && '/' !in r.name
  }

  // The inventories are twins; every listed ref has the loader's uid and a slash-free identity.
  ghost predicate TwinStates(bs: seq<Object>, ls: seq<Object>) {
    && |bs| == |ls|
    && (forall i :: 0 <= i < |bs| ==> Twins(RefsOf(ls), bs[i], ls[i]))
    && (forall r :: r in RefsOf(ls) ==> Synthetic(r) && SlashFree(r))
  }

  function RefsOf(objs: seq<Object>): (refs: seq<Ref>)
    ensures |refs| == |objs| && forall i :: 0 <= i < |objs| ==> refs[i] == objs[i].ref
  {
    seq(|objs|, i requires 0 <= i < |objs| => objs[i].ref)
  }

  // ----- synthetic uids identify slash-free identities

  lemma UidSlashes(kind: string, ns: string, name: string, i: nat)
    requires '/' !in kind && '/' !in ns && '/' !in name
    requires 4 <= i < |UidOf(kind, ns, name)|
    ensures UidOf(kind, ns, name)[i] == '/' <==> i == 4 + |kind| || i == 5 + |kind| + |ns|
  {
    var s := UidOf(kind, ns, name);
    if i < 4 + |kind| {
      assert s[i] == kind[i - 4];
    } else if 4 + |kind| < i < 5 + |kind| + |ns| {
      assert s[i] == ns[i - 5 - |kind|];
    } else if i > 5 + |kind| + |ns| {
      assert s[i] == name[i - 6 - |kind| - |ns|];
    }
  }

  lemma UidParts(kind: string, ns: string, name: string)
    ensures var s := UidOf(kind, ns, name);
      && |s| == 6 + |kind| + |ns| + |name|
      && s[4 + |kind|] == '/' && s[5 + |kind| + |ns|] == '/'
      && s[4..4 + |kind|] == kind && s[5 + |kind|..5 + |kind| + |ns|] == ns && s[6 + |kind| + |ns|..] == name
  {
  }

  lemma UidIdentifies(r: Ref, kind: string, ns: string, name: string)
    requires SlashFree(r)
    ensures UidOf(kind, ns, name) == UidOf(r.gvk.kind, r.namespace, r.name)
      ==> kind == r.gvk.kind && ns == r.namespace && name == r.name
  {
    if UidOf(kind, ns, name) == UidOf(r.gvk.kind, r.namespace, r.name) {
      UidParts(kind, ns, name);
      UidParts(r.gvk.kind, r.namespace, r.name);
      UidSlashes(r.gvk.kind, r.namespace, r.name, 4 + |kind|);
      UidSlashes(r.gvk.kind, r.namespace, r.name, 5 + |kind| + |ns|);
    }
  }

  // ----- queries

  lemma NamesSame(refs: seq<Ref>, x: CrossRef, y: CrossRef, scaling: bool, t: Ref)
    requires TwinRefs(refs, x, y) && t in refs && Synthetic(t) && SlashFree(t)
    ensures Names(x, scaling, t) <==> Names(y, scaling, t)
  {
    UidIdentifies(t, y.ref.gvk.kind, y.ref.namespace, y.ref.name);
  }

  lemma HitsSame(refs: seq<Ref>, b: Object, l: Object, q: Query)
    requires Twins(refs, b, l)
    requires q.ReferrersOf? ==> q.target in refs && Synthetic(q.target) && SlashFree(q.target)
    ensures Hits(q, b) <==> Hits(q, l)
  {
    if q.ReferrersOf? {
      forall j | 0 <= j < |b.crossRefs|
        ensures Names(b.crossRefs[j], q.scaling, q.target) <==> Names(l.crossRefs[j], q.scaling, q.target)
      {
        NamesSame(refs, b.crossRefs[j], l.crossRefs[j], q.scaling, q.target);
      }
    }
  }

  lemma {:induction false} ScanSame(refs: seq<Ref>, bs: seq<Object>, ls: seq<Object>, q: Query)
    requires |bs| == |ls| && forall i :: 0 <= i < |bs| ==> Twins(refs, bs[i], ls[i])
    requires q.ReferrersOf? ==> q.target in refs && Synthetic(q.target) && SlashFree(q.target)
    ensures Scan(bs, q) == Scan(ls, q)
  {
    if |bs| > 0 {
      ScanSame(refs, bs[..|bs| - 1], ls[..|ls| - 1], q);
      HitsSame(refs, bs[|bs| - 1], ls[|ls| - 1], q);
    }
  }

  lemma {:induction false} FindSame(bs: seq<Object>, ls: seq<Object>, uid: string, human: string)
    requires |bs| == |ls| && forall i :: 0 <= i < |bs| ==> bs[i].ref == ls[i].ref
    ensures FindUid(bs, uid) == FindUid(ls, uid) && FindHuman(bs, human) == FindHuman(ls, human)
  {
    if |bs| > 0 {
      FindSame(bs[..|bs| - 1], ls[..|ls| - 1], uid, human);
    }
  }

  lemma LookupSame(bs: seq<Object>, ls: seq<Object>, r: Ref)
    requires TwinStates(bs, ls)
    ensures Lookup(bs, r).Some? <==> Lookup(ls, r).Some?
    ensures Lookup(ls, r).Some? ==> Twins(RefsOf(ls), Lookup(bs, r).value, Lookup(ls, r).value)
    ensures Lookup(ls, r).Some? ==> var t := Lookup(ls, r).value.ref; t in RefsOf(ls) && Synthetic(t) && SlashFree(t)
  {
    FindSame(bs, ls, r.uid, r.Human());
    if Find(ls, r).Some? {
      assert RefsOf(ls)[Find(ls, r).value] in RefsOf(ls);
    }
  }

  // Every relation query answers alike, in the same order.
  lemma QueriesSame(bs: seq<Object>, ls: seq<Object>, r: Ref)
    requires TwinStates(bs, ls)
    ensures Children(bs, r) == Children(ls, r)
    ensures SelectedPods(bs, r) == SelectedPods(ls, r)
    ensures BindersOf(bs, r) == BindersOf(ls, r)
    ensures ConsumersOfRef(bs, r) == ConsumersOfRef(ls, r)
    ensures ScalersOfRef(bs, r) == ScalersOfRef(ls, r)
    ensures forall q: Query :: q.InNamespace? || q.PodsBound? || q.SelectorsBinding? ==> Scan(bs, q) == Scan(ls, q)
  {
    LookupSame(bs, ls, r);
    forall q: Query | !q.ReferrersOf? ensures Scan(bs, q) == Scan(ls, q) {
      ScanSame(RefsOf(ls), bs, ls, q);
    }
    if Lookup(ls, r).Some? {
      var o := Lookup(ls, r).value;
      ScanSame(RefsOf(ls), bs, ls, ReferrersOf(false, o.ref));
      ScanSame(RefsOf(ls), bs, ls, ReferrersOf(true, o.ref));
    }
  }

  // ----- runs

  lemma QueuesSame(bs: seq<Object>, ls: seq<Object>, a: Action, fx: EffectSet, cur: Ref, next: seq<Ref>)
    requires TwinStates(bs, ls)
    ensures Queues(bs, a, fx, cur, next) <==> Queues(ls, a, fx, cur, next)
  {
    MutationsSame(bs, ls, a);
    QueuedFirstSame(bs, ls, fx, cur);
  }

  lemma MutationsSame(bs: seq<Object>, ls: seq<Object>, a: Action)
    requires TwinStates(bs, ls)
    ensures ReboundMap(bs, a) == ReboundMap(ls, a) && RelabelledMap(bs, a) == RelabelledMap(ls, a)
  {
    PayloadScansSame(bs, ls, a.target, a.old_);
    PayloadScansSame(bs, ls, a.target, a.new_);
  }

  lemma PayloadScansSame(bs: seq<Object>, ls: seq<Object>, target: Ref, payload: Option<Object>)
    requires TwinStates(bs, ls)
    ensures PodsOf(bs, target, payload) == PodsOf(ls, target, payload)
    ensures LabelBinders(bs, target, payload) == LabelBinders(ls, target, payload)
  {
    if payload.Some? {
      var o := payload.value;
      ScanSame(RefsOf(ls), bs, ls, PodsBound(target.namespace, o.selector, target.gvk.kind));
      ScanSame(RefsOf(ls), bs, ls, SelectorsBinding(target.namespace, o.labels));
    }
  }

  lemma QueuedFirstSame(bs: seq<Object>, ls: seq<Object>, fx: EffectSet, cur: Ref)
    requires TwinStates(bs, ls)
    ensures QueuedFirst(bs, fx, cur) == QueuedFirst(ls, fx, cur)
    ensures Binders(bs, cur) == Binders(ls, cur)
  {
    QueriesSame(bs, ls, cur);
    assert Scan(bs, InNamespace(cur.name)) == Scan(ls, InNamespace(cur.name));
  }

  lemma RunSame(bs: seq<Object>, ls: seq<Object>, a: Action, fx: EffectSet, c: seq<Ref>)
    requires TwinStates(bs, ls)
    ensures RunOf(bs, a, fx, c) <==> RunOf(ls, a, fx, c)
  {
    LookupSame(bs, ls, a.target);
    forall s, t ensures Turn(bs, a, fx, s, t) <==> Turn(ls, a, fx, s, t) {
      TurnSame(bs, ls, a, fx, s, t);
    }
    forall s ensures RunsTo(bs, a, fx, s) <==> RunsTo(ls, a, fx, s) {
      ReachSame(Turns(bs, a, fx), Turns(ls, a, fx), Initial(a.target), s);
    }
  }

  lemma TurnSame(bs: seq<Object>, ls: seq<Object>, a: Action, fx: EffectSet, s: RunState, t: RunState)
    requires TwinStates(bs, ls)
    ensures Turn(bs, a, fx, s, t) <==> Turn(ls, a, fx, s, t)
  {
    if |s.queue| > 0 {
      forall next ensures Queues(bs, a, fx, s.queue[0], next) <==> Queues(ls, a, fx, s.queue[0], next) {
        QueuesSame(bs, ls, a, fx, s.queue[0], next);
      }
      QueuedFirstSame(bs, ls, fx, s.queue[0]);
    }
  }

  // ----- verdicts

  lemma SubtreeSame(bs: seq<Object>, ls: seq<Object>, root: Ref, k: string)
    requires TwinStates(bs, ls)
    ensures InSubtree(bs, root, k) <==> InSubtree(ls, root, k)
  {
    LookupSame(bs, ls, root);
    forall x, y ensures OwnEdges(bs)(x, y) <==> OwnEdges(ls)(x, y) {
      QueriesSame(bs, ls, x);
    }
    forall y ensures Owned(bs, root, y) <==> Owned(ls, root, y) {
      ReachSame(OwnEdges(bs), OwnEdges(ls), Origin(ls, root), y);
    }
  }

  lemma CoverSame(bs: seq<Object>, ls: seq<Object>, glob: Glob, scope: seq<ScopeClause>, r: Ref)
    requires TwinStates(bs, ls)
    ensures CoveredByMemo(bs, glob, scope, r) <==> CoveredByMemo(ls, glob, scope, r)
  {
    forall sc | sc in scope ensures MemoCovers(bs, glob, scope, sc, r) <==> MemoCovers(ls, glob, scope, sc, r) {
      LookupSame(bs, ls, r);
      SubtreeSame(bs, ls, MemoRoot(scope, sc), r.Key());
    }
  }

  // Safe's possible decisions over twin inventories are the same.
  lemma DecisionsSame(bs: seq<Object>, ls: seq<Object>, glob: Glob, a: Action, scope: seq<ScopeClause>, d: Decision)
    requires TwinStates(bs, ls)
    ensures SafeDecision(bs, glob, a, scope, d) <==> SafeDecision(ls, glob, a, scope, d)
  {
    LookupSame(bs, ls, a.target);
    RunSame(bs, ls, a, Effects(a), d.closure);
    forall r ensures CoveredByMemo(bs, glob, scope, r) <==> CoveredByMemo(ls, glob, scope, r) {
      CoverSame(bs, ls, glob, scope, r);
    }
    KeysResolveSame(bs, ls);
  }

  lemma KeysResolveSame(bs: seq<Object>, ls: seq<Object>)
    requires TwinStates(bs, ls)
    ensures KeysResolve(bs) <==> KeysResolve(ls)
  {
    forall r ensures IsObjectRef(bs, r) <==> IsObjectRef(ls, r) {
      ObjectRefSame(bs, ls, r);
    }
    forall x, y ensures SameOrigin(bs, x, y) <==> SameOrigin(ls, x, y) {
      LookupSame(bs, ls, x);
      LookupSame(bs, ls, y);
    }
  }

  lemma ObjectRefSame(bs: seq<Object>, ls: seq<Object>, r: Ref)
    requires TwinStates(bs, ls)
    ensures IsObjectRef(bs, r) <==> IsObjectRef(ls, r)
  {
    if o :| o in bs && o.ref == r {
      var i :| 0 <= i < |bs| && bs[i] == o;
      assert ls[i] in ls && ls[i].ref == r;
    }
    if o :| o in ls && o.ref == r {
      var i :| 0 <= i < |ls| && ls[i] == o;
      assert bs[i] in bs && bs[i].ref == r;
    }
  }

  lemma PairedAreTwins(vs: seq<Value>, ms: seq<Manifest>, info: ScopeInfo, bs: seq<Object>, ls: seq<Object>)
    requires Paired(vs, ms, info) && Built(vs, info) == Ok(bs) && Loaded(ms) == Ok(ls)
    requires forall m :: m in ms ==> SlashFree(ManifestRef(m))
    ensures TwinStates(bs, ls)
  {
    BuildMatchesLoad(vs, ms, info);
    LoadedRefs(ms);
  }

  // End to end: manifests loaded, or represented as trees and built, decide every action
  // under every scope alike.
  lemma PipelinesAgree(vs: seq<Value>, ms: seq<Manifest>, info: ScopeInfo, glob: Glob,
                       a: Action, scope: seq<ScopeClause>, d: Decision)
    requires Paired(vs, ms, info)
    requires forall m :: m in ms ==> SlashFree(ManifestRef(m))
    ensures Built(vs, info).Ok? <==> Loaded(ms).Ok?
    ensures Loaded(ms).Ok? ==>
      (SafeDecision(Built(vs, info).value, glob, a, scope, d) <==> SafeDecision(Loaded(ms).value, glob, a, scope, d))
  {
    BuildMatchesLoad(vs, ms, info);
    if Loaded(ms).Ok? {
      var bs, ls := Built(vs, info).value, Loaded(ms).value;
      PairedAreTwins(vs, ms, info, bs, ls);
      DecisionsSame(bs, ls, glob, a, scope, d);
    }
  }

  lemma LoadedRefs(ms: seq<Manifest>)
    requires Loaded(ms).Ok? && forall m :: m in ms ==> m.kind != ""
    ensures RefsOf(Loaded(ms).value) == Refs(ms)
  {
    LoadedTraverses(ms);
    if |ms| > 0 {
      TraverseAt(LoadOne, ms, 0);
    }
    forall i | 0 <= i < |ms| ensures Loaded(ms).value[i].ref == ManifestRef(ms[i]) {
      TraverseAt(LoadOne, ms, i);
    }
  }
}
