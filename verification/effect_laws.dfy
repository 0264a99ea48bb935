// What each verb reaches, in fields and literal kinds: the members of every decision.
module EffectLaws {
  import opened Prelude
  import opened Model
  import opened Inventory
  import opened Classification
  import opened Sorting
  import opened Graph
  import opened Worklist
  import opened Closures
  import opened ClosureTheory
  import opened Verdicts
  import opened VerdictTheory
  import opened RelationLaws

  predicate WorkloadKind(kind: string) {
    kind == "Deployment" || kind == "ReplicaSet" || kind == "StatefulSet" || kind == "DaemonSet"
  }

  predicate ConfigKind(kind: string) {
    kind == "ConfigMap" || kind == "Secret" || kind == "PersistentVolumeClaim"
  }

  predicate Mutates(v: Verb) {
    v.Update? || v.Patch?
  }

  predicate Disrupts(v: Verb) {
    v.Delete? || v.Scale? || v.Restart? || v.Update? || v.Patch?
  }

  // The labels differ by the comparison: in number, or in how some label of the first
  // reads in the second.
  ghost predicate LabelsDiffer(m: map<string, string>, n: map<string, string>) {
    |m| != |n| || exists k :: k in m && !HasLabel(n, k, m[k])
  }

  function PairsOf(s: LabelSelector): map<string, string> {
    if s.matchLabels.Some? then s.matchLabels.value else map[]
  }

  ghost predicate SelectorDiffers(s: LabelSelector, t: LabelSelector) {
    LabelsDiffer(PairsOf(s), PairsOf(t)) || s.matchExpressions != t.matchExpressions
  }

  ghost predicate ChangesSelector(a: Action) {
    Mutates(a.verb) && a.old_.Some? && a.new_.Some? && SelectorDiffers(a.old_.value.selector, a.new_.value.selector)
  }

  ghost predicate ChangesLabels(a: Action) {
    Mutates(a.verb) && a.old_.Some? && a.new_.Some? && LabelsDiffer(a.old_.value.labels, a.new_.value.labels)
  }

  // z is bound by the old or the new selector, or binds by the old or the new labels.
  ghost predicate ReboundPod(a: Action, z: Object)
    requires a.old_.Some? && a.new_.Some?
  {
    || BoundPod(z, a.target.namespace, a.target.gvk.kind, a.old_.value.selector)
    || BoundPod(z, a.target.namespace, a.target.gvk.kind, a.new_.value.selector)
  }

  ghost predicate RelabelledBinder(a: Action, z: Object)
    requires a.old_.Some? && a.new_.Some?
  {
    || BinderObject(z, a.target.namespace, a.old_.value.labels)
    || BinderObject(z, a.target.namespace, a.new_.value.labels)
  }

  // The action leads from the ref x, resolved to w, to the object z.
  ghost predicate LeadsTo(a: Action, x: Ref, w: Object, z: Object) {
    || (a.verb.Delete? && a.cascade && ListsOwnerUid(z, w.ref.uid))
    || (Disrupts(a.verb) && WorkloadKind(a.target.gvk.kind) && WorkloadKind(x.gvk.kind)
        && BoundPod(z, w.ref.namespace, w.ref.gvk.kind, w.selector))
    || (a.verb.Scale? && WorkloadKind(a.target.gvk.kind) && WorkloadKind(x.gvk.kind) && Scales(z, w.ref))
    || ((a.verb.Delete? || Mutates(a.verb)) && ConfigKind(a.target.gvk.kind) && ConfigKind(x.gvk.kind)
        && Uses(z, w.ref))
  }

  // It leads from x to z whatever x resolves to.
  ghost predicate LeadsFreely(a: Action, x: Ref, z: Object) {
    || (a.verb.Delete? && a.target.gvk.kind == "Namespace" && x.gvk.kind == "Namespace"
        && z.ref.namespace == x.name && z.ref.gvk.kind != "Namespace")
    || (ChangesSelector(a) && x.Key() == a.target.Key() && ReboundPod(a, z))
    || (ChangesLabels(a) && x.Key() == a.target.Key() && RelabelledBinder(a, z))
  }

  ghost predicate Follows(objs: seq<Object>, a: Action, x: Ref, y: Ref) {
    exists z :: Tracks(objs, z, y)
      && (LeadsFreely(a, x, z) || (Lookup(objs, x).Some? && LeadsTo(a, x, Lookup(objs, x).value, z)))
  }

  // b is a Service, PodDisruptionBudget or NetworkPolicy in the Pod x's namespace that
  // binds the live labels of x.
  ghost predicate BindsPod(objs: seq<Object>, x: Ref, b: Ref) {
    && x.gvk.kind == "Pod" && Lookup(objs, x).Some?
    && exists z :: Tracks(objs, z, b) && BinderObject(z, x.namespace, Lookup(objs, x).value.labels)
  }

  // ----- the classes and edges mean this

  lemma LabelsDifferMeans(m: map<string, string>, n: map<string, string>)
    ensures SameLabels(m, n) <==> !LabelsDiffer(m, n)
  {
  }

  lemma EffectsMean(a: Action)
    ensures var fx := Effects(a);
      && (fx.cascadeDelete <==> a.verb.Delete? && a.cascade)
      && (fx.containment <==> a.verb.Delete? && a.target.gvk.kind == "Namespace")
      && (fx.disruptive <==> Disrupts(a.verb) && WorkloadKind(a.target.gvk.kind))
      && (fx.scaleEffect <==> a.verb.Scale? && WorkloadKind(a.target.gvk.kind))
      && (fx.mutateConfig <==> (a.verb.Delete? || Mutates(a.verb)) && ConfigKind(a.target.gvk.kind))
      && (fx.mutateSelector <==> ChangesSelector(a))
      && (fx.mutateLabels <==> ChangesLabels(a))
  {
    if a.old_.Some? && a.new_.Some? {
      LabelsDifferMeans(a.old_.value.labels, a.new_.value.labels);
      LabelsDifferMeans(PairsOf(a.old_.value.selector), PairsOf(a.new_.value.selector));
      assert a.old_.value.selector.Pairs() == PairsOf(a.old_.value.selector);
      assert a.new_.value.selector.Pairs() == PairsOf(a.new_.value.selector);
    }
  }

  // The edges that go through what x resolves to.
  lemma ResolvedEdgeMeans(objs: seq<Object>, a: Action, x: Ref, y: Ref)
    ensures var fx := Effects(a);
      || (fx.cascadeDelete && y in Children(objs, x))
      || (fx.disruptive && x.gvk.kind in WORKLOAD_KINDS && y in SelectedPods(objs, x))
      || (fx.scaleEffect && x.gvk.kind in WORKLOAD_KINDS && y in ScalersOfRef(objs, x))
      || (fx.mutateConfig && x.gvk.kind in MOUNTABLE_KINDS && y in ConsumersOfRef(objs, x))
      <==> Lookup(objs, x).Some? && exists z :: Tracks(objs, z, y) && LeadsTo(a, x, Lookup(objs, x).value, z)
  {
    EffectsMean(a);
    ChildrenMean(objs, x, y);
    SelectedPodsMean(objs, x, y);
    ScalersMean(objs, x, y);
    ConsumersMean(objs, x, y);
  }

  lemma FreeEdgeMeans(objs: seq<Object>, a: Action, x: Ref, y: Ref)
    ensures var fx := Effects(a);
      || (fx.containment && x.gvk.kind == "Namespace" && y in Scan(objs, InNamespace(x.name)))
      || (fx.mutateSelector && x.Key() == a.target.Key() && Rebinds(objs, a, y))
      || (fx.mutateLabels && x.Key() == a.target.Key() && Relabels(objs, a, y))
      <==> exists z :: Tracks(objs, z, y) && LeadsFreely(a, x, z)
  {
    EffectsMean(a);
    ContentsMean(objs, x.name, y);
    if a.old_.Some? && a.new_.Some? {
      PodsBoundMean(objs, a.target.namespace, a.old_.value.selector, a.target.gvk.kind, y);
      PodsBoundMean(objs, a.target.namespace, a.new_.value.selector, a.target.gvk.kind, y);
      BindersMean(objs, a.target.namespace, a.old_.value.labels, y);
      BindersMean(objs, a.target.namespace, a.new_.value.labels, y);
    }
  }

  // The walk follows exactly what the verb leads to.
  lemma EdgeMeans(objs: seq<Object>, a: Action, x: Ref, y: Ref)
    ensures Edge(objs, a, Effects(a), x, y) <==> Follows(objs, a, x, y)
  {
    ResolvedEdgeMeans(objs, a, x, y);
    FreeEdgeMeans(objs, a, x, y);
  }

  lemma BindsMeans(objs: seq<Object>, x: Ref, b: Ref)
    ensures Binds(objs, x, b) <==> BindsPod(objs, x, b)
  {
    PodBindersMean(objs, x, b);
  }

  // ----- what every decision holds

  lemma ExpandedKeyIsHeld(objs: seq<Object>, a: Action, fx: EffectSet, c: seq<Ref>, y: Ref)
    requires Lookup(objs, a.target).Some? && ClosureOf(objs, a, fx, c)
    requires y == a.target || Edge(objs, a, fx, a.target, y) || Binds(objs, a.target, y)
    ensures HasKey(c, y.Key())
  {
    var done, m :| Walk(objs, a, fx, done, m) && Lists(c, m);
    var k := y.Key();
    if Binds(objs, a.target, y) {
      assert BoundBy(objs, done, y);
    } else if y != a.target {
      assert Edges(objs, a, fx)(a.target, y) && !HasKey([], k);
      var r: Ref :| r in done && r.Key() == k;
    }
    var r: Ref := m[k];
    assert r.Key() == k && r in c;
  }

  // On every inventory: what the target leads to is held, up to its key.
  lemma LedToIsHeld(objs: seq<Object>, glob: Glob, a: Action, scope: seq<ScopeClause>, d: Decision, z: Object)
    requires SafeDecision(objs, glob, a, scope, d) && Lookup(objs, a.target).Some? && z in objs
    requires LeadsFreely(a, a.target, z) || LeadsTo(a, a.target, Lookup(objs, a.target).value, z)
    ensures HasKey(d.closure, z.ref.Key())
  {
    assert Tracks(objs, z, z.ref);
    EdgeMeans(objs, a, a.target, z.ref);
    RunIsOutcome(objs, a, Effects(a), d.closure);
    ExpandedKeyIsHeld(objs, a, Effects(a), d.closure, z.ref);
  }

  // Deleting a ConfigMap, Secret or PersistentVolumeClaim holds whatever uses it; deleting
  // a workload holds the Pods it selects; deleting a Namespace holds what lies in it; and
  // cascading holds what the target's object owns, by whichever owner entry.
  lemma DeleteHolds(objs: seq<Object>, glob: Glob, a: Action, scope: seq<ScopeClause>, d: Decision, z: Object)
    requires SafeDecision(objs, glob, a, scope, d) && Lookup(objs, a.target).Some? && z in objs
    requires a.verb == Delete
    ensures var w, kind := Lookup(objs, a.target).value, a.target.gvk.kind;
      || (a.cascade && w.ref.uid != "" && exists i :: 0 <= i < |z.owners| && z.owners[i].uid == w.ref.uid)
      || ((kind == "ConfigMap" || kind == "Secret" || kind == "PersistentVolumeClaim") && Uses(z, w.ref))
      || ((kind == "Deployment" || kind == "ReplicaSet" || kind == "StatefulSet" || kind == "DaemonSet")
          && BoundPod(z, w.ref.namespace, w.ref.gvk.kind, w.selector))
      || (kind == "Namespace" && z.ref.namespace == a.target.name && z.ref.gvk.kind != "Namespace")
      ==> HasKey(d.closure, z.ref.Key())
  {
    if LeadsFreely(a, a.target, z) || LeadsTo(a, a.target, Lookup(objs, a.target).value, z) {
      LedToIsHeld(objs, glob, a, scope, d, z);
    }
  }

  // Restarting a workload holds its Pods; scaling one holds them and whatever scales it.
  lemma RestartAndScaleHold(objs: seq<Object>, glob: Glob, a: Action, scope: seq<ScopeClause>, d: Decision, z: Object)
    requires SafeDecision(objs, glob, a, scope, d) && Lookup(objs, a.target).Some? && z in objs
    requires a.verb == Restart || a.verb == Scale
    requires a.target.gvk.kind in ["Deployment", "ReplicaSet", "StatefulSet", "DaemonSet"]
    ensures var w := Lookup(objs, a.target).value;
      || BoundPod(z, w.ref.namespace, w.ref.gvk.kind, w.selector)
      || (a.verb == Scale && Scales(z, w.ref))
      ==> HasKey(d.closure, z.ref.Key())
  {
    if LeadsTo(a, a.target, Lookup(objs, a.target).value, z) {
      LedToIsHeld(objs, glob, a, scope, d, z);
    }
  }

  // Updating or patching holds the users of a ConfigMap, Secret or PersistentVolumeClaim,
  // the Pods of a workload, the Pods bound by the old and by the new of two differing
  // selectors, and the binders of the old and of the new of two differing label sets.
  lemma MutationHolds(objs: seq<Object>, glob: Glob, a: Action, scope: seq<ScopeClause>, d: Decision, z: Object)
    requires SafeDecision(objs, glob, a, scope, d) && Lookup(objs, a.target).Some? && z in objs
    requires a.verb == Update || a.verb == Patch
    ensures var w, kind := Lookup(objs, a.target).value, a.target.gvk.kind;
      || ((kind == "ConfigMap" || kind == "Secret" || kind == "PersistentVolumeClaim") && Uses(z, w.ref))
      || ((kind == "Deployment" || kind == "ReplicaSet" || kind == "StatefulSet" || kind == "DaemonSet")
          && BoundPod(z, w.ref.namespace, w.ref.gvk.kind, w.selector))
      ==> HasKey(d.closure, z.ref.Key())
    ensures a.old_.Some? && a.new_.Some? && SelectorDiffers(a.old_.value.selector, a.new_.value.selector)
      && (BoundPod(z, a.target.namespace, a.target.gvk.kind, a.old_.value.selector)
          || BoundPod(z, a.target.namespace, a.target.gvk.kind, a.new_.value.selector))
      ==> HasKey(d.closure, z.ref.Key())
    ensures a.old_.Some? && a.new_.Some? && LabelsDiffer(a.old_.value.labels, a.new_.value.labels)
      && (BinderObject(z, a.target.namespace, a.old_.value.labels)
          || BinderObject(z, a.target.namespace, a.new_.value.labels))
      ==> HasKey(d.closure, z.ref.Key())
  {
    if LeadsFreely(a, a.target, z) || LeadsTo(a, a.target, Lookup(objs, a.target).value, z) {
      LedToIsHeld(objs, glob, a, scope, d, z);
    }
  }

  // Whatever the verb, acting on a Pod holds what binds its live labels.
  lemma PodBindersAreHeld(objs: seq<Object>, glob: Glob, a: Action, scope: seq<ScopeClause>, d: Decision, z: Object)
    requires SafeDecision(objs, glob, a, scope, d) && Lookup(objs, a.target).Some? && z in objs
    requires a.target.gvk.kind == "Pod"
    requires z.ref.gvk.kind in ["Service", "PodDisruptionBudget", "NetworkPolicy"]
    requires z.ref.namespace == a.target.namespace
    requires BindsLabels(z.ref.gvk.kind, z.selector, Lookup(objs, a.target).value.labels)
    ensures HasKey(d.closure, z.ref.Key())
  {
    assert Tracks(objs, z, z.ref) && BinderObject(z, a.target.namespace, Lookup(objs, a.target).value.labels);
    BindsMeans(objs, a.target, z.ref);
    RunIsOutcome(objs, a, Effects(a), d.closure);
    ExpandedKeyIsHeld(objs, a, Effects(a), d.closure, z.ref);
  }

  // On a well-formed inventory what the target leads to, other than under its own key, is
  // a member, so that left uncovered it escapes and blocks.
  lemma UncoveredBlocks(objs: seq<Object>, glob: Glob, a: Action, scope: seq<ScopeClause>, d: Decision, z: Object)
    requires WellFormed(objs) && SafeDecision(objs, glob, a, scope, d) && Lookup(objs, a.target).Some?
    requires z in objs && z.ref.Key() != a.target.Key() && !CoveredByMemo(objs, glob, scope, z.ref)
    requires LeadsFreely(a, a.target, z) || LeadsTo(a, a.target, Lookup(objs, a.target).value, z)
    ensures z.ref in d.escaping && d.verdict.Block?
  {
    LedToIsHeld(objs, glob, a, scope, d, z);
    RunIsOutcome(objs, a, Effects(a), d.closure);
    var r :| r in d.closure && r.Key() == z.ref.Key();
    MemberIsTracked(objs, a, Effects(a), d.closure, r);
    ObjectKeysDistinct(objs, r, z.ref);
    PlainKeysResolve(objs);
  }

  // ----- ownership, down the line

  // On a well-formed inventory a cascading delete holds everything down a line of
  // ownership from the target's object.
  lemma CascadeHoldsDescendants(objs: seq<Object>, glob: Glob, a: Action, scope: seq<ScopeClause>, d: Decision,
                                os: seq<Object>)
    requires WellFormed(objs) && SafeDecision(objs, glob, a, scope, d) && Lookup(objs, a.target).Some?
    requires a.verb == Delete && a.cascade
    requires Lineage(objs, os) && os[0] == Lookup(objs, a.target).value && |os| > 1
    ensures HasKey(d.closure, os[|os| - 1].ref.Key())
  {
    RunIsOutcome(objs, a, Effects(a), d.closure);
    var z := os[|os| - 1];
    var x := LineageExpands(objs, a, os, |os| - 1);
    if z.ref.Key() == a.target.Key() {
      ExpandedKeyIsHeld(objs, a, Effects(a), d.closure, a.target);
    } else {
      MembersExactly(objs, a, Effects(a), d.closure, z.ref);
    }
  }

  lemma {:induction false} LineageExpands(objs: seq<Object>, a: Action, os: seq<Object>, i: nat) returns (x: Ref)
    requires WellFormed(objs) && Lookup(objs, a.target).Some? && a.verb == Delete && a.cascade
    requires Lineage(objs, os) && os[0] == Lookup(objs, a.target).value && i < |os|
    ensures Expands(objs, a, Effects(a), x) && Lookup(objs, x) == Some(os[i])
    ensures i > 0 && os[i].ref.Key() != a.target.Key() ==> x == os[i].ref
  {
    var e := OpenEdges(objs, a, Effects(a));
    Start(e, a.target);
    if i == 0 {
      x := a.target;
    } else {
      var p := LineageExpands(objs, a, os, i - 1);
      var z := os[i];
      assert z in os && z in objs;
      OwnRefLookup(objs, z);
      if z.ref.Key() == a.target.Key() {
        RivalIsOrigin(objs, a.target, z.ref);
        LookupIsTracked(objs, a.target);
        OwnRefLookup(objs, Lookup(objs, a.target).value);
        x := a.target;
      } else {
        assert Tracks(objs, z, z.ref);
        ChildrenMean(objs, p, z.ref);
        assert e(p, z.ref);
        Step(e, a.target, p, z.ref);
        x := z.ref;
      }
    }
  }

  // ----- the members of every decision, exactly

  // The steps of the walk: what the verb leads to, but for refs under the target's key.
  ghost function Leads(objs: seq<Object>, a: Action): (Ref, Ref) -> bool {
    (x, y) => Follows(objs, a, x, y) && (y.Key() == a.target.Key() ==> y == a.target)
  }

  ghost predicate LedTo(objs: seq<Object>, a: Action, r: Ref) {
    Reach(Leads(objs, a), a.target, r)
  }

  ghost predicate BindsLed(objs: seq<Object>, a: Action, b: Ref) {
    exists x :: LedTo(objs, a, x) && BindsPod(objs, x, b)
  }

  lemma LedToMeans(objs: seq<Object>, a: Action, r: Ref)
    ensures LedTo(objs, a, r) <==> Expands(objs, a, Effects(a), r)
  {
    forall x, y ensures Leads(objs, a)(x, y) <==> OpenEdges(objs, a, Effects(a))(x, y) {
      EdgeMeans(objs, a, x, y);
    }
    ReachSame(Leads(objs, a), OpenEdges(objs, a, Effects(a)), a.target, r);
  }

  lemma BindsLedMeans(objs: seq<Object>, a: Action, b: Ref)
    ensures BindsLed(objs, a, b) <==> Attracts(objs, a, Effects(a), b)
  {
    forall x
      ensures LedTo(objs, a, x) && BindsPod(objs, x, b) <==> Expands(objs, a, Effects(a), x) && Binds(objs, x, b)
    {
      LedToMeans(objs, a, x);
      BindsMeans(objs, x, b);
    }
  }

  // On a well-formed inventory the members of every decision are the refs led to, the
  // target unless a binder of a Pod led to takes its key, and those binders.
  lemma MembersMean(objs: seq<Object>, glob: Glob, a: Action, scope: seq<ScopeClause>, d: Decision, r: Ref)
    requires WellFormed(objs) && SafeDecision(objs, glob, a, scope, d) && Lookup(objs, a.target).Some?
    ensures r in d.closure <==>
      || BindsLed(objs, a, r)
      || (LedTo(objs, a, r) && (r == a.target ==>
            !exists b :: BindsLed(objs, a, b) && b.Key() == a.target.Key() && b != a.target))
  {
    DecisionMembers(objs, glob, a, scope, d, r);
    LedToMeans(objs, a, r);
    forall b ensures BindsLed(objs, a, b) <==> Attracts(objs, a, Effects(a), b) {
      BindsLedMeans(objs, a, b);
    }
  }

  // ----- what no decision holds

  // No step leads from the target: another verb; a plain delete of another kind; a scale or
  // restart of no workload; a mutation of another kind that changes neither the selector nor
  // the labels.
  ghost predicate Inert(a: Action) {
    match a.verb
    case Delete =>
      && !a.cascade && a.target.gvk.kind != "Namespace"
      && !WorkloadKind(a.target.gvk.kind) && !ConfigKind(a.target.gvk.kind)
    case Scale | Restart => !WorkloadKind(a.target.gvk.kind)
    case Update | Patch =>
      && !WorkloadKind(a.target.gvk.kind) && !ConfigKind(a.target.gvk.kind)
      && (a.old_.Some? && a.new_.Some? ==>
        && !SelectorDiffers(a.old_.value.selector, a.new_.value.selector)
        && !LabelsDiffer(a.old_.value.labels, a.new_.value.labels))
    case OtherVerb(_) => true
  }

  // On every inventory such an action affects the target alone and, if it is a Pod, its
  // binders.
  lemma InertAffectsTheTarget(objs: seq<Object>, glob: Glob, a: Action, scope: seq<ScopeClause>, d: Decision, r: Ref)
    requires SafeDecision(objs, glob, a, scope, d) && Inert(a) && r in d.closure
    ensures r == a.target || BindsPod(objs, a.target, r)
  {
    var x := MemberIsLedTo(objs, glob, a, scope, d, r);
    forall x, y ensures !Follows(objs, a, x, y) {
    }
    Invariant(Following(objs, a), a.target, (y: Ref) => y == a.target, x);
  }

  ghost function Following(objs: seq<Object>, a: Action): (Ref, Ref) -> bool {
    (x, y) => Follows(objs, a, x, y)
  }

  ghost predicate FollowedTo(objs: seq<Object>, a: Action, r: Ref) {
    Reach(Following(objs, a), a.target, r)
  }

  // On every inventory each member is followed to from the target, step by step, or binds
  // a Pod that is.
  lemma MemberIsLedTo(objs: seq<Object>, glob: Glob, a: Action, scope: seq<ScopeClause>, d: Decision, r: Ref)
    returns (x: Ref)
    requires SafeDecision(objs, glob, a, scope, d) && r in d.closure
    ensures FollowedTo(objs, a, x) && (r == x || BindsPod(objs, x, r))
  {
    var fx := Effects(a);
    RunIsOutcome(objs, a, fx, d.closure);
    var done, m :| Walk(objs, a, fx, done, m) && Lists(d.closure, m);
    assert m[r.Key()] == r;
    WalkedIsReached(objs, a, fx, done, m);
    x := r;
    if r !in done {
      x :| x in done && Binds(objs, x, r);
    }
    BindsMeans(objs, x, r);
    forall y, z ensures Following(objs, a)(y, z) <==> Edges(objs, a, fx)(y, z) {
      EdgeMeans(objs, a, y, z);
    }
    ReachSame(Following(objs, a), Edges(objs, a, fx), a.target, x);
  }

  // y is a Pod that the target's object selects.
  ghost predicate SelectedByTarget(objs: seq<Object>, target: Ref, y: Ref)
    requires Lookup(objs, target).Some?
  {
    var w := Lookup(objs, target).value;
    exists z :: Tracks(objs, z, y) && BoundPod(z, w.ref.namespace, w.ref.gvk.kind, w.selector)
  }

  lemma RestartStep(objs: seq<Object>, a: Action, y: Ref, z: Ref)
    requires a.verb == Restart && Lookup(objs, a.target).Some? && Follows(objs, a, y, z)
    requires y == a.target || SelectedByTarget(objs, a.target, y)
    ensures SelectedByTarget(objs, a.target, z)
  {
    assert "Pod"[0] != "Deployment"[0] && "Pod"[0] != "ReplicaSet"[0];
    assert "Pod"[0] != "StatefulSet"[0] && "Pod"[0] != "DaemonSet"[0];
    assert y.gvk.kind != "Pod";
  }

  lemma RestartedTo(objs: seq<Object>, a: Action, x: Ref)
    requires a.verb == Restart && Lookup(objs, a.target).Some? && FollowedTo(objs, a, x)
    ensures x == a.target || SelectedByTarget(objs, a.target, x)
  {
    var p := (y: Ref) => y == a.target || SelectedByTarget(objs, a.target, y);
    forall y, z | p(y) && Following(objs, a)(y, z) ensures p(z) {
      RestartStep(objs, a, y, z);
    }
    Invariant(Following(objs, a), a.target, p, x);
  }

  // Restarting affects, besides the target, only Pods that its selector binds, and what
  // binds one of those or the target: x is the one r is or binds.
  lemma RestartAffectsOnly(objs: seq<Object>, glob: Glob, a: Action, scope: seq<ScopeClause>, d: Decision, r: Ref)
    returns (x: Ref)
    requires SafeDecision(objs, glob, a, scope, d) && a.verb == Restart && r in d.closure
    requires Lookup(objs, a.target).Some?
    ensures x == a.target || SelectedByTarget(objs, a.target, x)
    ensures r == x || BindsPod(objs, x, r)
  {
    x := MemberIsLedTo(objs, glob, a, scope, d, r);
    RestartedTo(objs, a, x);
  }
}
