// What a scope covers and refuses, and what a decision says, clause by clause and in
// fields.
module ScopeLaws {
  import opened Prelude
  import opened Model
  import opened Inventory
  import opened Classification
  import opened Graph
  import opened Closures
  import opened Verdicts
  import opened VerdictTheory
  import opened Scopes
  import opened RelationLaws

  // The clause is for r's namespace, and for its kind, group and version where it names one.
  predicate IsFor(sc: ScopeClause, r: Ref) {
    && sc.namespace == r.namespace
    && sc.gvk.kind in ["", r.gvk.kind] && sc.gvk.group in ["", r.gvk.group] && sc.gvk.version in ["", r.gvk.version]
  }

  // The selector asks something, and r's live labels answer it.
  ghost predicate SelectsLive(objs: seq<Object>, s: LabelSelector, r: Ref) {
    && (s.matchExpressions != [] || (s.matchLabels.Some? && s.matchLabels.value != map[]))
    && Lookup(objs, r).Some? && Selects(s, Lookup(objs, r).value.labels)
  }

  ghost predicate Grants(objs: seq<Object>, glob: Glob, sc: ScopeClause, r: Ref) {
    || (sc.dim in [NoDim, DimResource] && IsFor(sc, r) && glob(sc.name, r.name))
    || (sc.dim == DimSelector && IsFor(sc, r) && SelectsLive(objs, sc.selector, r))
    || (sc.dim == DimNamespace && IsFor(sc, r))
  }

  // A clause of any dimension but ownership grants exactly that, whatever the memo holds.
  lemma ClauseMeans(objs: seq<Object>, glob: Glob, sc: ScopeClause, root: Ref, r: Ref)
    requires !sc.dim.DimOwnership?
    ensures CoversFrom(objs, glob, sc, root, r) <==> Grants(objs, glob, sc, r)
  {
    if Lookup(objs, r).Some? {
      MatchesMeans(sc.selector, Lookup(objs, r).value.labels);
    }
    if sc.selector.matchLabels.Some? && |sc.selector.matchLabels.value| == 0 {
      assert sc.selector.matchLabels.value == map[];
    }
  }

  // A clause refuses another namespace, another kind, group or version than it names, and
  // everything when its selector is empty or its dimension unknown.
  ghost predicate Refuses(sc: ScopeClause, r: Ref) {
    || sc.namespace != r.namespace
    || (sc.gvk.kind != "" && sc.gvk.kind != r.gvk.kind)
    || (sc.gvk.group != "" && sc.gvk.group != r.gvk.group)
    || (sc.gvk.version != "" && sc.gvk.version != r.gvk.version)
    || (sc.dim == DimSelector && sc.selector.matchExpressions == []
        && sc.selector.matchLabels in [None, Some(map[])])
    || sc.dim.OtherDim?
  }

  // On every inventory: without ownership clauses, a member that every clause refuses
  // escapes, and the action is blocked.
  lemma RefusedEscapes(objs: seq<Object>, glob: Glob, a: Action, scope: seq<ScopeClause>, d: Decision, r: Ref)
    requires SafeDecision(objs, glob, a, scope, d) && r in d.closure
    requires forall sc :: sc in scope ==> !sc.dim.DimOwnership? && Refuses(sc, r)
    ensures r in d.escaping && d.verdict.Block?
  {
    forall sc | sc in scope ensures !MemoCovers(objs, glob, scope, sc, r) {
      ClauseMeans(objs, glob, sc, MemoRoot(scope, sc), r);
    }
    assert !CoveredByMemo(objs, glob, scope, r);
    assert r in d.escaping && d.escaping != [];
  }

  // So a member in a namespace that no clause names escapes.
  lemma OtherNamespaceEscapes(objs: seq<Object>, glob: Glob, a: Action, scope: seq<ScopeClause>, d: Decision, r: Ref)
    requires SafeDecision(objs, glob, a, scope, d) && r in d.closure
    requires forall sc :: sc in scope ==> !sc.dim.DimOwnership? && sc.namespace != r.namespace
    ensures r in d.escaping && d.verdict.Block?
  {
    RefusedEscapes(objs, glob, a, scope, d, r);
  }

  // Without ownership clauses, where keys resolve, the members that escape are exactly
  // those no clause grants.
  lemma EscapingMeans(objs: seq<Object>, glob: Glob, a: Action, scope: seq<ScopeClause>, d: Decision, r: Ref)
    requires KeysResolve(objs) && SafeDecision(objs, glob, a, scope, d)
    requires forall sc :: sc in scope ==> !sc.dim.DimOwnership?
    ensures r in d.escaping <==> r in d.closure && !exists sc :: sc in scope && Grants(objs, glob, sc, r)
  {
    forall sc | sc in scope ensures MemoCovers(objs, glob, scope, sc, r) <==> Grants(objs, glob, sc, r) {
      ClauseMeans(objs, glob, sc, MemoRoot(scope, sc), r);
    }
    assert CoveredByMemo(objs, glob, scope, r) <==> exists sc :: sc in scope && Grants(objs, glob, sc, r);
  }

  // ----- ownership

  // y is the object at the end of a line of ownership from the root's.
  ghost predicate Descends(objs: seq<Object>, root: Ref, y: Ref) {
    exists os: seq<Object> :: Lineage(objs, os) && Lookup(objs, root) == Some(os[0]) && os[|os| - 1].ref == y
  }

  lemma LineageExtends(objs: seq<Object>, os: seq<Object>, z: Object)
    requires Lineage(objs, os) && z in objs && ListsOwnerUid(z, os[|os| - 1].ref.uid)
    ensures Lineage(objs, os + [z]) && (os + [z])[|os|] == z && (os + [z])[0] == os[0]
  {
  }

  lemma DescendsFurther(objs: seq<Object>, root: Ref, x: Ref, y: Ref)
    requires WellFormed(objs) && Descends(objs, root, x) && y in Children(objs, x)
    ensures Descends(objs, root, y)
  {
    var os: seq<Object> :| Lineage(objs, os) && Lookup(objs, root) == Some(os[0]) && os[|os| - 1].ref == x;
    var last := os[|os| - 1];
    assert last in os;
    OwnRefLookup(objs, last);
    ChildrenMean(objs, x, y);
    var z :| Tracks(objs, z, y) && ListsOwnerUid(z, last.ref.uid);
    LineageExtends(objs, os, z);
    assert Lineage(objs, os + [z]);
  }

  lemma {:induction false} LineageIsOwned(objs: seq<Object>, root: Ref, os: seq<Object>, i: nat)
    requires WellFormed(objs) && Lineage(objs, os) && Lookup(objs, root) == Some(os[0]) && i < |os|
    ensures Owned(objs, root, os[i].ref)
  {
    if i == 0 {
      Start(OwnEdges(objs), Origin(objs, root));
    } else {
      LineageIsOwned(objs, root, os, i - 1);
      assert os[i - 1] in os && os[i] in os;
      OwnRefLookup(objs, os[i - 1]);
      ChildrenMean(objs, os[i - 1].ref, os[i].ref);
      assert Tracks(objs, os[i], os[i].ref);
      Step(OwnEdges(objs), Origin(objs, root), os[i - 1].ref, os[i].ref);
    }
  }

  lemma OwnedMeans(objs: seq<Object>, root: Ref, y: Ref)
    requires WellFormed(objs) && Lookup(objs, root).Some?
    ensures Owned(objs, root, y) <==> Descends(objs, root, y)
  {
    var o := Lookup(objs, root).value;
    LookupIsTracked(objs, root);
    if Owned(objs, root, y) {
      assert Lineage(objs, [o]) && Descends(objs, root, o.ref);
      forall x, z | Descends(objs, root, x) && OwnEdges(objs)(x, z) ensures Descends(objs, root, z) {
        DescendsFurther(objs, root, x, z);
      }
      Invariant(OwnEdges(objs), o.ref, (x: Ref) => Descends(objs, root, x), y);
    }
    if Descends(objs, root, y) {
      var os: seq<Object> :| Lineage(objs, os) && Lookup(objs, root) == Some(os[0]) && os[|os| - 1].ref == y;
      LineageIsOwned(objs, root, os, |os| - 1);
    }
  }

  // On a well-formed inventory an ownership clause covers its root's own key and the keys
  // of the objects down a line of ownership from the root's, by whichever owner entries.
  lemma OwnershipMeans(objs: seq<Object>, glob: Glob, root: Ref, r: Ref)
    requires WellFormed(objs)
    ensures ClauseCovers(objs, glob, OwnershipClause(root), r) <==>
      r.Key() == root.Key() || exists y :: Descends(objs, root, y) && y.Key() == r.Key()
  {
    if Lookup(objs, root).None? {
      OnlyItself(objs, root, r.Key());
    } else {
      forall y ensures Owned(objs, root, y) <==> Descends(objs, root, y) {
        OwnedMeans(objs, root, y);
      }
    }
  }

  // ----- a compiled contract

  // What an entry allows, in its own fields.
  ghost predicate Allows(objs: seq<Object>, glob: Glob, ac: AllowClause, r: Ref) {
    && ac.namespace == r.namespace
    && ac.gvk.kind in ["", r.gvk.kind] && ac.gvk.group in ["", r.gvk.group] && ac.gvk.version in ["", r.gvk.version]
    && if ac.dim == DimSelector then SelectsLive(objs, ac.selector, r) else glob(ac.name, r.name)
  }

  // An entry compiles exactly when it declares no other dimension's field: a resource entry
  // no selector, a selector entry no name.
  lemma CompilableMeans(ac: AllowClause)
    ensures Compilable(ac) <==>
      || (ac.dim in [NoDim, DimResource] && ac.selector.matchExpressions == []
          && (ac.selector.matchLabels == None || ac.selector.matchLabels == Some(map[])))
      || (ac.dim == DimSelector && ac.name == "")
  {
    if ac.selector.matchLabels.Some? && |ac.selector.matchLabels.value| == 0 {
      assert ac.selector.matchLabels.value == map[];
    }
  }

  // Under a compiled contract, where keys resolve, the members that escape are exactly
  // those no entry allows.
  lemma ContractMeans(objs: seq<Object>, glob: Glob, a: Action, allow: seq<AllowClause>, clauses: seq<ScopeClause>,
                      d: Decision, r: Ref)
    requires KeysResolve(objs) && SafeDecision(objs, glob, a, clauses, d)
    requires |clauses| == |allow|
    requires forall i :: 0 <= i < |allow| ==> Compilable(allow[i]) && clauses[i] == Lowered(allow[i])
    ensures r in d.escaping <==> r in d.closure && !exists ac :: ac in allow && Allows(objs, glob, ac, r)
  {
    forall i | 0 <= i < |allow|
      ensures Grants(objs, glob, clauses[i], r) <==> Allows(objs, glob, allow[i], r)
      ensures !clauses[i].dim.DimOwnership?
    {
      CompilableMeans(allow[i]);
    }
    forall sc | sc in clauses ensures !sc.dim.DimOwnership? {
      var i :| 0 <= i < |clauses| && clauses[i] == sc;
    }
    EscapingMeans(objs, glob, a, clauses, d, r);
    if sc :| sc in clauses && Grants(objs, glob, sc, r) {
      var i :| 0 <= i < |clauses| && clauses[i] == sc;
      assert allow[i] in allow;
    }
    if ac :| ac in allow && Allows(objs, glob, ac, r) {
      var i :| 0 <= i < |allow| && allow[i] == ac;
      assert clauses[i] in clauses;
    }
  }

  // The envelope in literals.
  lemma EnvelopeMeans(tc: TaskContract)
    ensures KnownEnvelope(tc) <==>
      && tc.apiVersion == "krsm.io/v1" && tc.kind == "TaskContract"
      && tc.maxSeverity in ["", "low", "medium", "high", "critical"]
  {
  }

  // ----- external effects and reasons

  // An update or patch of a resolvable target that drops finalizers reports one reference
  // a finalizer: of kind External, in the target's namespace, under the finalizer's name.
  lemma ExternalsMean(objs: seq<Object>, glob: Glob, a: Action, scope: seq<ScopeClause>, d: Decision, e: Ref)
    requires SafeDecision(objs, glob, a, scope, d)
    ensures e in d.external <==>
      && Lookup(objs, a.target).Some? && (a.verb == Update || a.verb == Patch) && a.old_.Some? && a.new_.Some?
      && e.name in a.old_.value.finalizers && e.name !in a.new_.value.finalizers
      && e == Ref(GVK("", "", "External"), a.target.namespace, e.name, "")
  {
    if a.old_.Some? && a.new_.Some? {
      DroppedMember(a.old_.value.finalizers, a.new_.value.finalizers);
      var fs := DroppedFinalizers(a);
      if Effects(a).finalizerRemoval && e.name in fs {
        var i :| 0 <= i < |fs| && fs[i] == e.name;
        assert Externals(a)[i] == External(a, e.name);
      }
      if e.name in a.old_.value.finalizers && e.name !in a.new_.value.finalizers {
        assert e.name in fs && fs != [];
      }
    }
  }

  // The verdict is decided by the three lists, and the reason says which of them did.
  lemma VerdictMeans(objs: seq<Object>, glob: Glob, a: Action, scope: seq<ScopeClause>, d: Decision)
    requires SafeDecision(objs, glob, a, scope, d)
    ensures d.closure == [] <==> d.reason == NotFound
    ensures d.escaping != [] <==> d.reason == ScopeEscape
    ensures d.escaping == [] && d.external != [] <==> d.reason == BoundaryCrossed
    ensures d.verdict == match d.reason
      case NotFound | ScopeEscape => Block
      case BoundaryCrossed => Warn
      case Clear | Audit(_) => Allow
    ensures !d.reason.Audit?
  {
    RunIsOutcome(objs, a, Effects(a), d.closure);
    OutcomeShape(objs, a, Effects(a), d.closure);
  }

  // In audit mode an escape warns, and the reason keeps the one it replaces; nothing else
  // changes in any mode.
  lemma AuditMeans(objs: seq<Object>, glob: Glob, a: Action, scope: seq<ScopeClause>, d: Decision, m: Mode)
    requires SafeDecision(objs, glob, a, scope, d)
    ensures Apply(m, d) == if m == ModeAudit && d.reason == ScopeEscape
      then Decision(Warn, Audit(ScopeEscape), d.closure, d.escaping, d.external) else d
  {
  }
}
