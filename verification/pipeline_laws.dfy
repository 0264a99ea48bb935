// From trees and manifests to decisions: what is written as a reference is held when its
// referent is acted on.
module PipelineLaws {
  import opened Prelude
  import opened Model
  import opened Inventory
  import opened Worklist
  import opened Verdicts
  import opened Trees
  import opened Cluster
  import opened Scenario
  import opened TwinTheory
  import opened RelationLaws
  import opened EffectLaws
  import opened ReferenceLaws
  import opened LoaderLaws

  lemma ConsumerIsHeld(objs: seq<Object>, glob: Glob, a: Action, scope: seq<ScopeClause>, d: Decision,
                       o: Object, p: Object)
    requires WellFormed(objs) && o in objs && p in objs && a.target == p.ref
    requires SafeDecision(objs, glob, a, scope, d)
    requires
      || ((a.verb == Delete || a.verb == Update || a.verb == Patch) && Uses(o, p.ref)
          && p.ref.gvk.kind in ["ConfigMap", "Secret", "PersistentVolumeClaim"])
      || (a.verb == Scale && Scales(o, p.ref)
          && p.ref.gvk.kind in ["Deployment", "ReplicaSet", "StatefulSet", "DaemonSet"])
    ensures HasKey(d.closure, o.ref.Key())
  {
    OwnRefLookup(objs, p);
    LedToIsHeld(objs, glob, a, scope, d, o);
  }

  // Deleting, updating or patching a built ConfigMap, Secret or PersistentVolumeClaim holds
  // every object of its namespace whose tree names it, at any position.
  lemma BuiltUserIsHeld(vs: seq<Value>, info: ScopeInfo, objs: seq<Object>, i: nat, j: nat, use: RefKind,
                        glob: Glob, a: Action, scope: seq<ScopeClause>, d: Decision)
    requires Built(vs, info) == Ok(objs) && WellFormed(objs) && i < |vs| && j < |vs| == |objs|
    requires TreeNames(vs[i], use, AsString(Get(vs[j], "kind")), AsString(Get2(vs[j], "metadata", "name")))
    requires AsString(Get(vs[j], "kind")) in ["ConfigMap", "Secret", "PersistentVolumeClaim"]
    requires objs[i].ref.namespace == objs[j].ref.namespace && a.target == objs[j].ref
    requires a.verb == Delete || a.verb == Update || a.verb == Patch
    requires SafeDecision(objs, glob, a, scope, d)
    ensures HasKey(d.closure, objs[i].ref.Key())
  {
    BuiltObjectMeans(vs, info, objs, j);
    BuiltHolds(vs, info, objs, i, j);
    assert NamesIn(vs[i])(use, objs[j].ref.gvk.kind, objs[j].ref.name);
    HeldMeans(objs[i], objs[j].ref, NamesIn(vs[i]), ScalesIn(vs[i]));
    ConsumerIsHeld(objs, glob, a, scope, d, objs[i], objs[j]);
  }

  // Scaling a built workload holds every object of its namespace whose tree scales it.
  lemma BuiltScalerIsHeld(vs: seq<Value>, info: ScopeInfo, objs: seq<Object>, i: nat, j: nat,
                          glob: Glob, a: Action, scope: seq<ScopeClause>, d: Decision)
    requires Built(vs, info) == Ok(objs) && WellFormed(objs) && i < |vs| && j < |vs| == |objs|
    requires TreeScales(vs[i], AsString(Get(vs[j], "kind")), AsString(Get2(vs[j], "metadata", "name")))
    requires AsString(Get(vs[j], "kind")) in ["Deployment", "ReplicaSet", "StatefulSet", "DaemonSet"]
    requires objs[i].ref.namespace == objs[j].ref.namespace && a.target == objs[j].ref && a.verb == Scale
    requires SafeDecision(objs, glob, a, scope, d)
    ensures HasKey(d.closure, objs[i].ref.Key())
  {
    BuiltObjectMeans(vs, info, objs, j);
    BuiltHolds(vs, info, objs, i, j);
    assert ScalesIn(vs[i])(objs[j].ref.gvk.kind, objs[j].ref.name);
    HeldMeans(objs[i], objs[j].ref, NamesIn(vs[i]), ScalesIn(vs[i]));
    ConsumerIsHeld(objs, glob, a, scope, d, objs[i], objs[j]);
  }

  // The same of manifests loaded.
  lemma LoadedUserIsHeld(ms: seq<Manifest>, objs: seq<Object>, m: Manifest, o: Object, n: Manifest, p: Object,
                         use: RefKind, glob: Glob, a: Action, scope: seq<ScopeClause>, d: Decision)
    requires Loaded(ms) == Ok(objs) && WellFormed(objs) && SlashFree(p.ref)
    requires m in ms && n in ms && m.kind != "" && n.kind != "" && LoadOne(m) == Ok(o) && LoadOne(n) == Ok(p)
    requires SpecNames(m.spec, use, n.kind, n.name) && n.kind in ["ConfigMap", "Secret", "PersistentVolumeClaim"]
    requires o.ref.namespace == p.ref.namespace && a.target == p.ref
    requires a.verb == Delete || a.verb == Update || a.verb == Patch
    requires SafeDecision(objs, glob, a, scope, d)
    ensures HasKey(d.closure, o.ref.Key())
  {
    LoadedMembers(ms, o);
    LoadedMembers(ms, p);
    LoadedObjectMeans(n, p);
    LoadedHolds(m, o, n, p);
    assert SpecNamesIn(m.spec)(use, p.ref.gvk.kind, p.ref.name);
    HeldMeans(o, p.ref, SpecNamesIn(m.spec), SpecScalesIn(m.spec));
    ConsumerIsHeld(objs, glob, a, scope, d, o, p);
  }

  lemma LoadedScalerIsHeld(ms: seq<Manifest>, objs: seq<Object>, m: Manifest, o: Object, n: Manifest, p: Object,
                           glob: Glob, a: Action, scope: seq<ScopeClause>, d: Decision)
    requires Loaded(ms) == Ok(objs) && WellFormed(objs) && SlashFree(p.ref)
    requires m in ms && n in ms && m.kind != "" && n.kind != "" && LoadOne(m) == Ok(o) && LoadOne(n) == Ok(p)
    requires SpecScales(m.spec, n.kind, n.name) && n.kind in ["Deployment", "ReplicaSet", "StatefulSet", "DaemonSet"]
    requires o.ref.namespace == p.ref.namespace && a.target == p.ref && a.verb == Scale
    requires SafeDecision(objs, glob, a, scope, d)
    ensures HasKey(d.closure, o.ref.Key())
  {
    LoadedMembers(ms, o);
    LoadedMembers(ms, p);
    LoadedObjectMeans(n, p);
    LoadedHolds(m, o, n, p);
    assert SpecScalesIn(m.spec)(p.ref.gvk.kind, p.ref.name);
    HeldMeans(o, p.ref, SpecNamesIn(m.spec), SpecScalesIn(m.spec));
    ConsumerIsHeld(objs, glob, a, scope, d, o, p);
  }
}
