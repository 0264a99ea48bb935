// The live builder and the manifest loader agree: a tree that represents a manifest,
// carrying the loader's uids, builds the object the loader loads.
module Parity {
  import opened Prelude
  import opened Model
  import opened Trees
  import opened Cluster
  import opened Scenario

  // ----- when a tree represents a manifest

  ghost predicate RepNamed(v: Value, field: string, name: string, o: Option<string>) {
    && AsMap(Get(v, field)).Some? == o.Some?
    && (o.Some? ==> AsString(Get2(v, field, name)) == o.value)
  }

  ghost predicate RepPair(v: Value, configMap: string, secret: string, p: Pair) {
    RepNamed(v, configMap, "name", p.configMap) && RepNamed(v, secret, "name", p.secret)
  }

  ghost predicate RepPairs(vs: seq<Value>, configMap: string, secret: string, ps: seq<Pair>) {
    |vs| == |ps| && forall i :: 0 <= i < |vs| ==> RepPair(vs[i], configMap, secret, ps[i])
  }

  ghost predicate RepVolume(v: Value, vol: Volume) {
    && RepNamed(v, "configMap", "name", vol.configMap)
    && RepNamed(v, "secret", "secretName", vol.secret)
    && RepNamed(v, "persistentVolumeClaim", "claimName", vol.pvc)
    && AsMap(Get(v, "projected")).Some? == vol.projected.Some?
    && (vol.projected.Some? ==>
      RepPairs(Items(Get2(v, "projected", "sources")), "configMap", "secret", vol.projected.value))
  }

  ghost predicate RepEnv(v: Value, e: Option<Pair>) {
    && AsMap(Get(v, "valueFrom")).Some? == e.Some?
    && (e.Some? ==> RepPair(Get(v, "valueFrom").value, "configMapKeyRef", "secretKeyRef", e.value))
  }

  ghost predicate RepContainer(v: Value, c: Container) {
    && RepPairs(Items(Get(v, "envFrom")), "configMapRef", "secretRef", c.envFrom)
    && var env := Items(Get(v, "env"));
    |env| == |c.env| && forall i :: 0 <= i < |env| ==> RepEnv(env[i], c.env[i])
  }

  ghost predicate RepContainers(vs: seq<Value>, cs: seq<Container>) {
    |vs| == |cs| && forall i :: 0 <= i < |vs| ==> RepContainer(vs[i], cs[i])
  }

  ghost predicate RepPod(v: Value, ps: PodSpec) {
    && RepVolumes(Items(Get(v, "volumes")), ps.volumes)
    && RepContainers(Items(Get(v, "containers")), ps.containers)
    && RepContainers(Items(Get(v, "initContainers")), ps.initContainers)
    && RepContainers(Items(Get(v, "ephemeralContainers")), ps.ephemeralContainers)
    && RepPulls(Items(Get(v, "imagePullSecrets")), ps.imagePullSecrets)
  }

  ghost predicate RepVolumes(vs: seq<Value>, vols: seq<Volume>) {
    |vs| == |vols| && forall i :: 0 <= i < |vs| ==> RepVolume(vs[i], vols[i])
  }

  ghost predicate RepPulls(vs: seq<Value>, names: seq<string>) {
    |vs| == |names| && forall i :: 0 <= i < |vs| ==> vs[i].Obj? && AsString(Get(vs[i], "name")) == names[i]
  }

  ghost predicate RepSpec(v: Value, s: Spec) {
    && RepPod(v, s.pod)
    && AsMap(Get2(v, "template", "spec")).Some? == s.template.Some?
    && (s.template.Some? ==> RepPod(Get2(v, "template", "spec").value, s.template.value))
    && AsMap(Get(v, "scaleTargetRef")).Some? == s.scaleTarget.Some?
    && (s.scaleTarget.Some? ==>
          var t := Get(v, "scaleTargetRef").value;
          s.scaleTarget.value == Named(AsString(Get(t, "kind")), AsString(Get(t, "name"))))
  }

  ghost predicate RepRequirement(v: Value, r: Requirement) {
    && v.Obj? && AsString(Get(v, "key")) == r.key && AsString(Get(v, "operator")) == r.operator
    && r.values == (if AsStringSlice(Get(v, "values")).Some? then AsStringSlice(Get(v, "values")).value else [])
  }

  ghost predicate RepRequirements(vs: seq<Value>, rs: seq<Requirement>) {
    |vs| == |rs| && forall i :: 0 <= i < |vs| ==> RepRequirement(vs[i], rs[i])
  }

  ghost predicate RepWrapped(o: Option<Value>, raw: Option<RawSelector>) {
    && AsMap(o).Some? == raw.Some?
    && (raw.Some? ==>
          && raw.value.Wrapped?
          && AsStringMap(Get(o.value, "matchLabels")) == raw.value.matchLabels
          && RepRequirements(Items(Get(o.value, "matchExpressions")), raw.value.matchExpressions))
  }

  ghost predicate RepFlat(o: Option<Value>, raw: Option<RawSelector>) {
    && AsMap(o).Some? == raw.Some?
    && (raw.Some? ==> raw.value.Flat? && AsStringMap(o) == Some(raw.value.pairs))
  }

  // A Service carries a flat selector, a NetworkPolicy and every other kind a wrapper.
  ghost predicate RepSelector(v: Value, m: Manifest) {
    if m.kind == "Service" then RepFlat(Get2(v, "spec", "selector"), m.spec.selector)
    else if m.kind == "NetworkPolicy" then RepWrapped(Get2(v, "spec", "podSelector"), m.spec.podSelector)
    else RepWrapped(Get2(v, "spec", "selector"), m.spec.selector)
  }

  ghost predicate RepOwner(v: Value, o: Named, ns: string) {
    && v.Obj? && AsString(Get(v, "kind")) == o.kind && AsString(Get(v, "name")) == o.name
    && AsString(Get(v, "uid")) == UidOf(o.kind, ns, o.name)
  }

  ghost predicate RepOwners(vs: seq<Value>, os: seq<Named>, ns: string) {
    |vs| == |os| && forall i :: 0 <= i < |vs| ==> RepOwner(vs[i], os[i], ns)
  }

  ghost predicate RepIdentity(v: Value, m: Manifest) {
    && AsString(Get(v, "apiVersion")) == m.apiVersion && KindOf(v) == m.kind && NameOf(v) == m.name
    && AsString(Get2(v, "metadata", "namespace")) == m.namespace
    && AsString(Get2(v, "metadata", "uid")) == UidOf(m.kind, ManifestNs(m), m.name)
  }

  // The tree reads back, field by field, as the manifest, and carries the loader's uids.
  ghost predicate Represents(v: Value, m: Manifest) {
    && RepIdentity(v, m)
    && TreeLabels(v) == m.labels && TreeFinalizers(v) == m.finalizers
    && RepOwners(Items(Get2(v, "metadata", "ownerReferences")), m.owners, ManifestNs(m))
    && RepSelector(v, m)
    && (if AsMap(Get(v, "spec")).Some? then RepSpec(Get(v, "spec").value, m.spec) else m.spec == NO_SPEC)
  }

  // The scope information says cluster-scoped exactly of the loader's cluster-scoped kinds.
  ghost predicate ScopeAgrees(scope: ScopeInfo, m: Manifest) {
    scope(GvkOf(m.apiVersion, m.kind)) == Some(false) <==> m.kind in CLUSTER_SCOPED_KINDS
  }

  // Trees and manifests pair up; kinds and names are present.
  ghost predicate Paired(vs: seq<Value>, ms: seq<Manifest>, scope: ScopeInfo) {
    && |vs| == |ms|
    && forall i :: 0 <= i < |vs| ==>
         Represents(vs[i], ms[i]) && ms[i].kind != "" && ms[i].name != "" && ScopeAgrees(scope, ms[i])
  }

  // ----- the extractors find the same mentions

  lemma PairsAgree(v: Value, configMap: string, secret: string, kind: RefKind, p: Pair)
    requires RepPair(v, configMap, secret, p)
    ensures ConfigPair(v, configMap, secret, kind) == PairUses(p, kind)
  {
  }

  lemma VolumeAgrees(v: Value, vol: Volume)
    requires RepVolume(v, vol)
    ensures VolumeMentions(v) == VolumeUses(vol)
  {
    if vol.projected.Some? {
      var srcs := Items(Get2(v, "projected", "sources"));
      forall i | 0 <= i < |srcs| ensures SourceMentions(srcs[i]) == SourceUses(vol.projected.value[i]) {
        PairsAgree(srcs[i], "configMap", "secret", RefVolume, vol.projected.value[i]);
      }
      FlatMapAgrees(SourceMentions, srcs, SourceUses, vol.projected.value);
    }
  }

  lemma ContainerAgrees(v: Value, c: Container)
    requires RepContainer(v, c)
    ensures ContainerMentions(v) == ContainerUses(c)
  {
    var froms, env := Items(Get(v, "envFrom")), Items(Get(v, "env"));
    forall i | 0 <= i < |froms| ensures EnvFromMentions(froms[i]) == EnvFromUses(c.envFrom[i]) {
      PairsAgree(froms[i], "configMapRef", "secretRef", RefEnvFrom, c.envFrom[i]);
    }
    FlatMapAgrees(EnvFromMentions, froms, EnvFromUses, c.envFrom);
    forall i | 0 <= i < |env| ensures EnvMentions(env[i]) == EnvUses(c.env[i]) {
      assert RepEnv(env[i], c.env[i]);
      if c.env[i].Some? {
        PairsAgree(Get(env[i], "valueFrom").value, "configMapKeyRef", "secretKeyRef", RefEnv, c.env[i].value);
      }
    }
    FlatMapAgrees(EnvMentions, env, EnvUses, c.env);
  }

  lemma ContainersAgree(vs: seq<Value>, cs: seq<Container>)
    requires RepContainers(vs, cs)
    ensures FlatMap(ContainerMentions, vs) == FlatMap(ContainerUses, cs)
  {
    forall i | 0 <= i < |vs| ensures ContainerMentions(vs[i]) == ContainerUses(cs[i]) {
      ContainerAgrees(vs[i], cs[i]);
    }
    FlatMapAgrees(ContainerMentions, vs, ContainerUses, cs);
  }

  lemma VolumesAgree(vs: seq<Value>, vols: seq<Volume>)
    requires RepVolumes(vs, vols)
    ensures FlatMap(VolumeMentions, vs) == FlatMap(VolumeUses, vols)
  {
    forall i | 0 <= i < |vs| ensures VolumeMentions(vs[i]) == VolumeUses(vols[i]) {
      VolumeAgrees(vs[i], vols[i]);
    }
    FlatMapAgrees(VolumeMentions, vs, VolumeUses, vols);
  }

  lemma AllContainersAgree(v: Value, ps: PodSpec)
    requires RepPod(v, ps)
    ensures FlatMap(ContainerMentions, Items(Get(v, "containers")))
        + FlatMap(ContainerMentions, Items(Get(v, "initContainers")))
        + FlatMap(ContainerMentions, Items(Get(v, "ephemeralContainers")))
      == FlatMap(ContainerUses, ps.containers + ps.initContainers + ps.ephemeralContainers)
  {
    ContainersAgree(Items(Get(v, "containers")), ps.containers);
    ContainersAgree(Items(Get(v, "initContainers")), ps.initContainers);
    ContainersAgree(Items(Get(v, "ephemeralContainers")), ps.ephemeralContainers);
    FlatMapAppend(ContainerUses, ps.containers, ps.initContainers);
    FlatMapAppend(ContainerUses, ps.containers + ps.initContainers, ps.ephemeralContainers);
  }

  lemma PullsAgree(vs: seq<Value>, names: seq<string>)
    requires RepPulls(vs, names)
    ensures FlatMap(PullMentions, vs) == FlatMap(PullUses, names)
  {
    FlatMapAgrees(PullMentions, vs, PullUses, names);
  }

  lemma Regroup<T>(a: seq<T>, b: seq<T>, c: seq<T>, d: seq<T>, e: seq<T>)
    ensures a + b + c + d + e == a + (b + c + d) + e
  {
  }

  lemma PodAgrees(v: Value, ps: PodSpec)
    requires RepPod(v, ps)
    ensures PodMentions(v) == PodUses(ps)
  {
    VolumesAgree(Items(Get(v, "volumes")), ps.volumes);
    AllContainersAgree(v, ps);
    PullsAgree(Items(Get(v, "imagePullSecrets")), ps.imagePullSecrets);
    Regroup(FlatMap(VolumeMentions, Items(Get(v, "volumes"))),
            FlatMap(ContainerMentions, Items(Get(v, "containers"))),
            FlatMap(ContainerMentions, Items(Get(v, "initContainers"))),
            FlatMap(ContainerMentions, Items(Get(v, "ephemeralContainers"))),
            FlatMap(PullMentions, Items(Get(v, "imagePullSecrets"))));
  }

  // The builder finds in the tree exactly the references the loader finds in the manifest.
  lemma MentionsAgree(v: Value, m: Manifest)
    requires Represents(v, m)
    ensures TreeMentions(v) == SpecUses(m.spec)
  {
    if AsMap(Get(v, "spec")).Some? {
      var t := Get(v, "spec").value;
      PodAgrees(t, m.spec.pod);
      if m.spec.template.Some? {
        PodAgrees(Get2(t, "template", "spec").value, m.spec.template.value);
      }
    }
  }

  // ----- the selectors agree

  lemma {:induction false} RequirementsAgree(vs: seq<Value>, rs: seq<Requirement>)
    requires RepRequirements(vs, rs)
    ensures Requirements(vs).Ok? <==> CheckOperators(rs).None?
    ensures Requirements(vs).Ok? ==> Requirements(vs).value == rs
  {
    if |vs| > 0 {
      RequirementsAgree(vs[..|vs| - 1], rs[..|rs| - 1]);
      assert RepRequirement(vs[|vs| - 1], rs[|rs| - 1]);
      assert rs == rs[..|rs| - 1] + [rs[|rs| - 1]];
    }
  }

  lemma WrappedAgrees(o: Option<Value>, raw: Option<RawSelector>)
    requires RepWrapped(o, raw)
    ensures WrappedSelector(o).Ok? <==> WrappedFrom(raw).Ok?
    ensures WrappedSelector(o).Ok? ==> WrappedSelector(o).value == WrappedFrom(raw).value
  {
    if raw.Some? {
      RequirementsAgree(Items(Get(o.value, "matchExpressions")), raw.value.matchExpressions);
    }
  }

  lemma SelectorAgrees(v: Value, m: Manifest)
    requires RepIdentity(v, m) && RepSelector(v, m)
    ensures TreeSelector(v).Ok? <==> SelectorFrom(m).Ok?
    ensures TreeSelector(v).Ok? ==> TreeSelector(v).value == SelectorFrom(m).value
  {
    if m.kind == "Service" {
    } else if m.kind == "NetworkPolicy" {
      WrappedAgrees(Get2(v, "spec", "podSelector"), m.spec.podSelector);
    } else {
      WrappedAgrees(Get2(v, "spec", "selector"), m.spec.selector);
    }
  }

  // ----- identities, owners and the name index agree

  lemma RefAgrees(v: Value, m: Manifest, scope: ScopeInfo)
    requires RepIdentity(v, m) && ScopeAgrees(scope, m)
    ensures TreeRef(v, scope) == ManifestRef(m)
  {
  }

  lemma OwnersAgree(v: Value, m: Manifest)
    requires Represents(v, m)
    ensures TreeOwners(v) == ManifestOwners(m.owners, ManifestNs(m))
  {
    var items, owners := Items(Get2(v, "metadata", "ownerReferences")), ManifestOwners(m.owners, ManifestNs(m));
    forall i | 0 <= i < |items| ensures OwnerEntry(items[i]) == [owners[i]] {
      assert RepOwner(items[i], m.owners[i], ManifestNs(m));
    }
    FlatMapSingles(OwnerEntry, items, owners);
  }

  function Refs(ms: seq<Manifest>): (refs: seq<Ref>)
    ensures |refs| == |ms| && forall i :: 0 <= i < |ms| ==> refs[i] == ManifestRef(ms[i])
  {
    seq(|ms|, i requires 0 <= i < |ms| => ManifestRef(ms[i]))
  }

  // Some listed object has this identity.
  ghost predicate Lists(refs: seq<Ref>, kind: string, ns: string, name: string) {
    exists r :: r in refs && r.gvk.kind == kind && r.namespace == ns && r.name == name
  }

  // The uid is the loader's.
  predicate Synthetic(r: Ref) {
    r.uid == UidOf(r.gvk.kind, r.namespace, r.name)
  }

  function RefIndex(refs: seq<Ref>): Index {
    if |refs| == 0 then map[] else IndexEntry(RefIndex(refs[..|refs| - 1]), refs[|refs| - 1])
  }

  lemma {:induction false} IndexOfRefs(vs: seq<Value>, scope: ScopeInfo, refs: seq<Ref>)
    requires |vs| == |refs|
    requires forall i :: 0 <= i < |vs| ==> TreeRef(vs[i], scope) == refs[i] && NameError(vs[i]).None?
    ensures NameIndex(vs, scope) == Ok(RefIndex(refs))
  {
    if |vs| > 0 {
      IndexOfRefs(vs[..|vs| - 1], scope, refs[..|refs| - 1]);
    }
  }

  // The index knows exactly the listed identities, and gives each the loader's uid.
  ghost predicate IndexKnows(ix: Index, refs: seq<Ref>, kind: string, ns: string, name: string) {
    UidFor(ix, kind, ns, name) == if Lists(refs, kind, ns, name) then UidOf(kind, ns, name) else ""
  }

  lemma {:induction false} IndexAgrees(refs: seq<Ref>, kind: string, ns: string, name: string)
    requires forall r :: r in refs ==> Synthetic(r)
    ensures IndexKnows(RefIndex(refs), refs, kind, ns, name)
  {
    if |refs| > 0 {
      var init, last := refs[..|refs| - 1], refs[|refs| - 1];
      IndexAgrees(init, kind, ns, name);
      assert Synthetic(last);
      assert refs == init + [last];
      EntryAgrees(RefIndex(init), init, last, kind, ns, name);
    }
  }

  lemma EntryAgrees(ix: Index, init: seq<Ref>, last: Ref, kind: string, ns: string, name: string)
    requires Synthetic(last) && IndexKnows(ix, init, kind, ns, name)
    ensures IndexKnows(IndexEntry(ix, last), init + [last], kind, ns, name)
  {
    assert forall r :: r in init + [last] <==> r in init || r == last;
    assert Lists(init + [last], kind, ns, name) <==>
      Lists(init, kind, ns, name) || (last.gvk.kind == kind && last.namespace == ns && last.name == name);
  }

  lemma PairedIndex(vs: seq<Value>, ms: seq<Manifest>, scope: ScopeInfo)
    requires Paired(vs, ms, scope)
    ensures forall i :: 0 <= i < |vs| ==> TreeRef(vs[i], scope) == ManifestRef(ms[i]) && NameError(vs[i]).None?
    ensures NameIndex(vs, scope) == Ok(RefIndex(Refs(ms)))
  {
    forall i | 0 <= i < |vs| ensures TreeRef(vs[i], scope) == ManifestRef(ms[i]) && NameError(vs[i]).None? {
      RefAgrees(vs[i], ms[i], scope);
    }
    IndexOfRefs(vs, scope, Refs(ms));
  }

  // ----- objects agree

  // The same reference, up to the uid of an unlisted referent, which only the loader has.
  ghost predicate TwinRefs(refs: seq<Ref>, x: CrossRef, y: CrossRef) {
    && x.kind == y.kind && Synthetic(y.ref)
    && x.ref == y.ref.(uid := if Lists(refs, y.ref.gvk.kind, y.ref.namespace, y.ref.name) then y.ref.uid else "")
  }

  ghost predicate Twins(refs: seq<Ref>, b: Object, l: Object) {
    && b.ref == l.ref && b.labels == l.labels && b.selector == l.selector
    && b.owners == l.owners && b.finalizers == l.finalizers
    && |b.crossRefs| == |l.crossRefs|
    && forall j :: 0 <= j < |b.crossRefs| ==> TwinRefs(refs, b.crossRefs[j], l.crossRefs[j])
  }

  ghost predicate AllTwins(refs: seq<Ref>, bs: seq<Object>, ls: seq<Object>) {
    |bs| == |ls| && forall i :: 0 <= i < |bs| ==> Twins(refs, bs[i], ls[i])
  }

  ghost predicate TwinResults(refs: seq<Ref>, b: Result<Object, BuildError>, l: Result<Object, LoadError>) {
    (b.Ok? <==> l.Ok?) && (l.Ok? ==> Twins(refs, b.value, l.value))
  }

  ghost predicate TwinInventories(refs: seq<Ref>, b: Result<seq<Object>, BuildError>, l: Result<seq<Object>,
                                  LoadError>) {
    (b.Ok? <==> l.Ok?) && (l.Ok? ==> AllTwins(refs, b.value, l.value))
  }

  lemma {:induction false} TraverseTwins<A, B>(refs: seq<Ref>, f: A -> Result<Object, BuildError>, s: seq<A>,
                                               g: B -> Result<Object, LoadError>, t: seq<B>)
    requires |s| == |t| && forall i :: 0 <= i < |s| ==> TwinResults(refs, f(s[i]), g(t[i]))
    ensures TwinInventories(refs, Traverse(f, s), Traverse(g, t))
  {
    if |s| > 0 {
      TraverseTwins(refs, f, s[..|s| - 1], g, t[..|t| - 1]);
    }
  }

  lemma {:induction false} LoadedTraverses(ms: seq<Manifest>)
    requires forall m :: m in ms ==> m.kind != ""
    ensures Loaded(ms) == Traverse(LoadOne, ms)
  {
    if |ms| > 0 {
      LoadedTraverses(ms[..|ms| - 1]);
    }
  }

  lemma CrossRefsAgree(refs: seq<Ref>, uses: seq<Mention>, ns: string)
    requires forall r :: r in refs ==> Synthetic(r)
    ensures forall j :: 0 <= j < |uses| ==>
      TwinRefs(refs, ResolveAll(uses, ns, RefIndex(refs))[j], SynthesiseAll(uses, ns)[j])
  {
    forall j | 0 <= j < |uses|
      ensures TwinRefs(refs, ResolveAll(uses, ns, RefIndex(refs))[j], SynthesiseAll(uses, ns)[j])
    {
      IndexAgrees(refs, uses[j].gvk.kind, ns, uses[j].name);
    }
  }

  lemma ObjectAgrees(refs: seq<Ref>, scope: ScopeInfo, v: Value, m: Manifest)
    requires forall r :: r in refs ==> Synthetic(r)
    requires Represents(v, m) && TreeRef(v, scope) == ManifestRef(m) && NameError(v).None?
    ensures TwinResults(refs, ObjectOf(v, scope, RefIndex(refs)), LoadOne(m))
  {
    SelectorAgrees(v, m);
    OwnersAgree(v, m);
    MentionsAgree(v, m);
    CrossRefsAgree(refs, SpecUses(m.spec), ManifestNs(m));
  }

  lemma PairAgrees(vs: seq<Value>, ms: seq<Manifest>, scope: ScopeInfo, i: nat)
    requires Paired(vs, ms, scope) && i < |vs|
    ensures TwinResults(Refs(ms), ObjectOf(vs[i], scope, RefIndex(Refs(ms))), LoadOne(ms[i]))
  {
    RefAgrees(vs[i], ms[i], scope);
    ObjectAgrees(Refs(ms), scope, vs[i], ms[i]);
  }

  lemma ObjectsAgree(vs: seq<Value>, ms: seq<Manifest>, scope: ScopeInfo, ix: Index)
    requires Paired(vs, ms, scope) && ix == RefIndex(Refs(ms))
    ensures TwinInventories(Refs(ms), Traverse(Maker(scope, ix), vs), Traverse(LoadOne, ms))
  {
    var refs := Refs(ms);
    forall i | 0 <= i < |vs| ensures TwinResults(refs, Maker(scope, ix)(vs[i]), LoadOne(ms[i])) {
      PairAgrees(vs, ms, scope, i);
    }
    TraverseTwins(refs, Maker(scope, ix), vs, LoadOne, ms);
  }

  // Builder and loader accept the same inputs and produce twin inventories, in order.
  lemma BuildMatchesLoad(vs: seq<Value>, ms: seq<Manifest>, scope: ScopeInfo)
    requires Paired(vs, ms, scope)
    ensures TwinInventories(Refs(ms), Built(vs, scope), Loaded(ms))
  {
    PairedIndex(vs, ms, scope);
    ObjectsAgree(vs, ms, scope, RefIndex(Refs(ms)));
    LoadedTraverses(ms);
  }
}
