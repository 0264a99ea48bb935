// What the loader makes of manifests, in fields and literal kinds.
module LoaderLaws {
  import opened Prelude
  import opened Model
  import opened Inventory
  import opened RelationLaws
  import opened Cluster
  import opened Scenario
  import opened TwinTheory
  import opened ReferenceLaws

  // ----- what a manifest names

  predicate IsName(o: Option<string>, name: string) {
    o == Some(name)
  }

  predicate PairUse(p: Pair, kind: string, name: string) {
    (kind == "ConfigMap" && IsName(p.configMap, name)) || (kind == "Secret" && IsName(p.secret, name))
  }

  predicate VolumeUse(v: Volume, kind: string, name: string) {
    if v.configMap.Some? then kind == "ConfigMap" && IsName(v.configMap, name)
    else if v.secret.Some? then kind == "Secret" && IsName(v.secret, name)
    else if v.pvc.Some? then kind == "PersistentVolumeClaim" && IsName(v.pvc, name)
    else v.projected.Some? && exists p :: p in v.projected.value && PairUse(p, kind, name)
  }

  predicate ContainerUse(c: Container, use: RefKind, kind: string, name: string) {
    || (use == RefEnvFrom && exists p :: p in c.envFrom && PairUse(p, kind, name))
    || (use == RefEnv && exists e :: e in c.env && e.Some? && PairUse(e.value, kind, name))
  }

  predicate PodUse(ps: PodSpec, use: RefKind, kind: string, name: string) {
    || (use == RefVolume && exists v :: v in ps.volumes && VolumeUse(v, kind, name))
    || (exists c :: c in ps.containers && ContainerUse(c, use, kind, name))
    || (exists c :: c in ps.initContainers && ContainerUse(c, use, kind, name))
    || (exists c :: c in ps.ephemeralContainers && ContainerUse(c, use, kind, name))
    || (use == RefImagePullSecret && kind == "Secret" && name in ps.imagePullSecrets)
  }

  predicate SpecNames(s: Spec, use: RefKind, kind: string, name: string) {
    PodUse(s.pod, use, kind, name) || (s.template.Some? && PodUse(s.template.value, use, kind, name))
  }

  predicate SpecScales(s: Spec, kind: string, name: string) {
    s.scaleTarget == Some(Named(kind, name))
  }

  // ----- the uses mean this

  lemma PairMeans(p: Pair, use: RefKind, m: Mention)
    ensures m in PairUses(p, use) <==> m.kind == use && Core(m) && PairUse(p, m.gvk.kind, m.name)
  {
    assert "ConfigMap"[0] != "Secret"[0];
  }

  lemma VolumeUseMeans(v: Volume, m: Mention)
    ensures m in VolumeUses(v) <==> m.kind == RefVolume && Core(m) && VolumeUse(v, m.gvk.kind, m.name)
  {
    if v.projected.Some? {
      FlatMapMember(SourceUses, v.projected.value, m);
      forall p ensures m in SourceUses(p) <==> m.kind == RefVolume && Core(m) && PairUse(p, m.gvk.kind, m.name) {
        PairMeans(p, RefVolume, m);
      }
    }
  }

  lemma ContainerUseMeans(c: Container, m: Mention)
    ensures m in ContainerUses(c) <==> Core(m) && ContainerUse(c, m.kind, m.gvk.kind, m.name)
  {
    FlatMapMember(EnvFromUses, c.envFrom, m);
    FlatMapMember(EnvUses, c.env, m);
    forall p ensures m in EnvFromUses(p) <==> m.kind == RefEnvFrom && Core(m) && PairUse(p, m.gvk.kind, m.name) {
      PairMeans(p, RefEnvFrom, m);
    }
    forall e ensures m in EnvUses(e) <==>
      m.kind == RefEnv && Core(m) && e.Some? && PairUse(e.value, m.gvk.kind, m.name)
    {
      if e.Some? {
        PairMeans(e.value, RefEnv, m);
      }
    }
  }

  lemma PodUseMeans(ps: PodSpec, m: Mention)
    ensures m in PodUses(ps) <==> Core(m) && PodUse(ps, m.kind, m.gvk.kind, m.name)
  {
    var cs := ps.containers + ps.initContainers + ps.ephemeralContainers;
    FlatMapMember(VolumeUses, ps.volumes, m);
    FlatMapMember(ContainerUses, cs, m);
    FlatMapMember(PullUses, ps.imagePullSecrets, m);
    assert forall c :: c in cs <==> c in ps.containers || c in ps.initContainers || c in ps.ephemeralContainers;
    forall v ensures m in VolumeUses(v) <==> m.kind == RefVolume && Core(m) && VolumeUse(v, m.gvk.kind, m.name) {
      VolumeUseMeans(v, m);
    }
    forall c ensures m in ContainerUses(c) <==> Core(m) && ContainerUse(c, m.kind, m.gvk.kind, m.name) {
      ContainerUseMeans(c, m);
    }
  }

  // What a manifest mentions: what it names, and what it scales, and nothing else.
  lemma SpecUsesMean(s: Spec, m: Mention)
    ensures m in SpecUses(s) <==>
      || (Core(m) && SpecNames(s, m.kind, m.gvk.kind, m.name))
      || (m.kind == RefScaleTarget && m.gvk.group == "" && m.gvk.version == "" && SpecScales(s, m.gvk.kind, m.name))
  {
    PodUseMeans(s.pod, m);
    if s.template.Some? {
      PodUseMeans(s.template.value, m);
    }
  }

  // ----- loaded objects

  predicate ClusterScoped(kind: string) {
    || kind == "Namespace" || kind == "Node" || kind == "PersistentVolume" || kind == "ClusterRole"
    || kind == "ClusterRoleBinding" || kind == "StorageClass" || kind == "PriorityClass"
    || kind == "CustomResourceDefinition" || kind == "IngressClass" || kind == "APIService"
    || kind == "ValidatingWebhookConfiguration" || kind == "MutatingWebhookConfiguration" || kind == "RuntimeClass"
  }

  lemma ClusterScopeMeans(kind: string)
    ensures kind in CLUSTER_SCOPED_KINDS <==> ClusterScoped(kind)
  {
  }

  // A manifest becomes the object with its identity, labels, finalizers and owners, whose
  // uids are made of kind, namespace and name.
  lemma LoadedObjectMeans(m: Manifest, o: Object)
    requires LoadOne(m) == Ok(o)
    ensures o.ref.gvk == GvkOf(m.apiVersion, m.kind) && o.ref.gvk.kind == m.kind && o.ref.name == m.name
    ensures o.ref.namespace ==
      if ClusterScoped(m.kind) then "" else if m.namespace != "" then m.namespace else "default"
    ensures o.ref.uid == "uid:" + m.kind + "/" + o.ref.namespace + "/" + m.name
    ensures o.labels == m.labels && o.finalizers == m.finalizers && |o.owners| == |m.owners|
    ensures forall i :: 0 <= i < |m.owners| ==>
      && o.owners[i].kind == m.owners[i].kind && o.owners[i].name == m.owners[i].name
      && o.owners[i].uid == "uid:" + m.owners[i].kind + "/" + o.ref.namespace + "/" + m.owners[i].name
  {
    ClusterScopeMeans(m.kind);
  }

  // A present wrapper reads as its pairs and requirements, and as the present empty
  // selector when it has neither; never as the nil selector.
  lemma WrapperMeans(pairs: Option<map<string, string>>, reqs: seq<Requirement>)
    ensures Wrapper(pairs, reqs).matchExpressions == reqs
    ensures pairs.Some? || reqs != [] ==> Wrapper(pairs, reqs).matchLabels == pairs
    ensures pairs.None? && reqs == [] ==> Wrapper(pairs, reqs).matchLabels == Some(map[])
    ensures Wrapper(pairs, reqs) != LabelSelector(None, [])
  {
  }

  // The objects loaded are those of the manifests that have a kind.
  lemma {:induction false} LoadedMembers(ms: seq<Manifest>, o: Object)
    requires Loaded(ms).Ok?
    ensures o in Loaded(ms).value <==> exists m :: m in ms && m.kind != "" && LoadOne(m) == Ok(o)
  {
    if |ms| > 0 {
      var init, last := ms[..|ms| - 1], ms[|ms| - 1];
      LoadedMembers(init, o);
      assert forall m :: m in ms <==> m in init || m == last;
    }
  }

  // Loading succeeds exactly when every manifest with a kind has a readable selector.
  lemma {:induction false} LoadedSucceedsIff(ms: seq<Manifest>)
    ensures Loaded(ms).Ok? <==> forall m :: m in ms && m.kind != "" ==> SelectorFrom(m).Ok?
  {
    if |ms| > 0 {
      var init, last := ms[..|ms| - 1], ms[|ms| - 1];
      LoadedSucceedsIff(init);
      assert forall m :: m in ms <==> m in init || m == last;
    }
  }

  // ----- loaded references

  ghost function SpecNamesIn(s: Spec): (RefKind, string, string) -> bool {
    (use, kind, name) => SpecNames(s, use, kind, name)
  }

  ghost function SpecScalesIn(s: Spec): (string, string) -> bool {
    (kind, name) => SpecScales(s, kind, name)
  }

  ghost predicate SpecWrites(s: Spec, cr: CrossRef) {
    Writes(SpecNamesIn(s), SpecScalesIn(s), cr)
  }

  lemma SynthesisedMean(ms: seq<Mention>, ns: string, cr: CrossRef)
    ensures cr in SynthesiseAll(ms, ns) <==>
      && Mention(cr.kind, cr.ref.gvk, cr.ref.name) in ms && cr.ref.namespace == ns
      && cr.ref.uid == "uid:" + cr.ref.gvk.kind + "/" + ns + "/" + cr.ref.name
  {
    var refs, m := SynthesiseAll(ms, ns), Mention(cr.kind, cr.ref.gvk, cr.ref.name);
    if cr in refs {
      var j :| 0 <= j < |refs| && refs[j] == cr;
      assert ms[j] == m;
    }
    if m in ms && cr == Synthesise(m, ns) {
      var j :| 0 <= j < |ms| && ms[j] == m;
      assert refs[j] == cr;
    }
  }

  // The references of a loaded object are exactly those its manifest writes, in the
  // object's namespace, each with the uid made of its kind, namespace and name.
  lemma LoadedReferences(m: Manifest, o: Object, cr: CrossRef)
    requires LoadOne(m) == Ok(o)
    ensures cr in o.crossRefs <==>
      && SpecWrites(m.spec, cr) && cr.ref.namespace == o.ref.namespace
      && cr.ref.uid == "uid:" + cr.ref.gvk.kind + "/" + cr.ref.namespace + "/" + cr.ref.name
  {
    SpecUsesMean(m.spec, Mention(cr.kind, cr.ref.gvk, cr.ref.name));
    SynthesisedMean(SpecUses(m.spec), o.ref.namespace, cr);
  }

  lemma LoadedRefersTo(m: Manifest, o: Object, n: Manifest, p: Object, cr: CrossRef)
    requires LoadOne(m) == Ok(o) && LoadOne(n) == Ok(p) && SlashFree(p.ref) && cr in o.crossRefs
    ensures SpecWrites(m.spec, cr) && cr.ref.namespace == o.ref.namespace
    ensures RefersTo(cr, p.ref) <==> IsNamed(p.ref, cr.ref.gvk.kind, cr.ref.namespace, cr.ref.name)
  {
    LoadedReferences(m, o, cr);
    LoadedObjectMeans(n, p);
    UidIdentifies(p.ref, cr.ref.gvk.kind, cr.ref.namespace, cr.ref.name);
  }

  lemma LoadedHolds(m: Manifest, o: Object, n: Manifest, p: Object)
    requires LoadOne(m) == Ok(o) && LoadOne(n) == Ok(p) && SlashFree(p.ref)
    ensures Holds(o, p.ref, SpecNamesIn(m.spec), SpecScalesIn(m.spec))
  {
    var t, names, scales := p.ref, SpecNamesIn(m.spec), SpecScalesIn(m.spec);
    forall cr | cr in o.crossRefs
      ensures Writes(names, scales, cr) && cr.ref.namespace == o.ref.namespace
      ensures RefersTo(cr, t) <==> IsNamed(t, cr.ref.gvk.kind, cr.ref.namespace, cr.ref.name)
    {
      LoadedRefersTo(m, o, n, p, cr);
    }
    forall use | names(use, t.gvk.kind, t.name) ensures HoldsOne(o, use, t) {
      WrittenLoaded(m, o, use, GVK("", "v1", t.gvk.kind), t);
    }
    if scales(t.gvk.kind, t.name) {
      WrittenLoaded(m, o, RefScaleTarget, GVK("", "", t.gvk.kind), t);
    }
    forall kind, name ensures !names(RefScaleTarget, kind, name) {
      NothingScalesByName(m.spec, kind, name);
    }
  }

  lemma NothingScalesByName(s: Spec, kind: string, name: string)
    ensures !SpecNames(s, RefScaleTarget, kind, name)
  {
  }

  lemma WrittenLoaded(m: Manifest, o: Object, use: RefKind, gvk: GVK, t: Ref)
    requires LoadOne(m) == Ok(o) && gvk.kind == t.gvk.kind
    requires SpecWrites(m.spec, CrossRef(use, Ref(gvk, "", t.name, "")))
    ensures HoldsOne(o, use, t)
  {
    var ns := o.ref.namespace;
    var cr := CrossRef(use, Ref(gvk, ns, t.name, UidOf(gvk.kind, ns, t.name)));
    LoadedReferences(m, o, cr);
  }

  // On a well-formed loaded inventory the object of manifest m is a consumer of the object
  // of manifest n exactly when m names n's kind and name, at any position, and both lie in
  // one namespace; and it scales it exactly when its scale target does.
  lemma LoadedConsumers(ms: seq<Manifest>, objs: seq<Object>, m: Manifest, o: Object, n: Manifest, p: Object)
    requires Loaded(ms) == Ok(objs) && WellFormed(objs)
    requires m in ms && n in ms && m.kind != "" && n.kind != "" && LoadOne(m) == Ok(o) && LoadOne(n) == Ok(p)
    requires SlashFree(p.ref)
    ensures o in objs && p in objs
    ensures o.ref in ConsumersOfRef(objs, p.ref) <==>
      o.ref.namespace == p.ref.namespace && NamedForUse(SpecNamesIn(m.spec), n.kind, n.name)
    ensures o.ref in ScalersOfRef(objs, p.ref) <==>
      o.ref.namespace == p.ref.namespace && SpecScalesIn(m.spec)(n.kind, n.name)
  {
    LoadedMembers(ms, o);
    LoadedMembers(ms, p);
    LoadedObjectMeans(n, p);
    LoadedHolds(m, o, n, p);
    ConsumersOfHeld(objs, o, p, SpecNamesIn(m.spec), SpecScalesIn(m.spec));
  }
}
