// Which references the two readers find, in literal field names and kinds, and whose
// consumers they make the objects that hold them.
module ReferenceLaws {
  import opened Prelude
  import opened Model
  import opened Inventory
  import opened RelationLaws
  import opened Trees
  import opened Cluster

  // A core reference: group "", version v1.
  predicate Core(m: Mention) {
    m.gvk.group == "" && m.gvk.version == "v1"
  }

  // The field of v is a map that gives this name under the key; anything but a string reads
  // as the empty name.
  predicate NameUnder(v: Value, field: string, key: string, name: string) {
    AsMap(Get(v, field)).Some? && AsString(Get2(v, field, key)) == name
  }

  // A ConfigMap named in one field, or a Secret in another.
  predicate PairNames(v: Value, configMap: string, secret: string, kind: string, name: string) {
    || (kind == "ConfigMap" && NameUnder(v, configMap, "name", name))
    || (kind == "Secret" && NameUnder(v, secret, "name", name))
  }

  // A volume names what its first source names, in the order configMap, secret,
  // persistentVolumeClaim, projected.
  predicate VolumeNames(v: Value, kind: string, name: string) {
    if AsMap(Get(v, "configMap")).Some? then kind == "ConfigMap" && NameUnder(v, "configMap", "name", name)
    else if AsMap(Get(v, "secret")).Some? then kind == "Secret" && NameUnder(v, "secret", "secretName", name)
    else if AsMap(Get(v, "persistentVolumeClaim")).Some? then
      kind == "PersistentVolumeClaim" && NameUnder(v, "persistentVolumeClaim", "claimName", name)
    else AsMap(Get(v, "projected")).Some? && SourceNames(v, kind, name)
  }

  predicate SourceNames(v: Value, kind: string, name: string) {
    exists s :: s in Items(Get2(v, "projected", "sources")) && PairNames(s, "configMap", "secret", kind, name)
  }

  predicate EnvNames(e: Value, kind: string, name: string) {
    AsMap(Get(e, "valueFrom")).Some?
    && PairNames(Get(e, "valueFrom").value, "configMapKeyRef", "secretKeyRef", kind, name)
  }

  predicate ContainerNames(c: Value, use: RefKind, kind: string, name: string) {
    || (use == RefEnvFrom
        && exists e :: e in Items(Get(c, "envFrom")) && PairNames(e, "configMapRef", "secretRef", kind, name))
    || (use == RefEnv && exists e :: e in Items(Get(c, "env")) && EnvNames(e, kind, name))
  }

  predicate PodNames(ps: Value, use: RefKind, kind: string, name: string) {
    || (use == RefVolume && exists v :: v in Items(Get(ps, "volumes")) && VolumeNames(v, kind, name))
    || (exists c :: c in Items(Get(ps, "containers")) && ContainerNames(c, use, kind, name))
    || (exists c :: c in Items(Get(ps, "initContainers")) && ContainerNames(c, use, kind, name))
    || (exists c :: c in Items(Get(ps, "ephemeralContainers")) && ContainerNames(c, use, kind, name))
    || (use == RefImagePullSecret && kind == "Secret"
        && exists p :: p in Items(Get(ps, "imagePullSecrets")) && p.Obj? && AsString(Get(p, "name")) == name)
  }

  // The tree names it in its spec or in its pod template's.
  predicate TreeNames(v: Value, use: RefKind, kind: string, name: string) {
    && AsMap(Get(v, "spec")).Some?
    && var spec := Get(v, "spec").value;
    || PodNames(spec, use, kind, name)
    || (AsMap(Get2(spec, "template", "spec")).Some?
        && PodNames(Get2(spec, "template", "spec").value, use, kind, name))
  }

  predicate TreeScales(v: Value, kind: string, name: string) {
    && AsMap(Get2(v, "spec", "scaleTargetRef")).Some? && AsMap(Get(v, "spec")).Some?
    && var t := Get2(v, "spec", "scaleTargetRef").value;
    AsString(Get(t, "kind")) == kind && AsString(Get(t, "name")) == name
  }

  // ----- the mentions mean this

  lemma ConfigPairMeans(v: Value, configMap: string, secret: string, use: RefKind, m: Mention)
    ensures m in ConfigPair(v, configMap, secret, use) <==>
      m.kind == use && Core(m) && PairNames(v, configMap, secret, m.gvk.kind, m.name)
  {
    assert "ConfigMap"[0] != "Secret"[0];
  }

  lemma SourcesMean(v: Value, m: Mention)
    ensures m in FlatMap(SourceMentions, Items(Get2(v, "projected", "sources"))) <==>
      && m.kind == RefVolume && Core(m)
      && SourceNames(v, m.gvk.kind, m.name)
  {
    FlatMapMember(SourceMentions, Items(Get2(v, "projected", "sources")), m);
    forall s ensures m in SourceMentions(s) <==>
      m.kind == RefVolume && Core(m) && PairNames(s, "configMap", "secret", m.gvk.kind, m.name)
    {
      ConfigPairMeans(s, "configMap", "secret", RefVolume, m);
    }
  }

  lemma VolumeMeans(v: Value, m: Mention)
    ensures m in VolumeMentions(v) <==> m.kind == RefVolume && Core(m) && VolumeNames(v, m.gvk.kind, m.name)
  {
    SourcesMean(v, m);
  }

  lemma ContainerMeans(c: Value, m: Mention)
    ensures m in ContainerMentions(c) <==> Core(m) && ContainerNames(c, m.kind, m.gvk.kind, m.name)
  {
    FlatMapMember(EnvFromMentions, Items(Get(c, "envFrom")), m);
    FlatMapMember(EnvMentions, Items(Get(c, "env")), m);
    forall e ensures m in EnvFromMentions(e) <==>
      m.kind == RefEnvFrom && Core(m) && PairNames(e, "configMapRef", "secretRef", m.gvk.kind, m.name)
    {
      ConfigPairMeans(e, "configMapRef", "secretRef", RefEnvFrom, m);
    }
    forall e ensures m in EnvMentions(e) <==> m.kind == RefEnv && Core(m) && EnvNames(e, m.gvk.kind, m.name) {
      if AsMap(Get(e, "valueFrom")).Some? {
        ConfigPairMeans(Get(e, "valueFrom").value, "configMapKeyRef", "secretKeyRef", RefEnv, m);
      }
    }
  }

  lemma ContainersMean(cs: seq<Value>, m: Mention)
    ensures m in FlatMap(ContainerMentions, cs) <==>
      Core(m) && exists c :: c in cs && ContainerNames(c, m.kind, m.gvk.kind, m.name)
  {
    FlatMapMember(ContainerMentions, cs, m);
    forall c ensures m in ContainerMentions(c) <==> Core(m) && ContainerNames(c, m.kind, m.gvk.kind, m.name) {
      ContainerMeans(c, m);
    }
  }

  lemma VolumesMean(vols: seq<Value>, m: Mention)
    ensures m in FlatMap(VolumeMentions, vols) <==>
      m.kind == RefVolume && Core(m) && exists v :: v in vols && VolumeNames(v, m.gvk.kind, m.name)
  {
    FlatMapMember(VolumeMentions, vols, m);
    forall v ensures m in VolumeMentions(v) <==>
      m.kind == RefVolume && Core(m) && VolumeNames(v, m.gvk.kind, m.name)
    {
      VolumeMeans(v, m);
    }
  }

  lemma PullsMean(pulls: seq<Value>, m: Mention)
    ensures m in FlatMap(PullMentions, pulls) <==>
      && m.kind == RefImagePullSecret && Core(m) && m.gvk.kind == "Secret"
      && exists p :: p in pulls && p.Obj? && AsString(Get(p, "name")) == m.name
  {
    FlatMapMember(PullMentions, pulls, m);
  }

  lemma PodMeans(ps: Value, m: Mention)
    ensures m in PodMentions(ps) <==> Core(m) && PodNames(ps, m.kind, m.gvk.kind, m.name)
  {
    VolumesMean(Items(Get(ps, "volumes")), m);
    ContainersMean(Items(Get(ps, "containers")), m);
    ContainersMean(Items(Get(ps, "initContainers")), m);
    ContainersMean(Items(Get(ps, "ephemeralContainers")), m);
    PullsMean(Items(Get(ps, "imagePullSecrets")), m);
  }

  // What a tree mentions: what it names, and what it scales, and nothing else.
  lemma TreeMentionsMean(v: Value, m: Mention)
    ensures m in TreeMentions(v) <==>
      || (Core(m) && TreeNames(v, m.kind, m.gvk.kind, m.name))
      || (m.kind == RefScaleTarget && m.gvk.group == "" && m.gvk.version == ""
          && TreeScales(v, m.gvk.kind, m.name))
  {
    if AsMap(Get(v, "spec")).Some? {
      var spec := Get(v, "spec").value;
      PodMeans(spec, m);
      if AsMap(Get2(spec, "template", "spec")).Some? {
        PodMeans(Get2(spec, "template", "spec").value, m);
      }
    }
  }

  // ----- the uid a reference is given

  predicate IsNamed(r: Ref, kind: string, ns: string, name: string) {
    r.gvk.kind == kind && r.namespace == ns && r.name == name
  }

  // The uid of the last listed ref of that kind, namespace and name that has one, else none.
  ghost predicate ListedUid(refs: seq<Ref>, kind: string, ns: string, name: string, uid: string) {
    if uid == "" then forall i :: 0 <= i < |refs| && IsNamed(refs[i], kind, ns, name) ==> refs[i].uid == ""
    else exists i :: LastWithUid(refs, kind, ns, name, i) && refs[i].uid == uid
  }

  ghost predicate LastWithUid(refs: seq<Ref>, kind: string, ns: string, name: string, i: int) {
    && 0 <= i < |refs| && IsNamed(refs[i], kind, ns, name) && refs[i].uid != ""
    && forall j :: i < j < |refs| && IsNamed(refs[j], kind, ns, name) ==> refs[j].uid == ""
  }

  function TreeRefs(vs: seq<Value>, info: ScopeInfo): (refs: seq<Ref>)
    ensures |refs| == |vs| && forall i :: 0 <= i < |vs| ==> refs[i] == TreeRef(vs[i], info)
  {
    seq(|vs|, i requires 0 <= i < |vs| => TreeRef(vs[i], info))
  }

  lemma {:induction false} IndexMeans(vs: seq<Value>, info: ScopeInfo, kind: string, ns: string, name: string)
    requires NameIndex(vs, info).Ok?
    ensures ListedUid(TreeRefs(vs, info), kind, ns, name, UidFor(NameIndex(vs, info).value, kind, ns, name))
  {
    if |vs| > 0 {
      var init, refs := vs[..|vs| - 1], TreeRefs(vs, info);
      IndexMeans(init, info, kind, ns, name);
      assert TreeRefs(init, info) == refs[..|refs| - 1];
      var r := refs[|refs| - 1];
      if IsNamed(r, kind, ns, name) && r.uid != "" {
        assert LastWithUid(refs, kind, ns, name, |refs| - 1);
      } else {
        UidStaysListed(refs, kind, ns, name, UidFor(NameIndex(init, info).value, kind, ns, name));
      }
    }
  }

  lemma UidStaysListed(refs: seq<Ref>, kind: string, ns: string, name: string, uid: string)
    requires |refs| > 0 && ListedUid(refs[..|refs| - 1], kind, ns, name, uid)
    requires IsNamed(refs[|refs| - 1], kind, ns, name) ==> refs[|refs| - 1].uid == ""
    ensures ListedUid(refs, kind, ns, name, uid)
  {
    if uid != "" {
      var i :| LastWithUid(refs[..|refs| - 1], kind, ns, name, i) && refs[..|refs| - 1][i].uid == uid;
      assert LastWithUid(refs, kind, ns, name, i);
    }
  }

  // ----- what trees read as

  // Anything but a string reads as the empty string, anything but a list as the empty list;
  // a map or list of strings is read whole or not at all.
  lemma ReadersMean(v: Value)
    ensures AsString(Some(v)) == (if v.Str? then v.s else "") && AsString(None) == ""
    ensures Items(Some(v)) == (if v.Arr? then v.items else []) && Items(None) == []
    ensures AsStringMap(Some(v)).Some? <==> v.Obj? && forall k :: k in v.fields ==> v.fields[k].Str?
    ensures AsStringMap(Some(v)).Some? ==>
      && AsStringMap(Some(v)).value.Keys == v.fields.Keys
      && forall k :: k in v.fields ==> Str(AsStringMap(Some(v)).value[k]) == v.fields[k]
    ensures AsStringSlice(Some(v)).Some? <==> v.Arr? && forall i :: 0 <= i < |v.items| ==> v.items[i].Str?
    ensures AsStringSlice(Some(v)).Some? ==>
      && |AsStringSlice(Some(v)).value| == |v.items|
      && forall i :: 0 <= i < |v.items| ==> Str(AsStringSlice(Some(v)).value[i]) == v.items[i]
  {
  }

  // A list entry that is no map asks nothing; values that are no list of strings are none.
  function RequirementAt(m: Value): seq<Requirement> {
    if !m.Obj? then []
    else
      var values := AsStringSlice(Get(m, "values"));
      [Requirement(AsString(Get(m, "key")), AsString(Get(m, "operator")), if values.Some? then values.value else [])]
  }

  // The requirements of a list are those of its maps, in order, and fail exactly when one of
  // them has an operator other than the four.
  lemma {:induction false} RequirementsMean(items: seq<Value>)
    ensures Requirements(items).Ok? <==>
      forall r :: r in FlatMap(RequirementAt, items) ==> r.operator in ["In", "NotIn", "Exists", "DoesNotExist"]
    ensures Requirements(items).Ok? ==> Requirements(items).value == FlatMap(RequirementAt, items)
  {
    if |items| > 0 {
      var init, last := items[..|items| - 1], items[|items| - 1];
      RequirementsMean(init);
      var more := RequirementAt(last);
      assert forall r :: r in FlatMap(RequirementAt, items) <==> r in FlatMap(RequirementAt, init) || r in more;
      if last.Obj? {
        OperatorsAre(more[0].operator);
        assert more[0] in more;
      }
    }
  }

  // ----- built objects

  // Where a tree says it lives: nowhere for a cluster-scoped kind, else its namespace, else
  // the default one.
  lemma NamespaceMeans(v: Value, info: ScopeInfo)
    ensures ResolveNamespace(v, info) ==
      if info(TreeGvk(v)) == Some(false) then ""
      else if AsString(Get2(v, "metadata", "namespace")) != "" then AsString(Get2(v, "metadata", "namespace"))
      else "default"
  {
  }

  // Each tree becomes the object with its identity, labels, finalizers and owner entries,
  // in literal field names.
  lemma BuiltObjectMeans(vs: seq<Value>, info: ScopeInfo, objs: seq<Object>, i: nat)
    requires Built(vs, info) == Ok(objs) && i < |vs|
    ensures |objs| == |vs|
    ensures var o, v := objs[i], vs[i];
      && o.ref.gvk == GvkOf(AsString(Get(v, "apiVersion")), AsString(Get(v, "kind")))
      && o.ref.gvk.kind == AsString(Get(v, "kind")) != ""
      && o.ref.name == AsString(Get2(v, "metadata", "name")) != ""
      && o.ref.uid == AsString(Get2(v, "metadata", "uid")) && o.ref.namespace == ResolveNamespace(v, info)
      && (AsStringMap(Get2(v, "metadata", "labels")) == Some(o.labels)
          || (AsStringMap(Get2(v, "metadata", "labels")).None? && o.labels == map[]))
      && (AsStringSlice(Get2(v, "metadata", "finalizers")) == Some(o.finalizers)
          || (AsStringSlice(Get2(v, "metadata", "finalizers")).None? && o.finalizers == []))
  {
    TraverseAt(Maker(info, NameIndex(vs, info).value), vs, i);
  }

  // Building succeeds exactly when every tree has a kind, a name and a readable selector.
  lemma BuiltSucceedsIff(vs: seq<Value>, info: ScopeInfo)
    ensures Built(vs, info).Ok? <==> forall v :: v in vs ==>
      AsString(Get(v, "kind")) != "" && AsString(Get2(v, "metadata", "name")) != "" && TreeSelector(v).Ok?
  {
    IndexSucceedsIff(vs, info);
    if NameIndex(vs, info).Ok? {
      TraverseSucceedsIff(Maker(info, NameIndex(vs, info).value), vs);
    }
  }

  lemma {:induction false} IndexSucceedsIff(vs: seq<Value>, info: ScopeInfo)
    ensures NameIndex(vs, info).Ok? <==>
      forall v :: v in vs ==> AsString(Get(v, "kind")) != "" && AsString(Get2(v, "metadata", "name")) != ""
  {
    if |vs| > 0 {
      var init, last := vs[..|vs| - 1], vs[|vs| - 1];
      IndexSucceedsIff(init, info);
      assert forall v :: v in vs <==> v in init || v == last;
    }
  }

  lemma BuiltOwnersMean(vs: seq<Value>, info: ScopeInfo, objs: seq<Object>, i: nat, e: OwnerRef)
    requires Built(vs, info) == Ok(objs) && i < |vs| == |objs|
    ensures e in objs[i].owners <==>
      exists m :: m in Items(Get2(vs[i], "metadata", "ownerReferences")) && m.Obj?
        && AsString(Get(m, "kind")) == e.kind && AsString(Get(m, "name")) == e.name && AsString(Get(m, "uid")) == e.uid
  {
    TraverseAt(Maker(info, NameIndex(vs, info).value), vs, i);
    FlatMapMember(OwnerEntry, Items(Get2(vs[i], "metadata", "ownerReferences")), e);
  }

  // ----- built references

  // A reference written for a use, by what names kinds and names for uses and what scales
  // them.
  ghost predicate Writes(names: (RefKind, string, string) -> bool, scales: (string, string) -> bool, cr: CrossRef) {
    || (cr.ref.gvk.group == "" && cr.ref.gvk.version == "v1" && names(cr.kind, cr.ref.gvk.kind, cr.ref.name))
    || (cr.kind == RefScaleTarget && cr.ref.gvk.group == "" && cr.ref.gvk.version == ""
        && scales(cr.ref.gvk.kind, cr.ref.name))
  }

  // For some use.
  ghost predicate NamedForUse(names: (RefKind, string, string) -> bool, kind: string, name: string) {
    exists use :: names(use, kind, name)
  }

  ghost function NamesIn(v: Value): (RefKind, string, string) -> bool {
    (use, kind, name) => TreeNames(v, use, kind, name)
  }

  ghost function ScalesIn(v: Value): (string, string) -> bool {
    (kind, name) => TreeScales(v, kind, name)
  }

  ghost predicate TreeWrites(v: Value, cr: CrossRef) {
    Writes(NamesIn(v), ScalesIn(v), cr)
  }

  // o holds, in its own namespace, references to exactly what is written, and those name t
  // exactly when t is what they are written to.
  ghost predicate Holds(o: Object, t: Ref, names: (RefKind, string, string) -> bool, scales: (string, string) -> bool) {
    && (forall cr :: cr in o.crossRefs ==>
      && Writes(names, scales, cr) && cr.ref.namespace == o.ref.namespace
      && (RefersTo(cr, t) <==> IsNamed(t, cr.ref.gvk.kind, cr.ref.namespace, cr.ref.name)))
    && (forall use :: names(use, t.gvk.kind, t.name) ==> HoldsOne(o, use, t))
    && (scales(t.gvk.kind, t.name) ==> HoldsOne(o, RefScaleTarget, t))
    && (forall kind, name :: !names(RefScaleTarget, kind, name))
  }

  ghost predicate HoldsOne(o: Object, use: RefKind, t: Ref) {
    exists cr :: cr in o.crossRefs && cr.kind == use && IsNamed(cr.ref, t.gvk.kind, o.ref.namespace, t.name)
  }

  lemma HeldMeans(o: Object, t: Ref, names: (RefKind, string, string) -> bool, scales: (string, string) -> bool)
    requires Holds(o, t, names, scales)
    ensures Uses(o, t) <==> o.ref.namespace == t.namespace && NamedForUse(names, t.gvk.kind, t.name)
    ensures Scales(o, t) <==> o.ref.namespace == t.namespace && scales(t.gvk.kind, t.name)
  {
    if cr :| cr in o.crossRefs && cr.kind != RefScaleTarget && RefersTo(cr, t) {
      assert names(cr.kind, t.gvk.kind, t.name);
    }
    if use :| names(use, t.gvk.kind, t.name) && o.ref.namespace == t.namespace {
      var cr :| cr in o.crossRefs && cr.kind == use && IsNamed(cr.ref, t.gvk.kind, o.ref.namespace, t.name);
      assert RefersTo(cr, t);
    }
    if scales(t.gvk.kind, t.name) && o.ref.namespace == t.namespace {
      var cr :| cr in o.crossRefs && cr.kind == RefScaleTarget && IsNamed(cr.ref, t.gvk.kind, o.ref.namespace, t.name);
      assert RefersTo(cr, t);
    }
  }

  lemma ConsumersOfHeld(objs: seq<Object>, o: Object, p: Object,
                        names: (RefKind, string, string) -> bool, scales: (string, string) -> bool)
    requires WellFormed(objs) && o in objs && p in objs && Holds(o, p.ref, names, scales)
    ensures o.ref in ConsumersOfRef(objs, p.ref) <==>
      o.ref.namespace == p.ref.namespace && NamedForUse(names, p.ref.gvk.kind, p.ref.name)
    ensures o.ref in ScalersOfRef(objs, p.ref) <==>
      o.ref.namespace == p.ref.namespace && scales(p.ref.gvk.kind, p.ref.name)
  {
    HeldMeans(o, p.ref, names, scales);
    OwnRefLookup(objs, o);
    OwnRefLookup(objs, p);
    forall q | Tracks(objs, q, o.ref) ensures q == o {
      OwnRefLookup(objs, q);
    }
    assert Tracks(objs, o, o.ref);
    ConsumersMean(objs, p.ref, o.ref);
    ScalersMean(objs, p.ref, o.ref);
  }

  lemma ResolvedMean(ms: seq<Mention>, ns: string, ix: Index, cr: CrossRef)
    ensures cr in ResolveAll(ms, ns, ix) <==>
      && Mention(cr.kind, cr.ref.gvk, cr.ref.name) in ms && cr.ref.namespace == ns
      && cr.ref.uid == UidFor(ix, cr.ref.gvk.kind, ns, cr.ref.name)
  {
    var refs, m := ResolveAll(ms, ns, ix), Mention(cr.kind, cr.ref.gvk, cr.ref.name);
    if cr in refs {
      var j :| 0 <= j < |refs| && refs[j] == cr;
      assert ms[j] == m;
    }
    if m in ms && cr == Resolve(m, ns, ix) {
      var j :| 0 <= j < |ms| && ms[j] == m;
      assert refs[j] == cr;
    }
  }

  // The references of a built object are exactly those its tree writes, in the object's
  // namespace, each with the uid listed there.
  lemma BuiltReferences(vs: seq<Value>, info: ScopeInfo, objs: seq<Object>, i: nat, cr: CrossRef)
    requires Built(vs, info) == Ok(objs) && i < |vs| == |objs|
    ensures cr in objs[i].crossRefs <==>
      && TreeWrites(vs[i], cr) && cr.ref.namespace == objs[i].ref.namespace
      && ListedUid(TreeRefs(vs, info), cr.ref.gvk.kind, cr.ref.namespace, cr.ref.name, cr.ref.uid)
  {
    var ix, ns := NameIndex(vs, info).value, objs[i].ref.namespace;
    TraverseAt(Maker(info, ix), vs, i);
    TreeMentionsMean(vs[i], Mention(cr.kind, cr.ref.gvk, cr.ref.name));
    ResolvedMean(TreeMentions(vs[i]), ns, ix, cr);
    IndexMeans(vs, info, cr.ref.gvk.kind, ns, cr.ref.name);
    ListedUidIsOne(TreeRefs(vs, info), cr.ref.gvk.kind, ns, cr.ref.name, cr.ref.uid,
                   UidFor(ix, cr.ref.gvk.kind, ns, cr.ref.name));
  }

  lemma ListedUidIsOne(refs: seq<Ref>, kind: string, ns: string, name: string, u: string, v: string)
    requires ListedUid(refs, kind, ns, name, v)
    ensures ListedUid(refs, kind, ns, name, u) <==> u == v
  {
    if ListedUid(refs, kind, ns, name, u) && u != "" && v != "" {
      var i :| LastWithUid(refs, kind, ns, name, i) && refs[i].uid == u;
      var j :| LastWithUid(refs, kind, ns, name, j) && refs[j].uid == v;
      assert i == j;
    }
  }

  // On a well-formed inventory the listed uid is that of the object so named, and of no
  // other.
  lemma ListedUidNames(objs: seq<Object>, refs: seq<Ref>, j: nat, kind: string, ns: string, name: string, uid: string)
    requires WellFormed(objs) && |refs| == |objs| && forall i :: 0 <= i < |objs| ==> refs[i] == objs[i].ref
    requires j < |objs| && ListedUid(refs, kind, ns, name, uid)
    ensures IsNamed(objs[j].ref, kind, ns, name) ==> uid == objs[j].ref.uid
    ensures uid != "" && uid == objs[j].ref.uid ==> IsNamed(objs[j].ref, kind, ns, name)
  {
    if uid != "" {
      var i :| LastWithUid(refs, kind, ns, name, i) && refs[i].uid == uid;
      assert objs[i] in objs && objs[j] in objs;
    }
  }

  lemma BuiltRefersTo(vs: seq<Value>, info: ScopeInfo, objs: seq<Object>, i: nat, j: nat, cr: CrossRef)
    requires Built(vs, info) == Ok(objs) && WellFormed(objs) && i < |vs| && j < |vs| == |objs|
    requires cr in objs[i].crossRefs
    ensures TreeWrites(vs[i], cr) && cr.ref.namespace == objs[i].ref.namespace
    ensures RefersTo(cr, objs[j].ref) <==> IsNamed(objs[j].ref, cr.ref.gvk.kind, cr.ref.namespace, cr.ref.name)
  {
    BuiltReferences(vs, info, objs, i, cr);
    forall k | 0 <= k < |vs| ensures TreeRefs(vs, info)[k] == objs[k].ref {
      TraverseAt(Maker(info, NameIndex(vs, info).value), vs, k);
    }
    ListedUidNames(objs, TreeRefs(vs, info), j, cr.ref.gvk.kind, cr.ref.namespace, cr.ref.name, cr.ref.uid);
  }

  // ----- consumers, end to end

  // On a well-formed built inventory the object of tree i is a consumer of the object of
  // tree j exactly when tree i names j's kind and name, at any position, and both lie in
  // one namespace; and it scales it exactly when its scale target does.
  lemma BuiltConsumers(vs: seq<Value>, info: ScopeInfo, objs: seq<Object>, i: nat, j: nat)
    requires Built(vs, info) == Ok(objs) && WellFormed(objs) && i < |vs| && j < |vs| == |objs|
    ensures var kind, name := AsString(Get(vs[j], "kind")), AsString(Get2(vs[j], "metadata", "name"));
      && (objs[i].ref in ConsumersOfRef(objs, objs[j].ref) <==>
            objs[i].ref.namespace == objs[j].ref.namespace && NamedForUse(NamesIn(vs[i]), kind, name))
      && (objs[i].ref in ScalersOfRef(objs, objs[j].ref) <==>
            objs[i].ref.namespace == objs[j].ref.namespace && ScalesIn(vs[i])(kind, name))
  {
    BuiltObjectMeans(vs, info, objs, j);
    BuiltHolds(vs, info, objs, i, j);
    ConsumersOfHeld(objs, objs[i], objs[j], NamesIn(vs[i]), ScalesIn(vs[i]));
  }

  // The reference tree i writes to a kind and name, for this use.
  lemma WrittenReference(vs: seq<Value>, info: ScopeInfo, objs: seq<Object>, i: nat, use: RefKind, gvk: GVK, t: Ref)
    requires Built(vs, info) == Ok(objs) && i < |vs| == |objs| && gvk.kind == t.gvk.kind
    requires TreeWrites(vs[i], CrossRef(use, Ref(gvk, "", t.name, "")))
    ensures HoldsOne(objs[i], use, t)
  {
    var ns := objs[i].ref.namespace;
    var cr := CrossRef(use, Ref(gvk, ns, t.name, UidFor(NameIndex(vs, info).value, gvk.kind, ns, t.name)));
    IndexMeans(vs, info, gvk.kind, ns, t.name);
    BuiltReferences(vs, info, objs, i, cr);
  }

  lemma BuiltHolds(vs: seq<Value>, info: ScopeInfo, objs: seq<Object>, i: nat, j: nat)
    requires Built(vs, info) == Ok(objs) && WellFormed(objs) && i < |vs| && j < |vs| == |objs|
    ensures Holds(objs[i], objs[j].ref, NamesIn(vs[i]), ScalesIn(vs[i]))
  {
    var t, names, scales := objs[j].ref, NamesIn(vs[i]), ScalesIn(vs[i]);
    forall cr | cr in objs[i].crossRefs
      ensures Writes(names, scales, cr) && cr.ref.namespace == objs[i].ref.namespace
      ensures RefersTo(cr, t) <==> IsNamed(t, cr.ref.gvk.kind, cr.ref.namespace, cr.ref.name)
    {
      BuiltRefersTo(vs, info, objs, i, j, cr);
    }
    forall use | names(use, t.gvk.kind, t.name) ensures HoldsOne(objs[i], use, t) {
      WrittenReference(vs, info, objs, i, use, GVK("", "v1", t.gvk.kind), t);
    }
    if scales(t.gvk.kind, t.name) {
      WrittenReference(vs, info, objs, i, RefScaleTarget, GVK("", "", t.gvk.kind), t);
    }
    forall kind, name ensures !names(RefScaleTarget, kind, name) {
      NoScaleNames(vs[i], kind, name);
    }
  }

  lemma NoScaleNames(v: Value, kind: string, name: string)
    ensures !TreeNames(v, RefScaleTarget, kind, name)
  {
  }
}
