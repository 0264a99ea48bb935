// Every well-typed manifest has a tree that represents it, so parity is never vacuous.
module Encoding {
  import opened Prelude
  import opened Model
  import opened Trees
  import opened Cluster
  import opened Scenario
  import opened Parity
  import opened Verdicts
  import opened TwinTheory

  // A Service's selector is flat and every other selector is a wrapper.
  predicate WellTyped(m: Manifest) {
    if m.kind == "Service" then m.spec.selector.None? || m.spec.selector.value.Flat?
    else if m.kind == "NetworkPolicy" then m.spec.podSelector.None? || m.spec.podSelector.value.Wrapped?
    else m.spec.selector.None? || m.spec.selector.value.Wrapped?
  }

  function With(fields: map<string, Value>, k: string, o: Option<Value>): map<string, Value> {
    if o.Some? then fields[k := o.value] else fields
  }

  function MapOption<A, B>(f: A -> B, o: Option<A>): Option<B> {
    if o.Some? then Some(f(o.value)) else None
  }

  function EncodeList<T>(f: T -> Value, xs: seq<T>): Value {
    Arr(seq(|xs|, i requires 0 <= i < |xs| => f(xs[i])))
  }

  function EncodeStrings(ss: seq<string>): Value {
    EncodeList((s: string) => Str(s), ss)
  }

  function EncodeMap(m: map<string, string>): Value {
    Obj(map k | k in m :: Str(m[k]))
  }

  function EncodeNamed(field: string): string -> Value {
    (name: string) => Obj(map[field := Str(name)])
  }

  function EncodePair(configMap: string, secret: string): Pair -> Value {
    (p: Pair) => Obj(With(With(map[], configMap, MapOption(EncodeNamed("name"), p.configMap)),
                          secret, MapOption(EncodeNamed("name"), p.secret)))
  }

  function EncodeSources(ps: seq<Pair>): Value {
    Obj(map["sources" := EncodeList(EncodePair("configMap", "secret"), ps)])
  }

  function EncodeVolume(v: Volume): Value {
    Obj(With(With(With(With(map[],
      "configMap", MapOption(EncodeNamed("name"), v.configMap)),
      "secret", MapOption(EncodeNamed("secretName"), v.secret)),
      "persistentVolumeClaim", MapOption(EncodeNamed("claimName"), v.pvc)),
      "projected", MapOption(EncodeSources, v.projected)))
  }

  function EncodeEnv(e: Option<Pair>): Value {
    Obj(With(map[], "valueFrom", MapOption(EncodePair("configMapKeyRef", "secretKeyRef"), e)))
  }

  function EncodeContainer(c: Container): Value {
    Obj(map["envFrom" := EncodeList(EncodePair("configMapRef", "secretRef"), c.envFrom),
            "env" := EncodeList(EncodeEnv, c.env)])
  }

  function PodFields(ps: PodSpec): map<string, Value> {
    map["volumes" := EncodeList(EncodeVolume, ps.volumes),
        "containers" := EncodeList(EncodeContainer, ps.containers),
        "initContainers" := EncodeList(EncodeContainer, ps.initContainers),
        "ephemeralContainers" := EncodeList(EncodeContainer, ps.ephemeralContainers),
        "imagePullSecrets" := EncodeList(EncodeNamed("name"), ps.imagePullSecrets)]
  }

  function EncodeTemplate(ps: PodSpec): Value {
    Obj(map["spec" := Obj(PodFields(ps))])
  }

  function EncodeTarget(t: Named): Value {
    Obj(map["kind" := Str(t.kind), "name" := Str(t.name)])
  }

  function EncodeRequirement(r: Requirement): Value {
    Obj(map["key" := Str(r.key), "operator" := Str(r.operator), "values" := EncodeStrings(r.values)])
  }

  function EncodeSelector(raw: RawSelector): Value {
    match raw
    case Flat(pairs) => EncodeMap(pairs)
    case Wrapped(pairs, reqs) =>
      Obj(With(map["matchExpressions" := EncodeList(EncodeRequirement, reqs)],
               "matchLabels", MapOption(EncodeMap, pairs)))
  }

  function EncodeSpec(s: Spec): Value {
    Obj(With(With(With(With(PodFields(s.pod),
      "template", MapOption(EncodeTemplate, s.template)),
      "scaleTargetRef", MapOption(EncodeTarget, s.scaleTarget)),
      "selector", MapOption(EncodeSelector, s.selector)),
      "podSelector", MapOption(EncodeSelector, s.podSelector)))
  }

  function EncodeOwner(ns: string): Named -> Value {
    (o: Named) => Obj(map["kind" := Str(o.kind), "name" := Str(o.name), "uid" := Str(UidOf(o.kind, ns, o.name))])
  }

  function EncodeMetadata(m: Manifest): Value {
    Obj(map["name" := Str(m.name), "namespace" := Str(m.namespace),
            "uid" := Str(UidOf(m.kind, ManifestNs(m), m.name)),
            "labels" := EncodeMap(m.labels), "finalizers" := EncodeStrings(m.finalizers),
            "ownerReferences" := EncodeList(EncodeOwner(ManifestNs(m)), m.owners)])
  }

  function Encode(m: Manifest): Value {
    Obj(map["apiVersion" := Str(m.apiVersion), "kind" := Str(m.kind),
            "metadata" := EncodeMetadata(m), "spec" := EncodeSpec(m.spec)])
  }

  // Field names of one length that one map holds.
  lemma FieldNamesDiffer()
    ensures "kind" != "spec" && "kind" != "name" && "configMap" != "projected"
    ensures "selector" != "template" && "scaleTargetRef" != "initContainers"
  {
    assert "kind"[0] != "spec"[0] && "kind"[0] != "name"[0] && "configMap"[0] != "projected"[0];
    assert "selector"[0] != "template"[0] && "scaleTargetRef"[0] != "initContainers"[0];
  }

  lemma MapReadsBack(m: map<string, string>)
    ensures AsStringMap(Some(EncodeMap(m))) == Some(m)
  {
    assert AsStringMap(Some(EncodeMap(m))).value == m;
  }

  lemma StringsReadBack(ss: seq<string>)
    ensures AsStringSlice(Some(EncodeStrings(ss))) == Some(ss)
  {
    assert AsStringSlice(Some(EncodeStrings(ss))).value == ss;
  }

  lemma PairReadsBack(configMap: string, secret: string, p: Pair)
    requires configMap != secret
    ensures RepPair(EncodePair(configMap, secret)(p), configMap, secret, p)
  {
  }

  lemma VolumeFields(v: Volume)
    ensures Get(EncodeVolume(v), "configMap") == MapOption(EncodeNamed("name"), v.configMap)
    ensures Get(EncodeVolume(v), "secret") == MapOption(EncodeNamed("secretName"), v.secret)
    ensures Get(EncodeVolume(v), "persistentVolumeClaim") == MapOption(EncodeNamed("claimName"), v.pvc)
    ensures Get(EncodeVolume(v), "projected") == MapOption(EncodeSources, v.projected)
  {
    FieldNamesDiffer();
  }

  lemma SourcesReadBack(ps: seq<Pair>)
    ensures RepPairs(Items(Get(EncodeSources(ps), "sources")), "configMap", "secret", ps)
  {
    forall i | 0 <= i < |ps| {
      PairReadsBack("configMap", "secret", ps[i]);
    }
  }

  lemma VolumeReadsBack(v: Volume)
    ensures RepVolume(EncodeVolume(v), v)
  {
    VolumeFields(v);
    if v.projected.Some? {
      SourcesReadBack(v.projected.value);
    }
  }

  lemma ContainerReadsBack(c: Container)
    ensures RepContainer(EncodeContainer(c), c)
  {
    forall i | 0 <= i < |c.envFrom| {
      PairReadsBack("configMapRef", "secretRef", c.envFrom[i]);
    }
    forall i | 0 <= i < |c.env| ensures RepEnv(EncodeEnv(c.env[i]), c.env[i]) {
      if c.env[i].Some? {
        PairReadsBack("configMapKeyRef", "secretKeyRef", c.env[i].value);
      }
    }
  }

  lemma ContainersReadBack(cs: seq<Container>)
    ensures RepContainers(EncodeList(EncodeContainer, cs).items, cs)
  {
    forall i | 0 <= i < |cs| {
      ContainerReadsBack(cs[i]);
    }
  }

  // The tree holds the encoded pod fields, whatever else it holds.
  ghost predicate HoldsPod(v: Value, ps: PodSpec) {
    && Get(v, "volumes") == Some(EncodeList(EncodeVolume, ps.volumes))
    && Get(v, "containers") == Some(EncodeList(EncodeContainer, ps.containers))
    && Get(v, "initContainers") == Some(EncodeList(EncodeContainer, ps.initContainers))
    && Get(v, "ephemeralContainers") == Some(EncodeList(EncodeContainer, ps.ephemeralContainers))
    && Get(v, "imagePullSecrets") == Some(EncodeList(EncodeNamed("name"), ps.imagePullSecrets))
  }

  lemma PodFieldsHold(ps: PodSpec)
    ensures HoldsPod(Obj(PodFields(ps)), ps)
  {
  }

  lemma PodReadsBack(v: Value, ps: PodSpec)
    requires HoldsPod(v, ps)
    ensures RepPod(v, ps)
  {
    forall i | 0 <= i < |ps.volumes| {
      VolumeReadsBack(ps.volumes[i]);
    }
    ContainersReadBack(ps.containers);
    ContainersReadBack(ps.initContainers);
    ContainersReadBack(ps.ephemeralContainers);
  }

  // The fields EncodeSpec adds to the pod fields are none of them.
  lemma SpecFieldsHold(s: Spec)
    ensures HoldsPod(EncodeSpec(s), s.pod)
    ensures Get(EncodeSpec(s), "template") == MapOption(EncodeTemplate, s.template)
    ensures Get(EncodeSpec(s), "scaleTargetRef") == MapOption(EncodeTarget, s.scaleTarget)
    ensures Get(EncodeSpec(s), "selector") == MapOption(EncodeSelector, s.selector)
    ensures Get(EncodeSpec(s), "podSelector") == MapOption(EncodeSelector, s.podSelector)
  {
    PodFieldsHold(s.pod);
    NewFieldKept(PodFields(s.pod), "template", MapOption(EncodeTemplate, s.template), s.pod);
    var f1 := With(PodFields(s.pod), "template", MapOption(EncodeTemplate, s.template));
    NewFieldKept(f1, "scaleTargetRef", MapOption(EncodeTarget, s.scaleTarget), s.pod);
    var f2 := With(f1, "scaleTargetRef", MapOption(EncodeTarget, s.scaleTarget));
    NewFieldKept(f2, "selector", MapOption(EncodeSelector, s.selector), s.pod);
    var f3 := With(f2, "selector", MapOption(EncodeSelector, s.selector));
    NewFieldKept(f3, "podSelector", MapOption(EncodeSelector, s.podSelector), s.pod);
  }

  const SPEC_FIELDS := {"template", "scaleTargetRef", "selector", "podSelector"}

  lemma NewFieldKept(fields: map<string, Value>, k: string, o: Option<Value>, ps: PodSpec)
    requires HoldsPod(Obj(fields), ps) && k in SPEC_FIELDS && k !in fields
    ensures HoldsPod(Obj(With(fields, k, o)), ps)
    ensures Get(Obj(With(fields, k, o)), k) == o
    ensures forall l :: l != k ==> Get(Obj(With(fields, k, o)), l) == Get(Obj(fields), l)
  {
    FieldNamesDiffer();
  }

  lemma SpecReadsBack(s: Spec)
    ensures RepSpec(EncodeSpec(s), s)
  {
    SpecFieldsHold(s);
    PodReadsBack(EncodeSpec(s), s.pod);
    if s.template.Some? {
      TemplateReadsBack(s.template.value);
    }
    if s.scaleTarget.Some? {
      TargetReadsBack(s.scaleTarget.value);
    }
  }

  lemma TemplateReadsBack(ps: PodSpec)
    ensures AsMap(Get(EncodeTemplate(ps), "spec")).Some? && RepPod(Get(EncodeTemplate(ps), "spec").value, ps)
  {
    PodFieldsHold(ps);
    PodReadsBack(Obj(PodFields(ps)), ps);
  }

  lemma TargetReadsBack(t: Named)
    ensures Named(AsString(Get(EncodeTarget(t), "kind")), AsString(Get(EncodeTarget(t), "name"))) == t
  {
    FieldNamesDiffer();
  }

  lemma RequirementReadsBack(r: Requirement)
    ensures RepRequirement(EncodeRequirement(r), r)
  {
    StringsReadBack(r.values);
  }

  lemma SelectorReadsBack(raw: RawSelector)
    ensures raw.Flat? ==> RepFlat(Some(EncodeSelector(raw)), Some(raw))
    ensures raw.Wrapped? ==> RepWrapped(Some(EncodeSelector(raw)), Some(raw))
  {
    match raw
    case Flat(pairs) =>
      MapReadsBack(pairs);
    case Wrapped(pairs, reqs) =>
      if pairs.Some? {
        MapReadsBack(pairs.value);
      }
      var items := EncodeList(EncodeRequirement, reqs).items;
      forall i | 0 <= i < |reqs| ensures RepRequirement(items[i], reqs[i]) {
        RequirementReadsBack(reqs[i]);
      }
  }

  lemma MetadataReadsBack(m: Manifest)
    ensures var d := EncodeMetadata(m);
      && AsString(Get(d, "name")) == m.name && AsString(Get(d, "namespace")) == m.namespace
      && AsString(Get(d, "uid")) == UidOf(m.kind, ManifestNs(m), m.name)
      && AsStringMap(Get(d, "labels")) == Some(m.labels)
      && AsStringSlice(Get(d, "finalizers")) == Some(m.finalizers)
      && RepOwners(Items(Get(d, "ownerReferences")), m.owners, ManifestNs(m))
  {
    FieldNamesDiffer();
    MapReadsBack(m.labels);
    StringsReadBack(m.finalizers);
    OwnersReadBack(m.owners, ManifestNs(m));
  }

  lemma OwnersReadBack(owners: seq<Named>, ns: string)
    ensures RepOwners(EncodeList(EncodeOwner(ns), owners).items, owners, ns)
  {
    FieldNamesDiffer();
  }

  lemma EncodedFields(m: Manifest)
    ensures Get(Encode(m), "apiVersion") == Some(Str(m.apiVersion))
    ensures Get(Encode(m), "kind") == Some(Str(m.kind))
    ensures Get(Encode(m), "metadata") == Some(EncodeMetadata(m))
    ensures Get(Encode(m), "spec") == Some(EncodeSpec(m.spec))
  {
    FieldNamesDiffer();
  }

  lemma EncodedSelector(m: Manifest)
    requires WellTyped(m)
    ensures RepSelector(Encode(m), m)
  {
    EncodedFields(m);
    SpecFieldsHold(m.spec);
    if m.spec.selector.Some? {
      SelectorReadsBack(m.spec.selector.value);
    }
    if m.spec.podSelector.Some? {
      SelectorReadsBack(m.spec.podSelector.value);
    }
  }

  // The encoding of a well-typed manifest represents it.
  lemma EncodeRepresents(m: Manifest)
    requires WellTyped(m)
    ensures Represents(Encode(m), m)
  {
    EncodedFields(m);
    MetadataReadsBack(m);
    SpecReadsBack(m.spec);
    EncodedSelector(m);
  }

  // A Service that carries a wrapper is well-typed for neither: the loader rejects it, the
  // builder reads its tree as the present empty selector.
  lemma WrappedServiceDiverges(m: Manifest)
    requires m.kind == "Service" && m.spec.selector.Some? && m.spec.selector.value.Wrapped?
    requires m.spec.selector.value.matchLabels.Some? || m.spec.selector.value.matchExpressions != []
    ensures SelectorFrom(m) == Err(MalformedSelector)
    ensures TreeSelector(Encode(m)) == Ok(LabelSelector(Some(map[]), []))
  {
    EncodedFields(m);
    SpecFieldsHold(m.spec);
    var fields := EncodeSelector(m.spec.selector.value).fields;
    assert "matchExpressions" in fields && fields["matchExpressions"].Arr?;
  }

  function EncodeAll(ms: seq<Manifest>): (vs: seq<Value>)
    ensures |vs| == |ms| && forall i :: 0 <= i < |ms| ==> vs[i] == Encode(ms[i])
  {
    seq(|ms|, i requires 0 <= i < |ms| => Encode(ms[i]))
  }

  // A manifest both readers accept: kind and name present, selector of its kind's form,
  // slash-free identity, scope known alike to both.
  ghost predicate Admissible(m: Manifest, info: ScopeInfo) {
    m.kind != "" && m.name != "" && WellTyped(m) && SlashFree(ManifestRef(m)) && ScopeAgrees(info, m)
  }

  // For every list of admissible manifests, building their encodings and loading them
  // fail together or yield inventories that decide every action alike.
  lemma EncodedManifestsDecideAlike(ms: seq<Manifest>, info: ScopeInfo, glob: Glob, a: Action,
                                    scope: seq<ScopeClause>, d: Decision)
    requires forall m :: m in ms ==> Admissible(m, info)
    ensures var b := Built(EncodeAll(ms), info);
      && (b.Ok? <==> Loaded(ms).Ok?)
      && (b.Ok? ==> TwinInventories(Refs(ms), b, Loaded(ms)))
      && (b.Ok? ==> (SafeDecision(b.value, glob, a, scope, d) <==> SafeDecision(Loaded(ms).value, glob, a, scope, d)))
  {
    EncodedArePaired(ms, info);
    BuildMatchesLoad(EncodeAll(ms), ms, info);
    PipelinesAgree(EncodeAll(ms), ms, info, glob, a, scope, d);
  }

  lemma EncodedArePaired(ms: seq<Manifest>, info: ScopeInfo)
    requires forall m :: m in ms ==> Admissible(m, info)
    ensures Paired(EncodeAll(ms), ms, info)
  {
    var vs := EncodeAll(ms);
    forall i | 0 <= i < |ms|
      ensures Represents(vs[i], ms[i]) && ms[i].kind != "" && ms[i].name != "" && ScopeAgrees(info, ms[i])
    {
      assert ms[i] in ms;
      EncodeRepresents(ms[i]);
    }
  }
}
