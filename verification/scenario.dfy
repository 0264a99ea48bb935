// The projection part of internal/scenario/scenario.go: from decoded manifests to the
// engine's objects, with synthetic uids.
module Scenario {
  import opened Prelude
  import opened Model
  import opened Cluster

  // A kind and a name, as an owner reference or a scale target gives them.
  datatype Named = Named(kind: string, name: string)

  // The raw selector message: a Service's flat map, or the wrapper every other kind has.
  datatype RawSelector =
    | Flat(pairs: map<string, string>)
    | Wrapped(matchLabels: Option<map<string, string>>, matchExpressions: seq<Requirement>)

  // A ConfigMap and a Secret reference, either of which may be absent.
  datatype Pair = Pair(configMap: Option<string>, secret: Option<string>)

  datatype Volume = Volume(
    configMap: Option<string>, secret: Option<string>, pvc: Option<string>,
    projected: Option<seq<Pair>>)

  // An env entry without valueFrom is None.
  datatype Container = Container(envFrom: seq<Pair>, env: seq<Option<Pair>>)

  datatype PodSpec = PodSpec(
    volumes: seq<Volume>, containers: seq<Container>, initContainers: seq<Container>,
    ephemeralContainers: seq<Container>, imagePullSecrets: seq<string>)

  datatype Spec = Spec(
    selector: Option<RawSelector>, podSelector: Option<RawSelector>,
    scaleTarget: Option<Named>, pod: PodSpec, template: Option<PodSpec>)

  datatype Manifest = Manifest(
    apiVersion: string, kind: string, name: string, namespace: string,
    labels: map<string, string>, finalizers: seq<string>, owners: seq<Named>, spec: Spec)

  const NO_SPEC := Spec(None, None, None, PodSpec([], [], [], [], []), None)

  datatype LoadError = MalformedSelector | InvalidOperator(operator: string, key: string)

  const CLUSTER_SCOPED_KINDS := {
    "Namespace", "Node", "PersistentVolume", "ClusterRole", "ClusterRoleBinding", "StorageClass",
    "PriorityClass", "CustomResourceDefinition", "IngressClass", "APIService",
    "ValidatingWebhookConfiguration", "MutatingWebhookConfiguration", "RuntimeClass"
  }

  function NsOf(kind: string, ns: string): string {
    if kind in CLUSTER_SCOPED_KINDS then "" else if ns == "" then "default" else ns
  }

  function UidOf(kind: string, ns: string, name: string): string {
    "uid:" + kind + "/" + ns + "/" + name
  }

  function ManifestNs(m: Manifest): string {
    NsOf(m.kind, m.namespace)
  }

  function ManifestRef(m: Manifest): Ref {
    Ref(GvkOf(m.apiVersion, m.kind), ManifestNs(m), m.name, UidOf(m.kind, ManifestNs(m), m.name))
  }

  // ----- selectors

  // The first requirement with an unknown operator fails the selector.
  function CheckOperators(reqs: seq<Requirement>): Option<LoadError> {
    if |reqs| == 0 then None
    else
      match CheckOperators(reqs[..|reqs| - 1])
      case Some(e) => Some(e)
      case None =>
        var r := reqs[|reqs| - 1];
        if ValidOperator(r.operator) then None else Some(InvalidOperator(r.operator, r.key))
  }

  // Unmarshalling a flat map as a wrapper ignores its keys, unless one is a wrapper field
  // of the wrong type.
  function WrapperOf(raw: RawSelector): Result<LabelSelector, LoadError> {
    match raw
    case Flat(pairs) =>
      if "matchLabels" in pairs || "matchExpressions" in pairs then Err(MalformedSelector)
      else Ok(LabelSelector(Some(map[]), []))
    case Wrapped(pairs, reqs) =>
      match CheckOperators(reqs)
      case Some(e) => Err(e)
      case None => Ok(Wrapper(pairs, reqs))
  }

  function WrappedFrom(raw: Option<RawSelector>): Result<LabelSelector, LoadError> {
    if raw.None? then Ok(NIL_SELECTOR) else WrapperOf(raw.value)
  }

  function FlatFrom(raw: Option<RawSelector>): Result<LabelSelector, LoadError> {
    match raw
    case None => Ok(NIL_SELECTOR)
    case Some(Flat(pairs)) => Ok(LabelSelector(Some(pairs), []))
    case Some(Wrapped(pairs, reqs)) =>
      if pairs.None? && reqs == [] then Ok(LabelSelector(Some(map[]), [])) else Err(MalformedSelector)
  }

  function SelectorFrom(m: Manifest): Result<LabelSelector, LoadError> {
    if m.kind == "Service" then FlatFrom(m.spec.selector)
    else if m.kind == "NetworkPolicy" then WrappedFrom(m.spec.podSelector)
    else WrappedFrom(m.spec.selector)
  }

  lemma {:induction false} CheckStops(reqs: seq<Requirement>, i: nat)
    requires i <= |reqs| && CheckOperators(reqs[..i]).Some?
    ensures CheckOperators(reqs) == CheckOperators(reqs[..i])
    decreases |reqs|
  {
    if i == |reqs| {
      assert reqs[..i] == reqs;
    } else {
      assert reqs[..|reqs| - 1][..i] == reqs[..i];
      CheckStops(reqs[..|reqs| - 1], i);
    }
  }

  method MatchLabels(raw: Option<RawSelector>) returns (r: Result<LabelSelector, LoadError>)
    ensures r == WrappedFrom(raw)
  {
    if raw.None? {
      return Ok(NIL_SELECTOR);
    }
    if raw.value.Flat? {
      return WrapperOf(raw.value);
    }
    var wrap := raw.value;
    var sel := LabelSelector(wrap.matchLabels, []);
    var reqs := wrap.matchExpressions;
    for i := 0 to |reqs|
      invariant CheckOperators(reqs[..i]).None?
      invariant sel == LabelSelector(wrap.matchLabels, reqs[..i])
    {
      assert reqs[..i + 1][..i] == reqs[..i];
      if !ValidOperator(reqs[i].operator) {
        CheckStops(reqs, i + 1);
        return Err(InvalidOperator(reqs[i].operator, reqs[i].key));
      }
      sel := sel.(matchExpressions := sel.matchExpressions + [reqs[i]]);
    }
    assert reqs[..|reqs|] == reqs;
    if wrap.matchLabels.None? && |sel.matchExpressions| == 0 {
      sel := sel.(matchLabels := Some(map[]));
    }
    return Ok(sel);
  }

  // ----- cross-references

  function One(name: Option<string>, kind: RefKind, gvk: GVK): seq<Mention> {
    if name.Some? then [Mention(kind, gvk, name.value)] else []
  }

  function PairUses(p: Pair, kind: RefKind): seq<Mention> {
    One(p.configMap, kind, CONFIG_MAP) + One(p.secret, kind, SECRET)
  }

  function SourceUses(p: Pair): seq<Mention> {
    PairUses(p, RefVolume)
  }

  function VolumeUses(v: Volume): seq<Mention> {
    if v.configMap.Some? then One(v.configMap, RefVolume, CONFIG_MAP)
    else if v.secret.Some? then One(v.secret, RefVolume, SECRET)
    else if v.pvc.Some? then One(v.pvc, RefVolume, PVC)
    else if v.projected.Some? then FlatMap(SourceUses, v.projected.value)
    else []
  }

  function EnvFromUses(p: Pair): seq<Mention> {
    PairUses(p, RefEnvFrom)
  }

  function EnvUses(e: Option<Pair>): seq<Mention> {
    if e.None? then [] else PairUses(e.value, RefEnv)
  }

  function ContainerUses(c: Container): seq<Mention> {
    FlatMap(EnvFromUses, c.envFrom) + FlatMap(EnvUses, c.env)
  }

  function PullUses(name: string): seq<Mention> {
    [Mention(RefImagePullSecret, SECRET, name)]
  }

  function PodUses(ps: PodSpec): seq<Mention> {
    FlatMap(VolumeUses, ps.volumes)
    + FlatMap(ContainerUses, ps.containers + ps.initContainers + ps.ephemeralContainers)
    + FlatMap(PullUses, ps.imagePullSecrets)
  }

  function TemplateUses(s: Spec): seq<Mention> {
    if s.template.None? then [] else PodUses(s.template.value)
  }

  function ScaleUses(s: Spec): seq<Mention> {
    if s.scaleTarget.None? then []
    else [Mention(RefScaleTarget, GVK("", "", s.scaleTarget.value.kind), s.scaleTarget.value.name)]
  }

  function SpecUses(s: Spec): seq<Mention> {
    PodUses(s.pod) + TemplateUses(s) + ScaleUses(s)
  }

  // The loader always synthesises the referent's uid, listed or not.
  function Synthesise(m: Mention, ns: string): CrossRef {
    CrossRef(m.kind, Ref(m.gvk, ns, m.name, UidOf(m.gvk.kind, ns, m.name)))
  }

  function SynthesiseAll(ms: seq<Mention>, ns: string): (refs: seq<CrossRef>)
    ensures |refs| == |ms| && forall i :: 0 <= i < |ms| ==> refs[i] == Synthesise(ms[i], ns)
  {
    if |ms| == 0 then [] else SynthesiseAll(ms[..|ms| - 1], ns) + [Synthesise(ms[|ms| - 1], ns)]
  }

  lemma SynthesiseAppend(ms: seq<Mention>, ns: seq<Mention>, space: string)
    ensures SynthesiseAll(ms + ns, space) == SynthesiseAll(ms, space) + SynthesiseAll(ns, space)
  {
  }

  method PairRefs(p: Pair, kind: RefKind, ns: string) returns (out: seq<CrossRef>)
    ensures out == SynthesiseAll(PairUses(p, kind), ns)
  {
    out := [];
    if p.configMap.Some? {
      out := out + [Synthesise(Mention(kind, CONFIG_MAP, p.configMap.value), ns)];
    }
    if p.secret.Some? {
      out := out + [Synthesise(Mention(kind, SECRET, p.secret.value), ns)];
    }
  }

  method SourceRefs(srcs: seq<Pair>, ns: string) returns (out: seq<CrossRef>)
    ensures out == SynthesiseAll(FlatMap(SourceUses, srcs), ns)
  {
    out := [];
    for i := 0 to |srcs|
      invariant out == SynthesiseAll(FlatMap(SourceUses, srcs[..i]), ns)
    {
      FlatMapStep(SourceUses, srcs, i);
      var refs := PairRefs(srcs[i], RefVolume, ns);
      SynthesiseAppend(FlatMap(SourceUses, srcs[..i]), SourceUses(srcs[i]), ns);
      out := out + refs;
    }
    assert srcs[..|srcs|] == srcs;
  }

  method VolumeRefs(vols: seq<Volume>, ns: string) returns (out: seq<CrossRef>)
    ensures out == SynthesiseAll(FlatMap(VolumeUses, vols), ns)
  {
    out := [];
    for i := 0 to |vols|
      invariant out == SynthesiseAll(FlatMap(VolumeUses, vols[..i]), ns)
    {
      FlatMapStep(VolumeUses, vols, i);
      var v := vols[i];
      var refs: seq<CrossRef> := [];
      if v.configMap.Some? {
        refs := [Synthesise(Mention(RefVolume, CONFIG_MAP, v.configMap.value), ns)];
      } else if v.secret.Some? {
        refs := [Synthesise(Mention(RefVolume, SECRET, v.secret.value), ns)];
      } else if v.pvc.Some? {
        refs := [Synthesise(Mention(RefVolume, PVC, v.pvc.value), ns)];
      } else if v.projected.Some? {
        refs := SourceRefs(v.projected.value, ns);
      }
      SynthesiseAppend(FlatMap(VolumeUses, vols[..i]), VolumeUses(v), ns);
      out := out + refs;
    }
    assert vols[..|vols|] == vols;
  }

  method EnvFromRefs(es: seq<Pair>, ns: string) returns (out: seq<CrossRef>)
    ensures out == SynthesiseAll(FlatMap(EnvFromUses, es), ns)
  {
    out := [];
    for i := 0 to |es|
      invariant out == SynthesiseAll(FlatMap(EnvFromUses, es[..i]), ns)
    {
      FlatMapStep(EnvFromUses, es, i);
      var refs := PairRefs(es[i], RefEnvFrom, ns);
      SynthesiseAppend(FlatMap(EnvFromUses, es[..i]), EnvFromUses(es[i]), ns);
      out := out + refs;
    }
    assert es[..|es|] == es;
  }

  method EnvRefs(es: seq<Option<Pair>>, ns: string) returns (out: seq<CrossRef>)
    ensures out == SynthesiseAll(FlatMap(EnvUses, es), ns)
  {
    out := [];
    for i := 0 to |es|
      invariant out == SynthesiseAll(FlatMap(EnvUses, es[..i]), ns)
    {
      FlatMapStep(EnvUses, es, i);
      if es[i].None? {
        continue;
      }
      var refs := PairRefs(es[i].value, RefEnv, ns);
      SynthesiseAppend(FlatMap(EnvUses, es[..i]), EnvUses(es[i]), ns);
      out := out + refs;
    }
    assert es[..|es|] == es;
  }

  method ContainerRefs(cs: seq<Container>, ns: string) returns (out: seq<CrossRef>)
    ensures out == SynthesiseAll(FlatMap(ContainerUses, cs), ns)
  {
    out := [];
    for i := 0 to |cs|
      invariant out == SynthesiseAll(FlatMap(ContainerUses, cs[..i]), ns)
    {
      FlatMapStep(ContainerUses, cs, i);
      var froms := EnvFromRefs(cs[i].envFrom, ns);
      var envs := EnvRefs(cs[i].env, ns);
      SynthesiseAppend(FlatMap(EnvFromUses, cs[i].envFrom), FlatMap(EnvUses, cs[i].env), ns);
      SynthesiseAppend(FlatMap(ContainerUses, cs[..i]), ContainerUses(cs[i]), ns);
      out := out + (froms + envs);
    }
    assert cs[..|cs|] == cs;
  }

  method PullRefs(names: seq<string>, ns: string) returns (out: seq<CrossRef>)
    ensures out == SynthesiseAll(FlatMap(PullUses, names), ns)
  {
    out := [];
    for i := 0 to |names|
      invariant out == SynthesiseAll(FlatMap(PullUses, names[..i]), ns)
    {
      FlatMapStep(PullUses, names, i);
      SynthesiseAppend(FlatMap(PullUses, names[..i]), PullUses(names[i]), ns);
      out := out + [Synthesise(Mention(RefImagePullSecret, SECRET, names[i]), ns)];
    }
    assert names[..|names|] == names;
  }

  method PodSpecRefs(ps: PodSpec, ns: string) returns (out: seq<CrossRef>)
    ensures out == SynthesiseAll(PodUses(ps), ns)
  {
    out := VolumeRefs(ps.volumes, ns);
    var cs := ps.containers + ps.initContainers + ps.ephemeralContainers;
    var consumed := ContainerRefs(cs, ns);
    var pulls := PullRefs(ps.imagePullSecrets, ns);
    out := out + consumed + pulls;
    SynthesiseAppend(FlatMap(VolumeUses, ps.volumes), FlatMap(ContainerUses, cs), ns);
    SynthesiseAppend(FlatMap(VolumeUses, ps.volumes) + FlatMap(ContainerUses, cs),
                     FlatMap(PullUses, ps.imagePullSecrets), ns);
  }

  method CrossRefsFrom(s: Spec, ns: string) returns (out: seq<CrossRef>)
    ensures out == SynthesiseAll(SpecUses(s), ns)
  {
    out := PodSpecRefs(s.pod, ns);
    var more: seq<CrossRef> := [];
    if s.template.Some? {
      more := PodSpecRefs(s.template.value, ns);
    }
    SynthesiseAppend(PodUses(s.pod), TemplateUses(s), ns);
    out := out + more;
    more := [];
    if s.scaleTarget.Some? {
      var t := s.scaleTarget.value;
      more := [Synthesise(Mention(RefScaleTarget, GVK("", "", t.kind), t.name), ns)];
    }
    SynthesiseAppend(PodUses(s.pod) + TemplateUses(s), ScaleUses(s), ns);
    out := out + more;
  }

  // ----- objects

  function ManifestOwners(owners: seq<Named>, ns: string): (out: seq<OwnerRef>)
    ensures |out| == |owners|
    ensures forall i :: 0 <= i < |owners| ==>
      out[i] == OwnerRef(owners[i].kind, owners[i].name, UidOf(owners[i].kind, ns, owners[i].name))
  {
    seq(|owners|, i requires 0 <= i < |owners| =>
      OwnerRef(owners[i].kind, owners[i].name, UidOf(owners[i].kind, ns, owners[i].name)))
  }

  function LoadOne(m: Manifest): Result<Object, LoadError> {
    match SelectorFrom(m)
    case Err(e) => Err(e)
    case Ok(sel) =>
      Ok(Object(ManifestRef(m), m.labels, sel, ManifestOwners(m.owners, ManifestNs(m)),
                SynthesiseAll(SpecUses(m.spec), ManifestNs(m)), m.finalizers))
  }

  // Every manifest's object, in order; a kindless manifest is skipped, and the first
  // failing one fails the whole.
  function Loaded(ms: seq<Manifest>): Result<seq<Object>, LoadError> {
    if |ms| == 0 then Ok([])
    else
      var objs, m := Loaded(ms[..|ms| - 1]), ms[|ms| - 1];
      if m.kind == "" then objs else Collect(objs, LoadOne(m))
  }

  lemma {:induction false} LoadStops(ms: seq<Manifest>, i: nat)
    requires i <= |ms| && Loaded(ms[..i]).Err?
    ensures Loaded(ms) == Loaded(ms[..i])
    decreases |ms|
  {
    if i == |ms| {
      assert ms[..i] == ms;
    } else {
      assert ms[..|ms| - 1][..i] == ms[..i];
      LoadStops(ms[..|ms| - 1], i);
    }
  }

  method ParseCluster(ms: seq<Manifest>) returns (r: Result<seq<Object>, LoadError>)
    ensures r == Loaded(ms)
  {
    var objs: seq<Object> := [];
    for i := 0 to |ms|
      invariant Loaded(ms[..i]) == Ok(objs)
    {
      assert ms[..i + 1][..i] == ms[..i];
      var m := ms[i];
      if m.kind == "" {
        continue;
      }
      var o := ParseOne(m);
      if o.Err? {
        LoadStops(ms, i + 1);
        return Err(o.error);
      }
      objs := objs + [o.value];
    }
    assert ms[..|ms|] == ms;
    return Ok(objs);
  }

  method ParseOne(m: Manifest) returns (r: Result<Object, LoadError>)
    ensures r == LoadOne(m)
  {
    var ns := ManifestNs(m);
    var owners: seq<OwnerRef> := [];
    for i := 0 to |m.owners|
      invariant owners == ManifestOwners(m.owners, ns)[..i]
    {
      owners := owners + [OwnerRef(m.owners[i].kind, m.owners[i].name, UidOf(m.owners[i].kind, ns, m.owners[i].name))];
    }
    assert owners == ManifestOwners(m.owners, ns);
    var sel: Result<LabelSelector, LoadError>;
    if m.kind == "Service" {
      sel := FlatFrom(m.spec.selector);
    } else if m.kind == "NetworkPolicy" {
      sel := MatchLabels(m.spec.podSelector);
    } else {
      sel := MatchLabels(m.spec.selector);
    }
    if sel.Err? {
      return Err(sel.error);
    }
    var crossRefs := CrossRefsFrom(m.spec, ns);
    return Ok(Object(ManifestRef(m), m.labels, sel.value, owners, crossRefs, m.finalizers));
  }
}
