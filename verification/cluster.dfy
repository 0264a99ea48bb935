// internal/cluster: building the engine's objects from untyped trees.
module Cluster {
  import opened Prelude
  import opened Model
  import opened Trees

  // Whether a kind is namespaced; None when its scope is unknown.
  type ScopeInfo = GVK -> Option<bool>

  datatype HumanKey = HumanKey(kind: string, namespace: string, name: string)

  type Index = map<HumanKey, string>

  function UidFor(ix: Index, kind: string, namespace: string, name: string): string {
    var k := HumanKey(kind, namespace, name);
    if k in ix then ix[k] else ""
  }

  datatype BuildError = MissingKind | MissingName(kind: string) | BadOperator(operator: string, key: string)

  // ----- identity

  // strings.SplitN(s, "/", 2): the text before and after the first slash.
  function FirstSlash(s: string): nat {
    if |s| == 0 || s[0] == '/' then 0 else 1 + FirstSlash(s[1..])
  }

  function GvkOf(apiVersion: string, kind: string): GVK {
    var i := FirstSlash(apiVersion);
    if i < |apiVersion| then GVK(apiVersion[..i], apiVersion[i + 1..], kind)
    else GVK("", apiVersion, kind)
  }

  // A group before the first slash comes back, and a bare version means the core group.
  lemma GvkSplits(group: string, version: string, kind: string)
    requires '/' !in group
    ensures GvkOf(group + "/" + version, kind) == GVK(group, version, kind)
    ensures GvkOf(group, kind) == GVK("", group, kind)
  {
    var s := group + "/" + version;
    assert s == group + ("/" + version) && group == group + "";
    SlashAt(group, "/" + version);
    SlashAt(group, "");
    assert s[..|group|] == group && s[|group| + 1..] == version;
  }

  lemma {:induction false} SlashAt(s: string, rest: string)
    requires '/' !in s && (rest == "" || rest[0] == '/')
    ensures FirstSlash(s + rest) == |s|
  {
    if |s| > 0 {
      assert (s + rest)[1..] == s[1..] + rest;
      SlashAt(s[1..], rest);
    } else {
      assert s + rest == rest;
    }
  }

  function KindOf(v: Value): string {
    AsString(Get(v, "kind"))
  }

  function NameOf(v: Value): string {
    AsString(Get2(v, "metadata", "name"))
  }

  function TreeGvk(v: Value): GVK {
    GvkOf(AsString(Get(v, "apiVersion")), KindOf(v))
  }

  function NameError(v: Value): Option<BuildError> {
    if KindOf(v) == "" then Some(MissingKind)
    else if NameOf(v) == "" then Some(MissingName(KindOf(v)))
    else None
  }

  function ResolveNamespace(v: Value, scope: ScopeInfo): string {
    if scope(TreeGvk(v)) == Some(false) then ""
    else
      var ns := AsString(Get2(v, "metadata", "namespace"));
      if ns == "" then "default" else ns
  }

  function TreeRef(v: Value, scope: ScopeInfo): Ref {
    Ref(TreeGvk(v), ResolveNamespace(v, scope), NameOf(v), AsString(Get2(v, "metadata", "uid")))
  }

  // ----- the name index

  function IndexEntry(ix: Index, r: Ref): Index {
    if r.uid != "" then ix[HumanKey(r.gvk.kind, r.namespace, r.name) := r.uid] else ix
  }

  // The uid of the last listed object with each name; the first nameless object fails it.
  function NameIndex(vs: seq<Value>, scope: ScopeInfo): Result<Index, BuildError> {
    if |vs| == 0 then Ok(map[])
    else
      var v := vs[|vs| - 1];
      match NameIndex(vs[..|vs| - 1], scope)
      case Err(e) => Err(e)
      case Ok(ix) =>
        match NameError(v)
        case Some(e) => Err(e)
        case None => Ok(IndexEntry(ix, TreeRef(v, scope)))
  }

  method NewNameUidIndex(vs: seq<Value>, scope: ScopeInfo) returns (r: Result<Index, BuildError>)
    ensures r == NameIndex(vs, scope)
  {
    var ix: Index := map[];
    for i := 0 to |vs|
      invariant NameIndex(vs[..i], scope) == Ok(ix)
    {
      assert vs[..i + 1][..i] == vs[..i];
      var bad := NameError(vs[i]);
      if bad.Some? {
        NameIndexStops(vs, scope, i + 1);
        return Err(bad.value);
      }
      ix := IndexEntry(ix, TreeRef(vs[i], scope));
    }
    assert vs[..|vs|] == vs;
    return Ok(ix);
  }

  lemma {:induction false} NameIndexStops(vs: seq<Value>, scope: ScopeInfo, i: nat)
    requires i <= |vs| && NameIndex(vs[..i], scope).Err?
    ensures NameIndex(vs, scope) == NameIndex(vs[..i], scope)
    decreases |vs|
  {
    if i == |vs| {
      assert vs[..i] == vs;
    } else {
      assert vs[..|vs| - 1][..i] == vs[..i];
      NameIndexStops(vs[..|vs| - 1], scope, i);
    }
  }

  // ----- selectors

  // The requirements of a matchExpressions list: non-maps are skipped, an unknown
  // operator fails the whole selector.
  function Requirements(items: seq<Value>): Result<seq<Requirement>, BuildError> {
    if |items| == 0 then Ok([])
    else
      match Requirements(items[..|items| - 1])
      case Err(e) => Err(e)
      case Ok(reqs) => AddRequirement(reqs, items[|items| - 1])
  }

  function AddRequirement(reqs: seq<Requirement>, m: Value): Result<seq<Requirement>, BuildError> {
    if !m.Obj? then Ok(reqs)
    else
      var op, key := AsString(Get(m, "operator")), AsString(Get(m, "key"));
      if !ValidOperator(op) then Err(BadOperator(op, key))
      else
        var values := AsStringSlice(Get(m, "values"));
        Ok(reqs + [Requirement(key, op, if values.Some? then values.value else [])])
  }

  // A present wrapper with neither pairs nor requirements is the present empty selector.
  function Wrapper(pairs: Option<map<string, string>>, reqs: seq<Requirement>): LabelSelector {
    LabelSelector(if pairs.None? && |reqs| == 0 then Some(map[]) else pairs, reqs)
  }

  function WrappedSelector(o: Option<Value>): Result<LabelSelector, BuildError> {
    if AsMap(o).None? then Ok(NIL_SELECTOR)
    else
      match Requirements(Items(Get(o.value, "matchExpressions")))
      case Err(e) => Err(e)
      case Ok(reqs) => Ok(Wrapper(AsStringMap(Get(o.value, "matchLabels")), reqs))
  }

  // A Service's selector is a flat map; garbage in it reads as the present empty one.
  function FlatSelector(o: Option<Value>): LabelSelector {
    if AsMap(o).None? then NIL_SELECTOR
    else LabelSelector(Some(if AsStringMap(o).Some? then AsStringMap(o).value else map[]), [])
  }

  function TreeSelector(v: Value): Result<LabelSelector, BuildError> {
    if KindOf(v) == "Service" then Ok(FlatSelector(Get2(v, "spec", "selector")))
    else if KindOf(v) == "NetworkPolicy" then WrappedSelector(Get2(v, "spec", "podSelector"))
    else WrappedSelector(Get2(v, "spec", "selector"))
  }

  lemma {:induction false} RequirementsStop(items: seq<Value>, i: nat)
    requires i <= |items| && Requirements(items[..i]).Err?
    ensures Requirements(items) == Requirements(items[..i])
    decreases |items|
  {
    if i == |items| {
      assert items[..i] == items;
    } else {
      assert items[..|items| - 1][..i] == items[..i];
      RequirementsStop(items[..|items| - 1], i);
    }
  }

  method MatchLabelsFrom(o: Option<Value>) returns (r: Result<LabelSelector, BuildError>)
    ensures r == WrappedSelector(o)
  {
    if AsMap(o).None? {
      return Ok(NIL_SELECTOR);
    }
    var sel := NIL_SELECTOR;
    var pairs := NestedStringMap(Get(o.value, "matchLabels"));
    if pairs.Some? {
      sel := sel.(matchLabels := pairs);
    }
    var exprs := Items(Get(o.value, "matchExpressions"));
    for i := 0 to |exprs|
      invariant sel.matchLabels == pairs
      invariant Requirements(exprs[..i]) == Ok(sel.matchExpressions)
    {
      assert exprs[..i + 1][..i] == exprs[..i];
      var m := exprs[i];
      if !m.Obj? {
        continue;
      }
      var key, op := AsString(Get(m, "key")), AsString(Get(m, "operator"));
      if !ValidOperator(op) {
        RequirementsStop(exprs, i + 1);
        return Err(BadOperator(op, key));
      }
      var values := NestedStringSlice(Get(m, "values"));
      var req := Requirement(key, op, if values.Some? then values.value else []);
      sel := sel.(matchExpressions := sel.matchExpressions + [req]);
    }
    assert exprs[..|exprs|] == exprs;
    if sel.matchLabels.None? && |sel.matchExpressions| == 0 {
      sel := sel.(matchLabels := Some(map[]));
    }
    return Ok(sel);
  }

  method SelectorFromUnstructured(v: Value) returns (r: Result<LabelSelector, BuildError>)
    ensures r == TreeSelector(v)
  {
    if KindOf(v) == "Service" {
      var o := Get2(v, "spec", "selector");
      if AsMap(o).None? {
        return Ok(NIL_SELECTOR);
      }
      var m := NestedStringMap(o);
      if m.None? {
        m := Some(map[]);
      }
      return Ok(LabelSelector(m, []));
    } else if KindOf(v) == "NetworkPolicy" {
      r := MatchLabelsFrom(Get2(v, "spec", "podSelector"));
    } else {
      r := MatchLabelsFrom(Get2(v, "spec", "selector"));
    }
  }

  // ----- owners, labels, finalizers

  function OwnerEntry(m: Value): seq<OwnerRef> {
    if m.Obj? then [OwnerRef(AsString(Get(m, "kind")), AsString(Get(m, "name")), AsString(Get(m, "uid")))] else []
  }

  function TreeOwners(v: Value): seq<OwnerRef> {
    FlatMap(OwnerEntry, Items(Get2(v, "metadata", "ownerReferences")))
  }

  function TreeLabels(v: Value): map<string, string> {
    var m := AsStringMap(Get2(v, "metadata", "labels"));
    if m.Some? then m.value else map[]
  }

  function TreeFinalizers(v: Value): seq<string> {
    var fs := AsStringSlice(Get2(v, "metadata", "finalizers"));
    if fs.Some? then fs.value else []
  }

  method OwnersOf(v: Value) returns (out: seq<OwnerRef>)
    ensures out == TreeOwners(v)
  {
    var refs := Items(Get2(v, "metadata", "ownerReferences"));
    out := [];
    for i := 0 to |refs|
      invariant out == FlatMap(OwnerEntry, refs[..i])
    {
      FlatMapStep(OwnerEntry, refs, i);
      var m := refs[i];
      if !m.Obj? {
        continue;
      }
      out := out + [OwnerRef(AsString(Get(m, "kind")), AsString(Get(m, "name")), AsString(Get(m, "uid")))];
    }
    assert refs[..|refs|] == refs;
  }

  // ----- cross-references

  // A reference as written: its flavour, the referent's kind, and its name.
  datatype Mention = Mention(kind: RefKind, gvk: GVK, name: string)

  const CONFIG_MAP := GVK("", "v1", "ConfigMap")
  const SECRET := GVK("", "v1", "Secret")
  const PVC := GVK("", "v1", "PersistentVolumeClaim")

  // The referent is taken to be in the consumer's namespace; its uid comes from the index.
  function Resolve(m: Mention, ns: string, ix: Index): CrossRef {
    CrossRef(m.kind, Ref(m.gvk, ns, m.name, UidFor(ix, m.gvk.kind, ns, m.name)))
  }

  function ResolveAll(ms: seq<Mention>, ns: string, ix: Index): (refs: seq<CrossRef>)
    ensures |refs| == |ms| && forall i :: 0 <= i < |ms| ==> refs[i] == Resolve(ms[i], ns, ix)
  {
    if |ms| == 0 then [] else ResolveAll(ms[..|ms| - 1], ns, ix) + [Resolve(ms[|ms| - 1], ns, ix)]
  }

  lemma ResolveAppend(ms: seq<Mention>, ns: seq<Mention>, space: string, ix: Index)
    ensures ResolveAll(ms + ns, space, ix) == ResolveAll(ms, space, ix) + ResolveAll(ns, space, ix)
  {
  }

  // The mention of a nested map's name field, when the map is there.
  function MentionAt(v: Value, field: string, name: string, kind: RefKind, gvk: GVK): seq<Mention> {
    if AsMap(Get(v, field)).Some? then [Mention(kind, gvk, AsString(Get2(v, field, name)))] else []
  }

  // A ConfigMap mention, then a Secret mention.
  function ConfigPair(v: Value, configMap: string, secret: string, kind: RefKind): seq<Mention> {
    MentionAt(v, configMap, "name", kind, CONFIG_MAP) + MentionAt(v, secret, "name", kind, SECRET)
  }

  function SourceMentions(s: Value): seq<Mention> {
    ConfigPair(s, "configMap", "secret", RefVolume)
  }

  // A volume counts for its first recognised source.
  function VolumeMentions(v: Value): seq<Mention> {
    if AsMap(Get(v, "configMap")).Some? then MentionAt(v, "configMap", "name", RefVolume, CONFIG_MAP)
    else if AsMap(Get(v, "secret")).Some? then MentionAt(v, "secret", "secretName", RefVolume, SECRET)
    else if AsMap(Get(v, "persistentVolumeClaim")).Some? then
      MentionAt(v, "persistentVolumeClaim", "claimName", RefVolume, PVC)
    else if AsMap(Get(v, "projected")).Some? then FlatMap(SourceMentions, Items(Get2(v, "projected", "sources")))
    else []
  }

  function EnvFromMentions(e: Value): seq<Mention> {
    ConfigPair(e, "configMapRef", "secretRef", RefEnvFrom)
  }

  function EnvMentions(e: Value): seq<Mention> {
    if AsMap(Get(e, "valueFrom")).None? then []
    else ConfigPair(Get(e, "valueFrom").value, "configMapKeyRef", "secretKeyRef", RefEnv)
  }

  function ContainerMentions(c: Value): seq<Mention> {
    FlatMap(EnvFromMentions, Items(Get(c, "envFrom"))) + FlatMap(EnvMentions, Items(Get(c, "env")))
  }

  function PullMentions(p: Value): seq<Mention> {
    if p.Obj? then [Mention(RefImagePullSecret, SECRET, AsString(Get(p, "name")))] else []
  }

  function PodMentions(ps: Value): seq<Mention> {
    FlatMap(VolumeMentions, Items(Get(ps, "volumes")))
    + FlatMap(ContainerMentions, Items(Get(ps, "containers")))
    + FlatMap(ContainerMentions, Items(Get(ps, "initContainers")))
    + FlatMap(ContainerMentions, Items(Get(ps, "ephemeralContainers")))
    + FlatMap(PullMentions, Items(Get(ps, "imagePullSecrets")))
  }

  function ScaleMentions(spec: Value): seq<Mention> {
    if AsMap(Get(spec, "scaleTargetRef")).None? then []
    else
      var t := Get(spec, "scaleTargetRef").value;
      [Mention(RefScaleTarget, GVK("", "", AsString(Get(t, "kind"))), AsString(Get(t, "name")))]
  }

  function TemplateMentions(spec: Value): seq<Mention> {
    if AsMap(Get2(spec, "template", "spec")).None? then [] else PodMentions(Get2(spec, "template", "spec").value)
  }

  function SpecMentions(spec: Value): seq<Mention> {
    PodMentions(spec) + TemplateMentions(spec) + ScaleMentions(spec)
  }

  function TreeMentions(v: Value): seq<Mention> {
    if AsMap(Get(v, "spec")).None? then [] else SpecMentions(Get(v, "spec").value)
  }

  method NamedRef(v: Value, field: string, name: string, kind: RefKind, gvk: GVK, ns: string,
                  ix: Index) returns (out: seq<CrossRef>)
    ensures out == ResolveAll(MentionAt(v, field, name, kind, gvk), ns, ix)
  {
    out := [];
    if AsMap(Get(v, field)).Some? {
      out := [Resolve(Mention(kind, gvk, AsString(Get2(v, field, name))), ns, ix)];
    }
  }

  method PairRefs(v: Value, configMap: string, secret: string, kind: RefKind, ns: string,
                  ix: Index) returns (out: seq<CrossRef>)
    ensures out == ResolveAll(ConfigPair(v, configMap, secret, kind), ns, ix)
  {
    out := NamedRef(v, configMap, "name", kind, CONFIG_MAP, ns, ix);
    var rest := NamedRef(v, secret, "name", kind, SECRET, ns, ix);
    ResolveAppend(MentionAt(v, configMap, "name", kind, CONFIG_MAP),
                  MentionAt(v, secret, "name", kind, SECRET), ns, ix);
    out := out + rest;
  }

  method SourceCrossRefs(srcs: seq<Value>, ns: string, ix: Index) returns (out: seq<CrossRef>)
    ensures out == ResolveAll(FlatMap(SourceMentions, srcs), ns, ix)
  {
    out := [];
    for i := 0 to |srcs|
      invariant out == ResolveAll(FlatMap(SourceMentions, srcs[..i]), ns, ix)
    {
      FlatMapStep(SourceMentions, srcs, i);
      var refs := PairRefs(srcs[i], "configMap", "secret", RefVolume, ns, ix);
      ResolveAppend(FlatMap(SourceMentions, srcs[..i]), SourceMentions(srcs[i]), ns, ix);
      out := out + refs;
    }
    assert srcs[..|srcs|] == srcs;
  }

  method VolumeCrossRefs(vols: seq<Value>, ns: string, ix: Index) returns (out: seq<CrossRef>)
    ensures out == ResolveAll(FlatMap(VolumeMentions, vols), ns, ix)
  {
    out := [];
    for i := 0 to |vols|
      invariant out == ResolveAll(FlatMap(VolumeMentions, vols[..i]), ns, ix)
    {
      FlatMapStep(VolumeMentions, vols, i);
      var v := vols[i];
      var refs: seq<CrossRef> := [];
      if AsMap(Get(v, "configMap")).Some? {
        refs := NamedRef(v, "configMap", "name", RefVolume, CONFIG_MAP, ns, ix);
      } else if AsMap(Get(v, "secret")).Some? {
        refs := NamedRef(v, "secret", "secretName", RefVolume, SECRET, ns, ix);
      } else if AsMap(Get(v, "persistentVolumeClaim")).Some? {
        refs := NamedRef(v, "persistentVolumeClaim", "claimName", RefVolume, PVC, ns, ix);
      } else if AsMap(Get(v, "projected")).Some? {
        refs := SourceCrossRefs(Items(Get2(v, "projected", "sources")), ns, ix);
      }
      ResolveAppend(FlatMap(VolumeMentions, vols[..i]), VolumeMentions(v), ns, ix);
      out := out + refs;
    }
    assert vols[..|vols|] == vols;
  }

  method EnvFromCrossRefs(envFrom: seq<Value>, ns: string, ix: Index) returns (out: seq<CrossRef>)
    ensures out == ResolveAll(FlatMap(EnvFromMentions, envFrom), ns, ix)
  {
    out := [];
    for i := 0 to |envFrom|
      invariant out == ResolveAll(FlatMap(EnvFromMentions, envFrom[..i]), ns, ix)
    {
      FlatMapStep(EnvFromMentions, envFrom, i);
      var refs := PairRefs(envFrom[i], "configMapRef", "secretRef", RefEnvFrom, ns, ix);
      ResolveAppend(FlatMap(EnvFromMentions, envFrom[..i]), EnvFromMentions(envFrom[i]), ns, ix);
      out := out + refs;
    }
    assert envFrom[..|envFrom|] == envFrom;
  }

  method ContainerCrossRefs(c: Value, ns: string, ix: Index) returns (out: seq<CrossRef>)
    ensures out == ResolveAll(ContainerMentions(c), ns, ix)
  {
    out := EnvFromCrossRefs(Items(Get(c, "envFrom")), ns, ix);
    var rest := EnvCrossRefs(Items(Get(c, "env")), ns, ix);
    ResolveAppend(FlatMap(EnvFromMentions, Items(Get(c, "envFrom"))),
                  FlatMap(EnvMentions, Items(Get(c, "env"))), ns, ix);
    out := out + rest;
  }

  method EnvEntryRefs(e: Value, ns: string, ix: Index) returns (out: seq<CrossRef>)
    ensures out == ResolveAll(EnvMentions(e), ns, ix)
  {
    out := [];
    if AsMap(Get(e, "valueFrom")).Some? {
      out := PairRefs(Get(e, "valueFrom").value, "configMapKeyRef", "secretKeyRef", RefEnv, ns, ix);
    }
  }

  method EnvCrossRefs(env: seq<Value>, ns: string, ix: Index) returns (out: seq<CrossRef>)
    ensures out == ResolveAll(FlatMap(EnvMentions, env), ns, ix)
  {
    out := [];
    for i := 0 to |env|
      invariant out == ResolveAll(FlatMap(EnvMentions, env[..i]), ns, ix)
    {
      FlatMapStep(EnvMentions, env, i);
      var refs := EnvEntryRefs(env[i], ns, ix);
      ResolveAppend(FlatMap(EnvMentions, env[..i]), EnvMentions(env[i]), ns, ix);
      out := out + refs;
    }
    assert env[..|env|] == env;
  }

  method ContainersCrossRefs(cs: seq<Value>, ns: string, ix: Index) returns (out: seq<CrossRef>)
    ensures out == ResolveAll(FlatMap(ContainerMentions, cs), ns, ix)
  {
    out := [];
    for i := 0 to |cs|
      invariant out == ResolveAll(FlatMap(ContainerMentions, cs[..i]), ns, ix)
    {
      FlatMapStep(ContainerMentions, cs, i);
      var refs := ContainerCrossRefs(cs[i], ns, ix);
      ResolveAppend(FlatMap(ContainerMentions, cs[..i]), ContainerMentions(cs[i]), ns, ix);
      out := out + refs;
    }
    assert cs[..|cs|] == cs;
  }

  method PullCrossRefs(pulls: seq<Value>, ns: string, ix: Index) returns (out: seq<CrossRef>)
    ensures out == ResolveAll(FlatMap(PullMentions, pulls), ns, ix)
  {
    out := [];
    for i := 0 to |pulls|
      invariant out == ResolveAll(FlatMap(PullMentions, pulls[..i]), ns, ix)
    {
      FlatMapStep(PullMentions, pulls, i);
      if !pulls[i].Obj? {
        continue;
      }
      ResolveAppend(FlatMap(PullMentions, pulls[..i]), PullMentions(pulls[i]), ns, ix);
      out := out + [Resolve(Mention(RefImagePullSecret, SECRET, AsString(Get(pulls[i], "name"))), ns, ix)];
    }
    assert pulls[..|pulls|] == pulls;
  }

  lemma ResolveFive(a: seq<Mention>, b: seq<Mention>, c: seq<Mention>, d: seq<Mention>, e: seq<Mention>, ns: string,
                    ix: Index)
    ensures ResolveAll(a + b + c + d + e, ns, ix)
      == ResolveAll(a, ns, ix) + ResolveAll(b, ns, ix) + ResolveAll(c, ns, ix)
        + ResolveAll(d, ns, ix) + ResolveAll(e, ns, ix)
  {
    ResolveAppend(a, b, ns, ix);
    ResolveAppend(a + b, c, ns, ix);
    ResolveAppend(a + b + c, d, ns, ix);
    ResolveAppend(a + b + c + d, e, ns, ix);
  }

  method PodSpecCrossRefs(ps: Value, ns: string, ix: Index) returns (out: seq<CrossRef>)
    ensures out == ResolveAll(PodMentions(ps), ns, ix)
  {
    out := VolumeCrossRefs(Items(Get(ps, "volumes")), ns, ix);
    var cs := ContainersCrossRefs(Items(Get(ps, "containers")), ns, ix);
    var inits := ContainersCrossRefs(Items(Get(ps, "initContainers")), ns, ix);
    var ephemeral := ContainersCrossRefs(Items(Get(ps, "ephemeralContainers")), ns, ix);
    var pulls := PullCrossRefs(Items(Get(ps, "imagePullSecrets")), ns, ix);
    out := out + cs + inits + ephemeral + pulls;
    ResolveFive(FlatMap(VolumeMentions, Items(Get(ps, "volumes"))),
                FlatMap(ContainerMentions, Items(Get(ps, "containers"))),
                FlatMap(ContainerMentions, Items(Get(ps, "initContainers"))),
                FlatMap(ContainerMentions, Items(Get(ps, "ephemeralContainers"))),
                FlatMap(PullMentions, Items(Get(ps, "imagePullSecrets"))), ns, ix);
  }

  method CrossRefsFromUnstructured(v: Value, ns: string, ix: Index) returns (out: seq<CrossRef>)
    ensures out == ResolveAll(TreeMentions(v), ns, ix)
  {
    out := [];
    if AsMap(Get(v, "spec")).None? {
      return;
    }
    var spec := Get(v, "spec").value;
    out := PodSpecCrossRefs(spec, ns, ix);
    var tmpl := TemplateCrossRefs(spec, ns, ix);
    out := out + tmpl;
    var scale := ScaleCrossRefs(spec, ns, ix);
    out := out + scale;
    ResolveAppend(PodMentions(spec), TemplateMentions(spec), ns, ix);
    ResolveAppend(PodMentions(spec) + TemplateMentions(spec), ScaleMentions(spec), ns, ix);
  }

  method TemplateCrossRefs(spec: Value, ns: string, ix: Index) returns (out: seq<CrossRef>)
    ensures out == ResolveAll(TemplateMentions(spec), ns, ix)
  {
    out := [];
    if AsMap(Get2(spec, "template", "spec")).Some? {
      out := PodSpecCrossRefs(Get2(spec, "template", "spec").value, ns, ix);
    }
  }

  method ScaleCrossRefs(spec: Value, ns: string, ix: Index) returns (out: seq<CrossRef>)
    ensures out == ResolveAll(ScaleMentions(spec), ns, ix)
  {
    out := [];
    if AsMap(Get(spec, "scaleTargetRef")).Some? {
      var t := Get(spec, "scaleTargetRef").value;
      var gvk := GVK("", "", AsString(Get(t, "kind")));
      out := [Resolve(Mention(RefScaleTarget, gvk, AsString(Get(t, "name"))), ns, ix)];
    }
  }

  // ----- objects

  function ObjectOf(v: Value, scope: ScopeInfo, ix: Index): Result<Object, BuildError> {
    match NameError(v)
    case Some(e) => Err(e)
    case None =>
      match TreeSelector(v)
      case Err(e) => Err(e)
      case Ok(sel) =>
        var ref := TreeRef(v, scope);
        Ok(Object(ref, TreeLabels(v), sel, TreeOwners(v),
                  ResolveAll(TreeMentions(v), ref.namespace, ix), TreeFinalizers(v)))
  }

  function Maker(scope: ScopeInfo, ix: Index): Value -> Result<Object, BuildError> {
    (v: Value) => ObjectOf(v, scope, ix)
  }

  // Every tree's object, in order; the first failing tree fails the whole.
  function Built(vs: seq<Value>, scope: ScopeInfo): Result<seq<Object>, BuildError> {
    match NameIndex(vs, scope)
    case Err(e) => Err(e)
    case Ok(ix) => Traverse(Maker(scope, ix), vs)
  }

  method BuildOne(v: Value, scope: ScopeInfo, ix: Index) returns (r: Result<Object, BuildError>)
    ensures r == ObjectOf(v, scope, ix)
  {
    var bad := NameError(v);
    if bad.Some? {
      return Err(bad.value);
    }
    var ref := TreeRef(v, scope);
    var sel := SelectorFromUnstructured(v);
    if sel.Err? {
      return Err(sel.error);
    }
    var labels := NestedStringMap(Get2(v, "metadata", "labels"));
    var finalizers := NestedStringSlice(Get2(v, "metadata", "finalizers"));
    var owners := OwnersOf(v);
    var crossRefs := CrossRefsFromUnstructured(v, ref.namespace, ix);
    return Ok(Object(ref, if labels.Some? then labels.value else map[], sel.value, owners, crossRefs,
                     if finalizers.Some? then finalizers.value else []));
  }

  method BuildObjects(vs: seq<Value>, scope: ScopeInfo) returns (r: Result<seq<Object>, BuildError>)
    ensures r == Built(vs, scope)
  {
    var ix := NewNameUidIndex(vs, scope);
    if ix.Err? {
      return Err(ix.error);
    }
    var out: seq<Object> := [];
    for i := 0 to |vs|
      invariant Traverse(Maker(scope, ix.value), vs[..i]) == Ok(out)
    {
      assert vs[..i + 1][..i] == vs[..i];
      var o := BuildOne(vs[i], scope, ix.value);
      if o.Err? {
        TraverseStops(Maker(scope, ix.value), vs, i + 1);
        return Err(o.error);
      }
      out := out + [o.value];
    }
    assert vs[..|vs|] == vs;
    return Ok(out);
  }
}
