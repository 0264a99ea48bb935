// The value types of closure/model.go and closure/selector.go.
module Model {
  import opened Prelude

  datatype GVK = GVK(group: string, version: string, kind: string)

  // The identity of a resource.  The uid, when present, is the match key.
  datatype Ref = Ref(gvk: GVK, namespace: string, name: string, uid: string) {
    function Human(): string {
      gvk.kind + "/" + namespace + "/" + name
    }

    function Key(): string {
      if uid != "" then "uid:" + uid else Human()
    }
  }

  const NO_GVK := GVK("", "", "")
  const NO_REF := Ref(NO_GVK, "", "", "")

  datatype OwnerRef = OwnerRef(kind: string, name: string, uid: string)

  datatype RefKind = RefVolume | RefEnvFrom | RefEnv | RefScaleTarget | RefImagePullSecret

  datatype CrossRef = CrossRef(kind: RefKind, ref: Ref)

  // One matchExpressions entry; the operator is its wire string.
  datatype Requirement = Requirement(key: string, operator: string, values: seq<string>) {
    predicate Matches(labels: map<string, string>) {
      var present := key in labels;
      var val := Read(labels, key);
      if operator == "In" then present && val in values
      else if operator == "NotIn" then !present || val !in values
      else if operator == "Exists" then present
      else if operator == "DoesNotExist" then !present
      else false
    }
  }

  predicate ValidOperator(o: string) {
    o in {"In", "NotIn", "Exists", "DoesNotExist"}
  }

  // matchLabels is None for Go's nil map, which differs from a present empty map.
  datatype LabelSelector = LabelSelector(matchLabels: Option<map<string, string>>, matchExpressions: seq<Requirement>) {
    function Pairs(): map<string, string> {
      if matchLabels.Some? then matchLabels.value else map[]
    }

    predicate IsNil() {
      matchLabels.None? && |matchExpressions| == 0
    }

    predicate IsEmpty() {
      |Pairs()| == 0 && |matchExpressions| == 0
    }

    predicate Matches(labels: map<string, string>) {
      && (forall k :: k in Pairs() ==> Read(labels, k) == Pairs()[k])
      && (forall i :: 0 <= i < |matchExpressions| ==> matchExpressions[i].Matches(labels))
    }

    // Go's equal: pairs compared by map reads, then the requirements in order.
    predicate Equal(o: LabelSelector) {
      SameLabels(Pairs(), o.Pairs()) && matchExpressions == o.matchExpressions
    }
  }

  const NIL_SELECTOR := LabelSelector(None, [])

  // Equal sizes, and every pair of a reads back from b.
  predicate SameLabels(a: map<string, string>, b: map<string, string>) {
    |a| == |b| && forall k :: k in a ==> Read(b, k) == a[k]
  }

  datatype Object = Object(
    ref: Ref,
    labels: map<string, string>,
    selector: LabelSelector,
    owners: seq<OwnerRef>,
    crossRefs: seq<CrossRef>,
    finalizers: seq<string>)

  datatype Verb = Delete | Update | Patch | Scale | Restart | OtherVerb(text: string)

  datatype Action = Action(verb: Verb, target: Ref, cascade: bool, old_: Option<Object>, new_: Option<Object>)

  // NoDim is the empty dimension string; OtherDim any string that is not a known dimension.
  datatype ScopeDim = NoDim | DimResource | DimSelector | DimNamespace | DimOwnership | OtherDim(text: string)

  datatype ScopeClause = ScopeClause(
    dim: ScopeDim,
    gvk: GVK,
    namespace: string,
    name: string,
    selector: LabelSelector,
    root: Ref)

  function ResourceClause(gvk: GVK, namespace: string, name: string): ScopeClause {
    ScopeClause(DimResource, gvk, namespace, name, NIL_SELECTOR, NO_REF)
  }

  function SelectorClause(gvk: GVK, namespace: string, selector: LabelSelector): ScopeClause {
    ScopeClause(DimSelector, gvk, namespace, "", selector, NO_REF)
  }

  function NamespaceClause(gvk: GVK, namespace: string): ScopeClause {
    ScopeClause(DimNamespace, gvk, namespace, "", NIL_SELECTOR, NO_REF)
  }

  function OwnershipClause(root: Ref): ScopeClause {
    ScopeClause(DimOwnership, NO_GVK, "", "", NIL_SELECTOR, root)
  }

  datatype ClauseError =
    | StraySelector | StrayRoot | StrayName | StrayGVK | StrayNamespace
    | MissingNamespace | MissingRoot | UnknownDimension

  // The load-time check of a clause: the first inconsistency, in the order the code tests them.
  function Validate(c: ScopeClause): Option<ClauseError> {
    match c.dim
    case NoDim | DimResource =>
      if !c.selector.IsEmpty() then Some(StraySelector)
      else if c.root != NO_REF then Some(StrayRoot)
      else None
    case DimSelector =>
      if c.name != "" then Some(StrayName)
      else if c.root != NO_REF then Some(StrayRoot)
      else None
    case DimNamespace =>
      if c.namespace == "" then Some(MissingNamespace)
      else if c.name != "" then Some(StrayName)
      else if !c.selector.IsEmpty() then Some(StraySelector)
      else if c.root != NO_REF then Some(StrayRoot)
      else None
    case DimOwnership =>
      if c.root.gvk.kind == "" || c.root.name == "" then Some(MissingRoot)
      else if c.name != "" then Some(StrayName)
      else if !c.selector.IsEmpty() then Some(StraySelector)
      else if c.gvk != NO_GVK then Some(StrayGVK)
      else if c.namespace != "" then Some(StrayNamespace)
      else None
    case OtherDim(_) => Some(UnknownDimension)
  }

  datatype Verdict = Allow | Warn | Block

  // The reason texts, by meaning; Audit is the downgrade note around another reason.
  datatype Reason = Clear | NotFound | ScopeEscape | BoundaryCrossed | Audit(inner: Reason)

  datatype Decision = Decision(
    verdict: Verdict,
    reason: Reason,
    closure: seq<Ref>,
    escaping: seq<Ref>,
    external: seq<Ref>)

  // ----- what a key identifies

  // Kubernetes kinds are identifiers; the model needs only that they hold no colon.
  predicate PlainKind(r: Ref) {
    ':' !in r.gvk.kind
  }

  // A human-readable key is never mistaken for a uid key.
  lemma HumanIsNoUidKey(r: Ref, uid: string)
    requires PlainKind(r)
    ensures r.Human() != "uid:" + uid
  {
    var k := r.gvk.kind;
    var u := "uid:" + uid;
    assert u[0] == 'u' && u[1] == 'i' && u[2] == 'd' && u[3] == ':';
    if |k| > 3 {
      assert r.Human()[3] == k[3] && k[3] in k;
    } else {
      assert r.Human()[|k|] == '/';
    }
  }

  // Equal keys mean equal uids or, for uid-less refs, equal human names.
  lemma SameKey(x: Ref, y: Ref)
    requires x.Key() == y.Key()
    requires PlainKind(x) || x.uid != ""
    requires PlainKind(y) || y.uid != ""
    ensures x.uid == y.uid
    ensures x.uid == "" ==> x.Human() == y.Human()
  {
    if x.uid != "" && y.uid != "" {
      assert x.uid == x.Key()[4..] == y.Key()[4..] == y.uid;
    } else if x.uid != "" {
      HumanIsNoUidKey(y, x.uid);
    } else if y.uid != "" {
      HumanIsNoUidKey(x, y.uid);
    }
  }

  // ----- when the label comparison is exact

  // Without empty values, comparing through map reads is map equality.
  lemma SameLabelsExact(a: map<string, string>, b: map<string, string>)
    requires forall k :: k in a ==> a[k] != ""
    requires SameLabels(a, b)
    ensures a == b
  {
    forall k | k in a ensures k in b && a[k] == b[k] {
      assert Read(b, k) == a[k];
    }
    assert |a.Keys| == |a| && |b.Keys| == |b|;
    SubsetSameSize(a.Keys, b.Keys);
  }

  // With an empty value, some different map compares equal.
  lemma SameLabelsConfuses(a: map<string, string>, k: string) returns (b: map<string, string>)
    requires k in a && a[k] == ""
    ensures SameLabels(a, b) && a != b
  {
    var unused := FreshString(a.Keys);
    var rest := a - {k};
    b := rest[unused := "x"];
    assert rest.Keys == a.Keys - {k} && b.Keys == rest.Keys + {unused};
    assert |b| == |b.Keys| == |a.Keys| == |a|;
    assert k !in b;
    forall x | x in a ensures Read(b, x) == a[x] {
    }
  }

  // Comparing through map reads decides map equality for every second map exactly when
  // the first map carries no empty value.
  lemma SameLabelsExactIff(a: map<string, string>)
    ensures (forall b :: SameLabels(a, b) ==> a == b) <==> (forall k :: k in a ==> a[k] != "")
  {
    if forall k :: k in a ==> a[k] != "" {
      forall b | SameLabels(a, b) ensures a == b {
        SameLabelsExact(a, b);
      }
    } else {
      var k :| k in a && a[k] == "";
      var b := SameLabelsConfuses(a, k);
    }
  }

  // A clause that validates is one a constructor builds: no field outside its dimension
  // survives, so nothing an author wrote is silently ignored.
  lemma ValidClausesAreConstructed(c: ScopeClause)
    ensures Validate(c).None? <==>
      var d := c.(dim := if c.dim.NoDim? then DimResource else c.dim,
                  selector := if c.selector.IsEmpty() then NIL_SELECTOR else c.selector);
      || d == ResourceClause(c.gvk, c.namespace, c.name)
      || (d == SelectorClause(c.gvk, c.namespace, d.selector))
      || (d == NamespaceClause(c.gvk, c.namespace) && c.namespace != "")
      || (d == OwnershipClause(c.root) && c.root.gvk.kind != "" && c.root.name != "")
  {
    assert c.selector.IsEmpty() || c.selector != NIL_SELECTOR by {
      if c.selector == NIL_SELECTOR {
        assert c.selector.IsEmpty();
      }
    }
  }
}
