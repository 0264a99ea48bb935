// What the relations read off the objects: fields and literal kinds, entry by entry.
module RelationLaws {
  import opened Prelude
  import opened Model
  import opened Inventory

  // ----- identity and lookup

  // Slash-free identities have one human name exactly when they are the same identity.
  lemma HumanIdentifies(x: Ref, y: Ref)
    requires '/' !in x.gvk.kind && '/' !in x.namespace && '/' !in y.gvk.kind && '/' !in y.namespace
    ensures x.Human() == y.Human() <==>
      x.gvk.kind == y.gvk.kind && x.namespace == y.namespace && x.name == y.name
  {
    assert x.Human() == x.gvk.kind + "/" + (x.namespace + "/" + x.name);
    assert y.Human() == y.gvk.kind + "/" + (y.namespace + "/" + y.name);
    SplitAtSlash(x.gvk.kind, x.namespace + "/" + x.name, y.gvk.kind, y.namespace + "/" + y.name);
    SplitAtSlash(x.namespace, x.name, y.namespace, y.name);
  }

  lemma SplitAtSlash(s: string, t: string, u: string, v: string)
    requires '/' !in s && '/' !in u
    ensures s + "/" + t == u + "/" + v ==> s == u && t == v
  {
    var p, q := s + "/" + t, u + "/" + v;
    assert p[|s|] == '/' && q[|u|] == '/';
    assert |u| < |s| ==> p[|u|] == s[|u|] && s[|u|] in s;
    assert |s| < |u| ==> q[|s|] == u[|s|] && u[|s|] in u;
    assert p[..|s|] == s && q[..|u|] == u && p[|s| + 1..] == t && q[|u| + 1..] == v;
  }

  // The last listed object with r's uid, when r has one that is tracked, and else the last
  // with its human name.
  lemma LookupMeans(objs: seq<Object>, r: Ref, i: nat)
    requires i < |objs|
    ensures (r.uid != "" && objs[i].ref.uid == r.uid && forall j :: i < j < |objs| ==> objs[j].ref.uid != r.uid)
      ==> Lookup(objs, r) == Some(objs[i])
    ensures (r.uid == "" || forall o :: o in objs ==> o.ref.uid != r.uid)
      && objs[i].ref.Human() == r.Human() && (forall j :: i < j < |objs| ==> objs[j].ref.Human() != r.Human())
      ==> Lookup(objs, r) == Some(objs[i])
  {
    assert objs[i] in objs;
  }

  // ----- selectors

  // A missing label reads as the empty string.
  predicate HasLabel(labels: map<string, string>, k: string, v: string) {
    if k in labels then labels[k] == v else v == ""
  }

  predicate Satisfies(labels: map<string, string>, r: Requirement) {
    || (r.operator == "In" && r.key in labels && labels[r.key] in r.values)
    || (r.operator == "NotIn" && (r.key !in labels || labels[r.key] !in r.values))
    || (r.operator == "Exists" && r.key in labels)
    || (r.operator == "DoesNotExist" && r.key !in labels)
  }

  ghost predicate Selects(s: LabelSelector, labels: map<string, string>) {
    && (s.matchLabels.Some? ==> forall k :: k in s.matchLabels.value ==> HasLabel(labels, k, s.matchLabels.value[k]))
    && (forall r :: r in s.matchExpressions ==> Satisfies(labels, r))
  }

  // The nil selector binds nothing; the present empty one binds everything, unless it is a
  // Service's.
  ghost predicate BindsLabels(kind: string, s: LabelSelector, labels: map<string, string>) {
    && s != LabelSelector(None, [])
    && !(kind == "Service" && s == LabelSelector(Some(map[]), []))
    && Selects(s, labels)
  }

  lemma RequirementMeans(r: Requirement, labels: map<string, string>)
    ensures r.Matches(labels) <==> Satisfies(labels, r)
  {
    assert "Exists"[0] != "In"[0] && "Exists"[0] != "NotIn"[0] && "DoesNotExist"[0] != "In"[0];
    assert "DoesNotExist"[0] != "NotIn"[0] && "DoesNotExist"[0] != "Exists"[0] && "NotIn"[0] != "In"[0];
  }

  lemma OperatorsAre(o: string)
    ensures ValidOperator(o) <==> o == "In" || o == "NotIn" || o == "Exists" || o == "DoesNotExist"
  {
  }

  lemma MatchesMeans(s: LabelSelector, labels: map<string, string>)
    ensures s.Matches(labels) <==> Selects(s, labels)
  {
    forall i | 0 <= i < |s.matchExpressions|
      ensures s.matchExpressions[i].Matches(labels) <==> Satisfies(labels, s.matchExpressions[i])
    {
      RequirementMeans(s.matchExpressions[i], labels);
    }
    forall k | k in s.Pairs() ensures Read(labels, k) == s.Pairs()[k] <==> HasLabel(labels, k, s.Pairs()[k]) {
    }
    if s.Matches(labels) {
      assert s.matchLabels.Some? ==> s.Pairs() == s.matchLabels.value;
      forall r | r in s.matchExpressions ensures Satisfies(labels, r) {
        var i :| 0 <= i < |s.matchExpressions| && s.matchExpressions[i] == r;
      }
    }
    if Selects(s, labels) {
      forall i | 0 <= i < |s.matchExpressions| ensures s.matchExpressions[i].Matches(labels) {
        assert s.matchExpressions[i] in s.matchExpressions;
      }
      assert forall k :: k in s.Pairs() ==> Read(labels, k) == s.Pairs()[k];
    }
  }

  lemma SelectorBindsMeans(kind: string, s: LabelSelector, labels: map<string, string>)
    ensures SelectorBinds(kind, s, labels) <==> BindsLabels(kind, s, labels)
  {
    MatchesMeans(s, labels);
    if s.matchLabels.Some? && |s.matchLabels.value| == 0 {
      assert s.matchLabels.value == map[];
    }
    assert s.matchLabels.Some? && s.matchLabels.value == map[] ==> |s.Pairs()| == 0;
  }

  // ----- cross-references

  // The reference names t: by uid where both have one, else by kind, namespace and name.
  predicate RefersTo(cr: CrossRef, t: Ref) {
    || (cr.ref.uid != "" && cr.ref.uid == t.uid)
    || ((cr.ref.uid == "" || t.uid == "")
        && cr.ref.gvk.kind == t.gvk.kind && cr.ref.namespace == t.namespace && cr.ref.name == t.name)
  }

  // o mounts, reads or pulls by t.
  ghost predicate Uses(o: Object, t: Ref) {
    exists cr :: cr in o.crossRefs && cr.kind != RefScaleTarget && RefersTo(cr, t)
  }

  // o scales t.
  ghost predicate Scales(o: Object, t: Ref) {
    exists cr :: cr in o.crossRefs && cr.kind == RefScaleTarget && RefersTo(cr, t)
  }

  predicate SameIdentity(cr: CrossRef, t: Ref) {
    cr.ref.gvk.kind == t.gvk.kind && cr.ref.namespace == t.namespace && cr.ref.name == t.name
  }

  // On a well-formed inventory a reference names two objects exactly when its uid is one's
  // and its kind, namespace and name are another's that has no uid.
  lemma NamesTwoIff(objs: seq<Object>, cr: CrossRef, o: Object, p: Object)
    requires WellFormed(objs) && o in objs && p in objs && o != p
    ensures RefersTo(cr, o.ref) && RefersTo(cr, p.ref) <==>
      && cr.ref.uid != ""
      && ((cr.ref.uid == o.ref.uid && p.ref.uid == "" && SameIdentity(cr, p.ref))
          || (cr.ref.uid == p.ref.uid && o.ref.uid == "" && SameIdentity(cr, o.ref)))
  {
  }

  // A reference that carries an object's uid, kind, namespace and name names it alone.
  lemma ReferenceIsUnique(objs: seq<Object>, cr: CrossRef, o: Object, p: Object)
    requires WellFormed(objs) && o in objs && p in objs
    requires cr.ref.uid == o.ref.uid && SameIdentity(cr, o.ref)
    ensures RefersTo(cr, p.ref) <==> p == o
  {
  }

  // ----- ownership

  // Some owner entry of o, whichever, carries this uid.
  ghost predicate ListsOwnerUid(o: Object, uid: string) {
    uid != "" && exists i :: 0 <= i < |o.owners| && o.owners[i].uid == uid
  }

  // Each object lists an owner entry with the uid of the one before it.
  ghost predicate Lineage(objs: seq<Object>, os: seq<Object>) {
    && |os| > 0 && (forall o :: o in os ==> o in objs)
    && forall i :: 0 < i < |os| ==> ListsOwnerUid(os[i], os[i - 1].ref.uid)
  }

  predicate BindingKind(kind: string) {
    kind == "Service" || kind == "PodDisruptionBudget" || kind == "NetworkPolicy"
  }

  // ----- the relations

  ghost predicate Tracks(objs: seq<Object>, o: Object, y: Ref) {
    o in objs && o.ref == y
  }

  lemma ChildrenMean(objs: seq<Object>, r: Ref, y: Ref)
    ensures y in Children(objs, r) <==>
      Lookup(objs, r).Some? && exists o :: Tracks(objs, o, y) && ListsOwnerUid(o, Lookup(objs, r).value.ref.uid)
  {
    if Lookup(objs, r).Some? {
      ScanMeans(objs, OwnedBy(Lookup(objs, r).value.ref.uid), y);
      assert forall o, uid :: Hits(OwnedBy(uid), o) <==> ListsOwnerUid(o, uid);
    }
  }

  lemma ScanMeans(objs: seq<Object>, q: Query, y: Ref)
    ensures y in Scan(objs, q) <==> exists o :: Tracks(objs, o, y) && Hits(q, o)
  {
    ScanFinds(objs, q);
    if o :| o in objs && o.ref == y && Hits(q, o) {
      assert Tracks(objs, o, y);
    }
    if o :| Tracks(objs, o, y) && Hits(q, o) {
      assert Found(objs, q, y);
    }
  }

  lemma ContentsMean(objs: seq<Object>, ns: string, y: Ref)
    ensures y in Scan(objs, InNamespace(ns)) <==>
      exists o :: Tracks(objs, o, y) && o.ref.namespace == ns && o.ref.gvk.kind != "Namespace"
  {
    ScanMeans(objs, InNamespace(ns), y);
  }

  // o is a Pod of the namespace that an owner of this kind binds by s.
  ghost predicate BoundPod(o: Object, ns: string, kind: string, s: LabelSelector) {
    o.ref.gvk.kind == "Pod" && o.ref.namespace == ns && BindsLabels(kind, s, o.labels)
  }

  lemma PodsBoundMean(objs: seq<Object>, ns: string, s: LabelSelector, kind: string, y: Ref)
    ensures y in Scan(objs, PodsBound(ns, s, kind)) <==> exists o :: Tracks(objs, o, y) && BoundPod(o, ns, kind, s)
  {
    ScanMeans(objs, PodsBound(ns, s, kind), y);
    forall o ensures Hits(PodsBound(ns, s, kind), o) <==> BoundPod(o, ns, kind, s) {
      SelectorBindsMeans(kind, s, o.labels);
    }
  }

  lemma SelectedPodsMean(objs: seq<Object>, r: Ref, y: Ref)
    ensures y in SelectedPods(objs, r) <==>
      && Lookup(objs, r).Some?
      && var w := Lookup(objs, r).value;
      exists o :: Tracks(objs, o, y) && BoundPod(o, w.ref.namespace, w.ref.gvk.kind, w.selector)
  {
    if Lookup(objs, r).Some? {
      var w := Lookup(objs, r).value;
      PodsBoundMean(objs, w.ref.namespace, w.selector, w.ref.gvk.kind, y);
    }
  }

  // o is a binding object of the namespace whose selector binds the labels.
  ghost predicate BinderObject(o: Object, ns: string, labels: map<string, string>) {
    BindingKind(o.ref.gvk.kind) && o.ref.namespace == ns && BindsLabels(o.ref.gvk.kind, o.selector, labels)
  }

  lemma BindersMean(objs: seq<Object>, ns: string, labels: map<string, string>, y: Ref)
    ensures y in Scan(objs, SelectorsBinding(ns, labels)) <==>
      exists o :: Tracks(objs, o, y) && BinderObject(o, ns, labels)
  {
    ScanMeans(objs, SelectorsBinding(ns, labels), y);
    forall o ensures Hits(SelectorsBinding(ns, labels), o) <==> BinderObject(o, ns, labels) {
      SelectorBindsMeans(o.ref.gvk.kind, o.selector, labels);
    }
  }

  lemma PodBindersMean(objs: seq<Object>, pod: Ref, y: Ref)
    ensures y in BindersOf(objs, pod) <==>
      && Lookup(objs, pod).Some?
      && exists o :: Tracks(objs, o, y) && BinderObject(o, pod.namespace, Lookup(objs, pod).value.labels)
  {
    if Lookup(objs, pod).Some? {
      BindersMean(objs, pod.namespace, Lookup(objs, pod).value.labels, y);
    }
  }

  lemma ReferrersMean(o: Object, t: Ref)
    ensures Hits(ReferrersOf(false, t), o) <==> Uses(o, t)
    ensures Hits(ReferrersOf(true, t), o) <==> Scales(o, t)
  {
    forall i | 0 <= i < |o.crossRefs|
      ensures Names(o.crossRefs[i], o.crossRefs[i].kind.RefScaleTarget?, t) <==> RefersTo(o.crossRefs[i], t)
    {
    }
    if Uses(o, t) {
      var cr :| cr in o.crossRefs && cr.kind != RefScaleTarget && RefersTo(cr, t);
      var i :| 0 <= i < |o.crossRefs| && o.crossRefs[i] == cr;
    }
    if Scales(o, t) {
      var cr :| cr in o.crossRefs && cr.kind == RefScaleTarget && RefersTo(cr, t);
      var i :| 0 <= i < |o.crossRefs| && o.crossRefs[i] == cr;
    }
  }

  lemma ConsumersMean(objs: seq<Object>, r: Ref, y: Ref)
    ensures y in ConsumersOfRef(objs, r) <==>
      Lookup(objs, r).Some? && exists o :: Tracks(objs, o, y) && Uses(o, Lookup(objs, r).value.ref)
  {
    if Lookup(objs, r).Some? {
      var t := Lookup(objs, r).value.ref;
      ScanMeans(objs, ReferrersOf(false, t), y);
      forall o ensures Hits(ReferrersOf(false, t), o) <==> Uses(o, t) {
        ReferrersMean(o, t);
      }
    }
  }

  lemma ScalersMean(objs: seq<Object>, r: Ref, y: Ref)
    ensures y in ScalersOfRef(objs, r) <==>
      Lookup(objs, r).Some? && exists o :: Tracks(objs, o, y) && Scales(o, Lookup(objs, r).value.ref)
  {
    if Lookup(objs, r).Some? {
      var t := Lookup(objs, r).value.ref;
      ScanMeans(objs, ReferrersOf(true, t), y);
      forall o ensures Hits(ReferrersOf(true, t), o) <==> Scales(o, t) {
        ReferrersMean(o, t);
      }
    }
  }

  // The reference carries t's uid, kind, namespace and name.
  predicate PointsAt(cr: CrossRef, t: Ref) {
    cr.ref.uid == t.uid && SameIdentity(cr, t)
  }

  // On a well-formed inventory, where each reference of o points at some object, o is a
  // consumer of exactly those it points at: a reference to one is never one to another.
  lemma ConsumerOfItsReferentsOnly(objs: seq<Object>, o: Object, u: Object)
    requires WellFormed(objs) && o in objs && u in objs
    requires forall cr :: cr in o.crossRefs ==> exists t :: t in objs && PointsAt(cr, t.ref)
    ensures o.ref in ConsumersOfRef(objs, u.ref) <==>
      exists cr :: cr in o.crossRefs && cr.kind != RefScaleTarget && PointsAt(cr, u.ref)
  {
    OwnRefLookup(objs, u);
    OwnRefLookup(objs, o);
    ConsumersMean(objs, u.ref, o.ref);
    forall p | Tracks(objs, p, o.ref) ensures p == o {
      OwnRefLookup(objs, p);
    }
    assert Tracks(objs, o, o.ref);
    forall cr | cr in o.crossRefs ensures RefersTo(cr, u.ref) <==> PointsAt(cr, u.ref) {
      var t :| t in objs && PointsAt(cr, t.ref);
      ReferenceIsUnique(objs, cr, t, u);
    }
  }
}
