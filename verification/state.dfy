// closure/state.go: the relations over an inventory of objects, and the linear-scan
// state that answers them.
module Inventory {
  import opened Prelude
  import opened Model

  // ----- lookup, as a last-wins linear search

  // The last object carrying this uid.
  function FindUid(objs: seq<Object>, uid: string): (r: Option<nat>)
    ensures r.Some? ==>
      && r.value < |objs| && objs[r.value].ref.uid == uid
      && forall j :: r.value < j < |objs| ==> objs[j].ref.uid != uid
    ensures r.None? ==> forall o :: o in objs ==> o.ref.uid != uid
  {
    if |objs| == 0 then None
    else if objs[|objs| - 1].ref.uid == uid then Some(|objs| - 1)
    else FindUid(objs[..|objs| - 1], uid)
  }

  // The last object with this human name.
  function FindHuman(objs: seq<Object>, human: string): (r: Option<nat>)
    ensures r.Some? ==>
      && r.value < |objs| && objs[r.value].ref.Human() == human
      && forall j :: r.value < j < |objs| ==> objs[j].ref.Human() != human
    ensures r.None? ==> forall o :: o in objs ==> o.ref.Human() != human
  {
    if |objs| == 0 then None
    else if objs[|objs| - 1].ref.Human() == human then Some(|objs| - 1)
    else FindHuman(objs[..|objs| - 1], human)
  }

  // By uid when the ref has one that is tracked, else by human name.
  function Find(objs: seq<Object>, r: Ref): (i: Option<nat>)
    ensures i.Some? ==> i.value < |objs|
  {
    if r.uid != "" && FindUid(objs, r.uid).Some? then FindUid(objs, r.uid)
    else FindHuman(objs, r.Human())
  }

  function Lookup(objs: seq<Object>, r: Ref): Option<Object> {
    match Find(objs, r)
    case None => None
    case Some(i) => Some(objs[i])
  }

  // ----- the relations

  const WORKLOAD_KINDS := {"Deployment", "ReplicaSet", "StatefulSet", "DaemonSet"}
  const SELECTOR_KINDS := {"Service", "PodDisruptionBudget", "NetworkPolicy"}
  const MOUNTABLE_KINDS := {"ConfigMap", "Secret", "PersistentVolumeClaim"}

  // Whether a selector owned by ownerKind binds a label set.
  predicate SelectorBinds(ownerKind: string, selector: LabelSelector, labels: map<string, string>) {
    if selector.IsNil() then false
    else if selector.IsEmpty() then ownerKind != "Service"
    else selector.Matches(labels)
  }

  // Whether a reference names the target: by uid when both have one, else by identity.
  predicate CrossRefMatches(refd: Ref, target: Ref) {
    if refd.uid != "" && target.uid != "" then refd.uid == target.uid
    else
      && refd.gvk.kind == target.gvk.kind
      && refd.namespace == target.namespace
      && refd.name == target.name
  }

  // A scale-target reference, or one of the other flavours, naming the target.
  predicate Names(cr: CrossRef, scaling: bool, target: Ref) {
    cr.kind.RefScaleTarget? == scaling && CrossRefMatches(cr.ref, target)
  }

  // A question a linear scan answers object by object.
  datatype Query =
    | OwnedBy(uid: string)
    | InNamespace(ns: string)
    | PodsBound(ns: string, selector: LabelSelector, ownerKind: string)
    | SelectorsBinding(ns: string, labels: map<string, string>)
    | ReferrersOf(scaling: bool, target: Ref)

  predicate Hits(q: Query, o: Object) {
    match q
    case OwnedBy(uid) =>
      exists i :: 0 <= i < |o.owners| && o.owners[i].uid != "" && o.owners[i].uid == uid
    case InNamespace(ns) =>
      o.ref.namespace == ns && o.ref.gvk.kind != "Namespace"
    case PodsBound(ns, selector, ownerKind) =>
      o.ref.gvk.kind == "Pod" && o.ref.namespace == ns && SelectorBinds(ownerKind, selector, o.labels)
    case SelectorsBinding(ns, labels) =>
      && o.ref.gvk.kind in SELECTOR_KINDS && o.ref.namespace == ns
      && SelectorBinds(o.ref.gvk.kind, o.selector, labels)
    case ReferrersOf(scaling, target) =>
      exists i :: 0 <= i < |o.crossRefs| && Names(o.crossRefs[i], scaling, target)
  }

  // The refs of the objects a query hits, in inventory order.
  function Scan(objs: seq<Object>, q: Query): seq<Ref> {
    if |objs| == 0 then []
    else
      var o := objs[|objs| - 1];
      Scan(objs[..|objs| - 1], q) + if Hits(q, o) then [o.ref] else []
  }

  function Children(objs: seq<Object>, r: Ref): seq<Ref> {
    match Lookup(objs, r)
    case None => []
    case Some(o) => Scan(objs, OwnedBy(o.ref.uid))
  }

  function SelectedPods(objs: seq<Object>, r: Ref): seq<Ref> {
    match Lookup(objs, r)
    case None => []
    case Some(o) => Scan(objs, PodsBound(o.ref.namespace, o.selector, o.ref.gvk.kind))
  }

  function BindersOf(objs: seq<Object>, pod: Ref): seq<Ref> {
    match Lookup(objs, pod)
    case None => []
    case Some(o) => Scan(objs, SelectorsBinding(pod.namespace, o.labels))
  }

  function ConsumersOfRef(objs: seq<Object>, r: Ref): seq<Ref> {
    match Lookup(objs, r)
    case None => []
    case Some(o) => Scan(objs, ReferrersOf(false, o.ref))
  }

  function ScalersOfRef(objs: seq<Object>, r: Ref): seq<Ref> {
    match Lookup(objs, r)
    case None => []
    case Some(o) => Scan(objs, ReferrersOf(true, o.ref))
  }

  lemma ScanStep(objs: seq<Object>, q: Query, i: nat)
    requires i < |objs|
    ensures Scan(objs[..i + 1], q) == Scan(objs[..i], q) + if Hits(q, objs[i]) then [objs[i].ref] else []
  {
    assert objs[..i + 1][..i] == objs[..i];
  }

  ghost predicate Found(objs: seq<Object>, q: Query, r: Ref) {
    exists o :: o in objs && o.ref == r && Hits(q, o)
  }

  // A scan returns exactly the objects its query hits.
  lemma {:induction false} ScanFinds(objs: seq<Object>, q: Query)
    ensures forall r :: r in Scan(objs, q) <==> Found(objs, q, r)
  {
    if |objs| > 0 {
      var init, last := objs[..|objs| - 1], objs[|objs| - 1];
      ScanFinds(init, q);
      assert forall o :: o in objs <==> o in init || o == last;
    }
  }

  // ----- well-formed inventories

  ghost predicate Plain(objs: seq<Object>) {
    forall o :: o in objs ==> PlainKind(o.ref)
  }

  // Different objects differ in uid, where both have one, and in human name; kinds are plain.
  ghost predicate WellFormed(objs: seq<Object>) {
    && Plain(objs)
    && (forall o, p {:trigger o in objs, p in objs} ::
      o in objs && p in objs && o.ref.uid == p.ref.uid && o.ref.uid != "" ==> o == p)
    && (forall o, p {:trigger o in objs, p in objs} ::
      o in objs && p in objs && o.ref.Human() == p.ref.Human() ==> o == p)
  }

  ghost predicate IsObjectRef(objs: seq<Object>, r: Ref) {
    exists o :: o in objs && o.ref == r
  }

  // The target resolves to an object of its own kind, namespace and name.
  ghost predicate Agrees(objs: seq<Object>, target: Ref) {
    && Lookup(objs, target).Some?
    && var r := Lookup(objs, target).value.ref;
    r.gvk.kind == target.gvk.kind && r.namespace == target.namespace && r.name == target.name
  }

  lemma LookupIsTracked(objs: seq<Object>, r: Ref)
    ensures Lookup(objs, r).Some? ==> Lookup(objs, r).value in objs
  {
  }

  // On a well-formed inventory, an object's own ref looks up that object.
  lemma OwnRefLookup(objs: seq<Object>, o: Object)
    requires WellFormed(objs) && o in objs
    ensures Lookup(objs, o.ref) == Some(o)
  {
    LookupIsTracked(objs, o.ref);
  }

  // Refs with one key look up one object, whether tracked or not.
  lemma SameKeySameLookup(objs: seq<Object>, x: Ref, y: Ref)
    requires x.Key() == y.Key()
    requires Settled(objs, x) && Settled(objs, y)
    ensures Lookup(objs, x) == Lookup(objs, y)
  {
    SameKey(x, y);
  }

  // A ref whose key decides its object: a tracked uid, or no uid and a plain kind.
  ghost predicate Settled(objs: seq<Object>, r: Ref) {
    if r.uid != "" then FindUid(objs, r.uid).Some? else PlainKind(r)
  }

  lemma ObjectRefSettled(objs: seq<Object>, r: Ref)
    requires Plain(objs) && IsObjectRef(objs, r)
    ensures Settled(objs, r)
    ensures Lookup(objs, r).Some?
  {
  }

  // Two object refs with one key are the same ref.
  lemma ObjectKeysDistinct(objs: seq<Object>, x: Ref, y: Ref)
    requires WellFormed(objs) && IsObjectRef(objs, x) && IsObjectRef(objs, y)
    requires x.Key() == y.Key()
    ensures x == y
  {
    var o :| o in objs && o.ref == x;
    var p :| p in objs && p.ref == y;
    OwnRefLookup(objs, o);
    OwnRefLookup(objs, p);
    SameKeySameLookup(objs, x, y);
  }
}

// The linear-scan state of closure/state.go.
module ScanStates {
  import opened Prelude
  import opened Model
  import opened Inventory

  // The inner loop of OwnedChildren: stops at the first owner entry with the uid.
  method ListsOwner(o: Object, uid: string) returns (found: bool)
    ensures found <==> Hits(OwnedBy(uid), o)
  {
    for j := 0 to |o.owners|
      invariant forall k :: 0 <= k < j ==> o.owners[k].uid == "" || o.owners[k].uid != uid
    {
      if o.owners[j].uid != "" && o.owners[j].uid == uid {
        return true;
      }
    }
    return false;
  }

  // The inner loop of Consumers and ControllersTargeting: stops at the first reference
  // of the wanted flavour that names the target.
  method NamesTarget(o: Object, scaling: bool, target: Ref) returns (found: bool)
    ensures found <==> Hits(ReferrersOf(scaling, target), o)
  {
    for j := 0 to |o.crossRefs|
      invariant forall k :: 0 <= k < j ==> !Names(o.crossRefs[k], scaling, target)
    {
      if o.crossRefs[j].kind.RefScaleTarget? != scaling {
        continue;
      }
      if CrossRefMatches(o.crossRefs[j].ref, target) {
        return true;
      }
    }
    return false;
  }

  // The map holds the last object with each non-empty uid.
  ghost predicate UidIndex(objs: seq<Object>, m: map<string, nat>) {
    && (forall u :: u in m <==> u != "" && FindUid(objs, u).Some?)
    && (forall u :: u in m ==> FindUid(objs, u) == Some(m[u]))
  }

  // The map holds the last object with each human name.
  ghost predicate HumanIndex(objs: seq<Object>, m: map<string, nat>) {
    && (forall h :: h in m <==> FindHuman(objs, h).Some?)
    && (forall h :: h in m ==> FindHuman(objs, h) == Some(m[h]))
  }

  lemma UidIndexStep(objs: seq<Object>, i: nat, m: map<string, nat>)
    requires i < |objs| && UidIndex(objs[..i], m)
    ensures UidIndex(objs[..i + 1], if objs[i].ref.uid != "" then m[objs[i].ref.uid := i] else m)
  {
    assert objs[..i + 1][..i] == objs[..i];
  }

  lemma HumanIndexStep(objs: seq<Object>, i: nat, m: map<string, nat>)
    requires i < |objs| && HumanIndex(objs[..i], m)
    ensures HumanIndex(objs[..i + 1], m[objs[i].ref.Human() := i])
  {
    assert objs[..i + 1][..i] == objs[..i];
  }

  class ScanState {
    const objs: seq<Object>
    const byUid: map<string, nat>
    const byHuman: map<string, nat>

    // The maps index the last object with each uid and each human name.
    ghost predicate Valid() {
      UidIndex(objs, byUid) && HumanIndex(objs, byHuman)
    }

    constructor (inventory: seq<Object>)
      ensures Valid() && objs == inventory
    {
      var uids: map<string, nat>, humans: map<string, nat> := map[], map[];
      for i := 0 to |inventory|
        invariant UidIndex(inventory[..i], uids) && HumanIndex(inventory[..i], humans)
      {
        UidIndexStep(inventory, i, uids);
        HumanIndexStep(inventory, i, humans);
        var r := inventory[i].ref;
        if r.uid != "" {
          uids := uids[r.uid := i];
        }
        humans := humans[r.Human() := i];
      }
      assert inventory[..|inventory|] == inventory;
      objs, byUid, byHuman := inventory, uids, humans;
    }

    function Get(r: Ref): (o: Option<Object>)
      requires Valid()
      ensures o == Lookup(objs, r)
    {
      if r.uid != "" && r.uid in byUid then Some(objs[byUid[r.uid]])
      else if r.Human() in byHuman then Some(objs[byHuman[r.Human()]])
      else None
    }

    method OwnedChildren(r: Ref) returns (out: seq<Ref>)
      requires Valid()
      ensures out == Children(objs, r)
    {
      out := [];
      var owner := Get(r);
      if owner.None? {
        return;
      }
      var uid := owner.value.ref.uid;
      for i := 0 to |objs|
        invariant out == Scan(objs[..i], OwnedBy(uid))
      {
        ScanStep(objs, OwnedBy(uid), i);
        var owned := ListsOwner(objs[i], uid);
        if owned {
          out := out + [objs[i].ref];
        }
      }
      assert objs[..|objs|] == objs;
    }

    method NamespaceContents(ns: string) returns (out: seq<Ref>)
      ensures out == Scan(objs, InNamespace(ns))
    {
      out := [];
      for i := 0 to |objs|
        invariant out == Scan(objs[..i], InNamespace(ns))
      {
        ScanStep(objs, InNamespace(ns), i);
        var o := objs[i];
        if o.ref.namespace == ns && o.ref.gvk.kind != "Namespace" {
          out := out + [o.ref];
        }
      }
      assert objs[..|objs|] == objs;
    }

    method PodsSelectedBy(r: Ref) returns (out: seq<Ref>)
      requires Valid()
      ensures out == SelectedPods(objs, r)
    {
      var owner := Get(r);
      if owner.None? {
        return [];
      }
      out := PodsMatching(owner.value.ref.namespace, owner.value.selector, owner.value.ref.gvk.kind);
    }

    method PodsMatching(ns: string, selector: LabelSelector, ownerKind: string) returns (out: seq<Ref>)
      ensures out == Scan(objs, PodsBound(ns, selector, ownerKind))
    {
      out := [];
      for i := 0 to |objs|
        invariant out == Scan(objs[..i], PodsBound(ns, selector, ownerKind))
      {
        ScanStep(objs, PodsBound(ns, selector, ownerKind), i);
        var o := objs[i];
        if o.ref.gvk.kind == "Pod" && o.ref.namespace == ns && SelectorBinds(ownerKind, selector, o.labels) {
          out := out + [o.ref];
        }
      }
      assert objs[..|objs|] == objs;
    }

    method SelectorsTargeting(pod: Ref) returns (out: seq<Ref>)
      requires Valid()
      ensures out == BindersOf(objs, pod)
    {
      var p := Get(pod);
      if p.None? {
        return [];
      }
      out := SelectorsMatchingLabels(pod.namespace, p.value.labels);
    }

    method SelectorsMatchingLabels(ns: string, labels: map<string, string>) returns (out: seq<Ref>)
      ensures out == Scan(objs, SelectorsBinding(ns, labels))
    {
      out := [];
      for i := 0 to |objs|
        invariant out == Scan(objs[..i], SelectorsBinding(ns, labels))
      {
        ScanStep(objs, SelectorsBinding(ns, labels), i);
        var o := objs[i];
        if o.ref.gvk.kind !in SELECTOR_KINDS || o.ref.namespace != ns {
          continue;
        }
        if SelectorBinds(o.ref.gvk.kind, o.selector, labels) {
          out := out + [o.ref];
        }
      }
      assert objs[..|objs|] == objs;
    }

    method Consumers(r: Ref) returns (out: seq<Ref>)
      requires Valid()
      ensures out == ConsumersOfRef(objs, r)
    {
      out := [];
      var tgt := Get(r);
      if tgt.None? {
        return;
      }
      var q := ReferrersOf(false, tgt.value.ref);
      for i := 0 to |objs|
        invariant out == Scan(objs[..i], q)
      {
        ScanStep(objs, q, i);
        var names := NamesTarget(objs[i], false, tgt.value.ref);
        if names {
          out := out + [objs[i].ref];
        }
      }
      assert objs[..|objs|] == objs;
    }

    method ControllersTargeting(r: Ref) returns (out: seq<Ref>)
      requires Valid()
      ensures out == ScalersOfRef(objs, r)
    {
      out := [];
      var tgt := Get(r);
      if tgt.None? {
        return;
      }
      var q := ReferrersOf(true, tgt.value.ref);
      for i := 0 to |objs|
        invariant out == Scan(objs[..i], q)
      {
        ScanStep(objs, q, i);
        var names := NamesTarget(objs[i], true, tgt.value.ref);
        if names {
          out := out + [objs[i].ref];
        }
      }
      assert objs[..|objs|] == objs;
    }
  }
}
