// Concrete inventories on which a bound is met or a plausible claim fails.
module Witnesses {
  import opened Prelude
  import opened Model
  import opened Inventory
  import opened Classification
  import opened Sorting
  import opened Graph
  import opened Worklist
  import opened Closures
  import opened ClosureTheory
  import opened Monotonicity
  import opened Verdicts
  import opened VerdictTheory

  function PodRef(name: string, uid: string): Ref {
    Ref(GVK("", "v1", "Pod"), "n", name, uid)
  }

  // A pod with at most an owner uid.
  function PodObject(name: string, uid: string, owner: string): Object {
    Object(PodRef(name, uid), map[], NIL_SELECTOR, if owner == "" then [] else [OwnerRef("Pod", "", owner)], [], [])
  }

  lemma PodNames(a: string, u: string, b: string, v: string)
    ensures PodRef(a, u).Human() == PodRef(b, v).Human() <==> a == b
    ensures PlainKind(PodRef(a, u))
  {
    var prefix := "Pod" + "/" + "n" + "/";
    assert PodRef(a, u).Human() == prefix + a && PodRef(b, v).Human() == prefix + b;
    assert (prefix + a)[|prefix|..] == a && (prefix + b)[|prefix|..] == b;
  }

  // The bound |R| + 1 is met: a self-owned pod targeted without its uid appears twice, in
  // every outcome there is.
  lemma BoundIsTight() returns (objs: seq<Object>, a: Action, c: seq<Ref>)
    ensures WellFormed(objs) && Agrees(objs, a.target)
    ensures ClosureOf(objs, a, Effects(a), c) && |c| == |objs| + 1
    ensures forall d :: ClosureOf(objs, a, Effects(a), d) ==> |d| == |objs| + 1
  {
    var o := PodObject("p", "u", "u");
    objs := [o];
    a := Action(Delete, PodRef("p", ""), true, None, None);
    PodNames("p", "u", "p", "");
    HumanIsNoUidKey(a.target, "u");
    c := [a.target, o.ref];
    assert Hits(OwnedBy("u"), o) by {
      assert o.owners[0].uid == "u";
    }
    assert o in objs;
    OwnRefLookup(objs, o);
    SelfOwnedOutcome(objs, a, Effects(a), o, c);
    forall d | ClosureOf(objs, a, Effects(a), d) ensures |d| == |objs| + 1 {
      ClosureBounded(objs, a, Effects(a), d);
      ClosureIsDeterministic(objs, a, Effects(a), c, d);
      AtLeastTwo(d, c[0], c[1]);
    }
  }

  lemma AtLeastTwo(d: seq<Ref>, x: Ref, y: Ref)
    requires x != y && x in d && y in d
    ensures |d| >= 2
  {
  }

  lemma SelfOwnedOutcome(objs: seq<Object>, a: Action, fx: EffectSet, o: Object, c: seq<Ref>)
    requires objs == [o] && Lookup(objs, a.target) == Some(o) && c == [a.target, o.ref]
    requires a.target.Human() == o.ref.Human() && a.target.Key() != o.ref.Key()
    requires fx.cascadeDelete && Hits(OwnedBy(o.ref.uid), o)
    ensures ClosureOf(objs, a, fx, c)
  {
    var e := Edges(objs, a, fx);
    assert o in objs;
    OnlyHit(objs, OwnedBy(o.ref.uid), o);
    forall x, y | e(x, y) ensures y == o.ref {
      EdgesNameObjects(objs, a, fx, x, y);
    }
    assert e(a.target, o.ref);
    PairExplored(e, a.target, o.ref);
    LeqTotal(o.ref.Human(), o.ref.Human());
    forall x, b | Binds(objs, x, b) ensures b == o.ref {
      BindersNameObjects(objs, x, b);
    }
    PairRecorded(objs, a.target, o.ref);
    PairListed(objs, a, fx, o.ref);
  }

  // A walk that finds two keys and nothing else.
  lemma PairExplored(e: (Ref, Ref) -> bool, x: Ref, y: Ref)
    requires x.Key() != y.Key() && e(x, y)
    requires forall z :: e(x, z) || e(y, z) ==> z.Key() == x.Key() || z.Key() == y.Key()
    ensures Explored(e, x, {x, y}, [])
  {
    var done := {x, y};
    assert x in done && y in done;
    Start(Among(e, done), x);
    Step(Among(e, done), x, x, y);
    forall v, z | v in done && e(v, z) ensures Expanded(done, z.Key()) {
      assert e(x, z) || e(y, z);
    }
  }

  function Pair(x: Ref, y: Ref): map<string, Ref> {
    map[x.Key() := x, y.Key() := y]
  }

  lemma PairRecorded(objs: seq<Object>, x: Ref, y: Ref)
    requires x.Key() != y.Key()
    requires forall v, b :: (v == x || v == y) && Binds(objs, v, b) ==> b == y
    ensures Recorded(objs, x, {x, y}, Pair(x, y))
  {
    forall b | BoundBy(objs, {x, y}, b) ensures b == y {
      var v :| v in {x, y} && Binds(objs, v, b);
    }
  }

  lemma PairListed(objs: seq<Object>, a: Action, fx: EffectSet, y: Ref)
    requires Lookup(objs, a.target).Some? && a.target.Key() != y.Key() && Before(a.target, y)
    requires Explored(Edges(objs, a, fx), a.target, {a.target, y}, [])
    requires Recorded(objs, a.target, {a.target, y}, Pair(a.target, y))
    ensures ClosureOf(objs, a, fx, [a.target, y])
  {
    var done, m := {a.target, y}, Pair(a.target, y);
    assert Walk(objs, a, fx, done, m) && Lists([a.target, y], m);
  }

  lemma OnlyHit(objs: seq<Object>, q: Query, o: Object)
    requires o in objs && forall p :: p in objs ==> (Hits(q, p) <==> p == o)
    ensures forall y :: y in Scan(objs, q) <==> y == o.ref
  {
    ScanFinds(objs, q);
    assert Found(objs, q, o.ref);
  }

  lemma NoHit(objs: seq<Object>, q: Query)
    requires forall p :: p in objs ==> !Hits(q, p)
    ensures Scan(objs, q) == []
  {
    ScanFinds(objs, q);
    EmptyWithoutMembers(Scan(objs, q));
  }

  lemma {:induction false} HitAt(objs: seq<Object>, q: Query, i: nat)
    requires i < |objs| && forall j :: 0 <= j < |objs| ==> (Hits(q, objs[j]) <==> j == i)
    ensures Scan(objs, q) == [objs[i].ref]
  {
    var init := objs[..|objs| - 1];
    if i < |init| {
      HitAt(init, q, i);
    } else {
      NoHit(init, q);
    }
  }

  // ----- duplicate uids

  // With the fewer effects d leads to p alone, which s binds.
  ghost predicate Weaker(objs: seq<Object>, a: Action, d: Ref, p: Ref, s: Ref) {
    && a.target == d && Lookup(objs, d).Some?
    && (forall y :: Edge(objs, a, Effects(a), d, y) <==> y == p) && (forall y :: !Edge(objs, a, Effects(a), p, y))
    && Binds(objs, p, s)
  }

  // With the more effects d queues c and then p.
  ghost predicate Stronger(objs: seq<Object>, b: Action, d: Ref, c: Ref, p: Ref) {
    && b.target == d && Lookup(objs, d).Some?
    && !Effects(b).mutateSelector && !Effects(b).mutateLabels
    && QueuedFirst(objs, Effects(b), d) == [c, p] && QueuedFirst(objs, Effects(b), c) == []
    && Binders(objs, d) == [] && Binders(objs, c) == []
  }

  // c and p share a key; s, d and c differ.
  ghost predicate Keyings(objs: seq<Object>, d: Ref, c: Ref, p: Ref, s: Ref) {
    && c.Key() == p.Key() && d.Key() != c.Key() && Before(d, c)
    && (forall r: Ref :: r.Key() == s.Key() && (IsObjectRef(objs, r) || r == d) ==> r == s)
    && s != d && s != c
  }

  // Without mutations a turn is determined.
  function NextState(objs: seq<Object>, fx: EffectSet, s: RunState): RunState
    requires |s.queue| > 0
  {
    if s.queue[0].Key() in s.visited then Skipped(s) else Visited(objs, s, QueuedFirst(objs, fx, s.queue[0]))
  }

  lemma TurnIsNext(objs: seq<Object>, a: Action, fx: EffectSet, s: RunState, t: RunState)
    requires !fx.mutateSelector && !fx.mutateLabels
    ensures Turn(objs, a, fx, s, t) <==> |s.queue| > 0 && t == NextState(objs, fx, s)
  {
    if |s.queue| > 0 {
      var cur := s.queue[0];
      var first := QueuedFirst(objs, fx, cur);
      assert first + [] + [] == first;
      forall next ensures Queues(objs, a, fx, cur, next) <==> next == first {
        if next == first {
          assert Listed(false, ReboundMap(objs, a), []) && Listed(false, RelabelledMap(objs, a), []);
        }
      }
    }
  }

  // The states of the run with more effects, in order.
  function StateOf(d: Ref, c: Ref, p: Ref, i: nat): RunState {
    if i == 0 then Initial(d)
    else if i == 1 then RunState({d.Key()}, [c, p], map[d.Key() := d])
    else RunState({d.Key(), c.Key()}, if i == 2 then [p] else [], Pair(d, c))
  }

  lemma StateFollows(objs: seq<Object>, b: Action, d: Ref, c: Ref, p: Ref, i: nat)
    requires Stronger(objs, b, d, c, p) && c.Key() == p.Key() && d.Key() != c.Key() && i < 3
    ensures |StateOf(d, c, p, i).queue| > 0
    ensures NextState(objs, Effects(b), StateOf(d, c, p, i)) == StateOf(d, c, p, i + 1)
  {
    var t := StateOf(d, c, p, i);
    assert t.queue[1..] == if i == 1 then [p] else [];
    assert [] + [c, p] == [c, p] && [p] + [] == [p];
  }

  // The run with more effects returns d and c, and nothing else.
  lemma StrongerRun(objs: seq<Object>, b: Action, d: Ref, c: Ref, p: Ref)
    requires Stronger(objs, b, d, c, p) && c.Key() == p.Key() && d.Key() != c.Key() && Before(d, c)
    ensures RunOf(objs, b, Effects(b), [d, c])
  {
    StrongerRunEnds(objs, b, d, c, p);
    assert Lists([d, c], StateOf(d, c, p, 3).affected);
  }

  lemma StrongerRunOnly(objs: seq<Object>, b: Action, d: Ref, c: Ref, p: Ref, e: seq<Ref>)
    requires Stronger(objs, b, d, c, p) && c.Key() == p.Key() && d.Key() != c.Key()
    requires RunOf(objs, b, Effects(b), e)
    ensures forall r :: r in e ==> r == d || r == c
  {
    var t :| RunsTo(objs, b, Effects(b), t) && t.queue == [] && Lists(e, t.affected);
    StrongerStates(objs, b, d, c, p, t);
    assert t.affected == Pair(d, c);
  }

  ghost predicate IsStateOf(d: Ref, c: Ref, p: Ref, t: RunState) {
    exists i: nat :: i <= 3 && t == StateOf(d, c, p, i)
  }

  lemma StrongerStates(objs: seq<Object>, b: Action, d: Ref, c: Ref, p: Ref, t: RunState)
    requires Stronger(objs, b, d, c, p) && c.Key() == p.Key() && d.Key() != c.Key()
    requires RunsTo(objs, b, Effects(b), t)
    ensures IsStateOf(d, c, p, t)
  {
    assert IsStateOf(d, c, p, StateOf(d, c, p, 0));
    forall x, y | IsStateOf(d, c, p, x) && Turns(objs, b, Effects(b))(x, y) ensures IsStateOf(d, c, p, y) {
      var i: nat :| i <= 3 && x == StateOf(d, c, p, i);
      TurnIsNext(objs, b, Effects(b), x, y);
      StateFollows(objs, b, d, c, p, i);
    }
    Invariant(Turns(objs, b, Effects(b)), Initial(d), (x: RunState) => IsStateOf(d, c, p, x), t);
  }

  lemma StrongerRunEnds(objs: seq<Object>, b: Action, d: Ref, c: Ref, p: Ref)
    requires Stronger(objs, b, d, c, p) && c.Key() == p.Key() && d.Key() != c.Key()
    ensures RunsTo(objs, b, Effects(b), StateOf(d, c, p, 3))
  {
    var e := Turns(objs, b, Effects(b));
    Start(e, Initial(d));
    for i := 0 to 3
      invariant Reach(e, Initial(d), StateOf(d, c, p, i))
    {
      StateFollows(objs, b, d, c, p, i);
      TurnIsNext(objs, b, Effects(b), StateOf(d, c, p, i), StateOf(d, c, p, i + 1));
      Step(e, Initial(d), StateOf(d, c, p, i), StateOf(d, c, p, i + 1));
    }
  }

  lemma WeakerKeeps(objs: seq<Object>, a: Action, d: Ref, c: Ref, p: Ref, s: Ref, f: seq<Ref>)
    requires Weaker(objs, a, d, p, s) && Keyings(objs, d, c, p, s) && ClosureOf(objs, a, Effects(a), f)
    ensures s in f
  {
    var done, m :| Walk(objs, a, Effects(a), done, m) && Lists(f, m);
    FollowsOnly(Edges(objs, a, Effects(a)), d, p, done);
    assert BoundBy(objs, done, s);
    var t: Ref := m[s.Key()];
    assert t.Key() == s.Key() && t in f;
    MemberIsTracked(objs, a, Effects(a), f, t);
  }

  lemma FollowsOnly(e: (Ref, Ref) -> bool, d: Ref, p: Ref, done: set<Ref>)
    requires d in done && Explored(e, d, done, [])
    requires e(d, p) && forall y :: (e(d, y) ==> y == p) && !e(p, y)
    requires d.Key() != p.Key()
    ensures p in done
  {
    assert !HasKey([], p.Key());
    var q: Ref :| q in done && q.Key() == p.Key();
    ExpandedIsReached(e, d, done, []);
    Invariant(e, d, (r: Ref) => r == d || r == p, q);
  }

  const APP := LabelSelector(Some(map["app" := "x"]), [])

  function Thing(kind: string, name: string, uid: string, labels: map<string, string>, selector: LabelSelector,
                 owners: seq<OwnerRef>): Object {
    Object(Ref(GVK("", "", kind), "n", name, uid), labels, selector, owners, [], [])
  }

  // A deployment that selects the pod p and owns the replica set c, which carries p's uid;
  // the service s binds p.
  ghost predicate Quartet(objs: seq<Object>, d: Object, c: Object, p: Object, s: Object) {
    && objs == [d, c, p, s]
    && d == Thing("Deployment", "d", "1", map[], APP, [])
    && c == Thing("ReplicaSet", "c", "2", map[], NIL_SELECTOR, [OwnerRef("Deployment", "d", "1")])
    && p == Thing("Pod", "p", "2", map["app" := "x"], NIL_SELECTOR, [])
    && s == Thing("Service", "s", "3", map[], APP, [])
  }

  lemma QuartetKeys(objs: seq<Object>, d: Object, c: Object, p: Object, s: Object)
    requires Quartet(objs, d, c, p, s)
    ensures Lookup(objs, d.ref) == Some(d) && Lookup(objs, c.ref) == Some(p) && Lookup(objs, p.ref) == Some(p)
    ensures d.ref.Key() != c.ref.Key() && c.ref.Key() == p.ref.Key() && Before(d.ref, c.ref)
    ensures Keyings(objs, d.ref, c.ref, p.ref, s.ref)
  {
    assert "1"[0] != "2"[0] && "1"[0] != "3"[0] && "2"[0] != "3"[0];
    assert d in objs && c in objs && p in objs && s in objs;
    assert d.ref.Key()[4] == '1' && c.ref.Key()[4] == p.ref.Key()[4] == '2' && s.ref.Key()[4] == '3';
    assert d.ref.Human()[0] == 'D' && c.ref.Human()[0] == 'R';
  }

  lemma QuartetOwned(objs: seq<Object>, d: Object, c: Object, p: Object, s: Object)
    requires Quartet(objs, d, c, p, s)
    ensures Scan(objs, OwnedBy("1")) == [c.ref] && Scan(objs, OwnedBy("2")) == []
  {
    assert "1"[0] != "2"[0];
    assert c.owners[0].uid == "1";
    HitAt(objs, OwnedBy("1"), 1);
    NoHit(objs, OwnedBy("2"));
  }

  lemma QuartetKinds(objs: seq<Object>, d: Object, c: Object, p: Object, s: Object)
    requires Quartet(objs, d, c, p, s)
    ensures d.ref.gvk.kind != "Pod" && c.ref.gvk.kind != "Pod" && s.ref.gvk.kind != "Pod" && p.ref.gvk.kind == "Pod"
    ensures "Pod" !in WORKLOAD_KINDS && s.ref.gvk.kind in SELECTOR_KINDS
    ensures d.ref.gvk.kind in WORKLOAD_KINDS && c.ref.gvk.kind in WORKLOAD_KINDS
    ensures Plain(objs)
  {
    assert |"Pod"| < |"Service"| < |"Deployment"| == |"ReplicaSet"| && |"Pod"| < |"DaemonSet"| < |"StatefulSet"|;
  }

  lemma QuartetPods(objs: seq<Object>, d: Object, c: Object, p: Object, s: Object)
    requires Quartet(objs, d, c, p, s)
    ensures Scan(objs, PodsBound("n", APP, "Deployment")) == [p.ref]
    ensures Scan(objs, PodsBound("n", NIL_SELECTOR, "Pod")) == []
  {
    QuartetKinds(objs, d, c, p, s);
    assert APP.Pairs() == p.labels && "app" in APP.Pairs();
    assert SelectorBinds("Deployment", APP, p.labels);
    HitAt(objs, PodsBound("n", APP, "Deployment"), 2);
    NoHit(objs, PodsBound("n", NIL_SELECTOR, "Pod"));
  }

  lemma QuartetService(objs: seq<Object>, d: Object, c: Object, p: Object, s: Object)
    requires Quartet(objs, d, c, p, s)
    ensures s.ref in Scan(objs, SelectorsBinding("n", p.labels))
  {
    QuartetKinds(objs, d, c, p, s);
    assert APP.Pairs() == p.labels && "app" in APP.Pairs();
    assert SelectorBinds(s.ref.gvk.kind, APP, p.labels) && s in objs;
    ScanFinds(objs, SelectorsBinding("n", p.labels));
    assert Found(objs, SelectorsBinding("n", p.labels), s.ref);
  }

  lemma DeploymentDelete(t: Ref, cascade: bool)
    requires t.gvk.kind == "Deployment"
    ensures Effects(Action(Delete, t, cascade, None, None)) == NO_EFFECTS.(cascadeDelete := cascade, disruptive := true)
  {
    assert "Deployment"[0] != "Namespace"[0];
    assert |"Secret"| < |"ConfigMap"| < |"Deployment"| < |"PersistentVolumeClaim"|;
  }

  // What a delete queues at a workload.
  lemma WorkloadQueues(objs: seq<Object>, fx: EffectSet, x: Ref)
    requires fx == NO_EFFECTS.(cascadeDelete := true, disruptive := true) && x.gvk.kind in WORKLOAD_KINDS
    ensures QueuedFirst(objs, fx, x) == Children(objs, x) + SelectedPods(objs, x)
  {
  }

  lemma QuartetWeaker(objs: seq<Object>, d: Object, c: Object, p: Object, s: Object, a: Action)
    requires Quartet(objs, d, c, p, s) && a == Action(Delete, d.ref, false, None, None)
    ensures Weaker(objs, a, d.ref, p.ref, s.ref)
  {
    QuartetKeys(objs, d, c, p, s);
    QuartetPods(objs, d, c, p, s);
    QuartetService(objs, d, c, p, s);
    QuartetKinds(objs, d, c, p, s);
    DeploymentDelete(d.ref, false);
  }

  lemma QuartetStronger(objs: seq<Object>, d: Object, c: Object, p: Object, s: Object, b: Action)
    requires Quartet(objs, d, c, p, s) && b == Action(Delete, d.ref, true, None, None)
    ensures Stronger(objs, b, d.ref, c.ref, p.ref)
  {
    QuartetKeys(objs, d, c, p, s);
    QuartetOwned(objs, d, c, p, s);
    QuartetPods(objs, d, c, p, s);
    QuartetKinds(objs, d, c, p, s);
    DeploymentDelete(d.ref, true);
    WorkloadQueues(objs, Effects(b), d.ref);
    WorkloadQueues(objs, Effects(b), c.ref);
  }

  // Without well-formedness a stronger verb can lose a member: every run of the cascading
  // delete expands the replica set first, skips the pod under its key, and so never finds
  // the service that every run of the non-cascading one returns.
  lemma CascadeLosesAMember() returns (objs: seq<Object>, a: Action, b: Action, r: Ref, e: seq<Ref>)
    ensures Plain(objs) && Strengthens(a, b) && IsObjectRef(objs, a.target)
    ensures forall f :: RunOf(objs, a, Effects(a), f) ==> r in f
    ensures forall f :: RunOf(objs, b, Effects(b), f) ==> r !in f
    ensures RunOf(objs, b, Effects(b), e)
  {
    var d := Thing("Deployment", "d", "1", map[], APP, []);
    var c := Thing("ReplicaSet", "c", "2", map[], NIL_SELECTOR, [OwnerRef("Deployment", "d", "1")]);
    var p := Thing("Pod", "p", "2", map["app" := "x"], NIL_SELECTOR, []);
    var s := Thing("Service", "s", "3", map[], APP, []);
    objs, a, b := [d, c, p, s], Action(Delete, d.ref, false, None, None), Action(Delete, d.ref, true, None, None);
    r, e := s.ref, [d.ref, c.ref];
    assert d in objs;
    QuartetKinds(objs, d, c, p, s);
    QuartetKeys(objs, d, c, p, s);
    QuartetWeaker(objs, d, c, p, s, a);
    QuartetStronger(objs, d, c, p, s, b);
    StrongerRun(objs, b, d.ref, c.ref, p.ref);
    forall f | RunOf(objs, a, Effects(a), f) ensures r in f {
      RunIsOutcome(objs, a, Effects(a), f);
      WeakerKeeps(objs, a, d.ref, c.ref, p.ref, s.ref, f);
    }
    forall f | RunOf(objs, b, Effects(b), f) ensures r !in f {
      StrongerRunOnly(objs, b, d.ref, c.ref, p.ref, f);
    }
  }

  // ----- an ousted target

  // Nothing but the target is affected, and nothing covers it.
  lemma AloneIsBlocked(objs: seq<Object>, glob: Glob, a: Action, scope: seq<ScopeClause>, d: Decision)
    requires WellFormed(objs) && Lookup(objs, a.target).Some?
    requires forall y :: !Edge(objs, a, Effects(a), a.target, y) && !Binds(objs, a.target, y)
    requires !CoveredByMemo(objs, glob, scope, a.target)
    requires SafeDecision(objs, glob, a, scope, d)
    ensures d.verdict.Block?
  {
    var e := OpenEdges(objs, a, Effects(a));
    Start(e, a.target);
    forall x | Expands(objs, a, Effects(a), x) ensures x == a.target {
      Invariant(e, a.target, (x: Ref) => x == a.target, x);
    }
    DecisionMembers(objs, glob, a, scope, d, a.target);
    assert a.target in d.escaping;
  }

  // The target leads to p alone, and p's one binder o carries the target's key: the members
  // are o and p.
  lemma OustedIsAllowed(objs: seq<Object>, glob: Glob, b: Action, scope: seq<ScopeClause>, e: Decision, o: Ref, p: Ref)
    requires WellFormed(objs) && Lookup(objs, b.target).Some? && Externals(b) == []
    requires forall y :: (Edge(objs, b, Effects(b), b.target, y) <==> y == p) && !Edge(objs, b, Effects(b), p, y)
    requires forall y :: !Binds(objs, b.target, y) && (Binds(objs, p, y) <==> y == o)
    requires o.Key() == b.target.Key() && o != b.target && p.Key() != b.target.Key()
    requires CoveredByMemo(objs, glob, scope, o) && CoveredByMemo(objs, glob, scope, p)
    requires SafeDecision(objs, glob, b, scope, e)
    ensures e.verdict.Allow?
  {
    forall r ensures r !in e.escaping {
      DecisionMembers(objs, glob, b, scope, e, r);
      if Affected(objs, b, Effects(b), r) {
        OustedMember(objs, b, Effects(b), o, p, r);
      }
    }
    EmptyWithoutMembers(e.escaping);
  }

  lemma OustedMember(objs: seq<Object>, b: Action, fx: EffectSet, o: Ref, p: Ref, r: Ref)
    requires forall y :: (Edge(objs, b, fx, b.target, y) <==> y == p) && !Edge(objs, b, fx, p, y)
    requires forall y :: !Binds(objs, b.target, y) && (Binds(objs, p, y) <==> y == o)
    requires o.Key() == b.target.Key() && o != b.target && p.Key() != b.target.Key()
    requires Affected(objs, b, fx, r)
    ensures r == o || r == p
  {
    forall x | Expands(objs, b, fx, x) ensures x == b.target || x == p {
      Invariant(OpenEdges(objs, b, fx), b.target, (x: Ref) => x == b.target || x == p, x);
    }
    OustedTarget(objs, b, fx, o, p);
  }

  lemma OustedTarget(objs: seq<Object>, b: Action, fx: EffectSet, o: Ref, p: Ref)
    requires Edge(objs, b, fx, b.target, p) && Binds(objs, p, o)
    requires o.Key() == b.target.Key() && o != b.target && p.Key() != b.target.Key()
    ensures Ousted(objs, b, fx)
  {
    var g := OpenEdges(objs, b, fx);
    Start(g, b.target);
    Step(g, b.target, b.target, p);
    assert Attracts(objs, b, fx, o);
  }

  // A service of version v1 that selects the pod p, which it owns; the target names it
  // without its version.
  ghost predicate Versioned(objs: seq<Object>, o: Object, p: Object, t: Ref) {
    && objs == [o, p]
    && o == Thing("Service", "s", "1", map[], APP, []).(ref := Ref(GVK("", "v1", "Service"), "n", "s", "1"))
    && p == Thing("Pod", "p", "2", map["app" := "x"], NIL_SELECTOR, [OwnerRef("Service", "s", "1")])
    && t == Ref(GVK("", "", "Service"), "n", "s", "1")
  }

  lemma VersionedNames(objs: seq<Object>, o: Object, p: Object, t: Ref)
    requires Versioned(objs, o, p, t)
    ensures o.ref.Key() == t.Key() && o.ref != t && p.ref.Key() != t.Key()
    ensures o.ref.Human() == t.Human() != p.ref.Human() && o.ref.uid == t.uid != p.ref.uid
    ensures Plain(objs)
  {
    assert "1"[0] != "2"[0] && |"v1"| > |""|;
    assert o.ref.Human()[0] == 'S' && p.ref.Human()[0] == 'P';
    assert t.Key()[4] == '1' && p.ref.Key()[4] == '2';
  }

  lemma VersionedShape(objs: seq<Object>, o: Object, p: Object, t: Ref)
    requires Versioned(objs, o, p, t)
    ensures WellFormed(objs) && WellFormed([o]) && Extends([o], objs, t)
    ensures Lookup(objs, t) == Some(o) && Lookup([o], t) == Some(o) && Lookup(objs, p.ref) == Some(p)
    ensures o.ref.Key() == t.Key() && o.ref != t && p.ref.Key() != t.Key()
  {
    VersionedNames(objs, o, p, t);
    assert o in objs && p in objs && o in [o];
    OwnRefLookup(objs, p);
  }

  lemma VersionedOwned(objs: seq<Object>, o: Object, p: Object, t: Ref)
    requires Versioned(objs, o, p, t)
    ensures Scan(objs, OwnedBy("1")) == [p.ref] && Scan(objs, OwnedBy("2")) == []
    ensures Scan([o], OwnedBy("1")) == []
  {
    assert "1"[0] != "2"[0] && p.owners[0].uid == "1";
    HitAt(objs, OwnedBy("1"), 1);
    NoHit(objs, OwnedBy("2"));
    NoHit([o], OwnedBy("1"));
  }

  lemma VersionedBound(objs: seq<Object>, o: Object, p: Object, t: Ref)
    requires Versioned(objs, o, p, t)
    ensures Scan(objs, SelectorsBinding("n", p.labels)) == [o.ref]
  {
    VersionedKinds(objs, o, p, t);
    assert APP.Pairs() == p.labels && "app" in APP.Pairs();
    assert SelectorBinds("Service", APP, p.labels);
    HitAt(objs, SelectorsBinding("n", p.labels), 0);
  }

  lemma VersionedKinds(objs: seq<Object>, o: Object, p: Object, t: Ref)
    requires Versioned(objs, o, p, t)
    ensures t.gvk.kind == o.ref.gvk.kind == "Service" && p.ref.gvk.kind == "Pod" && "Pod" != "Service"
    ensures "Service" !in MOUNTABLE_KINDS && "Service" !in WORKLOAD_KINDS && "Service" != "Namespace"
    ensures "Service" in SELECTOR_KINDS && "Pod" !in SELECTOR_KINDS
  {
    assert "Service"[0] != "Pod"[0];
    assert |"Secret"| < |"Service"| < |"Namespace"| && |"Service"| < |"DaemonSet"| < |"Deployment"|;
    assert |"Pod"| < |"Service"| < |"NetworkPolicy"| < |"PodDisruptionBudget"|;
  }

  // What the two deletes follow and bind.
  lemma VersionedEdges(objs: seq<Object>, o: Object, p: Object, t: Ref, a: Action)
    requires Versioned(objs, o, p, t) && a.target == t
    ensures forall y :: !Edge(objs, a, NO_EFFECTS, t, y) && !Edge([o], a, ONLY_CASCADE, t, y)
    ensures forall y :: (Edge(objs, a, ONLY_CASCADE, t, y) <==> y == p.ref) && !Edge(objs, a, ONLY_CASCADE, p.ref, y)
    ensures forall y :: !Binds(objs, t, y) && !Binds([o], t, y) && (Binds(objs, p.ref, y) <==> y == o.ref)
  {
    VersionedShape(objs, o, p, t);
    VersionedKinds(objs, o, p, t);
    VersionedOwned(objs, o, p, t);
    VersionedBound(objs, o, p, t);
  }

  // On a well-formed inventory a target that lacks its object's version can be ousted by
  // that object's own ref.  The non-cascading delete is blocked and the cascading one
  // allowed; and so is the cascading one blocked on a smaller read and allowed on a larger.
  lemma TargetCanBeOusted()
    returns (objs: seq<Object>, fewer: seq<Object>, a: Action, b: Action, scope: seq<ScopeClause>)
    ensures WellFormed(objs) && Agrees(objs, a.target) && Strengthens(a, b) && Extends(fewer, objs, a.target)
    ensures forall glob: Glob, d | glob("s", "s") && glob("p", "p") ::
      && (SafeDecision(objs, glob, a, scope, d) ==> d.verdict.Block?)
      && (SafeDecision(objs, glob, b, scope, d) ==> d.verdict.Allow?)
      && (SafeDecision(fewer, glob, b, scope, d) ==> d.verdict.Block?)
  {
    var o := Thing("Service", "s", "1", map[], APP, []).(ref := Ref(GVK("", "v1", "Service"), "n", "s", "1"));
    var p := Thing("Pod", "p", "2", map["app" := "x"], NIL_SELECTOR, [OwnerRef("Service", "s", "1")]);
    var t := Ref(GVK("", "", "Service"), "n", "s", "1");
    objs, fewer := [o, p], [o];
    a, b := Action(Delete, t, false, None, None), Action(Delete, t, true, None, None);
    scope := [ResourceClause(o.ref.gvk, "n", "s"), ResourceClause(p.ref.gvk, "n", "p")];
    VersionedShape(objs, o, p, t);
    forall glob: Glob, d | glob("s", "s") && glob("p", "p")
      ensures SafeDecision(objs, glob, a, scope, d) ==> d.verdict.Block?
      ensures SafeDecision(objs, glob, b, scope, d) ==> d.verdict.Allow?
      ensures SafeDecision(fewer, glob, b, scope, d) ==> d.verdict.Block?
    {
      VersionedVerdicts(objs, glob, o, p, t, scope, d);
    }
  }

  lemma VersionedVerdicts(objs: seq<Object>, glob: Glob, o: Object, p: Object, t: Ref,
                          scope: seq<ScopeClause>, d: Decision)
    requires Versioned(objs, o, p, t) && glob("s", "s") && glob("p", "p")
    requires scope == [ResourceClause(o.ref.gvk, "n", "s"), ResourceClause(p.ref.gvk, "n", "p")]
    ensures var a, b := Action(Delete, t, false, None, None), Action(Delete, t, true, None, None);
      && (SafeDecision(objs, glob, a, scope, d) ==> d.verdict.Block?)
      && (SafeDecision(objs, glob, b, scope, d) ==> d.verdict.Allow?)
      && (SafeDecision([o], glob, b, scope, d) ==> d.verdict.Block?)
  {
    var a, b := Action(Delete, t, false, None, None), Action(Delete, t, true, None, None);
    VersionedShape(objs, o, p, t);
    VersionedEffects(objs, o, p, t, a, b);
    VersionedEdges(objs, o, p, t, a);
    VersionedEdges(objs, o, p, t, b);
    VersionedCover(objs, glob, o, p, t, scope);
    VersionedCover([o], glob, o, p, t, scope);
    if SafeDecision(objs, glob, a, scope, d) { AloneIsBlocked(objs, glob, a, scope, d); }
    if SafeDecision([o], glob, b, scope, d) { AloneIsBlocked([o], glob, b, scope, d); }
    if SafeDecision(objs, glob, b, scope, d) { OustedIsAllowed(objs, glob, b, scope, d, o.ref, p.ref); }
  }

  lemma VersionedEffects(objs: seq<Object>, o: Object, p: Object, t: Ref, a: Action, b: Action)
    requires Versioned(objs, o, p, t)
    requires a == Action(Delete, t, false, None, None) && b == a.(cascade := true)
    ensures Effects(a) == NO_EFFECTS && Effects(b) == ONLY_CASCADE
  {
    VersionedKinds(objs, o, p, t);
  }

  lemma VersionedCover(objs: seq<Object>, glob: Glob, o: Object, p: Object, t: Ref, scope: seq<ScopeClause>)
    requires Versioned([o, p], o, p, t) && glob("s", "s") && glob("p", "p")
    requires scope == [ResourceClause(o.ref.gvk, "n", "s"), ResourceClause(p.ref.gvk, "n", "p")]
    ensures CoveredByMemo(objs, glob, scope, o.ref) && CoveredByMemo(objs, glob, scope, p.ref)
    ensures !CoveredByMemo(objs, glob, scope, t)
  {
    assert "Service"[0] != "Pod"[0] && |"v1"| == 2;
    assert scope[0] in scope && MemoCovers(objs, glob, scope, scope[0], o.ref);
    assert scope[1] in scope && MemoCovers(objs, glob, scope, scope[1], p.ref);
  }

  // Two roots with one untracked uid share a memo entry though they name different pods:
  // the declared scope covers the second pod, the memo does not.
  lemma MemoCanMislead() returns (objs: seq<Object>, scope: seq<ScopeClause>, r: Ref)
    ensures WellFormed(objs) && IsObjectRef(objs, r)
    ensures forall glob: Glob :: Covered(objs, glob, scope, r) && !CoveredByMemo(objs, glob, scope, r)
  {
    var p, q := PodObject("a", "1", ""), PodObject("b", "2", "");
    var x, y := PodRef("a", "3"), PodRef("b", "3");
    objs, scope, r := [p, q], [OwnershipClause(x), OwnershipClause(y)], q.ref;
    TwoPods(objs, p, q);
    assert q in objs;
    assert Lookup(objs, x) == Some(p) && Lookup(objs, y) == Some(q);
    NoChildren(objs, x, p);
    NoChildren(objs, y, q);
    assert r.Key() != p.ref.Key() && r.Key() != x.Key() by {
      assert r.Key()[4] == '2' && p.ref.Key()[4] == '1' && x.Key()[4] == '3';
    }
    assert FirstRoot(scope, x.Key()) == Some(x);
    assert scope[1] in scope && scope[1].root == y;
    forall glob: Glob ensures Covered(objs, glob, scope, r) && !CoveredByMemo(objs, glob, scope, r) {
      assert ClauseCovers(objs, glob, scope[1], r);
      forall sc | sc in scope ensures !MemoCovers(objs, glob, scope, sc, r) {
        assert sc.root.Key() == x.Key() && MemoRoot(scope, sc) == x;
      }
    }
  }

  lemma TwoPods(objs: seq<Object>, p: Object, q: Object)
    requires p == PodObject("a", "1", "") && q == PodObject("b", "2", "") && objs == [p, q]
    ensures WellFormed(objs)
    ensures Lookup(objs, PodRef("a", "3")) == Some(p) && Lookup(objs, PodRef("b", "3")) == Some(q)
  {
    assert "a"[0] != "b"[0] && "1"[0] != "2"[0] && "3"[0] != "1"[0] && "3"[0] != "2"[0];
    DistinctPods(objs);
    PodNames("a", "3", "b", "2");
    PodNames("a", "3", "a", "1");
    PodNames("b", "3", "b", "2");
    assert objs[..1] == [p] && objs[..1][..0] == [];
  }

  // A root whose object owns nothing has a subtree of at most two keys.
  lemma NoChildren(objs: seq<Object>, root: Ref, o: Object)
    requires Lookup(objs, root) == Some(o) && forall p :: p in objs ==> p.owners == []
    ensures forall k :: InSubtree(objs, root, k) <==> k == root.Key() || k == o.ref.Key()
  {
    Start(OwnEdges(objs), o.ref);
    forall y | Owned(objs, root, y) ensures y == o.ref {
      forall x, z ensures !OwnEdges(objs)(x, z) {
        if Lookup(objs, x).Some? {
          ScanFinds(objs, OwnedBy(Lookup(objs, x).value.ref.uid));
        }
      }
      Invariant(OwnEdges(objs), o.ref, (x: Ref) => x == o.ref, y);
    }
  }

  // With an ownership clause an escape can vanish from a larger read: the new pod m links
  // the escaping pod p to the authorised root d.
  lemma OwnershipEscapeCanVanish() returns (objs: seq<Object>, more: seq<Object>, a: Action, scope: seq<ScopeClause>)
    ensures Extends(objs, more, a.target) && IsObjectRef(objs, a.target)
    ensures InClosure(objs, a, Effects(a), a.target) && InClosure(more, a, Effects(a), a.target)
    ensures forall glob: Glob :: !Covered(objs, glob, scope, a.target) && Covered(more, glob, scope, a.target)
  {
    var d, p, m := PodObject("d", "1", ""), PodObject("p", "2", "3"), PodObject("m", "3", "1");
    objs, more := [d, p], [d, p, m];
    a := Action(OtherVerb(""), p.ref, false, None, None);
    scope := [OwnershipClause(d.ref)];
    ThreePods(d, p, m);
    assert p in objs && p in more && p.ref.gvk.kind == d.ref.gvk.kind == m.ref.gvk.kind == "Pod";
    OwnTarget(objs, a, p);
    OwnTarget(more, a, p);
    Unlinked(objs, d, p);
    Linked(more, d, p, m);
    forall glob: Glob ensures !Covered(objs, glob, scope, p.ref) && Covered(more, glob, scope, p.ref) {
      OwnershipScopeMeans(objs, glob, d.ref, p.ref);
      OwnershipScopeMeans(more, glob, d.ref, p.ref);
    }
  }

  lemma ThreePods(d: Object, p: Object, m: Object)
    requires d == PodObject("d", "1", "") && p == PodObject("p", "2", "3") && m == PodObject("m", "3", "1")
    ensures WellFormed([d, p]) && WellFormed([d, p, m])
    ensures m.ref.uid != p.ref.uid && m.ref.Human() != p.ref.Human()
  {
    assert "d"[0] != "p"[0] && "p"[0] != "m"[0] && "d"[0] != "m"[0];
    assert "1"[0] != "2"[0] && "2"[0] != "3"[0] && "1"[0] != "3"[0];
    DistinctPods([d, p]);
    DistinctPods([d, p, m]);
    PodNames("m", "3", "p", "2");
  }

  // Pods with different names and uids make a well-formed inventory.
  lemma DistinctPods(objs: seq<Object>)
    requires forall o :: o in objs ==> o.ref == PodRef(o.ref.name, o.ref.uid)
    requires forall o, p :: o in objs && p in objs ==> o == p || (o.ref.name != p.ref.name && o.ref.uid != p.ref.uid)
    ensures WellFormed(objs)
  {
    forall o, p | o in objs && p in objs && o.ref.Human() == p.ref.Human() ensures o == p {
      PodNames(o.ref.name, o.ref.uid, p.ref.name, p.ref.uid);
    }
  }

  // An action without effects on a pod nothing binds has that pod as its only member.
  lemma OwnTarget(objs: seq<Object>, a: Action, p: Object)
    requires p in objs && a.target == p.ref && forall o :: o in objs ==> o.ref.gvk.kind == "Pod"
    ensures InClosure(objs, a, Effects(a), a.target)
  {
    Start(Edges(objs, a, Effects(a)), a.target);
    assert |"Pod"| < |"Service"| < |"NetworkPolicy"| < |"PodDisruptionBudget"|;
    forall q: Query { ScanFinds(objs, q); }
    assert forall x, b :: !Binds(objs, x, b);
  }

  lemma Linked(more: seq<Object>, d: Object, p: Object, m: Object)
    requires d == PodObject("d", "1", "") && p == PodObject("p", "2", "3") && m == PodObject("m", "3", "1")
    requires more == [d, p, m] && WellFormed(more)
    ensures InSubtree(more, d.ref, p.ref.Key())
  {
    assert d in more && m in more && p in more;
    OwnRefLookup(more, d);
    OwnRefLookup(more, m);
    var e := OwnEdges(more);
    ScanFinds(more, OwnedBy("1"));
    ScanFinds(more, OwnedBy("3"));
    assert m.owners[0].uid == "1" && p.owners[0].uid == "3";
    assert Found(more, OwnedBy("1"), m.ref) && Found(more, OwnedBy("3"), p.ref);
    Start(e, d.ref);
    Step(e, d.ref, d.ref, m.ref);
    Step(e, d.ref, m.ref, p.ref);
    assert Owned(more, d.ref, p.ref);
  }

  lemma Unlinked(objs: seq<Object>, d: Object, p: Object)
    requires d == PodObject("d", "1", "") && p == PodObject("p", "2", "3")
    requires objs == [d, p] && WellFormed(objs)
    ensures !InSubtree(objs, d.ref, p.ref.Key())
  {
    assert d in objs;
    OwnRefLookup(objs, d);
    ScanFinds(objs, OwnedBy("1"));
    assert "1"[0] != "3"[0];
    assert forall y :: y !in Children(objs, d.ref);
    forall y | Owned(objs, d.ref, y) ensures y == d.ref {
      Invariant(OwnEdges(objs), d.ref, (x: Ref) => x == d.ref, y);
    }
    assert d.ref.Key()[4] == '1' && p.ref.Key()[4] == '2';
  }
}
