// closure/closure.go: the affected-resource closure, as a relation and as the worklist.
module Closures {
  import opened Prelude
  import opened Model
  import opened Inventory
  import opened Classification
  import opened ScanStates
  import opened Sorting
  import opened Graph
  import opened Worklist

  // ----- the relation the walk follows

  // The pods a selector mutation of the target binds before or after.
  ghost predicate Rebinds(objs: seq<Object>, a: Action, y: Ref) {
    || (a.old_.Some? && y in Scan(objs, PodsBound(a.target.namespace, a.old_.value.selector, a.target.gvk.kind)))
    || (a.new_.Some? && y in Scan(objs, PodsBound(a.target.namespace, a.new_.value.selector, a.target.gvk.kind)))
  }

  // The binders of the target's labels before or after a label mutation.
  ghost predicate Relabels(objs: seq<Object>, a: Action, y: Ref) {
    || (a.old_.Some? && y in Scan(objs, SelectorsBinding(a.target.namespace, a.old_.value.labels)))
    || (a.new_.Some? && y in Scan(objs, SelectorsBinding(a.target.namespace, a.new_.value.labels)))
  }

  // y is queued when x is expanded.
  ghost predicate Edge(objs: seq<Object>, a: Action, fx: EffectSet, x: Ref, y: Ref) {
    || (fx.cascadeDelete && y in Children(objs, x))
    || (fx.containment && x.gvk.kind == "Namespace" && y in Scan(objs, InNamespace(x.name)))
    || (fx.disruptive && x.gvk.kind in WORKLOAD_KINDS && y in SelectedPods(objs, x))
    || (fx.scaleEffect && x.gvk.kind in WORKLOAD_KINDS && y in ScalersOfRef(objs, x))
    || (fx.mutateConfig && x.gvk.kind in MOUNTABLE_KINDS && y in ConsumersOfRef(objs, x))
    || (fx.mutateSelector && x.Key() == a.target.Key() && Rebinds(objs, a, y))
    || (fx.mutateLabels && x.Key() == a.target.Key() && Relabels(objs, a, y))
  }

  ghost function Edges(objs: seq<Object>, a: Action, fx: EffectSet): (Ref, Ref) -> bool {
    (x, y) => Edge(objs, a, fx, x, y)
  }

  // What is recorded, but not expanded, when x is expanded: the binders of a Pod.
  function Binders(objs: seq<Object>, x: Ref): seq<Ref> {
    if x.gvk.kind == "Pod" then BindersOf(objs, x) else []
  }

  ghost predicate Binds(objs: seq<Object>, x: Ref, b: Ref) {
    b in Binders(objs, x)
  }

  ghost predicate Reached(objs: seq<Object>, a: Action, fx: EffectSet, r: Ref) {
    Reach(Edges(objs, a, fx), a.target, r)
  }

  ghost predicate Bound(objs: seq<Object>, a: Action, fx: EffectSet, b: Ref) {
    exists x :: Reached(objs, a, fx, x) && Binds(objs, x, b)
  }

  // ----- what a finished walk is, on any inventory

  ghost predicate BoundBy(objs: seq<Object>, done: set<Ref>, b: Ref) {
    exists x :: x in done && Binds(objs, x, b)
  }

  // The recorded refs are the expanded ones and the binders of the expanded pods, one a
  // key; a binder under the target's key replaces the target.
  ghost predicate Recorded(objs: seq<Object>, target: Ref, done: set<Ref>, m: map<string, Ref>) {
    && Keyed(m)
    && (forall x :: x in done ==> x.Key() in m)
    && (forall b :: BoundBy(objs, done, b) ==> b.Key() in m)
    && (forall k :: k in m ==> m[k] in done || BoundBy(objs, done, m[k]))
    && (forall b :: BoundBy(objs, done, b) && b.Key() == target.Key() ==> BoundBy(objs, done, m[target.Key()]))
  }

  ghost predicate Walk(objs: seq<Object>, a: Action, fx: EffectSet, done: set<Ref>, m: map<string, Ref>) {
    && a.target in done
    && Explored(Edges(objs, a, fx), a.target, done, [])
    && Recorded(objs, a.target, done, m)
  }

  // c is an outcome for these effects: empty for an unresolvable target, else the sorted
  // record of a walk that finished, whatever order it expanded in.
  ghost predicate ClosureOf(objs: seq<Object>, a: Action, fx: EffectSet, c: seq<Ref>) {
    if Lookup(objs, a.target).None? then c == []
    else
      && Sorted(c)
      && exists done, m :: Walk(objs, a, fx, done, m) && Lists(c, m)
  }

  // ----- the run of the loop, step by step and in its order

  // The map a selector mutation fills: the pods bound before, then those bound after.
  function ReboundMap(objs: seq<Object>, a: Action): map<string, Ref> {
    Filed(Filed(map[], PodsOf(objs, a.target, a.old_)), PodsOf(objs, a.target, a.new_))
  }

  function PodsOf(objs: seq<Object>, target: Ref, payload: Option<Object>): seq<Ref> {
    match payload
    case None => []
    case Some(o) => Scan(objs, PodsBound(target.namespace, o.selector, target.gvk.kind))
  }

  // The map a label mutation fills: the binders before, then those after.
  function RelabelledMap(objs: seq<Object>, a: Action): map<string, Ref> {
    Filed(Filed(map[], LabelBinders(objs, a.target, a.old_)), LabelBinders(objs, a.target, a.new_))
  }

  function LabelBinders(objs: seq<Object>, target: Ref, payload: Option<Object>): seq<Ref> {
    match payload
    case None => []
    case Some(o) => Scan(objs, SelectorsBinding(target.namespace, o.labels))
  }

  // What rules 1 to 5 queue, in order.
  function QueuedFirst(objs: seq<Object>, fx: EffectSet, cur: Ref): seq<Ref> {
    (if fx.cascadeDelete then Children(objs, cur) else [])
    + (if fx.containment && cur.gvk.kind == "Namespace" then Scan(objs, InNamespace(cur.name)) else [])
    + (if fx.disruptive && cur.gvk.kind in WORKLOAD_KINDS then SelectedPods(objs, cur) else [])
    + (if fx.scaleEffect && cur.gvk.kind in WORKLOAD_KINDS then ScalersOfRef(objs, cur) else [])
    + (if fx.mutateConfig && cur.gvk.kind in MOUNTABLE_KINDS then ConsumersOfRef(objs, cur) else [])
  }

  // The values of m in some order when the rule applies, else nothing.
  ghost predicate Listed(applies: bool, m: map<string, Ref>, refs: seq<Ref>) {
    if applies then Lists(refs, m) else refs == []
  }

  // What expanding cur queues; only the order of the two mutation maps is free.
  ghost predicate Queues(objs: seq<Object>, a: Action, fx: EffectSet, cur: Ref, next: seq<Ref>) {
    exists rebound, relabelled ::
      && Listed(fx.mutateSelector && cur.Key() == a.target.Key(), ReboundMap(objs, a), rebound)
      && Listed(fx.mutateLabels && cur.Key() == a.target.Key(), RelabelledMap(objs, a), relabelled)
      && next == QueuedFirst(objs, fx, cur) + rebound + relabelled
  }

  // The variables of the loop.
  datatype RunState = RunState(visited: set<string>, queue: seq<Ref>, affected: map<string, Ref>)

  function Initial(target: Ref): RunState {
    RunState({}, [target], map[])
  }

  function Skipped(s: RunState): RunState
    requires |s.queue| > 0
  {
    s.(queue := s.queue[1..])
  }

  function Visited(objs: seq<Object>, s: RunState, next: seq<Ref>): RunState
    requires |s.queue| > 0
  {
    var cur := s.queue[0];
    RunState(s.visited + {cur.Key()}, s.queue[1..] + next, Filed(s.affected[cur.Key() := cur], Binders(objs, cur)))
  }

  // One turn of the loop.
  ghost predicate Turn(objs: seq<Object>, a: Action, fx: EffectSet, s: RunState, t: RunState) {
    && |s.queue| > 0
    && if s.queue[0].Key() in s.visited then t == Skipped(s)
       else exists next :: Queues(objs, a, fx, s.queue[0], next) && t == Visited(objs, s, next)
  }

  ghost function Turns(objs: seq<Object>, a: Action, fx: EffectSet): (RunState, RunState) -> bool {
    (s, t) => Turn(objs, a, fx, s, t)
  }

  ghost predicate RunsTo(objs: seq<Object>, a: Action, fx: EffectSet, s: RunState) {
    Reach(Turns(objs, a, fx), Initial(a.target), s)
  }

  // c is what a run returns: empty for an unresolvable target, else the sorted map of a
  // run that emptied its queue.
  ghost predicate RunOf(objs: seq<Object>, a: Action, fx: EffectSet, c: seq<Ref>) {
    if Lookup(objs, a.target).None? then c == []
    else Sorted(c) && exists s :: RunsTo(objs, a, fx, s) && s.queue == [] && Lists(c, s.affected)
  }

  // ----- the steps of the walk

  // m' is m with cur filed first and the binders after it.
  ghost predicate Refiled(m: map<string, Ref>, cur: Ref, binders: seq<Ref>, m': map<string, Ref>) {
    && Keyed(m')
    && (forall k :: k in m' <==> k in m || k == cur.Key() || HasKey(binders, k))
    && (forall k :: k in m' && !HasKey(binders, k) ==> m'[k] == if k == cur.Key() then cur else m[k])
    && (forall k :: HasKey(binders, k) ==> m'[k] in binders)
  }

  lemma RecordNext(objs: seq<Object>, target: Ref, done: set<Ref>, m: map<string, Ref>, cur: Ref, m': map<string, Ref>)
    requires Recorded(objs, target, done, m) && Refiled(m, cur, Binders(objs, cur), m')
    requires !Expanded(done, cur.Key()) && (done == {} || target in done)
    ensures Recorded(objs, target, done + {cur}, m')
  {
    var done', binders := done + {cur}, Binders(objs, cur);
    forall b | BoundBy(objs, done', b)
      ensures b.Key() in m'
      ensures b.Key() == target.Key() ==> BoundBy(objs, done', m'[target.Key()])
    {
      BinderIsFiled(objs, target, done, m, cur, m', b);
    }
    forall k | k in m' ensures m'[k] in done' || BoundBy(objs, done', m'[k]) {
      if HasKey(binders, k) {
        assert Binds(objs, cur, m'[k]);
      } else if k != cur.Key() && m[k] !in done {
        BoundByGrows(objs, done, cur, m[k]);
      }
    }
  }

  lemma BinderIsFiled(objs: seq<Object>, target: Ref, done: set<Ref>, m: map<string, Ref>, cur: Ref, m': map<string,
                      Ref>, b: Ref)
    requires Recorded(objs, target, done, m) && Refiled(m, cur, Binders(objs, cur), m')
    requires !Expanded(done, cur.Key()) && (done == {} || target in done)
    requires BoundBy(objs, done + {cur}, b)
    ensures b.Key() in m'
    ensures b.Key() == target.Key() ==> BoundBy(objs, done + {cur}, m'[target.Key()])
  {
    var binders := Binders(objs, cur);
    if HasKey(binders, b.Key()) {
      assert Binds(objs, cur, m'[b.Key()]);
    } else {
      assert b !in binders;
      var x :| x in done + {cur} && Binds(objs, x, b);
      assert x in done && BoundBy(objs, done, b);
      if b.Key() == target.Key() {
        assert m'[target.Key()] == m[target.Key()];
        BoundByGrows(objs, done, cur, m[target.Key()]);
      }
    }
  }

  lemma BoundByGrows(objs: seq<Object>, done: set<Ref>, cur: Ref, b: Ref)
    requires BoundBy(objs, done, b)
    ensures BoundBy(objs, done + {cur}, b)
  {
    var x :| x in done && Binds(objs, x, b);
    assert x in done + {cur};
  }

  // ----- the queries name tracked objects

  lemma ScanRefs(objs: seq<Object>, q: Query)
    ensures forall r :: r in Scan(objs, q) ==> IsObjectRef(objs, r)
  {
    ScanFinds(objs, q);
  }

  lemma EdgesNameObjects(objs: seq<Object>, a: Action, fx: EffectSet, x: Ref, y: Ref)
    requires Edge(objs, a, fx, x, y)
    ensures IsObjectRef(objs, y)
  {
    forall q: Query { ScanRefs(objs, q); }
  }

  lemma BindersNameObjects(objs: seq<Object>, x: Ref, b: Ref)
    requires Binds(objs, x, b)
    ensures IsObjectRef(objs, b)
  {
    forall q: Query { ScanRefs(objs, q); }
  }

  // Every reached ref other than the target names a tracked object.
  lemma ReachedIsTracked(objs: seq<Object>, a: Action, fx: EffectSet, r: Ref)
    requires Reached(objs, a, fx, r)
    ensures r == a.target || IsObjectRef(objs, r)
  {
    var p := (r: Ref) => r == a.target || IsObjectRef(objs, r);
    forall x, y | Edges(objs, a, fx)(x, y) ensures p(y) {
      EdgesNameObjects(objs, a, fx, x, y);
    }
    Invariant(Edges(objs, a, fx), a.target, p, r);
  }

  // What a finished walk holds is reached.
  lemma WalkedIsReached(objs: seq<Object>, a: Action, fx: EffectSet, done: set<Ref>, m: map<string, Ref>)
    requires Walk(objs, a, fx, done, m)
    ensures forall r :: r in done ==> Reached(objs, a, fx, r) && (r == a.target || IsObjectRef(objs, r))
    ensures forall b :: BoundBy(objs, done, b) ==> Bound(objs, a, fx, b) && IsObjectRef(objs, b)
  {
    ExpandedIsReached(Edges(objs, a, fx), a.target, done, []);
    forall r | r in done ensures r == a.target || IsObjectRef(objs, r) {
      ReachedIsTracked(objs, a, fx, r);
    }
    forall b | BoundBy(objs, done, b) ensures Bound(objs, a, fx, b) && IsObjectRef(objs, b) {
      var x :| x in done && Binds(objs, x, b);
      BindersNameObjects(objs, x, b);
    }
  }

  // ----- the code

  ghost function ObjectKeys(objs: seq<Object>): set<string> {
    set i | 0 <= i < |objs| :: objs[i].ref.Key()
  }

  // The keys a walk can visit.
  ghost function Universe(objs: seq<Object>, target: Ref): set<string> {
    ObjectKeys(objs) + {target.Key()}
  }

  method SelectorMutationAffected(s: ScanState, a: Action) returns (res: seq<Ref>)
    ensures Lists(res, ReboundMap(s.objs, a))
    ensures forall y :: y in res ==> Rebinds(s.objs, a, y)
    ensures forall y :: Rebinds(s.objs, a, y) ==> HasKey(res, y.Key())
  {
    var out: map<string, Ref> := map[];
    if a.old_.Some? {
      var before := s.PodsMatching(a.target.namespace, a.old_.value.selector, a.target.gvk.kind);
      out := FileAll(out, before);
    }
    if a.new_.Some? {
      var after := s.PodsMatching(a.target.namespace, a.new_.value.selector, a.target.gvk.kind);
      out := FileAll(out, after);
    }
    ReboundKeyed(s.objs, a);
    res := Values(out);
    ReboundListed(s.objs, a, res);
  }

  method LabelMutationAffected(s: ScanState, a: Action) returns (res: seq<Ref>)
    ensures Lists(res, RelabelledMap(s.objs, a))
    ensures forall y :: y in res ==> Relabels(s.objs, a, y)
    ensures forall y :: Relabels(s.objs, a, y) ==> HasKey(res, y.Key())
  {
    var out: map<string, Ref> := map[];
    if a.old_.Some? {
      var before := s.SelectorsMatchingLabels(a.target.namespace, a.old_.value.labels);
      out := FileAll(out, before);
    }
    if a.new_.Some? {
      var after := s.SelectorsMatchingLabels(a.target.namespace, a.new_.value.labels);
      out := FileAll(out, after);
    }
    RelabelledKeyed(s.objs, a);
    res := Values(out);
    RelabelledListed(s.objs, a, res);
  }

  lemma ReboundKeyed(objs: seq<Object>, a: Action)
    ensures Keyed(ReboundMap(objs, a))
  {
    FiledTwice(PodsOf(objs, a.target, a.old_), PodsOf(objs, a.target, a.new_));
  }

  lemma RelabelledKeyed(objs: seq<Object>, a: Action)
    ensures Keyed(RelabelledMap(objs, a))
  {
    FiledTwice(LabelBinders(objs, a.target, a.old_), LabelBinders(objs, a.target, a.new_));
  }

  lemma ReboundListed(objs: seq<Object>, a: Action, res: seq<Ref>)
    requires Lists(res, ReboundMap(objs, a))
    ensures forall y :: y in res ==> Rebinds(objs, a, y)
    ensures forall y :: Rebinds(objs, a, y) ==> HasKey(res, y.Key())
  {
    ListedTwice(PodsOf(objs, a.target, a.old_), PodsOf(objs, a.target, a.new_), res);
  }

  lemma RelabelledListed(objs: seq<Object>, a: Action, res: seq<Ref>)
    requires Lists(res, RelabelledMap(objs, a))
    ensures forall y :: y in res ==> Relabels(objs, a, y)
    ensures forall y :: Relabels(objs, a, y) ==> HasKey(res, y.Key())
  {
    ListedTwice(LabelBinders(objs, a.target, a.old_), LabelBinders(objs, a.target, a.new_), res);
  }

  lemma FiledTwice(before: seq<Ref>, after: seq<Ref>)
    ensures var m := Filed(Filed(map[], before), after);
      && Keyed(m)
      && (forall k :: k in m <==> HasKey(before, k) || HasKey(after, k))
      && (forall k :: k in m ==> m[k] in before || m[k] in after)
  {
    FiledKeeps(map[], before);
    FiledKeeps(Filed(map[], before), after);
  }

  lemma ListedTwice(before: seq<Ref>, after: seq<Ref>, res: seq<Ref>)
    requires Lists(res, Filed(Filed(map[], before), after))
    ensures forall y :: y in res ==> y in before || y in after
    ensures forall y :: y in before || y in after ==> HasKey(res, y.Key())
  {
    var m := Filed(Filed(map[], before), after);
    FiledTwice(before, after);
    forall y | y in before || y in after ensures HasKey(res, y.Key()) {
      assert HasKey(before, y.Key()) || HasKey(after, y.Key());
      assert m[y.Key()] in res;
    }
  }

  // Rules 1 to 6b of the loop body: what expanding cur queues.
  method Successors(s: ScanState, a: Action, classes: EffectSet, cur: Ref) returns (next: seq<Ref>)
    requires s.Valid()
    ensures Queues(s.objs, a, classes, cur, next)
  {
    var owned, held, pods, scalers, users: seq<Ref> := [], [], [], [], [];
    if classes.cascadeDelete {
      owned := s.OwnedChildren(cur);
    }
    if classes.containment && cur.gvk.kind == "Namespace" {
      held := s.NamespaceContents(cur.name);
    }
    if classes.disruptive && cur.gvk.kind in WORKLOAD_KINDS {
      pods := s.PodsSelectedBy(cur);
    }
    if classes.scaleEffect && cur.gvk.kind in WORKLOAD_KINDS {
      scalers := s.ControllersTargeting(cur);
    }
    if classes.mutateConfig && cur.gvk.kind in MOUNTABLE_KINDS {
      users := s.Consumers(cur);
    }
    next := MutationSuccessors(s, a, classes, cur, owned + held + pods + scalers + users);
  }

  // Rules 6 and 6b, after what the others queued.
  method MutationSuccessors(s: ScanState, a: Action, classes: EffectSet, cur: Ref, first: seq<Ref>)
    returns (next: seq<Ref>)
    requires first == QueuedFirst(s.objs, classes, cur)
    ensures Queues(s.objs, a, classes, cur, next)
  {
    var rebound, relabelled: seq<Ref> := [], [];
    if classes.mutateSelector && cur.Key() == a.target.Key() {
      rebound := SelectorMutationAffected(s, a);
    }
    if classes.mutateLabels && cur.Key() == a.target.Key() {
      relabelled := LabelMutationAffected(s, a);
    }
    next := first + rebound + relabelled;
  }

  // What is queued are the edges, up to keys.
  lemma QueuedAreEdges(objs: seq<Object>, a: Action, fx: EffectSet, cur: Ref, next: seq<Ref>)
    requires Queues(objs, a, fx, cur, next)
    ensures forall y :: y in next ==> Edge(objs, a, fx, cur, y)
    ensures forall y :: Edge(objs, a, fx, cur, y) ==> HasKey(next, y.Key())
  {
    var rebound, relabelled :|
      && Listed(fx.mutateSelector && cur.Key() == a.target.Key(), ReboundMap(objs, a), rebound)
      && Listed(fx.mutateLabels && cur.Key() == a.target.Key(), RelabelledMap(objs, a), relabelled)
      && next == QueuedFirst(objs, fx, cur) + rebound + relabelled;
    if fx.mutateSelector && cur.Key() == a.target.Key() { ReboundListed(objs, a, rebound); }
    if fx.mutateLabels && cur.Key() == a.target.Key() { RelabelledListed(objs, a, relabelled); }
    GatherSuccessors(objs, a, fx, cur, rebound, relabelled);
  }

  lemma GatherSuccessors(objs: seq<Object>, a: Action, fx: EffectSet, cur: Ref, rebound: seq<Ref>, relabelled: seq<Ref>)
    requires var mutates := fx.mutateSelector && cur.Key() == a.target.Key();
      && (forall y :: y in rebound ==> mutates && Rebinds(objs, a, y))
      && (forall y :: mutates && Rebinds(objs, a, y) ==> HasKey(rebound, y.Key()))
    requires var mutates := fx.mutateLabels && cur.Key() == a.target.Key();
      && (forall y :: y in relabelled ==> mutates && Relabels(objs, a, y))
      && (forall y :: mutates && Relabels(objs, a, y) ==> HasKey(relabelled, y.Key()))
    ensures var next := QueuedFirst(objs, fx, cur) + rebound + relabelled;
      && (forall y :: y in next ==> Edge(objs, a, fx, cur, y))
      && (forall y :: Edge(objs, a, fx, cur, y) ==> HasKey(next, y.Key()))
  {
    var first := QueuedFirst(objs, fx, cur);
    var next := first + rebound + relabelled;
    assert forall y :: y in next <==> y in first || y in rebound || y in relabelled;
    InQueuedFirst(objs, fx, cur);
    forall y | Edge(objs, a, fx, cur, y) ensures HasKey(next, y.Key()) {
      if y !in first {
        var r :| (r in rebound || r in relabelled) && r.Key() == y.Key();
        assert r in next;
      }
    }
  }

  lemma InQueuedFirst(objs: seq<Object>, fx: EffectSet, cur: Ref)
    ensures forall y :: y in QueuedFirst(objs, fx, cur) <==>
      || (fx.cascadeDelete && y in Children(objs, cur))
      || (fx.containment && cur.gvk.kind == "Namespace" && y in Scan(objs, InNamespace(cur.name)))
      || (fx.disruptive && cur.gvk.kind in WORKLOAD_KINDS && y in SelectedPods(objs, cur))
      || (fx.scaleEffect && cur.gvk.kind in WORKLOAD_KINDS && y in ScalersOfRef(objs, cur))
      || (fx.mutateConfig && cur.gvk.kind in MOUNTABLE_KINDS && y in ConsumersOfRef(objs, cur))
  {
  }

  // What holds of the loop's variables, done being the refs expanded.
  ghost predicate Running(objs: seq<Object>, a: Action, fx: EffectSet, done: set<Ref>, visited: set<string>,
                          queue: seq<Ref>, m: map<string, Ref>) {
    Walking(Edges(objs, a, fx), a.target, done, visited, queue) && Recorded(objs, a.target, done, m)
  }

  lemma RunStarts(objs: seq<Object>, a: Action, fx: EffectSet)
    ensures Running(objs, a, fx, {}, {}, [a.target], map[])
  {
    WalkStarts(Edges(objs, a, fx), a.target);
  }

  lemma RunSkips(objs: seq<Object>, a: Action, fx: EffectSet, done: set<Ref>, visited: set<string>, queue: seq<Ref>,
                 m: map<string, Ref>)
    requires Running(objs, a, fx, done, visited, queue, m) && |queue| > 0 && queue[0].Key() in visited
    ensures Running(objs, a, fx, done, visited, queue[1..], m)
  {
    WalkSkips(Edges(objs, a, fx), a.target, done, visited, queue);
  }

  lemma RunEnds(objs: seq<Object>, a: Action, fx: EffectSet, done: set<Ref>, visited: set<string>, queue: seq<Ref>,
                m: map<string, Ref>)
    requires Running(objs, a, fx, done, visited, queue, m) && |queue| == 0
    ensures Walk(objs, a, fx, done, m)
  {
    WalkEnds(Edges(objs, a, fx), a.target, done, visited, queue);
  }

  lemma RunExpands(objs: seq<Object>, a: Action, fx: EffectSet, done: set<Ref>, visited: set<string>,
                   queue: seq<Ref>, m: map<string, Ref>,
                   next: seq<Ref>, m': map<string, Ref>)
    requires Running(objs, a, fx, done, visited, queue, m) && |queue| > 0 && queue[0].Key() !in visited
    requires forall y :: y in next ==> Edge(objs, a, fx, queue[0], y)
    requires forall y :: Edge(objs, a, fx, queue[0], y) ==> HasKey(next, y.Key())
    requires Refiled(m, queue[0], Binders(objs, queue[0]), m')
    ensures Running(objs, a, fx, done + {queue[0]}, visited + {queue[0].Key()}, queue[1..] + next, m')
    ensures Universe(objs, a.target) - (visited + {queue[0].Key()}) < Universe(objs, a.target) - visited
  {
    RecordNext(objs, a.target, done, m, queue[0], m');
    ClosureBoundedBy(objs, a, fx);
    WalkExpands(Edges(objs, a, fx), a.target, Universe(objs, a.target), done, visited, queue, next);
  }

  // The invariant of every state a run reaches.
  ghost predicate Accounted(objs: seq<Object>, a: Action, fx: EffectSet, s: RunState) {
    exists done :: Running(objs, a, fx, done, s.visited, s.queue, s.affected)
  }

  lemma TurnKeeps(objs: seq<Object>, a: Action, fx: EffectSet, s: RunState, t: RunState)
    requires Accounted(objs, a, fx, s) && Turn(objs, a, fx, s, t)
    ensures Accounted(objs, a, fx, t)
    ensures t.visited == s.visited
      || Universe(objs, a.target) - t.visited < Universe(objs, a.target) - s.visited
  {
    if s.queue[0].Key() in s.visited {
      SkipAccounted(objs, a, fx, s);
    } else {
      var next :| Queues(objs, a, fx, s.queue[0], next) && t == Visited(objs, s, next);
      VisitAccounted(objs, a, fx, s, next);
    }
  }

  lemma SkipAccounted(objs: seq<Object>, a: Action, fx: EffectSet, s: RunState)
    requires Accounted(objs, a, fx, s) && |s.queue| > 0 && s.queue[0].Key() in s.visited
    ensures Accounted(objs, a, fx, Skipped(s))
  {
    var done :| Running(objs, a, fx, done, s.visited, s.queue, s.affected);
    RunSkips(objs, a, fx, done, s.visited, s.queue, s.affected);
  }

  lemma VisitAccounted(objs: seq<Object>, a: Action, fx: EffectSet, s: RunState, next: seq<Ref>)
    requires Accounted(objs, a, fx, s) && |s.queue| > 0 && s.queue[0].Key() !in s.visited
    requires Queues(objs, a, fx, s.queue[0], next)
    ensures Accounted(objs, a, fx, Visited(objs, s, next))
    ensures Universe(objs, a.target) - Visited(objs, s, next).visited < Universe(objs, a.target) - s.visited
  {
    var done :| Running(objs, a, fx, done, s.visited, s.queue, s.affected);
    VisitKeeps(objs, a, fx, done, s, next);
  }

  lemma VisitKeeps(objs: seq<Object>, a: Action, fx: EffectSet, done: set<Ref>, s: RunState, next: seq<Ref>)
    requires Running(objs, a, fx, done, s.visited, s.queue, s.affected)
    requires |s.queue| > 0 && s.queue[0].Key() !in s.visited && Queues(objs, a, fx, s.queue[0], next)
    ensures var t := Visited(objs, s, next);
      && Running(objs, a, fx, done + {s.queue[0]}, t.visited, t.queue, t.affected)
      && Universe(objs, a.target) - t.visited < Universe(objs, a.target) - s.visited
  {
    QueuedAreEdges(objs, a, fx, s.queue[0], next);
    FiledAnew(objs, s.affected, s.queue[0]);
    RunExpands(objs, a, fx, done, s.visited, s.queue, s.affected, next, Visited(objs, s, next).affected);
  }

  lemma FiledAnew(objs: seq<Object>, m: map<string, Ref>, cur: Ref)
    requires Keyed(m)
    ensures Refiled(m, cur, Binders(objs, cur), Filed(m[cur.Key() := cur], Binders(objs, cur)))
  {
    FiledKeeps(m[cur.Key() := cur], Binders(objs, cur));
  }

  lemma RunIsAccounted(objs: seq<Object>, a: Action, fx: EffectSet, s: RunState)
    requires RunsTo(objs, a, fx, s)
    ensures Accounted(objs, a, fx, s)
  {
    RunStarts(objs, a, fx);
    var p := (s: RunState) => Accounted(objs, a, fx, s);
    forall x, y | p(x) && Turns(objs, a, fx)(x, y) ensures p(y) {
      TurnKeeps(objs, a, fx, x, y);
    }
    Invariant(Turns(objs, a, fx), Initial(a.target), p, s);
  }

  // What a run returns is an outcome.
  lemma RunIsOutcome(objs: seq<Object>, a: Action, fx: EffectSet, c: seq<Ref>)
    requires RunOf(objs, a, fx, c)
    ensures ClosureOf(objs, a, fx, c)
  {
    if Lookup(objs, a.target).Some? {
      var s :| RunsTo(objs, a, fx, s) && s.queue == [] && Lists(c, s.affected);
      RunIsAccounted(objs, a, fx, s);
      var done :| Running(objs, a, fx, done, s.visited, s.queue, s.affected);
      RunEnds(objs, a, fx, done, s.visited, s.queue, s.affected);
    }
  }

  // The record of cur, and rule 7: the binders of an expanded pod.
  method Record(s: ScanState, cur: Ref, affected: map<string, Ref>) returns (filed: map<string, Ref>)
    requires s.Valid()
    ensures filed == Filed(affected[cur.Key() := cur], Binders(s.objs, cur))
    ensures Keyed(affected) ==> Refiled(affected, cur, Binders(s.objs, cur), filed)
  {
    filed := affected[cur.Key() := cur];
    if cur.gvk.kind == "Pod" {
      var found := s.SelectorsTargeting(cur);
      filed := FileAll(filed, found);
    }
    if Keyed(affected) {
      FiledAnew(s.objs, affected, cur);
    }
  }

  lemma RunTurns(objs: seq<Object>, a: Action, fx: EffectSet, s: RunState, t: RunState)
    requires RunsTo(objs, a, fx, s) && Turn(objs, a, fx, s, t)
    ensures RunsTo(objs, a, fx, t)
    ensures t.visited == s.visited
      || Universe(objs, a.target) - t.visited < Universe(objs, a.target) - s.visited
  {
    RunIsAccounted(objs, a, fx, s);
    TurnKeeps(objs, a, fx, s, t);
    Step(Turns(objs, a, fx), Initial(a.target), s, t);
  }

  method Closure(s: ScanState, a: Action) returns (c: seq<Ref>)
    requires s.Valid()
    ensures RunOf(s.objs, a, Effects(a), c)
    ensures ClosureOf(s.objs, a, Effects(a), c)
  {
    var classes := Classify(a);
    var affected: map<string, Ref> := map[];
    var visited: set<string> := {};
    var queue: seq<Ref> := [];
    var seed := s.Get(a.target);
    if seed.None? {
      return [];
    }
    queue := queue + [a.target];
    assert queue == [a.target];
    Start(Turns(s.objs, a, classes), Initial(a.target));
    while |queue| > 0
      invariant RunsTo(s.objs, a, classes, RunState(visited, queue, affected))
      decreases Universe(s.objs, a.target) - visited, |queue|
    {
      ghost var before := RunState(visited, queue, affected);
      var cur := queue[0];
      queue := queue[1..];
      if cur.Key() in visited {
        RunTurns(s.objs, a, classes, before, Skipped(before));
        continue;
      }
      affected := Record(s, cur, affected);
      var next := Successors(s, a, classes, cur);
      visited, queue := visited + {cur.Key()}, queue + next;
      RunTurns(s.objs, a, classes, before, Visited(s.objs, before, next));
    }
    RunIsAccounted(s.objs, a, classes, RunState(visited, queue, affected));
    c := SortedRefs(affected);
    RunIsOutcome(s.objs, a, classes, c);
  }

  lemma ClosureBoundedBy(objs: seq<Object>, a: Action, fx: EffectSet)
    ensures Bounded(Edges(objs, a, fx), a.target, Universe(objs, a.target))
  {
    forall r | Reached(objs, a, fx, r) ensures r.Key() in Universe(objs, a.target) {
      ReachedIsTracked(objs, a, fx, r);
    }
  }
}
