// closure/safe.go: the owned subtree, scope matching, and the verdict.
module Verdicts {
  import opened Prelude
  import opened Model
  import opened Inventory
  import opened Classification
  import opened ScanStates
  import opened Sorting
  import opened Graph
  import opened Worklist
  import opened Closures

  // path.Match: whether a name matches a pattern.  Any total predicate.
  type Glob = (string, string) -> bool

  // ----- ownership

  ghost function OwnEdges(objs: seq<Object>): (Ref, Ref) -> bool {
    (x, y) => y in Children(objs, x)
  }

  // Where the walk of a root's subtree starts: its object's ref, if it has one.
  function Origin(objs: seq<Object>, root: Ref): Ref {
    match Lookup(objs, root)
    case Some(o) => o.ref
    case None => root
  }

  // Both unresolvable, or both resolving to one ref's object.
  ghost predicate SameOrigin(objs: seq<Object>, x: Ref, y: Ref) {
    && (Lookup(objs, x).Some? <==> Lookup(objs, y).Some?)
    && (Lookup(objs, x).Some? ==> Lookup(objs, x).value.ref == Lookup(objs, y).value.ref)
  }

  // Object refs with one key resolve alike.
  ghost predicate KeysResolve(objs: seq<Object>) {
    forall x, y :: IsObjectRef(objs, x) && IsObjectRef(objs, y) && x.Key() == y.Key() ==> SameOrigin(objs, x, y)
  }

  // They do on every plain inventory, duplicates included.
  lemma PlainKeysResolve(objs: seq<Object>)
    requires Plain(objs)
    ensures KeysResolve(objs)
  {
    forall x, y | IsObjectRef(objs, x) && IsObjectRef(objs, y) && x.Key() == y.Key()
      ensures SameOrigin(objs, x, y)
    {
      ObjectRefSettled(objs, x);
      ObjectRefSettled(objs, y);
      SameKeySameLookup(objs, x, y);
    }
  }

  // What the code answers of a fact: never wrongly yes, and exactly where keys resolve.
  ghost predicate Decides(objs: seq<Object>, answer: bool, fact: bool) {
    (answer ==> fact) && (KeysResolve(objs) && fact ==> answer)
  }

  // y is the root's object or one it transitively owns.
  ghost predicate Owned(objs: seq<Object>, root: Ref, y: Ref) {
    Reach(OwnEdges(objs), Origin(objs, root), y)
  }

  // k is the root's own key or the key of something the root owns.
  ghost predicate InSubtree(objs: seq<Object>, root: Ref, k: string) {
    k == root.Key() || exists y :: Owned(objs, root, y) && y.Key() == k
  }

  // ----- scope matching, clause by clause

  predicate Gates(sc: ScopeClause, r: Ref) {
    && (sc.gvk.kind == "" || sc.gvk.kind == r.gvk.kind)
    && (sc.gvk.group == "" || sc.gvk.group == r.gvk.group)
    && (sc.gvk.version == "" || sc.gvk.version == r.gvk.version)
    && sc.namespace == r.namespace
  }

  // An empty selector authorises nothing, and so does an untracked candidate.
  predicate SelectorCovers(objs: seq<Object>, sc: ScopeClause, r: Ref) {
    && !sc.selector.IsEmpty()
    && Lookup(objs, r).Some?
    && sc.selector.Matches(Lookup(objs, r).value.labels)
  }

  // What a clause covers; an ownership clause is read with the given root.
  ghost predicate CoversFrom(objs: seq<Object>, glob: Glob, sc: ScopeClause, root: Ref, r: Ref) {
    match sc.dim
    case NoDim | DimResource => Gates(sc, r) && glob(sc.name, r.name)
    case DimSelector => Gates(sc, r) && SelectorCovers(objs, sc, r)
    case DimNamespace => Gates(sc, r)
    case DimOwnership => InSubtree(objs, root, r.Key())
    case OtherDim(_) => false
  }

  // The declared meaning of a clause and of a scope: no memo.
  ghost predicate ClauseCovers(objs: seq<Object>, glob: Glob, sc: ScopeClause, r: Ref) {
    CoversFrom(objs, glob, sc, sc.root, r)
  }

  ghost predicate Covered(objs: seq<Object>, glob: Glob, scope: seq<ScopeClause>, r: Ref) {
    exists sc :: sc in scope && ClauseCovers(objs, glob, sc, r)
  }

  // The first ownership root filed under a key: the one whose subtree the memo answers.
  function FirstRoot(scope: seq<ScopeClause>, k: string): Option<Ref> {
    if |scope| == 0 then None
    else if scope[0].dim.DimOwnership? && scope[0].root.Key() == k then Some(scope[0].root)
    else FirstRoot(scope[1..], k)
  }

  function MemoRoot(scope: seq<ScopeClause>, sc: ScopeClause): Ref {
    match FirstRoot(scope, sc.root.Key())
    case Some(root) => root
    case None => sc.root
  }

  ghost predicate MemoCovers(objs: seq<Object>, glob: Glob, scope: seq<ScopeClause>, sc: ScopeClause, r: Ref) {
    CoversFrom(objs, glob, sc, MemoRoot(scope, sc), r)
  }

  // What matchScope answers on a fresh or shared memo, for every scope.
  ghost predicate CoveredByMemo(objs: seq<Object>, glob: Glob, scope: seq<ScopeClause>, r: Ref) {
    exists sc :: sc in scope && MemoCovers(objs, glob, scope, sc, r)
  }

  lemma {:induction false} FirstRootAt(scope: seq<ScopeClause>, i: nat, k: string)
    requires i < |scope| && scope[i].dim.DimOwnership? && scope[i].root.Key() == k
    requires forall j :: 0 <= j < i && scope[j].dim.DimOwnership? ==> scope[j].root.Key() != k
    ensures FirstRoot(scope, k) == Some(scope[i].root)
  {
    if i > 0 {
      forall j | 0 <= j < i - 1 && scope[1..][j].dim.DimOwnership? ensures scope[1..][j].root.Key() != k {
        assert scope[1..][j] == scope[j + 1];
      }
      FirstRootAt(scope[1..], i - 1, k);
    }
  }

  // ----- the subtree walk as code

  // The first root asked under a key.
  ghost function FirstAsked(asked: seq<Ref>, k: string): Option<Ref> {
    if |asked| == 0 then None
    else if FirstAsked(asked[..|asked| - 1], k).Some? then FirstAsked(asked[..|asked| - 1], k)
    else if asked[|asked| - 1].Key() == k then Some(asked[|asked| - 1])
    else None
  }

  // The keys of a subtree: no others, and all of them where keys resolve.
  ghost predicate IsSubtree(objs: seq<Object>, root: Ref, members: set<string>) {
    && (forall k :: k in members ==> InSubtree(objs, root, k))
    && (KeysResolve(objs) ==> forall k :: InSubtree(objs, root, k) ==> k in members)
  }

  lemma ChildrenAreTracked(objs: seq<Object>, x: Ref, y: Ref)
    requires y in Children(objs, x)
    ensures IsObjectRef(objs, y) && Lookup(objs, x).Some?
  {
    ScanRefs(objs, OwnedBy(Lookup(objs, x).value.ref.uid));
  }

  lemma OwnedIsTracked(objs: seq<Object>, start: Ref, y: Ref)
    requires Reach(OwnEdges(objs), start, y)
    ensures y == start || IsObjectRef(objs, y)
  {
    var p := (r: Ref) => r == start || IsObjectRef(objs, r);
    forall x, z | OwnEdges(objs)(x, z) ensures p(z) {
      ChildrenAreTracked(objs, x, z);
    }
    Invariant(OwnEdges(objs), start, p, y);
  }

  lemma SameChildren(objs: seq<Object>, x: Ref, y: Ref)
    requires SameOrigin(objs, x, y)
    ensures Children(objs, x) == Children(objs, y)
  {
  }

  lemma SubtreeRefsAgree(objs: seq<Object>, root: Ref, x: Ref, y: Ref)
    requires KeysResolve(objs) && Owned(objs, root, x) && Owned(objs, root, y) && x.Key() == y.Key()
    ensures Children(objs, x) == Children(objs, y)
  {
    SubtreeNode(objs, root, x);
    SubtreeNode(objs, root, y);
    if x != y {
      SameChildren(objs, x, y);
    }
  }

  // Where keys resolve, refs with one key own the same refs.
  lemma OwnEdgesCoherent(objs: seq<Object>, root: Ref)
    requires KeysResolve(objs)
    ensures Coherent(OwnEdges(objs), Origin(objs, root))
  {
    var start, e := Origin(objs, root), OwnEdges(objs);
    forall x, x', y | Reach(e, start, x) && Reach(e, start, x') && x.Key() == x'.Key() && e(x, y)
      ensures e(x', y)
    {
      SubtreeRefsAgree(objs, root, x, x');
    }
  }

  lemma SubtreeNode(objs: seq<Object>, root: Ref, x: Ref)
    requires Owned(objs, root, x)
    ensures if Lookup(objs, root).Some? then IsObjectRef(objs, x) else x == root
  {
    var start := Origin(objs, root);
    OwnedIsTracked(objs, start, x);
    LookupIsTracked(objs, root);
    if Lookup(objs, root).None? {
      assert Children(objs, root) == [];
      Invariant(OwnEdges(objs), start, (r: Ref) => r == root, x);
    }
  }

  // A finished ownership walk holds keys of the subtree, all of them where keys resolve.
  lemma WalkIsSubtree(objs: seq<Object>, root: Ref, done: set<Ref>, members: set<string>)
    requires Origin(objs, root) in done && Explored(OwnEdges(objs), Origin(objs, root), done, [])
    requires forall k :: k in members <==> Expanded(done, k) || k == root.Key()
    ensures IsSubtree(objs, root, members)
  {
    ExpandedIsReached(OwnEdges(objs), Origin(objs, root), done, []);
    forall k | Expanded(done, k) ensures InSubtree(objs, root, k) {
      var y :| y in done && y.Key() == k;
      assert Owned(objs, root, y);
    }
    if KeysResolve(objs) {
      OwnEdgesCoherent(objs, root);
      forall y | Owned(objs, root, y) ensures Expanded(done, y.Key()) {
        WalkIsComplete(OwnEdges(objs), Origin(objs, root), done, y);
      }
    }
  }

  class StateResolver {
    const s: ScanState
    var subtrees: map<string, set<string>>
    ghost var asked: seq<Ref>

    // Each entry is the subtree of the first root asked under its key.
    ghost predicate Valid()
      reads this
    {
      && s.Valid()
      && (forall k :: k in subtrees <==> FirstAsked(asked, k).Some?)
      && (forall k :: k in subtrees ==> IsSubtree(s.objs, FirstAsked(asked, k).value, subtrees[k]))
    }

    constructor (s: ScanState)
      requires s.Valid()
      ensures Valid() && this.s == s && asked == []
    {
      this.s := s;
      subtrees := map[];
      asked := [];
    }

    // The walk of ownedSubtree, without the memo.
    method WalkSubtree(root: Ref) returns (members: set<string>)
      requires s.Valid()
      ensures IsSubtree(s.objs, root, members)
    {
      members := {};
      var start := root;
      var found := s.Get(root);
      if found.Some? {
        start := found.value.ref;
      }
      var queue := [start];
      ghost var done: set<Ref> := {};
      ghost var e := OwnEdges(s.objs);
      WalkStarts(e, start);
      OwnershipBoundedBy(s.objs, start);
      while |queue| > 0
        invariant Walking(e, start, done, members, queue)
        decreases Universe(s.objs, start) - members, |queue|
      {
        var cur := queue[0];
        if cur.Key() in members {
          WalkSkips(e, start, done, members, queue);
          queue := queue[1..];
          continue;
        }
        var next := s.OwnedChildren(cur);
        WalkExpands(e, start, Universe(s.objs, start), done, members, queue, next);
        members, queue := members + {cur.Key()}, queue[1..] + next;
        done := done + {cur};
      }
      WalkEnds(e, start, done, members, queue);
      members := members + {root.Key()};
      WalkIsSubtree(s.objs, root, done, members);
    }

    method OwnedSubtree(root: Ref) returns (members: set<string>)
      requires Valid()
      modifies this
      ensures Valid() && asked == old(asked) + [root]
      ensures root.Key() in old(subtrees) ==> subtrees == old(subtrees) && members == old(subtrees)[root.Key()]
      ensures root.Key() !in old(subtrees) ==> subtrees == old(subtrees)[root.Key() := members]
      ensures IsSubtree(s.objs, FirstAsked(asked, root.Key()).value, members)
    {
      ghost var before := asked;
      asked := asked + [root];
      assert asked[..|asked| - 1] == before;
      if root.Key() in subtrees {
        return subtrees[root.Key()];
      }
      members := WalkSubtree(root);
      subtrees := subtrees[root.Key() := members];
    }
  }

  lemma OwnershipBoundedBy(objs: seq<Object>, start: Ref)
    ensures Bounded(OwnEdges(objs), start, Universe(objs, start))
  {
    forall y | Reach(OwnEdges(objs), start, y) ensures y.Key() in Universe(objs, start) {
      OwnedIsTracked(objs, start, y);
    }
  }

  // ----- scope matching as code

  lemma AskOne(asked: seq<Ref>, root: Ref, k: string)
    ensures FirstAsked(asked + [root], k) ==
      if FirstAsked(asked, k).Some? then FirstAsked(asked, k) else if root.Key() == k then Some(root) else None
  {
    assert (asked + [root])[..|asked + [root]| - 1] == asked;
  }

  // The root whose subtree the memo answers a clause with, given what was asked so far.
  ghost function HistoricRoot(asked: seq<Ref>, sc: ScopeClause): Ref {
    match FirstAsked(asked, sc.root.Key())
    case Some(root) => root
    case None => sc.root
  }

  ghost predicate HistoryCovers(objs: seq<Object>, glob: Glob, asked: seq<Ref>, sc: ScopeClause, r: Ref) {
    CoversFrom(objs, glob, sc, HistoricRoot(asked, sc), r)
  }

  // What matchScope answers on a resolver with any history.
  ghost predicate Answered(objs: seq<Object>, glob: Glob, scope: seq<ScopeClause>, asked: seq<Ref>, r: Ref) {
    exists sc :: sc in scope && HistoryCovers(objs, glob, asked, sc, r)
  }

  ghost predicate Declares(scope: seq<ScopeClause>, root: Ref) {
    exists sc :: sc in scope && sc.dim.DimOwnership? && sc.root == root
  }

  // The memo's first root under each key is the scope's first root under it.
  ghost predicate AskedFrom(scope: seq<ScopeClause>, asked: seq<Ref>) {
    forall k :: FirstAsked(asked, k).Some? ==> FirstAsked(asked, k) == FirstRoot(scope, k)
  }

  // After the first i clauses: only their roots were asked, on top of the history before.
  ghost predicate AskedUpTo(scope: seq<ScopeClause>, i: nat, before: seq<Ref>, asked: seq<Ref>)
    requires i <= |scope|
  {
    && (forall j :: 0 <= j < i && scope[j].dim.DimOwnership? ==> FirstAsked(asked, scope[j].root.Key()).Some?)
    && (forall root :: root in asked ==> root in before || Declares(scope, root))
    && (AskedFrom(scope, before) ==> AskedFrom(scope, asked))
  }

  lemma AskNext(scope: seq<ScopeClause>, before: seq<Ref>, asked: seq<Ref>, i: nat)
    requires i < |scope| && scope[i].dim.DimOwnership? && AskedUpTo(scope, i, before, asked)
    ensures AskedUpTo(scope, i + 1, before, asked + [scope[i].root])
  {
    var root := scope[i].root;
    forall k { AskOne(asked, root, k); }
    assert Declares(scope, root) by { assert scope[i] in scope; }
    forall r | r in asked + [root] ensures r in before || Declares(scope, r) {
      assert r in asked || r == root;
    }
    if AskedFrom(scope, asked) && FirstAsked(asked, root.Key()).None? {
      FirstRootAt(scope, i, root.Key());
    }
  }

  // Asking more changes no answer about a clause already evaluated.
  lemma AnswersKept(objs: seq<Object>, glob: Glob, scope: seq<ScopeClause>, asked: seq<Ref>,
                    root: Ref, j: nat, r: Ref)
    requires j < |scope|
    requires scope[j].dim.DimOwnership? ==> FirstAsked(asked, scope[j].root.Key()).Some?
    ensures HistoryCovers(objs, glob, asked + [root], scope[j], r) <==> HistoryCovers(objs, glob, asked, scope[j], r)
  {
    AskOne(asked, root, scope[j].root.Key());
  }

  // Whether one clause covers r.
  method MatchClause(r: Ref, sc: ScopeClause, glob: Glob, res: StateResolver) returns (hit: bool)
    requires res.Valid()
    modifies res
    ensures res.Valid()
    ensures res.asked == old(res.asked) + if sc.dim.DimOwnership? then [sc.root] else []
    ensures Decides(res.s.objs, hit, HistoryCovers(res.s.objs, glob, res.asked, sc, r))
  {
    match sc.dim {
      case NoDim | DimResource =>
        hit := Gates(sc, r) && glob(sc.name, r.name);
      case DimSelector =>
        hit := Gates(sc, r) && MatchSelectorClause(sc, r, res);
      case DimNamespace =>
        hit := Gates(sc, r);
      case DimOwnership =>
        AskOne(res.asked, sc.root, sc.root.Key());
        var members := res.OwnedSubtree(sc.root);
        hit := r.Key() in members;
      case OtherDim(_) =>
        hit := false;
    }
  }

  // On any history the answer is Answered; on the history of earlier calls with the same
  // scope it is CoveredByMemo.
  ghost predicate MatchAnswer(objs: seq<Object>, glob: Glob, scope: seq<ScopeClause>,
                              before: seq<Ref>, asked: seq<Ref>, r: Ref, covered: bool) {
    && (forall root :: root in asked ==> root in before || Declares(scope, root))
    && Decides(objs, covered, Answered(objs, glob, scope, asked, r))
    && (AskedFrom(scope, before) ==> AskedFrom(scope, asked))
    && (AskedFrom(scope, before) ==> Decides(objs, covered, CoveredByMemo(objs, glob, scope, r)))
  }

  method MatchScope(r: Ref, scope: seq<ScopeClause>, glob: Glob, res: StateResolver) returns (covered: bool)
    requires res.Valid()
    modifies res
    ensures res.Valid()
    ensures MatchAnswer(res.s.objs, glob, scope, old(res.asked), res.asked, r, covered)
  {
    ghost var before := res.asked;
    for i := 0 to |scope|
      invariant res.Valid() && Unanswered(res.s.objs, glob, scope, i, before, res.asked, r)
    {
      ghost var asked := res.asked;
      var hit := MatchClause(r, scope[i], glob, res);
      EvaluateNext(res.s.objs, glob, scope, before, asked, res.asked, i, r, hit);
      if hit {
        return true;
      }
    }
    NoClauseAnswers(res.s.objs, glob, scope, before, res.asked, r);
    return false;
  }

  // Where keys resolve, none of the first i clauses covers r.
  ghost predicate Unanswered(objs: seq<Object>, glob: Glob, scope: seq<ScopeClause>, i: nat,
                             before: seq<Ref>, asked: seq<Ref>, r: Ref)
    requires i <= |scope|
  {
    && AskedUpTo(scope, i, before, asked)
    && (KeysResolve(objs) ==> forall j :: 0 <= j < i ==> !HistoryCovers(objs, glob, asked, scope[j], r))
  }

  lemma ClauseAnswers(objs: seq<Object>, glob: Glob, scope: seq<ScopeClause>,
                      before: seq<Ref>, asked: seq<Ref>, i: nat, r: Ref)
    requires i < |scope| && AskedUpTo(scope, i + 1, before, asked)
    requires HistoryCovers(objs, glob, asked, scope[i], r)
    ensures MatchAnswer(objs, glob, scope, before, asked, r, true)
  {
    HistoryIsMemo(objs, glob, scope, asked, scope[i], r);
    assert scope[i] in scope;
  }

  lemma EvaluateNext(objs: seq<Object>, glob: Glob, scope: seq<ScopeClause>,
                     before: seq<Ref>, asked: seq<Ref>, asked': seq<Ref>, i: nat, r: Ref, hit: bool)
    requires i < |scope| && Unanswered(objs, glob, scope, i, before, asked, r)
    requires asked' == asked + if scope[i].dim.DimOwnership? then [scope[i].root] else []
    requires Decides(objs, hit, HistoryCovers(objs, glob, asked', scope[i], r))
    ensures if hit then MatchAnswer(objs, glob, scope, before, asked', r, true)
            else Unanswered(objs, glob, scope, i + 1, before, asked', r)
  {
    if scope[i].dim.DimOwnership? {
      AskNext(scope, before, asked, i);
      forall j | 0 <= j < i
        ensures HistoryCovers(objs, glob, asked', scope[j], r) <==> HistoryCovers(objs, glob, asked, scope[j], r)
      {
        AnswersKept(objs, glob, scope, asked, scope[i].root, j, r);
      }
    } else {
      assert asked' == asked;
    }
    if hit {
      ClauseAnswers(objs, glob, scope, before, asked', i, r);
    }
  }

  lemma HistoryIsMemo(objs: seq<Object>, glob: Glob, scope: seq<ScopeClause>, asked: seq<Ref>,
                      sc: ScopeClause, r: Ref)
    requires sc.dim.DimOwnership? ==> FirstAsked(asked, sc.root.Key()).Some?
    ensures AskedFrom(scope, asked) ==>
      (HistoryCovers(objs, glob, asked, sc, r) <==> MemoCovers(objs, glob, scope, sc, r))
  {
  }

  lemma NoClauseAnswers(objs: seq<Object>, glob: Glob, scope: seq<ScopeClause>,
                        before: seq<Ref>, asked: seq<Ref>, r: Ref)
    requires Unanswered(objs, glob, scope, |scope|, before, asked, r)
    ensures MatchAnswer(objs, glob, scope, before, asked, r, false)
  {
    forall sc | sc in scope
      ensures AskedFrom(scope, asked) ==>
        (HistoryCovers(objs, glob, asked, sc, r) <==> MemoCovers(objs, glob, scope, sc, r))
    {
      HistoryIsMemo(objs, glob, scope, asked, sc, r);
    }
  }

  predicate MatchSelectorClause(sc: ScopeClause, r: Ref, res: StateResolver)
    requires res.s.Valid()
    ensures MatchSelectorClause(sc, r, res) <==> SelectorCovers(res.s.objs, sc, r)
  {
    if sc.selector.IsEmpty() then false
    else
      var o := res.s.Get(r);
      o.Some? && sc.selector.Matches(o.value.labels)
  }

  // ----- the verdict

  function External(a: Action, f: string): Ref {
    Ref(GVK("", "", "External"), a.target.namespace, f, "")
  }

  function Externals(a: Action): seq<Ref> {
    if !Effects(a).finalizerRemoval then []
    else
      var fs := DroppedFinalizers(a);
      seq(|fs|, i requires 0 <= i < |fs| => External(a, fs[i]))
  }

  method ExternalEffects(s: ScanState, a: Action) returns (out: seq<Ref>)
    requires s.Valid()
    ensures out == if Lookup(s.objs, a.target).None? then [] else Externals(a)
  {
    out := [];
    var found := s.Get(a.target);
    if found.None? {
      return;
    }
    var classes := Classify(a);
    if !classes.finalizerRemoval {
      return;
    }
    var fs := RemovedFinalizers(a);
    for i := 0 to |fs|
      invariant |out| == i && forall j :: 0 <= j < i ==> out[j] == External(a, fs[j])
    {
      out := out + [External(a, fs[i])];
    }
  }

  // d is a decision Safe returns.
  ghost predicate SafeDecision(objs: seq<Object>, glob: Glob, a: Action, scope: seq<ScopeClause>, d: Decision) {
    if Lookup(objs, a.target).None? then d == Decision(Block, NotFound, [], [], [])
    else
      && RunOf(objs, a, Effects(a), d.closure)
      && Sorted(d.escaping) && NoRepeats(d.escaping)
      && (forall r :: r in d.escaping ==> r in d.closure)
      && (forall r :: r in d.closure ==> Decides(objs, r !in d.escaping, CoveredByMemo(objs, glob, scope, r)))
      && d.external == Externals(a)
      && d.verdict == (if d.escaping != [] then Block else if d.external != [] then Warn else Allow)
      && d.reason == (if d.escaping != [] then ScopeEscape else if d.external != [] then BoundaryCrossed else Clear)
  }

  // The loop of Safe: the members no clause covers, in order.
  method Escaping(s: ScanState, c: seq<Ref>, scope: seq<ScopeClause>, glob: Glob) returns (escaping: seq<Ref>)
    requires s.Valid() && NoRepeats(c)
    ensures NoRepeats(escaping) && forall r :: r in escaping ==> r in c
    ensures forall r :: r in c ==> Decides(s.objs, r !in escaping, CoveredByMemo(s.objs, glob, scope, r))
  {
    var res := new StateResolver(s);
    escaping := [];
    for i := 0 to |c|
      invariant res.Valid() && res.s == s && AskedFrom(scope, res.asked)
      invariant NoRepeats(escaping) && forall r :: r in escaping ==> r in c[..i]
      invariant forall j :: 0 <= j < i ==>
        Decides(s.objs, c[j] !in escaping, CoveredByMemo(s.objs, glob, scope, c[j]))
    {
      var covered := MatchScope(c[i], scope, glob, res);
      assert c[i] !in c[..i];
      if !covered {
        escaping := escaping + [c[i]];
      }
      assert forall r :: r in c[..i] || r == c[i] ==> r in c[..i + 1];
    }
  }

  method Safe(s: ScanState, a: Action, scope: seq<ScopeClause>, glob: Glob) returns (d: Decision)
    requires s.Valid()
    ensures SafeDecision(s.objs, glob, a, scope, d)
  {
    var c := Closure(s, a);
    OutcomeShape(s.objs, a, Effects(a), c);
    if |c| == 0 {
      return Decision(Block, NotFound, [], [], []);
    }
    var external := ExternalEffects(s, a);
    var found := Escaping(s, c, scope, glob);
    SortKeeps(found);
    var escaping := SortByHuman(found);
    var verdict, reason := Allow, Clear;
    if |escaping| > 0 {
      verdict, reason := Block, ScopeEscape;
    } else if |external| > 0 {
      verdict, reason := Warn, BoundaryCrossed;
    }
    d := Decision(verdict, reason, c, escaping, external);
  }

  lemma OutcomeShape(objs: seq<Object>, a: Action, fx: EffectSet, c: seq<Ref>)
    requires ClosureOf(objs, a, fx, c)
    ensures NoRepeats(c)
    ensures c == [] <==> Lookup(objs, a.target).None?
  {
    if Lookup(objs, a.target).Some? {
      var done, m :| Walk(objs, a, fx, done, m) && Lists(c, m);
      assert m[a.target.Key()] in c;
    }
  }
}
