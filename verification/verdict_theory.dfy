// What the verdict means: the subset test, the memo, ownership grants, and scope algebra.
module VerdictTheory {
  import opened Prelude
  import opened Model
  import opened Inventory
  import opened Classification
  import opened Sorting
  import opened Graph
  import opened Closures
  import opened ClosureTheory
  import opened Monotonicity
  import opened Verdicts
  import opened Scopes

  // ----- the memo

  ghost predicate IsRoot(scope: seq<ScopeClause>, asked: seq<Ref>, root: Ref) {
    root in asked || Declares(scope, root)
  }

  // Roots declared or asked under one key resolve alike, if at all.
  ghost predicate RootsResolve(objs: seq<Object>, scope: seq<ScopeClause>, asked: seq<Ref>) {
    forall x, y :: IsRoot(scope, asked, x) && IsRoot(scope, asked, y) && x.Key() == y.Key() ==> SameOrigin(objs, x, y)
  }

  // They do when every root's uid is tracked or empty, and when no two share a key.
  lemma SettledRootsResolve(objs: seq<Object>, scope: seq<ScopeClause>, asked: seq<Ref>)
    requires forall x, y :: IsRoot(scope, asked, x) && IsRoot(scope, asked, y) && x.Key() == y.Key() ==>
      x == y || (Settled(objs, x) && Settled(objs, y))
    ensures RootsResolve(objs, scope, asked)
  {
    forall x, y | IsRoot(scope, asked, x) && IsRoot(scope, asked, y) && x.Key() == y.Key()
      ensures SameOrigin(objs, x, y)
    {
      if x != y {
        SameKeySameLookup(objs, x, y);
      }
    }
  }

  lemma {:induction false} FirstRootIsDeclared(scope: seq<ScopeClause>, k: string)
    requires FirstRoot(scope, k).Some?
    ensures FirstRoot(scope, k).value.Key() == k
    ensures Declares(scope, FirstRoot(scope, k).value)
  {
    if scope[0].dim.DimOwnership? && scope[0].root.Key() == k {
      assert scope[0] in scope;
    } else {
      FirstRootIsDeclared(scope[1..], k);
      var sc :| sc in scope[1..] && sc.dim.DimOwnership? && sc.root == FirstRoot(scope[1..], k).value;
      assert sc in scope;
    }
  }

  // Roots with one key that resolve alike have one subtree.
  lemma SameKeySameSubtree(objs: seq<Object>, x: Ref, y: Ref, k: string)
    requires x.Key() == y.Key() && SameOrigin(objs, x, y)
    ensures InSubtree(objs, x, k) <==> InSubtree(objs, y, k)
  {
    if Lookup(objs, x).None? {
      OnlyItself(objs, x, k);
      OnlyItself(objs, y, k);
    }
  }

  lemma OnlyItself(objs: seq<Object>, x: Ref, k: string)
    requires Lookup(objs, x).None?
    ensures InSubtree(objs, x, k) <==> k == x.Key()
  {
    forall y | Owned(objs, x, y) ensures y == x {
      assert Children(objs, x) == [];
      Invariant(OwnEdges(objs), x, (r: Ref) => r == x, y);
    }
  }

  // The memo is invisible: matchScope answers the declared meaning, absent roots included.
  lemma MemoIsTransparent(objs: seq<Object>, glob: Glob, scope: seq<ScopeClause>, r: Ref)
    requires RootsResolve(objs, scope, [])
    ensures CoveredByMemo(objs, glob, scope, r) <==> Covered(objs, glob, scope, r)
  {
    forall sc | sc in scope
      ensures MemoCovers(objs, glob, scope, sc, r) <==> ClauseCovers(objs, glob, sc, r)
    {
      if sc.dim.DimOwnership? && FirstRoot(scope, sc.root.Key()).Some? {
        FirstRootIsDeclared(scope, sc.root.Key());
        assert IsRoot(scope, [], sc.root) && IsRoot(scope, [], MemoRoot(scope, sc));
        SameKeySameSubtree(objs, MemoRoot(scope, sc), sc.root, r.Key());
      }
    }
  }

  lemma {:induction false} FirstAskedWasAsked(asked: seq<Ref>, k: string)
    requires FirstAsked(asked, k).Some?
    ensures FirstAsked(asked, k).value in asked && FirstAsked(asked, k).value.Key() == k
  {
    if FirstAsked(asked[..|asked| - 1], k).Some? {
      FirstAskedWasAsked(asked[..|asked| - 1], k);
    }
  }

  // So it stays over every sequence of calls: whatever roots a resolver was asked before,
  // each answer is the declared meaning.
  lemma HistoryIsTransparent(objs: seq<Object>, glob: Glob, scope: seq<ScopeClause>, asked: seq<Ref>, r: Ref)
    requires RootsResolve(objs, scope, asked)
    ensures Answered(objs, glob, scope, asked, r) <==> Covered(objs, glob, scope, r)
  {
    forall sc | sc in scope
      ensures HistoryCovers(objs, glob, asked, sc, r) <==> ClauseCovers(objs, glob, sc, r)
    {
      if sc.dim.DimOwnership? && FirstAsked(asked, sc.root.Key()).Some? {
        FirstAskedWasAsked(asked, sc.root.Key());
        assert IsRoot(scope, asked, sc.root) && IsRoot(scope, asked, HistoricRoot(asked, sc));
        SameKeySameSubtree(objs, HistoricRoot(asked, sc), sc.root, r.Key());
      }
    }
  }

  // ----- ownership grants

  // A tracked resource inside a root's subtree has its whole subtree inside it.
  lemma GrantsNest(objs: seq<Object>, root: Ref, r: Ref, k: string)
    requires WellFormed(objs) && PlainKind(root)
    requires IsObjectRef(objs, r) && InSubtree(objs, root, r.Key())
    requires InSubtree(objs, r, k)
    ensures InSubtree(objs, root, k)
  {
    var o :| o in objs && o.ref == r;
    OwnRefLookup(objs, o);
    OwnedByNode(objs, root, r);
    if k != r.Key() {
      var z :| Owned(objs, r, z) && z.Key() == k;
      Transitive(OwnEdges(objs), Origin(objs, root), r, z);
    }
  }

  // A tracked resource whose key is in a subtree is itself owned.
  lemma OwnedByNode(objs: seq<Object>, root: Ref, r: Ref)
    requires WellFormed(objs) && PlainKind(root)
    requires IsObjectRef(objs, r) && InSubtree(objs, root, r.Key())
    ensures Owned(objs, root, r)
  {
    var o :| o in objs && o.ref == r;
    OwnRefLookup(objs, o);
    if root.Key() == r.Key() {
      ObjectRefSettled(objs, r);
      SameKey(root, r);
      SameKeySameLookup(objs, root, r);
      Start(OwnEdges(objs), r);
    } else {
      var y :| Owned(objs, root, y) && y.Key() == r.Key();
      OwnedIsTracked(objs, Origin(objs, root), y);
      LookupIsTracked(objs, root);
      ObjectKeysDistinct(objs, y, r);
    }
  }

  // Tracked resources inside each other's subtrees, as on an ownership cycle, have the
  // same subtree.
  lemma CycleSharesSubtree(objs: seq<Object>, r: Ref, s: Ref, k: string)
    requires WellFormed(objs) && IsObjectRef(objs, r) && IsObjectRef(objs, s)
    requires InSubtree(objs, r, s.Key()) && InSubtree(objs, s, r.Key())
    ensures InSubtree(objs, r, k) <==> InSubtree(objs, s, k)
  {
    if InSubtree(objs, r, k) { GrantsNest(objs, s, r, k); }
    if InSubtree(objs, s, k) { GrantsNest(objs, r, s, k); }
  }

  ghost predicate SameSubtree(objs: seq<Object>, x: Ref, y: Ref) {
    forall k :: InSubtree(objs, x, k) <==> InSubtree(objs, y, k)
  }

  // Each root's object lies in the other's subtree.
  ghost predicate Interlocked(objs: seq<Object>, x: Ref, y: Ref) {
    InSubtree(objs, y, Origin(objs, x).Key()) && InSubtree(objs, x, Origin(objs, y).Key())
  }

  // Neither root resolves, or both do and their objects are interlocked.
  ghost predicate Interchangeable(objs: seq<Object>, x: Ref, y: Ref) {
    (Lookup(objs, x).Some? <==> Lookup(objs, y).Some?) && (Lookup(objs, x).Some? ==> Interlocked(objs, x, y))
  }

  // Exactly when answering y's subtree with x's, cached under the same key, is right.
  lemma CachedAnswerRightIff(objs: seq<Object>, x: Ref, y: Ref)
    requires WellFormed(objs) && PlainKind(x) && PlainKind(y) && x.Key() == y.Key()
    ensures SameSubtree(objs, x, y) <==> Interchangeable(objs, x, y)
  {
    OriginInSubtree(objs, x);
    OriginInSubtree(objs, y);
    if Lookup(objs, x).None? && Lookup(objs, y).None? {
      forall k ensures InSubtree(objs, x, k) <==> InSubtree(objs, y, k) {
        OnlyItself(objs, x, k);
        OnlyItself(objs, y, k);
      }
    } else if Lookup(objs, x).None? {
      UnresolvedDiffers(objs, x, y);
    } else if Lookup(objs, y).None? {
      UnresolvedDiffers(objs, y, x);
    } else if Interlocked(objs, x, y) {
      forall k ensures InSubtree(objs, x, k) <==> InSubtree(objs, y, k) {
        if InSubtree(objs, x, k) { SubtreeInside(objs, x, y, k); }
        if InSubtree(objs, y, k) { SubtreeInside(objs, y, x, k); }
      }
    }
  }

  // Clause by clause, the memo answers every ref as declared exactly when each ownership
  // root and the first one declared under its key are interchangeable.
  lemma MemoIsExactIff(objs: seq<Object>, glob: Glob, scope: seq<ScopeClause>)
    requires WellFormed(objs) && forall root :: Declares(scope, root) ==> PlainKind(root)
    ensures (forall sc :: sc in scope ==> ClauseExact(objs, glob, scope, sc))
       <==> forall sc :: sc in scope && sc.dim.DimOwnership? ==> Interchangeable(objs, MemoRoot(scope, sc), sc.root)
  {
    forall sc | sc in scope
      ensures ClauseExact(objs, glob, scope, sc)
         <==> (sc.dim.DimOwnership? ==> Interchangeable(objs, MemoRoot(scope, sc), sc.root))
    {
      ClauseIsExactIff(objs, glob, scope, sc);
    }
  }

  // The memo answers every ref for this clause as declared.
  ghost predicate ClauseExact(objs: seq<Object>, glob: Glob, scope: seq<ScopeClause>, sc: ScopeClause) {
    forall r :: MemoCovers(objs, glob, scope, sc, r) <==> ClauseCovers(objs, glob, sc, r)
  }

  lemma ClauseIsExactIff(objs: seq<Object>, glob: Glob, scope: seq<ScopeClause>, sc: ScopeClause)
    requires WellFormed(objs) && forall root :: Declares(scope, root) ==> PlainKind(root)
    requires sc in scope
    ensures ClauseExact(objs, glob, scope, sc)
       <==> (sc.dim.DimOwnership? ==> Interchangeable(objs, MemoRoot(scope, sc), sc.root))
  {
    if sc.dim.DimOwnership? {
      MemoRootDeclared(scope, sc);
      CachedAnswerRightIff(objs, MemoRoot(scope, sc), sc.root);
      SameSubtreeByRefs(objs, MemoRoot(scope, sc), sc.root);
      forall r
        ensures MemoCovers(objs, glob, scope, sc, r) <==> InSubtree(objs, MemoRoot(scope, sc), r.Key())
        ensures ClauseCovers(objs, glob, sc, r) <==> InSubtree(objs, sc.root, r.Key())
      {
      }
    }
  }

  lemma MemoRootDeclared(scope: seq<ScopeClause>, sc: ScopeClause)
    requires sc in scope && sc.dim.DimOwnership?
    ensures Declares(scope, sc.root) && Declares(scope, MemoRoot(scope, sc))
    ensures MemoRoot(scope, sc).Key() == sc.root.Key()
  {
    if FirstRoot(scope, sc.root.Key()).Some? {
      FirstRootIsDeclared(scope, sc.root.Key());
    }
  }

  // A subtree's keys are keys of refs, so refs tell subtrees apart.
  lemma SameSubtreeByRefs(objs: seq<Object>, x: Ref, y: Ref)
    ensures SameSubtree(objs, x, y) <==> forall r: Ref :: InSubtree(objs, x, r.Key()) <==> InSubtree(objs, y, r.Key())
  {
    if forall r: Ref :: InSubtree(objs, x, r.Key()) <==> InSubtree(objs, y, r.Key()) {
      forall k ensures InSubtree(objs, x, k) <==> InSubtree(objs, y, k) {
        if InSubtree(objs, x, k) { SubtreeKeyOf(objs, x, y, k); }
        if InSubtree(objs, y, k) { SubtreeKeyOf(objs, y, x, k); }
      }
    }
  }

  lemma SubtreeKeyOf(objs: seq<Object>, x: Ref, y: Ref, k: string)
    requires InSubtree(objs, x, k)
    requires forall r: Ref :: InSubtree(objs, x, r.Key()) ==> InSubtree(objs, y, r.Key())
    ensures InSubtree(objs, y, k)
  {
    if k == x.Key() {
      assert InSubtree(objs, x, x.Key());
    } else {
      var z :| Owned(objs, x, z) && z.Key() == k;
      assert InSubtree(objs, x, z.Key());
    }
  }

  lemma OriginInSubtree(objs: seq<Object>, x: Ref)
    ensures InSubtree(objs, x, Origin(objs, x).Key())
  {
    Start(OwnEdges(objs), Origin(objs, x));
  }

  lemma UnresolvedDiffers(objs: seq<Object>, x: Ref, y: Ref)
    requires WellFormed(objs) && PlainKind(x) && x.Key() == y.Key()
    requires Lookup(objs, x).None? && Lookup(objs, y).Some?
    ensures !SameSubtree(objs, x, y) && !SameSubtree(objs, y, x)
  {
    UnresolvedKeyIsFree(objs, x, y);
    OriginInSubtree(objs, y);
    OnlyItself(objs, x, Origin(objs, y).Key());
  }

  lemma UnresolvedKeyIsFree(objs: seq<Object>, x: Ref, y: Ref)
    requires WellFormed(objs) && PlainKind(x) && Lookup(objs, x).None? && Lookup(objs, y).Some?
    ensures Origin(objs, y).Key() != x.Key()
  {
    LookupIsTracked(objs, y);
    if Origin(objs, y).Key() == x.Key() {
      SameKey(Origin(objs, y), x);
    }
  }

  // An absent root fails closed: it covers no tracked resource.
  lemma AbsentRootGrantsNothing(objs: seq<Object>, root: Ref, r: Ref)
    requires WellFormed(objs) && PlainKind(root) && Lookup(objs, root).None? && IsObjectRef(objs, r)
    ensures !InSubtree(objs, root, r.Key())
  {
    OnlyItself(objs, root, r.Key());
    if r.Key() == root.Key() {
      SameKey(r, root);
    }
  }

  lemma SubtreeInside(objs: seq<Object>, x: Ref, y: Ref, k: string)
    requires WellFormed(objs) && PlainKind(y) && x.Key() == y.Key() && Lookup(objs, x).Some?
    requires InSubtree(objs, y, Origin(objs, x).Key()) && InSubtree(objs, x, k)
    ensures InSubtree(objs, y, k)
  {
    if k != x.Key() {
      LookupIsTracked(objs, x);
      var o := Lookup(objs, x).value;
      OwnRefLookup(objs, o);
      GrantsNest(objs, y, o.ref, k);
    }
  }

  // ----- the subset test

  // On every inventory, duplicates and odd kinds included: what is not blocked stays in
  // scope.
  lemma UnblockedIsCovered(objs: seq<Object>, glob: Glob, a: Action, scope: seq<ScopeClause>, d: Decision)
    requires SafeDecision(objs, glob, a, scope, d) && !d.verdict.Block?
    ensures Lookup(objs, a.target).Some?
    ensures forall r :: r in d.closure ==> CoveredByMemo(objs, glob, scope, r)
    ensures RootsResolve(objs, scope, []) ==> forall r :: r in d.closure ==> Covered(objs, glob, scope, r)
  {
    if RootsResolve(objs, scope, []) {
      forall r { MemoIsTransparent(objs, glob, scope, r); }
    }
  }

  // Safe blocks exactly when the target is unresolvable or some closure member is outside
  // the declared scope.
  lemma BlockIsSubsetTest(objs: seq<Object>, glob: Glob, a: Action, scope: seq<ScopeClause>, d: Decision)
    requires KeysResolve(objs) && RootsResolve(objs, scope, [])
    requires SafeDecision(objs, glob, a, scope, d)
    ensures forall r :: r in d.escaping <==> r in d.closure && !Covered(objs, glob, scope, r)
    ensures d.verdict.Block? <==>
      Lookup(objs, a.target).None? || exists r :: r in d.closure && !Covered(objs, glob, scope, r)
    ensures d.verdict.Warn? <==>
      && Lookup(objs, a.target).Some?
      && (forall r :: r in d.closure ==> Covered(objs, glob, scope, r))
      && (a.verb.Update? || a.verb.Patch?) && FinalizersDropped(a)
  {
    forall r { MemoIsTransparent(objs, glob, scope, r); }
    if d.escaping != [] {
      assert d.escaping[0] in d.closure;
    }
    assert (exists r :: r in d.escaping) <==> d.escaping != [];
  }

  // On a well-formed inventory, whatever the target resolves to, what escapes is a function
  // of the input: the members the declared scope does not cover.
  lemma EscapingIsExact(objs: seq<Object>, glob: Glob, a: Action, scope: seq<ScopeClause>, d: Decision)
    requires WellFormed(objs) && Lookup(objs, a.target).Some? && RootsResolve(objs, scope, [])
    requires SafeDecision(objs, glob, a, scope, d)
    ensures forall r :: r in d.closure <==> Affected(objs, a, Effects(a), r)
    ensures forall r :: r in d.escaping <==> Affected(objs, a, Effects(a), r) && !Covered(objs, glob, scope, r)
  {
    forall r ensures r in d.closure <==> Affected(objs, a, Effects(a), r) {
      DecisionMembers(objs, glob, a, scope, d, r);
    }
    PlainKeysResolve(objs);
    BlockIsSubsetTest(objs, glob, a, scope, d);
  }

  lemma DecisionMembers(objs: seq<Object>, glob: Glob, a: Action, scope: seq<ScopeClause>, d: Decision, r: Ref)
    requires WellFormed(objs) && Lookup(objs, a.target).Some?
    requires SafeDecision(objs, glob, a, scope, d)
    ensures r in d.closure <==> Affected(objs, a, Effects(a), r)
    ensures r in d.escaping <==> Escapes(objs, glob, a, scope, r)
  {
    PlainKeysResolve(objs);
    RunIsOutcome(objs, a, Effects(a), d.closure);
    MembersExactly(objs, a, Effects(a), d.closure, r);
  }

  // r is a member no clause covers, as the memo reads the scope.
  ghost predicate Escapes(objs: seq<Object>, glob: Glob, a: Action, scope: seq<ScopeClause>, r: Ref) {
    Affected(objs, a, Effects(a), r) && !CoveredByMemo(objs, glob, scope, r)
  }

  // ----- scope algebra

  // A concatenated scope covers, and a resolver answers with, what either part does; so
  // does the memo when the roots resolve alike.
  lemma CoveredAppend(objs: seq<Object>, glob: Glob, s: seq<ScopeClause>, t: seq<ScopeClause>, asked: seq<Ref>, r: Ref)
    ensures Covered(objs, glob, s + t, r) <==> Covered(objs, glob, s, r) || Covered(objs, glob, t, r)
    ensures Answered(objs, glob, s + t, asked, r) <==>
      Answered(objs, glob, s, asked, r) || Answered(objs, glob, t, asked, r)
    ensures RootsResolve(objs, s + t, []) ==>
      (CoveredByMemo(objs, glob, s + t, r) <==> CoveredByMemo(objs, glob, s, r) || CoveredByMemo(objs, glob, t, r))
  {
    assert forall sc :: sc in s + t <==> sc in s || sc in t;
    if RootsResolve(objs, s + t, []) {
      FewerRootsResolve(objs, s, s + t);
      FewerRootsResolve(objs, t, s + t);
      MemoIsTransparent(objs, glob, s, r);
      MemoIsTransparent(objs, glob, t, r);
      MemoIsTransparent(objs, glob, s + t, r);
    }
  }

  lemma FewerRootsResolve(objs: seq<Object>, s: seq<ScopeClause>, t: seq<ScopeClause>)
    requires (forall sc :: sc in s ==> sc in t) && RootsResolve(objs, t, [])
    ensures RootsResolve(objs, s, [])
  {
    forall root | IsRoot(s, [], root) ensures IsRoot(t, [], root) {
      var sc :| sc in s && sc.dim.DimOwnership? && sc.root == root;
      assert sc in t;
    }
  }

  function Rank(v: Verdict): nat {
    match v case Allow => 0 case Warn => 1 case Block => 2
  }

  lemma CoverageGrows(objs: seq<Object>, glob: Glob, s: seq<ScopeClause>, t: seq<ScopeClause>, r: Ref)
    requires (forall sc :: sc in s ==> sc in t) && Covered(objs, glob, s, r)
    ensures Covered(objs, glob, t, r)
  {
    var sc :| sc in s && ClauseCovers(objs, glob, sc, r);
    assert sc in t;
  }

  // On every inventory where keys resolve, for two decisions on the same members: more
  // clauses, in any order and with any repetition, only shrink Escaping and never raise
  // the verdict.
  lemma WiderScopeOnMembers(objs: seq<Object>, glob: Glob, a: Action, s: seq<ScopeClause>, t: seq<ScopeClause>,
                            d: Decision, e: Decision)
    requires KeysResolve(objs) && RootsResolve(objs, t, []) && forall sc :: sc in s ==> sc in t
    requires SafeDecision(objs, glob, a, s, d) && SafeDecision(objs, glob, a, t, e)
    requires forall r :: r in d.closure <==> r in e.closure
    ensures forall r :: r in e.escaping ==> r in d.escaping
    ensures Rank(e.verdict) <= Rank(d.verdict)
  {
    forall r | r in e.escaping ensures r in d.escaping {
      if CoveredByMemo(objs, glob, s, r) {
        MemoCoverageGrows(objs, glob, s, t, r);
      }
    }
    VerdictShape(objs, glob, a, s, d);
    VerdictShape(objs, glob, a, t, e);
    if e.escaping != [] {
      assert e.escaping[0] in d.escaping;
    }
  }

  lemma MemoCoverageGrows(objs: seq<Object>, glob: Glob, s: seq<ScopeClause>, t: seq<ScopeClause>, r: Ref)
    requires RootsResolve(objs, t, []) && forall sc :: sc in s ==> sc in t
    requires CoveredByMemo(objs, glob, s, r)
    ensures CoveredByMemo(objs, glob, t, r)
  {
    FewerRootsResolve(objs, s, t);
    MemoIsTransparent(objs, glob, s, r);
    MemoIsTransparent(objs, glob, t, r);
    CoverageGrows(objs, glob, s, t, r);
  }

  lemma VerdictShape(objs: seq<Object>, glob: Glob, a: Action, scope: seq<ScopeClause>, d: Decision)
    requires SafeDecision(objs, glob, a, scope, d)
    ensures Lookup(objs, a.target).None? ==> d.verdict == Block && d.escaping == []
    ensures Lookup(objs, a.target).Some? ==>
      d.verdict == (if d.escaping != [] then Block else if Externals(a) != [] then Warn else Allow)
    ensures NoRepeats(d.escaping)
  {
  }

  // On a well-formed inventory the members are the same, so this holds of any two
  // decisions.
  lemma WiderScopeIsMilder(objs: seq<Object>, glob: Glob, a: Action, s: seq<ScopeClause>, t: seq<ScopeClause>,
                           d: Decision, e: Decision)
    requires WellFormed(objs) && RootsResolve(objs, t, []) && forall sc :: sc in s ==> sc in t
    requires SafeDecision(objs, glob, a, s, d) && SafeDecision(objs, glob, a, t, e)
    ensures forall r :: r in e.escaping ==> r in d.escaping
    ensures Rank(e.verdict) <= Rank(d.verdict)
  {
    PlainKeysResolve(objs);
    DecisionsShareMembers(objs, glob, a, s, t, d, e);
    WiderScopeOnMembers(objs, glob, a, s, t, d, e);
  }

  lemma DecisionsShareMembers(objs: seq<Object>, glob: Glob, a: Action, s: seq<ScopeClause>, t: seq<ScopeClause>,
                              d: Decision, e: Decision)
    requires WellFormed(objs)
    requires SafeDecision(objs, glob, a, s, d) && SafeDecision(objs, glob, a, t, e)
    ensures forall r :: r in d.closure <==> r in e.closure
  {
    if Lookup(objs, a.target).Some? {
      RunIsOutcome(objs, a, Effects(a), d.closure);
      RunIsOutcome(objs, a, Effects(a), e.closure);
      ClosureIsDeterministic(objs, a, Effects(a), d.closure, e.closure);
    }
  }

  // Two decisions on one input agree: members, escapes, verdict and reason; and they are
  // equal when human names are distinct.
  lemma SafeIsDeterministic(objs: seq<Object>, glob: Glob, a: Action, scope: seq<ScopeClause>, d: Decision, e: Decision)
    requires WellFormed(objs)
    requires SafeDecision(objs, glob, a, scope, d) && SafeDecision(objs, glob, a, scope, e)
    ensures forall r :: (r in d.closure <==> r in e.closure) && (r in d.escaping <==> r in e.escaping)
    ensures d.verdict == e.verdict && d.reason == e.reason && d.external == e.external
    ensures DistinctNames(d.closure) ==> d == e
  {
    if Lookup(objs, a.target).Some? {
      PlainKeysResolve(objs);
      RunIsOutcome(objs, a, Effects(a), d.closure);
      RunIsOutcome(objs, a, Effects(a), e.closure);
      ClosureIsDeterministic(objs, a, Effects(a), d.closure, e.closure);
      assert forall r :: r in d.escaping <==> r in e.escaping;
      assert d.escaping == [] <==> e.escaping == [] by {
        EscapeBesides(d.escaping, a.target);
        EscapeBesides(e.escaping, a.target);
      }
      if DistinctNames(d.closure) {
        SortedListUnique(d.escaping, e.escaping);
      }
    }
  }

  // Scopes with the same clauses decide alike.
  lemma SameClausesSameVerdict(objs: seq<Object>, glob: Glob, a: Action, s: seq<ScopeClause>, t: seq<ScopeClause>,
                               d: Decision, e: Decision)
    requires WellFormed(objs) && RootsResolve(objs, s, []) && forall sc :: sc in s <==> sc in t
    requires SafeDecision(objs, glob, a, s, d) && SafeDecision(objs, glob, a, t, e)
    ensures (forall r :: r in e.escaping <==> r in d.escaping) && e.verdict == d.verdict
  {
    FewerRootsResolve(objs, t, s);
    WiderScopeIsMilder(objs, glob, a, s, t, d, e);
    WiderScopeIsMilder(objs, glob, a, t, s, e, d);
  }

  // ----- more effects

  // Under one scope an action that does more keeps every escape but perhaps the target's,
  // and that one exactly when it does not oust the target.
  lemma MoreEffectsEscapeMore(objs: seq<Object>, glob: Glob, a: Action, b: Action, scope: seq<ScopeClause>,
                              d: Decision, e: Decision)
    requires WellFormed(objs) && SamePayload(a, b) && a.target == b.target && Within(Effects(a), Effects(b))
    requires SafeDecision(objs, glob, a, scope, d) && SafeDecision(objs, glob, b, scope, e)
    ensures forall r :: r in d.escaping ==> (r in e.escaping <==> (r == a.target ==> !Ousted(objs, b, Effects(b))))
  {
    if Lookup(objs, a.target).Some? {
      PlainKeysResolve(objs);
      RunIsOutcome(objs, a, Effects(a), d.closure);
      RunIsOutcome(objs, b, Effects(b), e.closure);
      ClosureGrowsWithEffects(objs, a, b, Effects(a), Effects(b), d.closure, e.closure);
      TargetKeptIff(objs, b, Effects(b), e.closure);
    }
  }

  // So its verdict is no milder, except exactly when the target was the only escape, is
  // ousted, and nothing else escapes.
  lemma MoreEffectsAreMilderIff(objs: seq<Object>, glob: Glob, a: Action, b: Action, scope: seq<ScopeClause>,
                                d: Decision, e: Decision)
    requires WellFormed(objs) && SamePayload(a, b) && a.target == b.target && Within(Effects(a), Effects(b))
    requires Lookup(objs, a.target).Some?
    requires SafeDecision(objs, glob, a, scope, d) && SafeDecision(objs, glob, b, scope, e)
    ensures Rank(e.verdict) < Rank(d.verdict) <==>
      && Escapes(objs, glob, a, scope, a.target) && Ousted(objs, b, Effects(b))
      && forall r :: !Escapes(objs, glob, b, scope, r)
  {
    EscapesByInput(objs, glob, a, scope, d);
    EscapesByInput(objs, glob, b, scope, e);
    MoreEffectsEscapeMore(objs, glob, a, b, scope, d, e);
    RanksByEscapes(objs, glob, a, b, scope, d, e);
    EscapeBesides(d.escaping, a.target);
    EscapeBesides(e.escaping, a.target);
  }

  lemma RanksByEscapes(objs: seq<Object>, glob: Glob, a: Action, b: Action, scope: seq<ScopeClause>,
                       d: Decision, e: Decision)
    requires SamePayload(a, b) && a.target == b.target && Within(Effects(a), Effects(b))
    requires Lookup(objs, a.target).Some?
    requires SafeDecision(objs, glob, a, scope, d) && SafeDecision(objs, glob, b, scope, e)
    ensures NoRepeats(d.escaping) && NoRepeats(e.escaping)
    ensures Rank(e.verdict) < Rank(d.verdict) <==> d.escaping != [] && e.escaping == []
  {
    VerdictShape(objs, glob, a, scope, d);
    VerdictShape(objs, glob, b, scope, e);
    ExternalsGrow(a, b);
  }

  lemma EscapesByInput(objs: seq<Object>, glob: Glob, a: Action, scope: seq<ScopeClause>, d: Decision)
    requires WellFormed(objs) && Lookup(objs, a.target).Some?
    requires SafeDecision(objs, glob, a, scope, d)
    ensures forall r :: r in d.escaping <==> Escapes(objs, glob, a, scope, r)
  {
    forall r { DecisionMembers(objs, glob, a, scope, d, r); }
  }

  lemma ExternalsGrow(a: Action, b: Action)
    requires SamePayload(a, b) && a.target == b.target && Within(Effects(a), Effects(b))
    ensures Externals(a) != [] ==> Externals(b) != []
  {
    assert |Externals(a)| > 0 ==> |Externals(b)| > 0;
  }

  lemma EscapeBesides(escaping: seq<Ref>, t: Ref)
    requires NoRepeats(escaping)
    ensures escaping == [] || escaping == [t] || exists r :: r in escaping && r != t
    ensures escaping != [] ==> exists r :: r in escaping
  {
    if escaping != [] {
      assert escaping[0] in escaping;
      if escaping[0] == t && |escaping| > 1 {
        assert escaping[1] in escaping;
      }
    }
  }

  // Cascading a delete, or scaling, updating or patching in place of a restart, is milder
  // exactly then.
  lemma StrongerVerbsAreMilderIff(objs: seq<Object>, glob: Glob, a: Action, b: Action, scope: seq<ScopeClause>,
                                  d: Decision, e: Decision)
    requires WellFormed(objs) && Strengthens(a, b) && Lookup(objs, a.target).Some?
    requires SafeDecision(objs, glob, a, scope, d) && SafeDecision(objs, glob, b, scope, e)
    ensures Rank(e.verdict) < Rank(d.verdict) <==>
      && Escapes(objs, glob, a, scope, a.target) && Ousted(objs, b, Effects(b))
      && forall r :: !Escapes(objs, glob, b, scope, r)
  {
    StrongerDoesMore(a, b);
    MoreEffectsAreMilderIff(objs, glob, a, b, scope, d, e);
  }

  // ----- the derived scope

  // Under Derive neither the target nor anything it transitively owns escapes.
  lemma DerivedScopeCoversItsTree(objs: seq<Object>, glob: Glob, a: Action, d: Decision, r: Ref)
    requires KeysResolve(objs)
    requires SafeDecision(objs, glob, a, Derive(a.target).clauses, d)
    requires r == a.target || Owned(objs, a.target, r) || InSubtree(objs, a.target, r.Key())
    ensures r !in d.escaping
  {
    DerivedScopeMeans(objs, glob, a.target, r);
  }

  const ONLY_CASCADE := NO_EFFECTS.(cascadeDelete := true)

  // The object ref under a resolvable target's key is its object's.
  lemma RivalIsOrigin(objs: seq<Object>, target: Ref, z: Ref)
    requires WellFormed(objs) && Lookup(objs, target).Some? && IsObjectRef(objs, z)
    requires z.Key() == target.Key()
    ensures Lookup(objs, target).value.ref == z
  {
    LookupIsTracked(objs, target);
    var p :| p in objs && p.ref == z;
    OwnRefLookup(objs, p);
    if target.uid == "" && z.uid != "" {
      HumanIsNoUidKey(Lookup(objs, target).value.ref, z.uid);
    } else if target.uid != "" {
      SameKey(target, z);
    }
  }

  // What a purely cascading delete expands resolves to what the ownership walk visits.
  lemma CascadeIsOwned(objs: seq<Object>, a: Action, x: Ref)
    requires WellFormed(objs) && Lookup(objs, a.target).Some? && Expands(objs, a, ONLY_CASCADE, x)
    ensures Lookup(objs, x).Some? && Owned(objs, a.target, Lookup(objs, x).value.ref)
    ensures x == a.target || Lookup(objs, x).value.ref == x
  {
    var e := OpenEdges(objs, a, ONLY_CASCADE);
    var p := (x: Ref) =>
      && Lookup(objs, x).Some? && Owned(objs, a.target, Lookup(objs, x).value.ref)
      && (x == a.target || Lookup(objs, x).value.ref == x);
    Start(OwnEdges(objs), Origin(objs, a.target));
    forall x, y | p(x) && e(x, y) ensures p(y) {
      CascadeStep(objs, a, x, y);
    }
    Invariant(e, a.target, p, x);
  }

  lemma CascadeStep(objs: seq<Object>, a: Action, x: Ref, y: Ref)
    requires WellFormed(objs) && Lookup(objs, x).Some? && y in Children(objs, x)
    requires Owned(objs, a.target, Lookup(objs, x).value.ref)
    ensures Lookup(objs, y).Some? && Lookup(objs, y).value.ref == y && Owned(objs, a.target, y)
  {
    var o := Lookup(objs, x).value;
    LookupIsTracked(objs, x);
    OwnRefLookup(objs, o);
    ChildrenAreTracked(objs, x, y);
    var p :| p in objs && p.ref == y;
    OwnRefLookup(objs, p);
    Step(OwnEdges(objs), Origin(objs, a.target), o.ref, y);
  }

  ghost predicate Resolves(objs: seq<Object>, a: Action, fx: EffectSet, x: Ref, y: Ref) {
    Expands(objs, a, fx, x) && Lookup(objs, x).Some? && Lookup(objs, x).value.ref == y
  }

  lemma OwnedIsCascaded(objs: seq<Object>, a: Action, y: Ref)
    requires WellFormed(objs) && Lookup(objs, a.target).Some? && Owned(objs, a.target, y)
    ensures exists x :: Resolves(objs, a, ONLY_CASCADE, x, y)
  {
    var e, t := OpenEdges(objs, a, ONLY_CASCADE), a.target;
    Start(e, t);
    assert Resolves(objs, a, ONLY_CASCADE, t, Origin(objs, t));
    var p := (y: Ref) => exists x :: Resolves(objs, a, ONLY_CASCADE, x, y);
    forall y, z | p(y) && OwnEdges(objs)(y, z) ensures p(z) {
      var x :| Resolves(objs, a, ONLY_CASCADE, x, y);
      OwnedStep(objs, a, x, y, z);
    }
    Invariant(OwnEdges(objs), Origin(objs, t), p, y);
  }

  lemma OwnedStep(objs: seq<Object>, a: Action, x: Ref, y: Ref, z: Ref)
    requires WellFormed(objs) && Lookup(objs, a.target).Some?
    requires Resolves(objs, a, ONLY_CASCADE, x, y) && z in Children(objs, y)
    ensures exists w :: Resolves(objs, a, ONLY_CASCADE, w, z)
  {
    var e, t := OpenEdges(objs, a, ONLY_CASCADE), a.target;
    LookupIsTracked(objs, x);
    OwnRefLookup(objs, Lookup(objs, x).value);
    ChildrenAreTracked(objs, y, z);
    var p :| p in objs && p.ref == z;
    OwnRefLookup(objs, p);
    if z.Key() == t.Key() {
      RivalIsOrigin(objs, t, z);
      Start(e, t);
      assert Resolves(objs, a, ONLY_CASCADE, t, z);
    } else {
      assert e(x, z);
      Step(e, t, x, z);
      assert Resolves(objs, a, ONLY_CASCADE, z, z);
    }
  }

  // The two walks agree, whatever the target resolves to: what a purely cascading delete
  // expands resolves to exactly what the ownership walk visits.
  lemma WalksAgree(objs: seq<Object>, a: Action, y: Ref)
    requires WellFormed(objs) && Lookup(objs, a.target).Some?
    ensures (exists x :: Resolves(objs, a, ONLY_CASCADE, x, y)) <==> Owned(objs, a.target, y)
  {
    if x :| Resolves(objs, a, ONLY_CASCADE, x, y) {
      CascadeIsOwned(objs, a, x);
    }
    if Owned(objs, a.target, y) {
      OwnedIsCascaded(objs, a, y);
    }
  }

  lemma CascadeAttracts(objs: seq<Object>, a: Action, b: Ref)
    requires WellFormed(objs) && Agrees(objs, a.target)
    ensures Attracts(objs, a, ONLY_CASCADE, b) <==> exists pod :: Owned(objs, a.target, pod) && Binds(objs, pod, b)
  {
    OwnRefAlike(objs, a.target);
    if x :| Expands(objs, a, ONLY_CASCADE, x) && Binds(objs, x, b) {
      CascadeIsOwned(objs, a, x);
      assert Binds(objs, Lookup(objs, x).value.ref, b);
    }
    if pod :| Owned(objs, a.target, pod) && Binds(objs, pod, b) {
      OwnedIsCascaded(objs, a, pod);
      var x :| Resolves(objs, a, ONLY_CASCADE, x, pod);
      CascadeIsOwned(objs, a, x);
      assert Binds(objs, x, b);
    }
  }

  lemma DerivedScopeMeans(objs: seq<Object>, glob: Glob, target: Ref, r: Ref)
    ensures CoveredByMemo(objs, glob, Derive(target).clauses, r) <==> InSubtree(objs, target, r.Key())
  {
    var scope := Derive(target).clauses;
    assert FirstRoot(scope, target.Key()) == Some(target);
    assert forall sc :: sc in scope <==> sc == scope[0];
    assert MemoCovers(objs, glob, scope, scope[0], r) <==> InSubtree(objs, target, r.Key());
  }

  lemma OwnershipScopeMeans(objs: seq<Object>, glob: Glob, root: Ref, r: Ref)
    ensures Covered(objs, glob, [OwnershipClause(root)], r) <==> InSubtree(objs, root, r.Key())
  {
    var scope := [OwnershipClause(root)];
    assert forall sc :: sc in scope <==> sc == scope[0];
    assert ClauseCovers(objs, glob, scope[0], r) <==> InSubtree(objs, root, r.Key());
  }

  // Under the derived scope, a purely cascading delete escapes through exactly the
  // binding objects that select an owned Pod and are not themselves owned.
  lemma DerivedScopeEscapes(objs: seq<Object>, glob: Glob, a: Action, d: Decision, r: Ref)
    requires WellFormed(objs) && Agrees(objs, a.target) && Effects(a) == ONLY_CASCADE
    requires SafeDecision(objs, glob, a, Derive(a.target).clauses, d)
    ensures r in d.escaping <==>
      (exists pod :: Owned(objs, a.target, pod) && Binds(objs, pod, r)) && !InSubtree(objs, a.target, r.Key())
  {
    DecisionMembers(objs, glob, a, Derive(a.target).clauses, d, r);
    CascadeAttracts(objs, a, r);
    DerivedScopeMeans(objs, glob, a.target, r);
    if Expands(objs, a, ONLY_CASCADE, r) {
      CascadeIsOwned(objs, a, r);
    }
  }

  // ----- a larger read

  // Some ownership clause, as the memo reads it, holds r in its subtree.
  ghost predicate Granted(objs: seq<Object>, scope: seq<ScopeClause>, r: Ref) {
    exists sc :: sc in scope && sc.dim.DimOwnership? && InSubtree(objs, MemoRoot(scope, sc), r.Key())
  }

  // An escape survives a larger read exactly when no ownership clause's subtree over that
  // read holds it and, if it is the target, that read does not oust it.
  lemma EscapeSurvivesIff(objs: seq<Object>, more: seq<Object>, glob: Glob, a: Action, scope: seq<ScopeClause>,
                          d: Decision, e: Decision, r: Ref)
    requires Extends(objs, more, a.target)
    requires SafeDecision(objs, glob, a, scope, d) && SafeDecision(more, glob, a, scope, e)
    requires r in d.escaping
    ensures r in e.escaping <==> !Granted(more, scope, r) && (r == a.target ==> !Ousted(more, a, Effects(a)))
  {
    PlainKeysResolve(objs);
    PlainKeysResolve(more);
    TargetLookupKept(objs, more, a.target);
    RunIsOutcome(objs, a, Effects(a), d.closure);
    RunIsOutcome(more, a, Effects(a), e.closure);
    ClosureGrowsWithInventory(objs, more, a, Effects(a), d.closure, e.closure);
    TargetKeptIff(more, a, Effects(a), e.closure);
    MemberIsTracked(objs, a, Effects(a), d.closure, r);
    NodeLookupKept(objs, more, a.target, r);
    OnlyGrantsAppear(objs, more, glob, scope, r);
  }

  lemma OnlyGrantsAppear(objs: seq<Object>, more: seq<Object>, glob: Glob, scope: seq<ScopeClause>, r: Ref)
    requires Lookup(more, r) == Lookup(objs, r) && !CoveredByMemo(objs, glob, scope, r)
    ensures CoveredByMemo(more, glob, scope, r) <==> Granted(more, scope, r)
  {
    if sc :| sc in scope && MemoCovers(more, glob, scope, sc, r) {
      assert !MemoCovers(objs, glob, scope, sc, r);
    }
    if sc :| sc in scope && sc.dim.DimOwnership? && InSubtree(more, MemoRoot(scope, sc), r.Key()) {
      assert MemoCovers(more, glob, scope, sc, r);
    }
  }

  // Without ownership clauses every escape survives, but for an ousted target, and the
  // block stands unless that was the only one.
  lemma EscapeSurvivesLargerRead(objs: seq<Object>, more: seq<Object>, glob: Glob, a: Action,
                                 scope: seq<ScopeClause>, d: Decision, e: Decision)
    requires Extends(objs, more, a.target)
    requires forall sc :: sc in scope ==> !sc.dim.DimOwnership?
    requires SafeDecision(objs, glob, a, scope, d) && SafeDecision(more, glob, a, scope, e)
    ensures forall r :: r in d.escaping ==> (r in e.escaping <==> (r == a.target ==> !Ousted(more, a, Effects(a))))
    ensures d.escaping != [] && (d.escaping != [a.target] || !Ousted(more, a, Effects(a))) ==> e.verdict.Block?
  {
    forall r | r in d.escaping
      ensures r in e.escaping <==> (r == a.target ==> !Ousted(more, a, Effects(a)))
    {
      EscapeSurvivesIff(objs, more, glob, a, scope, d, e, r);
    }
    VerdictShape(objs, glob, a, scope, d);
    VerdictShape(more, glob, a, scope, e);
    EscapeBesides(d.escaping, a.target);
  }

  // ----- modes

  // Audit blocks exactly the unresolvable targets; no mode changes the lists; a second
  // application changes nothing.
  lemma ModesPreserve(objs: seq<Object>, glob: Glob, a: Action, scope: seq<ScopeClause>, d: Decision, m: Mode)
    requires SafeDecision(objs, glob, a, scope, d)
    ensures Apply(ModeAudit, d).verdict.Block? <==> Lookup(objs, a.target).None?
    ensures Apply(ModeAudit, d).escaping != [] <==> d.verdict.Block? && Lookup(objs, a.target).Some?
    ensures var e := Apply(m, d);
      e.closure == d.closure && e.escaping == d.escaping && e.external == d.external
    ensures Apply(m, Apply(m, d)) == Apply(m, d)
    ensures !m.ModeAudit? ==> Apply(m, d) == d
  {
  }
}
