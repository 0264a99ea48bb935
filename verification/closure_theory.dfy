// What Closure computes: bounds on every inventory, and on well-formed inventories the
// exact members, their independence from map order, and monotonicity.
module ClosureTheory {
  import opened Prelude
  import opened Model
  import opened Inventory
  import opened Classification
  import opened Sorting
  import opened Graph
  import opened Closures
  import opened Worklist

  // ----- bounds, on every inventory

  ghost predicate TracksKey(objs: seq<Object>, k: string) {
    exists o :: o in objs && o.ref.Key() == k
  }

  ghost predicate SharesKey(objs: seq<Object>) {
    exists i, j :: 0 <= i < j < |objs| && objs[i].ref.Key() == objs[j].ref.Key()
  }

  lemma KeysStep(objs: seq<Object>)
    requires |objs| > 0
    ensures ObjectKeys(objs) == ObjectKeys(objs[..|objs| - 1]) + {objs[|objs| - 1].ref.Key()}
  {
  }

  lemma {:induction false} KeysBounded(objs: seq<Object>)
    ensures |ObjectKeys(objs)| <= |objs|
  {
    if |objs| > 0 {
      KeysBounded(objs[..|objs| - 1]);
      KeysStep(objs);
    }
  }

  lemma {:induction false} SharedKeyCounts(objs: seq<Object>, i: nat, j: nat)
    requires i < j < |objs| && objs[i].ref.Key() == objs[j].ref.Key()
    ensures |ObjectKeys(objs)| < |objs|
  {
    var init := objs[..|objs| - 1];
    KeysStep(objs);
    if j < |init| {
      SharedKeyCounts(init, i, j);
    } else {
      assert init[i].ref.Key() in ObjectKeys(init);
      KeysBounded(init);
    }
  }

  lemma {:induction false} SharedKey(objs: seq<Object>) returns (i: nat, j: nat)
    requires |ObjectKeys(objs)| < |objs|
    ensures i < j < |objs| && objs[i].ref.Key() == objs[j].ref.Key()
  {
    var init := objs[..|objs| - 1];
    KeysStep(objs);
    j := |objs| - 1;
    if objs[j].ref.Key() in ObjectKeys(init) {
      i :| 0 <= i < |init| && init[i].ref.Key() == objs[j].ref.Key();
    } else {
      i, j := SharedKey(init);
    }
  }

  lemma KeysCount(objs: seq<Object>)
    ensures if SharesKey(objs) then |ObjectKeys(objs)| < |objs| else |ObjectKeys(objs)| == |objs|
  {
    KeysBounded(objs);
    if i, j :| 0 <= i < j < |objs| && objs[i].ref.Key() == objs[j].ref.Key() {
      SharedKeyCounts(objs, i, j);
    }
    if |ObjectKeys(objs)| < |objs| {
      var i, j := SharedKey(objs);
    }
  }

  lemma MemberIsTracked(objs: seq<Object>, a: Action, fx: EffectSet, c: seq<Ref>, r: Ref)
    requires ClosureOf(objs, a, fx, c) && r in c
    ensures r == a.target || IsObjectRef(objs, r)
  {
    var done, m :| Walk(objs, a, fx, done, m) && Lists(c, m);
    assert m[r.Key()] == r;
    WalkedIsReached(objs, a, fx, done, m);
  }

  lemma OutcomeMap(objs: seq<Object>, a: Action, fx: EffectSet, c: seq<Ref>) returns (m: map<string, Ref>)
    requires ClosureOf(objs, a, fx, c) && Lookup(objs, a.target).Some?
    ensures Keyed(m) && Lists(c, m) && a.target.Key() in m
  {
    var done, m' :| Walk(objs, a, fx, done, m') && Lists(c, m');
    m := m';
  }

  lemma MembersInUniverse(objs: seq<Object>, a: Action, fx: EffectSet, c: seq<Ref>)
    requires ClosureOf(objs, a, fx, c) && Lookup(objs, a.target).Some?
    ensures KeySet(c) <= Universe(objs, a.target) && a.target.Key() in KeySet(c) && |c| == |KeySet(c)|
    ensures forall i, j :: 0 <= i < j < |c| ==> c[i].Key() != c[j].Key()
  {
    var m := OutcomeMap(objs, a, fx, c);
    assert m[a.target.Key()] in c;
    forall r | r in c ensures r.Key() in Universe(objs, a.target) {
      MemberIsTracked(objs, a, fx, c, r);
    }
    forall i, j | 0 <= i < j < |c| ensures c[i].Key() != c[j].Key() {
      assert c[i] in c && c[j] in c;
    }
    KeySetSize(c);
  }

  // An outcome is empty exactly when the target is unresolvable, and its members resolve.
  lemma ClosureResolves(objs: seq<Object>, a: Action, fx: EffectSet, c: seq<Ref>)
    requires ClosureOf(objs, a, fx, c)
    ensures c == [] <==> Lookup(objs, a.target).None?
    ensures forall r :: r in c ==> Lookup(objs, r).Some?
  {
    if Lookup(objs, a.target).Some? {
      var m := OutcomeMap(objs, a, fx, c);
      assert m[a.target.Key()] in c;
    }
    forall r | r in c ensures Lookup(objs, r).Some? {
      MemberIsTracked(objs, a, fx, c, r);
      TrackedResolves(objs, r);
    }
  }

  lemma TrackedResolves(objs: seq<Object>, r: Ref)
    ensures IsObjectRef(objs, r) ==> Lookup(objs, r).Some?
  {
  }

  // The members have distinct keys, and there is at most one more than objects.
  lemma ClosureBounded(objs: seq<Object>, a: Action, fx: EffectSet, c: seq<Ref>)
    requires ClosureOf(objs, a, fx, c)
    ensures forall i, j :: 0 <= i < j < |c| ==> c[i].Key() != c[j].Key()
    ensures |c| <= |objs| + 1
  {
    if Lookup(objs, a.target).Some? {
      MembersInUniverse(objs, a, fx, c);
      KeysBounded(objs);
      SubsetSize(KeySet(c), Universe(objs, a.target));
    }
  }

  // There are no more members than objects exactly when some object carries the target's
  // key, two listed objects share a key, or some object's key is no member's.
  lemma ClosureFitsIff(objs: seq<Object>, a: Action, fx: EffectSet, c: seq<Ref>)
    requires ClosureOf(objs, a, fx, c) && Lookup(objs, a.target).Some?
    ensures |c| <= |objs| <==>
      TracksKey(objs, a.target.Key()) || SharesKey(objs) || exists o :: o in objs && !HasKey(c, o.ref.Key())
  {
    MembersInUniverse(objs, a, fx, c);
    KeysCount(objs);
    KeyTracked(objs, a.target.Key());
    KeyMissed(objs, c);
    FitsIff(ObjectKeys(objs), KeySet(c), a.target.Key(), |objs|);
  }

  // Of the keys and t, some set holding t has at most n.
  lemma FitsIff(keys: set<string>, members: set<string>, t: string, n: nat)
    requires |keys| <= n && t in members && members <= keys + {t}
    ensures |members| <= n <==> t in keys || |keys| < n || exists k :: k in keys && k !in members
  {
    if k :| k in keys && k !in members {
      SubsetSize(members, keys + {t} - {k});
    } else if t in keys {
      SubsetSize(members, keys);
    } else {
      assert members == keys + {t};
    }
  }

  lemma KeyTracked(objs: seq<Object>, k: string)
    ensures TracksKey(objs, k) <==> k in ObjectKeys(objs)
  {
    if o :| o in objs && o.ref.Key() == k {
      var i :| 0 <= i < |objs| && objs[i] == o;
    }
  }

  lemma KeyMissed(objs: seq<Object>, c: seq<Ref>)
    ensures (exists o :: o in objs && !HasKey(c, o.ref.Key())) <==> exists k :: k in ObjectKeys(objs) && k !in KeySet(c)
  {
    if o :| o in objs && !HasKey(c, o.ref.Key()) {
      KeyTracked(objs, o.ref.Key());
      assert o.ref.Key() !in KeySet(c);
    }
    if k :| k in ObjectKeys(objs) && k !in KeySet(c) {
      KeyTracked(objs, k);
      var o :| o in objs && o.ref.Key() == k;
      assert !HasKey(c, o.ref.Key());
    }
  }

  // ----- outcomes compared, on well-formed inventories

  ghost predicate Node(objs: seq<Object>, target: Ref, x: Ref) {
    x == target || IsObjectRef(objs, x)
  }

  // Over more, b with gx follows and binds at least what a with fx does over objs.
  ghost predicate Outdoes(objs: seq<Object>, more: seq<Object>, a: Action, b: Action, fx: EffectSet, gx: EffectSet) {
    && a.target == b.target
    && (forall o :: o in objs ==> o in more)
    && (forall x, y :: Node(objs, a.target, x) && Edge(objs, a, fx, x, y) ==> Edge(more, b, gx, x, y))
    && (forall x, y :: Node(objs, a.target, x) && Binds(objs, x, y) ==> Binds(more, x, y))
  }

  // Every member of c is one of d; only the target may give way to another member under
  // its key.
  ghost predicate Carried(target: Ref, c: seq<Ref>, d: seq<Ref>) {
    forall r :: r in c ==> r in d || (r == target && HasKey(d, r.Key()))
  }

  lemma NeverDisplaced(objs: seq<Object>, more: seq<Object>, a: Action, b: Action, fx: EffectSet, gx: EffectSet,
                       done: set<Ref>, m: map<string, Ref>, other: set<Ref>, n: map<string, Ref>)
    requires WellFormed(more) && a.target == b.target && forall o :: o in objs ==> o in more
    requires Walk(objs, a, fx, done, m) && Walk(more, b, gx, other, n)
    ensures Undisplaced(done, other)
  {
    WalkedIsReached(objs, a, fx, done, m);
    WalkedIsReached(more, b, gx, other, n);
    forall x, y | x in done && y in other && x.Key() == y.Key() ensures x == y {
      if x != a.target && y != a.target {
        ObjectKeysDistinct(more, x, y);
      }
    }
  }

  lemma WalksNest(objs: seq<Object>, more: seq<Object>, a: Action, b: Action, fx: EffectSet, gx: EffectSet,
                  done: set<Ref>, m: map<string, Ref>, other: set<Ref>, n: map<string, Ref>)
    requires WellFormed(more) && Outdoes(objs, more, a, b, fx, gx)
    requires Walk(objs, a, fx, done, m) && Walk(more, b, gx, other, n)
    ensures done <= other
    ensures forall y :: BoundBy(objs, done, y) ==> BoundBy(more, other, y)
  {
    NeverDisplaced(objs, more, a, b, fx, gx, done, m, other, n);
    WalkedIsReached(objs, a, fx, done, m);
    var e, f := Edges(objs, a, fx), Edges(more, b, gx);
    forall x, y | x in done && e(x, y) ensures f(x, y) {
      assert Node(objs, a.target, x);
    }
    UndisplacedNest(e, f, a.target, done, other);
    BoundNests(objs, more, a, done, other);
  }

  lemma BoundNests(objs: seq<Object>, more: seq<Object>, a: Action, done: set<Ref>, other: set<Ref>)
    requires done <= other && forall x :: x in done ==> Node(objs, a.target, x)
    requires forall x, y :: Node(objs, a.target, x) && Binds(objs, x, y) ==> Binds(more, x, y)
    ensures forall y :: BoundBy(objs, done, y) ==> BoundBy(more, other, y)
  {
    forall y | BoundBy(objs, done, y) ensures BoundBy(more, other, y) {
      var x :| x in done && Binds(objs, x, y);
      assert Binds(more, x, y);
    }
  }

  lemma MemberCarried(objs: seq<Object>, more: seq<Object>, a: Action, b: Action, fx: EffectSet, gx: EffectSet,
                      done: set<Ref>, m: map<string, Ref>, other: set<Ref>, n: map<string, Ref>, r: Ref)
    requires WellFormed(more) && Outdoes(objs, more, a, b, fx, gx)
    requires Walk(objs, a, fx, done, m) && Walk(more, b, gx, other, n)
    requires r.Key() in m && m[r.Key()] == r
    ensures r.Key() in n && (n[r.Key()] == r || r == a.target)
  {
    WalksNest(objs, more, a, b, fx, gx, done, m, other, n);
    WalkedIsReached(objs, a, fx, done, m);
    WalkedIsReached(more, b, gx, other, n);
    assert r.Key() in n;
    var s := n[r.Key()];
    assert s.Key() == r.Key();
    if IsObjectRef(more, r) && IsObjectRef(more, s) {
      ObjectKeysDistinct(more, r, s);
    }
  }

  // What a run that is outdone affects, the other run affects.
  lemma OutcomeCarried(objs: seq<Object>, more: seq<Object>, a: Action, b: Action, fx: EffectSet, gx: EffectSet,
                       c: seq<Ref>, d: seq<Ref>)
    requires WellFormed(more) && Outdoes(objs, more, a, b, fx, gx)
    requires Lookup(objs, a.target).Some? ==> Lookup(more, a.target).Some?
    requires ClosureOf(objs, a, fx, c) && ClosureOf(more, b, gx, d)
    ensures Carried(a.target, c, d)
  {
    if Lookup(objs, a.target).Some? {
      var done, m :| Walk(objs, a, fx, done, m) && Lists(c, m);
      var other, n :| Walk(more, b, gx, other, n) && Lists(d, n);
      forall r | r in c
        ensures r in d || (r == a.target && HasKey(d, r.Key()))
      {
        MemberCarried(objs, more, a, b, fx, gx, done, m, other, n, r);
        assert n[r.Key()] in d;
      }
    }
  }

  // Two runs on the same input return the same members, and the same list when no two
  // members share a human name.
  lemma ClosureIsDeterministic(objs: seq<Object>, a: Action, fx: EffectSet, c: seq<Ref>, d: seq<Ref>)
    requires WellFormed(objs)
    requires ClosureOf(objs, a, fx, c) && ClosureOf(objs, a, fx, d)
    ensures forall r :: r in c <==> r in d
    ensures DistinctNames(c) ==> c == d
  {
    MembersKept(objs, a, fx, c, d);
    MembersKept(objs, a, fx, d, c);
    if Lookup(objs, a.target).Some? && DistinctNames(c) {
      SortedListUnique(c, d);
    }
  }

  lemma MembersKept(objs: seq<Object>, a: Action, fx: EffectSet, c: seq<Ref>, d: seq<Ref>)
    requires WellFormed(objs)
    requires ClosureOf(objs, a, fx, c) && ClosureOf(objs, a, fx, d)
    ensures forall r :: r in c ==> r in d
  {
    OutcomeCarried(objs, objs, a, a, fx, fx, c, d);
    OutcomeCarried(objs, objs, a, a, fx, fx, d, c);
    ClosureBounded(objs, a, fx, c);
    forall r | r in c ensures r in d {
      forall s | s in d && s.Key() == r.Key() ensures s == r {
        assert s in c || s == r;
      }
    }
  }

  // ----- the members for any target, on a well-formed inventory

  // The edges a walk takes: those that do not lead to another ref under the target's key.
  ghost function OpenEdges(objs: seq<Object>, a: Action, fx: EffectSet): (Ref, Ref) -> bool {
    (x, y) => Edge(objs, a, fx, x, y) && (y.Key() == a.target.Key() ==> y == a.target)
  }

  ghost predicate Expands(objs: seq<Object>, a: Action, fx: EffectSet, r: Ref) {
    Reach(OpenEdges(objs, a, fx), a.target, r)
  }

  ghost predicate Attracts(objs: seq<Object>, a: Action, fx: EffectSet, b: Ref) {
    exists x :: Expands(objs, a, fx, x) && Binds(objs, x, b)
  }

  lemma ExpandedExactly(objs: seq<Object>, a: Action, fx: EffectSet, done: set<Ref>, m: map<string, Ref>)
    requires WellFormed(objs) && Walk(objs, a, fx, done, m)
    ensures forall r :: r in done <==> Expands(objs, a, fx, r)
    ensures forall b :: BoundBy(objs, done, b) <==> Attracts(objs, a, fx, b)
  {
    var e, f := Edges(objs, a, fx), OpenEdges(objs, a, fx);
    WalkedIsReached(objs, a, fx, done, m);
    forall r ensures r in done <==> Expands(objs, a, fx, r) {
      if r in done {
        Monotone(Among(e, done), f, a.target, r);
      }
      if Expands(objs, a, fx, r) {
        forall x, y | x in done && f(x, y) ensures y in done {
          OpenStep(objs, a, fx, done, m, x, y);
        }
        Invariant(f, a.target, (x: Ref) => x in done, r);
      }
    }
    forall b ensures BoundBy(objs, done, b) <==> Attracts(objs, a, fx, b) {
      if x :| x in done && Binds(objs, x, b) { assert Expands(objs, a, fx, x); }
    }
  }

  lemma OpenStep(objs: seq<Object>, a: Action, fx: EffectSet, done: set<Ref>, m: map<string, Ref>, x: Ref, y: Ref)
    requires WellFormed(objs) && Walk(objs, a, fx, done, m)
    requires x in done && OpenEdges(objs, a, fx)(x, y)
    ensures y in done
  {
    WalkedIsReached(objs, a, fx, done, m);
    EdgesNameObjects(objs, a, fx, x, y);
    assert Edges(objs, a, fx)(x, y) && !HasKey([], y.Key());
    var y' :| y' in done && y'.Key() == y.Key();
    if y != a.target {
      ObjectKeysDistinct(objs, y, y');
    }
  }

  // A binder under the target's key, other than the target, takes its place.
  ghost predicate Ousted(objs: seq<Object>, a: Action, fx: EffectSet) {
    exists b :: Attracts(objs, a, fx, b) && b.Key() == a.target.Key() && b != a.target
  }

  // The members: the binders of the pods expanded, and the refs expanded, the target
  // unless it is ousted.
  ghost predicate Affected(objs: seq<Object>, a: Action, fx: EffectSet, r: Ref) {
    || Attracts(objs, a, fx, r)
    || (Expands(objs, a, fx, r) && (r == a.target ==> !Ousted(objs, a, fx)))
  }

  // Whatever the target resolves to, and whatever the map order.
  lemma MembersExactly(objs: seq<Object>, a: Action, fx: EffectSet, c: seq<Ref>, r: Ref)
    requires WellFormed(objs) && Lookup(objs, a.target).Some? && ClosureOf(objs, a, fx, c)
    ensures r in c <==> Affected(objs, a, fx, r)
  {
    var done, m :| Walk(objs, a, fx, done, m) && Lists(c, m);
    ExpandedExactly(objs, a, fx, done, m);
    WalkedIsReached(objs, a, fx, done, m);
    if BoundBy(objs, done, r) || r in done {
      var s: Ref := m[r.Key()];
      assert s.Key() == r.Key() && (s in done || BoundBy(objs, done, s));
      if IsObjectRef(objs, r) && IsObjectRef(objs, s) {
        ObjectKeysDistinct(objs, r, s);
      }
    }
  }

  // ----- when the target is kept

  lemma TargetKeptIff(objs: seq<Object>, a: Action, fx: EffectSet, c: seq<Ref>)
    requires WellFormed(objs) && Lookup(objs, a.target).Some? && ClosureOf(objs, a, fx, c)
    ensures a.target in c <==> !Ousted(objs, a, fx)
  {
    MembersExactly(objs, a, fx, c, a.target);
    Start(OpenEdges(objs, a, fx), a.target);
    if b :| Attracts(objs, a, fx, b) && b.Key() == a.target.Key() && b != a.target {
      AttractedIsTracked(objs, a, fx, b);
      if Attracts(objs, a, fx, a.target) {
        AttractedIsTracked(objs, a, fx, a.target);
        ObjectKeysDistinct(objs, a.target, b);
      }
    }
  }

  lemma AttractedIsTracked(objs: seq<Object>, a: Action, fx: EffectSet, b: Ref)
    requires Attracts(objs, a, fx, b)
    ensures IsObjectRef(objs, b)
  {
    var x :| Expands(objs, a, fx, x) && Binds(objs, x, b);
    BindersNameObjects(objs, x, b);
  }

  // No target whose key is free, or is its own object's, is ousted.
  lemma FreeTargetIsKept(objs: seq<Object>, a: Action, fx: EffectSet)
    requires forall o :: o in objs && o.ref.Key() == a.target.Key() ==> o.ref == a.target
    ensures !Ousted(objs, a, fx)
  {
    forall b | Attracts(objs, a, fx, b) ensures IsObjectRef(objs, b) {
      AttractedIsTracked(objs, a, fx, b);
    }
  }

  // A run that outdoes another returns all its members exactly when it ousts the target
  // only if the other does.
  lemma OutcomeHeldIff(objs: seq<Object>, more: seq<Object>, a: Action, b: Action, fx: EffectSet, gx: EffectSet,
                       c: seq<Ref>, d: seq<Ref>)
    requires WellFormed(more) && Outdoes(objs, more, a, b, fx, gx)
    requires Lookup(objs, a.target).Some? && Lookup(more, a.target).Some?
    requires ClosureOf(objs, a, fx, c) && ClosureOf(more, b, gx, d)
    ensures Carried(a.target, c, d)
    ensures (forall r :: r in c ==> r in d) <==> (Ousted(more, b, gx) ==> Ousted(objs, a, fx))
  {
    FewerAreWellFormed(objs, more);
    OutcomeCarried(objs, more, a, b, fx, gx, c, d);
    TargetKeptIff(objs, a, fx, c);
    TargetKeptIff(more, b, gx, d);
  }

  lemma FewerAreWellFormed(objs: seq<Object>, more: seq<Object>)
    requires WellFormed(more) && forall o :: o in objs ==> o in more
    ensures WellFormed(objs)
  {
  }

  // ----- the bound in terms of the relations

  // A walk from a target whose key no object carries expands all it reaches.
  lemma AllExpandedBeside(objs: seq<Object>, a: Action, fx: EffectSet, done: set<Ref>, m: map<string, Ref>, r: Ref)
    requires WellFormed(objs) && !TracksKey(objs, a.target.Key())
    requires Walk(objs, a, fx, done, m) && Reached(objs, a, fx, r)
    ensures r in done
  {
    var e := Edges(objs, a, fx);
    WalkedIsReached(objs, a, fx, done, m);
    forall x, y | x in done && e(x, y) ensures y in done {
      EdgesNameObjects(objs, a, fx, x, y);
      assert Expanded(done, y.Key()) by {
        assert !HasKey([], y.Key());
      }
      var y' :| y' in done && y'.Key() == y.Key();
      ObjectKeysDistinct(objs, y, y');
    }
    Invariant(e, a.target, (x: Ref) => x in done, r);
  }

  lemma KeyKeptIff(objs: seq<Object>, a: Action, fx: EffectSet, c: seq<Ref>, o: Object)
    requires WellFormed(objs) && !TracksKey(objs, a.target.Key()) && Lookup(objs, a.target).Some?
    requires ClosureOf(objs, a, fx, c) && o in objs
    ensures HasKey(c, o.ref.Key()) <==> Reached(objs, a, fx, o.ref) || Bound(objs, a, fx, o.ref)
  {
    var done, m :| Walk(objs, a, fx, done, m) && Lists(c, m);
    WalkedIsReached(objs, a, fx, done, m);
    if r :| r in c && r.Key() == o.ref.Key() {
      MemberIsTracked(objs, a, fx, c, r);
      ObjectKeysDistinct(objs, r, o.ref);
    }
    if Reached(objs, a, fx, o.ref) || Bound(objs, a, fx, o.ref) {
      if Bound(objs, a, fx, o.ref) {
        var x :| Reached(objs, a, fx, x) && Binds(objs, x, o.ref);
        AllExpandedBeside(objs, a, fx, done, m, x);
      } else {
        AllExpandedBeside(objs, a, fx, done, m, o.ref);
      }
      assert m[o.ref.Key()] in c;
    }
  }

  // On a well-formed inventory: no more members than objects exactly when some object
  // carries the target's key, an object is listed twice, or some object is neither reached
  // nor a binder of a reached Pod.
  lemma ClosureFitsUnlessAllReached(objs: seq<Object>, a: Action, fx: EffectSet, c: seq<Ref>)
    requires WellFormed(objs) && Lookup(objs, a.target).Some? && ClosureOf(objs, a, fx, c)
    ensures |c| <= |objs| <==>
      || TracksKey(objs, a.target.Key()) || SharesKey(objs)
      || exists o :: o in objs && !Reached(objs, a, fx, o.ref) && !Bound(objs, a, fx, o.ref)
  {
    ClosureFitsIff(objs, a, fx, c);
    if !TracksKey(objs, a.target.Key()) {
      forall o | o in objs
        ensures HasKey(c, o.ref.Key()) <==> Reached(objs, a, fx, o.ref) || Bound(objs, a, fx, o.ref)
      {
        KeyKeptIff(objs, a, fx, c, o);
      }
    }
  }

  // ----- the exact members, on a well-formed inventory

  // The members: the binders, and the reached refs; the target stands for itself unless
  // a binder carries its key.
  ghost predicate InClosure(objs: seq<Object>, a: Action, fx: EffectSet, r: Ref) {
    || Bound(objs, a, fx, r)
    || (Reached(objs, a, fx, r) && (r.Key() == a.target.Key() ==> r == a.target && !TargetIsBound(objs, a, fx)))
  }

  ghost predicate TargetIsBound(objs: seq<Object>, a: Action, fx: EffectSet) {
    exists b :: Bound(objs, a, fx, b) && b.Key() == a.target.Key()
  }

  // Refs no relation tells apart.
  ghost predicate Alike(objs: seq<Object>, x: Ref, y: Ref) {
    && Lookup(objs, x) == Lookup(objs, y)
    && x.gvk.kind == y.gvk.kind && x.namespace == y.namespace && x.name == y.name
  }

  // Actions that differ at most in verb, cascade, and the target's version, group and uid.
  ghost predicate SamePayload(a: Action, b: Action) {
    && a.old_ == b.old_ && a.new_ == b.new_
    && a.target.gvk.kind == b.target.gvk.kind && a.target.namespace == b.target.namespace
  }

  lemma EdgeTransfer(objs: seq<Object>, a: Action, b: Action, fx: EffectSet, gx: EffectSet, x: Ref, y: Ref, z: Ref)
    requires SamePayload(a, b) && Within(fx, gx) && Alike(objs, x, y)
    requires x.Key() == a.target.Key() ==> y.Key() == b.target.Key()
    requires Edge(objs, a, fx, x, z)
    ensures Edge(objs, b, gx, y, z)
  {
  }

  lemma AlikeEdges(objs: seq<Object>, a: Action, fx: EffectSet, x: Ref, y: Ref)
    requires Alike(objs, x, y) && x.Key() == y.Key()
    ensures forall z :: Edge(objs, a, fx, x, z) <==> Edge(objs, a, fx, y, z)
    ensures forall b :: Binds(objs, x, b) <==> Binds(objs, y, b)
  {
  }

  lemma OwnRefAlike(objs: seq<Object>, target: Ref)
    requires WellFormed(objs) && Agrees(objs, target)
    ensures Alike(objs, target, Lookup(objs, target).value.ref)
    ensures IsObjectRef(objs, Lookup(objs, target).value.ref)
    ensures PlainKind(target)
  {
    LookupIsTracked(objs, target);
    OwnRefLookup(objs, Lookup(objs, target).value);
  }

  lemma TargetKeyAlike(objs: seq<Object>, target: Ref, x: Ref)
    requires WellFormed(objs) && Agrees(objs, target) && IsObjectRef(objs, x)
    requires x.Key() == target.Key()
    ensures Alike(objs, target, x)
    ensures x == Lookup(objs, target).value.ref
  {
    OwnRefAlike(objs, target);
    ObjectRefSettled(objs, x);
    SameKey(target, x);
    SameKeySameLookup(objs, target, x);
    var o :| o in objs && o.ref == x;
    OwnRefLookup(objs, o);
  }

  lemma SameKeyAlike(objs: seq<Object>, target: Ref, x: Ref, y: Ref)
    requires WellFormed(objs) && Agrees(objs, target)
    requires Node(objs, target, x) && Node(objs, target, y) && x.Key() == y.Key()
    ensures Alike(objs, x, y)
    ensures x == y || x == target || y == target
  {
    if IsObjectRef(objs, x) && IsObjectRef(objs, y) {
      ObjectKeysDistinct(objs, x, y);
    } else if x == target && y != target {
      TargetKeyAlike(objs, target, y);
    } else if y == target && x != target {
      TargetKeyAlike(objs, target, x);
    }
  }

  lemma EdgesCoherent(objs: seq<Object>, a: Action, fx: EffectSet)
    requires WellFormed(objs) && Agrees(objs, a.target)
    ensures Coherent(Edges(objs, a, fx), a.target)
  {
    forall x, x', y |
        Reached(objs, a, fx, x) && Reached(objs, a, fx, x') && x.Key() == x'.Key() && Edge(objs, a, fx, x, y)
      ensures Edge(objs, a, fx, x', y)
    {
      ReachedIsTracked(objs, a, fx, x);
      ReachedIsTracked(objs, a, fx, x');
      SameKeyAlike(objs, a.target, x, x');
      AlikeEdges(objs, a, fx, x, x');
    }
  }

  // A finished walk has expanded everything reachable, up to refs no relation tells apart.
  lemma AllExpanded(objs: seq<Object>, a: Action, fx: EffectSet, done: set<Ref>, m: map<string, Ref>, r: Ref)
    requires WellFormed(objs) && Agrees(objs, a.target)
    requires Walk(objs, a, fx, done, m) && Reached(objs, a, fx, r)
    ensures exists r' :: r' in done && r'.Key() == r.Key() && Alike(objs, r', r)
  {
    EdgesCoherent(objs, a, fx);
    WalkIsComplete(Edges(objs, a, fx), a.target, done, r);
    WalkedIsReached(objs, a, fx, done, m);
    ReachedIsTracked(objs, a, fx, r);
    var r' :| r' in done && r'.Key() == r.Key();
    SameKeyAlike(objs, a.target, r', r);
  }

  lemma WalkBinds(objs: seq<Object>, a: Action, fx: EffectSet, done: set<Ref>, m: map<string, Ref>, b: Ref)
    requires WellFormed(objs) && Agrees(objs, a.target)
    requires Walk(objs, a, fx, done, m)
    ensures BoundBy(objs, done, b) <==> Bound(objs, a, fx, b)
  {
    WalkedIsReached(objs, a, fx, done, m);
    if x :| Reached(objs, a, fx, x) && Binds(objs, x, b) {
      AllExpanded(objs, a, fx, done, m, x);
      var x' :| x' in done && x'.Key() == x.Key() && Alike(objs, x', x);
      AlikeEdges(objs, a, fx, x', x);
      assert Binds(objs, x', b);
    }
  }

  lemma RecordIsExact(objs: seq<Object>, a: Action, fx: EffectSet, done: set<Ref>, m: map<string, Ref>, r: Ref)
    requires WellFormed(objs) && Agrees(objs, a.target)
    requires Walk(objs, a, fx, done, m)
    ensures (r.Key() in m && m[r.Key()] == r) <==> InClosure(objs, a, fx, r)
  {
    var k, tk := r.Key(), a.target.Key();
    WalkedIsReached(objs, a, fx, done, m);
    forall b { WalkBinds(objs, a, fx, done, m, b); }
    if k in m && m[k] == r {
      if !Bound(objs, a, fx, r) {
        assert r in done;
        if k == tk {
          assert r == a.target;
        }
      }
    }
    if InClosure(objs, a, fx, r) {
      if Bound(objs, a, fx, r) {
        BinderIsRecorded(objs, a, fx, done, m, r);
      } else {
        AllExpanded(objs, a, fx, done, m, r);
        var r' :| r' in done && r'.Key() == r.Key() && Alike(objs, r', r);
        RecordedAlone(objs, a, fx, done, m, r);
      }
    }
  }

  lemma BinderIsRecorded(objs: seq<Object>, a: Action, fx: EffectSet, done: set<Ref>, m: map<string, Ref>, r: Ref)
    requires WellFormed(objs) && Agrees(objs, a.target)
    requires Walk(objs, a, fx, done, m) && BoundBy(objs, done, r)
    ensures r.Key() in m && m[r.Key()] == r
  {
    var s := m[r.Key()];
    WalkedIsReached(objs, a, fx, done, m);
    assert BoundBy(objs, done, s) || s in done;
    assert s.Key() == a.target.Key() ==> BoundBy(objs, done, s);
    ObjectKeysDistinct(objs, r, s);
  }

  lemma RecordedAlone(objs: seq<Object>, a: Action, fx: EffectSet, done: set<Ref>, m: map<string, Ref>, r: Ref)
    requires WellFormed(objs) && Agrees(objs, a.target)
    requires Walk(objs, a, fx, done, m) && Reached(objs, a, fx, r)
    requires Expanded(done, r.Key())
    requires r.Key() == a.target.Key() ==> r == a.target && !TargetIsBound(objs, a, fx)
    ensures r.Key() in m && m[r.Key()] == r
  {
    var r' :| r' in done && r'.Key() == r.Key();
    var s := m[r.Key()];
    WalkedIsReached(objs, a, fx, done, m);
    assert s.Key() == r.Key() && (s in done || BoundBy(objs, done, s));
    if r == a.target {
      assert !BoundBy(objs, done, s);
    } else {
      ReachedIsTracked(objs, a, fx, r);
      ObjectKeysDistinct(objs, r, s);
    }
  }

  // Closure returns exactly the members of InClosure, whatever order its maps yield.
  lemma ClosureIsExact(objs: seq<Object>, a: Action, fx: EffectSet, c: seq<Ref>)
    requires WellFormed(objs) && Agrees(objs, a.target)
    requires ClosureOf(objs, a, fx, c)
    ensures forall r :: r in c <==> InClosure(objs, a, fx, r)
  {
    var done, m :| Walk(objs, a, fx, done, m) && Lists(c, m);
    forall r ensures r in c <==> InClosure(objs, a, fx, r) {
      RecordIsExact(objs, a, fx, done, m, r);
    }
  }

  // ----- the least fixed point over objects

  // The action aimed at its object's own ref.
  ghost function Canonical(objs: seq<Object>, a: Action): Action
    requires Lookup(objs, a.target).Some?
  {
    a.(target := Lookup(objs, a.target).value.ref)
  }

  lemma CanonicalEdge(objs: seq<Object>, a: Action, fx: EffectSet, x: Ref, y: Ref)
    requires WellFormed(objs) && Agrees(objs, a.target)
    requires Node(objs, a.target, x) && Edge(objs, a, fx, x, y)
    ensures Lookup(objs, x).Some? && Edge(objs, Canonical(objs, a), fx, Lookup(objs, x).value.ref, y)
  {
    OwnRefAlike(objs, a.target);
    if x != a.target {
      var o :| o in objs && o.ref == x;
      OwnRefLookup(objs, o);
      if x.Key() == a.target.Key() {
        TargetKeyAlike(objs, a.target, x);
      }
    }
    EdgeTransfer(objs, a, Canonical(objs, a), fx, fx, x, Lookup(objs, x).value.ref, y);
  }

  lemma EdgeFromCanonical(objs: seq<Object>, a: Action, fx: EffectSet, x: Ref, y: Ref)
    requires WellFormed(objs) && Agrees(objs, a.target)
    requires IsObjectRef(objs, x) && Edge(objs, Canonical(objs, a), fx, x, y)
    ensures Edge(objs, a, fx, if x == Canonical(objs, a).target then a.target else x, y)
  {
    var t := Canonical(objs, a).target;
    OwnRefAlike(objs, a.target);
    if x.Key() == t.Key() {
      ObjectKeysDistinct(objs, x, t);
    }
    EdgeTransfer(objs, Canonical(objs, a), a, fx, fx, x, if x == t then a.target else x, y);
  }

  lemma ReachedCanonically(objs: seq<Object>, a: Action, fx: EffectSet, r: Ref)
    requires WellFormed(objs) && Agrees(objs, a.target) && Reached(objs, a, fx, r)
    ensures Lookup(objs, r).Some? && Alike(objs, r, Lookup(objs, r).value.ref)
    ensures Reached(objs, Canonical(objs, a), fx, Lookup(objs, r).value.ref)
  {
    var b := Canonical(objs, a);
    var p := (r: Ref) =>
      && Node(objs, a.target, r)
      && Lookup(objs, r).Some? && Alike(objs, r, Lookup(objs, r).value.ref)
      && Reached(objs, b, fx, Lookup(objs, r).value.ref);
    OwnRefAlike(objs, a.target);
    Start(Edges(objs, b, fx), b.target);
    forall x, y | p(x) && Edges(objs, a, fx)(x, y) ensures p(y) {
      EdgesNameObjects(objs, a, fx, x, y);
      var o :| o in objs && o.ref == y;
      OwnRefLookup(objs, o);
      CanonicalEdge(objs, a, fx, x, y);
      Step(Edges(objs, b, fx), b.target, Lookup(objs, x).value.ref, y);
    }
    Invariant(Edges(objs, a, fx), a.target, p, r);
  }

  lemma ReachedFromCanonical(objs: seq<Object>, a: Action, fx: EffectSet, r: Ref)
    requires WellFormed(objs) && Agrees(objs, a.target) && Reached(objs, Canonical(objs, a), fx, r)
    ensures r == Canonical(objs, a).target || Reached(objs, a, fx, r)
  {
    var b := Canonical(objs, a);
    var p := (r: Ref) => IsObjectRef(objs, r) && (r == b.target || Reached(objs, a, fx, r));
    OwnRefAlike(objs, a.target);
    Start(Edges(objs, a, fx), a.target);
    forall x, y | p(x) && Edges(objs, b, fx)(x, y) ensures p(y) {
      EdgesNameObjects(objs, b, fx, x, y);
      EdgeFromCanonical(objs, a, fx, x, y);
      Step(Edges(objs, a, fx), a.target, if x == b.target then a.target else x, y);
    }
    Invariant(Edges(objs, b, fx), b.target, p, r);
  }

  lemma MemberIsCanonical(objs: seq<Object>, a: Action, fx: EffectSet, r: Ref)
    requires WellFormed(objs) && Agrees(objs, a.target) && InClosure(objs, a, fx, r)
    ensures Lookup(objs, r).Some?
    ensures var z := Lookup(objs, r).value.ref;
      Reached(objs, Canonical(objs, a), fx, z) || Bound(objs, Canonical(objs, a), fx, z)
  {
    if Bound(objs, a, fx, r) {
      BoundCanonically(objs, a, fx, r);
    } else {
      ReachedCanonically(objs, a, fx, r);
    }
  }

  lemma CanonicalIsMember(objs: seq<Object>, a: Action, fx: EffectSet, z: Ref)
    requires WellFormed(objs) && Agrees(objs, a.target)
    requires Reached(objs, Canonical(objs, a), fx, z) || Bound(objs, Canonical(objs, a), fx, z)
    ensures exists r :: InClosure(objs, a, fx, r) && Lookup(objs, r).Some? && Lookup(objs, r).value.ref == z
  {
    var b := Canonical(objs, a);
    OwnRefAlike(objs, a.target);
    Start(Edges(objs, a, fx), a.target);
    if Reached(objs, b, fx, z) {
      ReachedFromCanonical(objs, a, fx, z);
      var z' := if z == b.target then a.target else z;
      MemberFor(objs, a, fx, z');
      ReachedCanonically(objs, a, fx, z');
      OwnLookup(objs, a, fx, z);
    } else {
      var x :| Reached(objs, b, fx, x) && Binds(objs, x, z);
      ReachedFromCanonical(objs, a, fx, x);
      var x' := if x == b.target then a.target else x;
      assert Reached(objs, a, fx, x') && Binds(objs, x', z);
      BoundCanonically(objs, a, fx, z);
    }
  }

  lemma OwnLookup(objs: seq<Object>, a: Action, fx: EffectSet, z: Ref)
    requires WellFormed(objs) && Agrees(objs, a.target) && Reached(objs, Canonical(objs, a), fx, z)
    ensures Lookup(objs, z).Some? && Lookup(objs, z).value.ref == z
  {
    OwnRefAlike(objs, a.target);
    ReachedIsTracked(objs, Canonical(objs, a), fx, z);
    var o :| o in objs && o.ref == z;
    OwnRefLookup(objs, o);
  }

  // The objects the members resolve to are exactly the least set that holds the
  // target's object and is closed under the licensed edges, plus every binder of a Pod
  // in that set.
  lemma ClosureIsLeastFixedPoint(objs: seq<Object>, a: Action, fx: EffectSet, c: seq<Ref>, z: Ref)
    requires WellFormed(objs) && Agrees(objs, a.target)
    requires ClosureOf(objs, a, fx, c)
    ensures (exists r :: r in c && Lookup(objs, r).Some? && Lookup(objs, r).value.ref == z) <==>
      Reached(objs, Canonical(objs, a), fx, z) || Bound(objs, Canonical(objs, a), fx, z)
  {
    ClosureIsExact(objs, a, fx, c);
    forall r | InClosure(objs, a, fx, r) {
      MemberIsCanonical(objs, a, fx, r);
    }
    if Reached(objs, Canonical(objs, a), fx, z) || Bound(objs, Canonical(objs, a), fx, z) {
      CanonicalIsMember(objs, a, fx, z);
    }
  }

  lemma BoundCanonically(objs: seq<Object>, a: Action, fx: EffectSet, r: Ref)
    requires WellFormed(objs) && Agrees(objs, a.target) && Bound(objs, a, fx, r)
    ensures IsObjectRef(objs, r) && Lookup(objs, r).Some? && Lookup(objs, r).value.ref == r
    ensures Bound(objs, Canonical(objs, a), fx, r)
  {
    var x :| Reached(objs, a, fx, x) && Binds(objs, x, r);
    BindersNameObjects(objs, x, r);
    var o :| o in objs && o.ref == r;
    OwnRefLookup(objs, o);
    ReachedCanonically(objs, a, fx, x);
    assert Binds(objs, Lookup(objs, x).value.ref, r);
  }

  // Every reached ref is a member, or a member carries its key and resolves alike.
  lemma MemberFor(objs: seq<Object>, a: Action, fx: EffectSet, x: Ref)
    requires WellFormed(objs) && Agrees(objs, a.target) && Reached(objs, a, fx, x)
    ensures exists r :: InClosure(objs, a, fx, r) && r.Key() == x.Key() && Alike(objs, r, x)
  {
    ReachedIsTracked(objs, a, fx, x);
    if !InClosure(objs, a, fx, x) {
      var r: Ref;
      if TargetIsBound(objs, a, fx) {
        r :| Bound(objs, a, fx, r) && r.Key() == a.target.Key();
        BoundCanonically(objs, a, fx, r);
      } else {
        r := a.target;
        Start(Edges(objs, a, fx), a.target);
      }
      SameKeyAlike(objs, a.target, r, x);
      assert InClosure(objs, a, fx, r);
    }
  }
}
