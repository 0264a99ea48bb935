// When what a walk expands depends on the order it expands in, stated on the relations.
module Paths {
  import opened Model
  import opened Graph
  import opened Worklist

  // A finished walk, in any order of expansion.
  ghost predicate Finished(e: (Ref, Ref) -> bool, start: Ref, done: set<Ref>) {
    start in done && Explored(e, start, done, [])
  }

  // Steps of e on which no key repeats.
  ghost predicate IsPath(e: (Ref, Ref) -> bool, p: seq<Ref>) {
    && |p| > 0
    && (forall i :: 0 < i < |p| ==> e(p[i - 1], p[i]))
    && (forall i, j :: 0 <= i < j < |p| ==> p[i].Key() != p[j].Key())
  }

  ghost predicate Joins(e: (Ref, Ref) -> bool, start: Ref, x: Ref, p: seq<Ref>) {
    IsPath(e, p) && p[0] == start && p[|p| - 1] == x
  }

  // Some path from the start to x repeats no key.
  ghost predicate Threads(e: (Ref, Ref) -> bool, start: Ref, x: Ref) {
    exists p :: Joins(e, start, x, p)
  }

  // Two refs under one key, the first threaded along e, the second along f.
  ghost predicate Clash(e: (Ref, Ref) -> bool, f: (Ref, Ref) -> bool, start: Ref) {
    exists x, y :: Threads(e, start, x) && Threads(f, start, y) && x != y && x.Key() == y.Key()
  }

  // ----- whatever a walk expands is threaded

  ghost predicate ThreadsIn(e: (Ref, Ref) -> bool, start: Ref, done: set<Ref>, x: Ref) {
    exists p :: Joins(e, start, x, p) && forall r :: r in p ==> r in done
  }

  lemma ExpandedIsThreaded(e: (Ref, Ref) -> bool, start: Ref, done: set<Ref>, x: Ref)
    requires Finished(e, start, done) && x in done
    ensures Threads(e, start, x)
  {
    assert Joins(e, start, start, [start]);
    forall y, z | ThreadsIn(e, start, done, y) && Among(e, done)(y, z) ensures ThreadsIn(e, start, done, z) {
      ThreadStep(e, start, done, y, z);
    }
    Invariant(Among(e, done), start, (y: Ref) => ThreadsIn(e, start, done, y), x);
  }

  lemma ThreadStep(e: (Ref, Ref) -> bool, start: Ref, done: set<Ref>, y: Ref, z: Ref)
    requires OneRefPerKey(done) && ThreadsIn(e, start, done, y)
    requires z in done && e(y, z)
    ensures ThreadsIn(e, start, done, z)
  {
    var p: seq<Ref> :| Joins(e, start, y, p) && forall r :: r in p ==> r in done;
    if i :| 0 <= i < |p| && p[i].Key() == z.Key() {
      assert p[i] in p;
      CutPath(e, start, y, p, i);
      assert Joins(e, start, z, p[..i + 1]);
    } else {
      ExtendPath(e, start, y, p, z);
    }
  }

  lemma CutPath(e: (Ref, Ref) -> bool, start: Ref, y: Ref, p: seq<Ref>, i: nat)
    requires Joins(e, start, y, p) && i < |p|
    ensures Joins(e, start, p[i], p[..i + 1])
  {
  }

  lemma ExtendPath(e: (Ref, Ref) -> bool, start: Ref, y: Ref, p: seq<Ref>, z: Ref)
    requires Joins(e, start, y, p) && e(y, z)
    requires forall i :: 0 <= i < |p| ==> p[i].Key() != z.Key()
    ensures Joins(e, start, z, p + [z])
  {
  }

  // ----- whatever is threaded, some walk expands

  ghost predicate Begun(e: (Ref, Ref) -> bool, start: Ref, done: set<Ref>) {
    && start in done && OneRefPerKey(done)
    && (forall r {:trigger Reach(Among(e, done), start, r)} :: r in done ==> Reach(Among(e, done), start, r))
  }

  lemma PathBegins(e: (Ref, Ref) -> bool, start: Ref, x: Ref, p: seq<Ref>)
    requires Joins(e, start, x, p)
    ensures Begun(e, start, set r | r in p)
  {
    var done := set r | r in p;
    forall i | 0 <= i < |p| ensures Reach(Among(e, done), start, p[i]) {
      PathReaches(e, p, done, i);
    }
  }

  lemma {:induction false} PathReaches(e: (Ref, Ref) -> bool, p: seq<Ref>, done: set<Ref>, i: nat)
    requires IsPath(e, p) && i < |p| && forall r :: r in p ==> r in done
    ensures Reach(Among(e, done), p[0], p[i])
  {
    if i == 0 {
      Start(Among(e, done), p[0]);
    } else {
      PathReaches(e, p, done, i - 1);
      assert p[i - 1] in p && p[i] in p;
      Step(Among(e, done), p[0], p[i - 1], p[i]);
    }
  }

  ghost function Keys(done: set<Ref>): set<string> {
    set r | r in done :: r.Key()
  }

  // A walk that has begun can be finished.
  lemma {:induction false} Finish(e: (Ref, Ref) -> bool, start: Ref, universe: set<string>, done: set<Ref>)
    returns (all: set<Ref>)
    requires Begun(e, start, done) && Bounded(e, start, universe)
    ensures done <= all && Finished(e, start, all)
    decreases universe - Keys(done)
  {
    if x, y :| x in done && e(x, y) && !Expanded(done, y.Key()) {
      BeginFurther(e, start, done, x, y);
      ReachedOutside(e, start, done, x, y);
      assert Keys(done + {y}) == Keys(done) + {y.Key()};
      assert y.Key() in universe - Keys(done);
      all := Finish(e, start, universe, done + {y});
    } else {
      all := done;
    }
  }

  lemma BeginFurther(e: (Ref, Ref) -> bool, start: Ref, done: set<Ref>, x: Ref, y: Ref)
    requires Begun(e, start, done) && x in done && e(x, y) && !Expanded(done, y.Key())
    ensures Begun(e, start, done + {y})
  {
    var more := done + {y};
    forall r | r in done ensures Reach(Among(e, more), start, r) {
      AmongGrows(e, start, done, more, r);
    }
    Step(Among(e, more), start, x, y);
  }

  lemma ReachedOutside(e: (Ref, Ref) -> bool, start: Ref, done: set<Ref>, x: Ref, y: Ref)
    requires Begun(e, start, done) && x in done && e(x, y)
    ensures Reach(e, start, y)
  {
    Monotone(Among(e, done), e, start, x);
    Step(e, start, x, y);
  }

  lemma ThreadedIsExpanded(e: (Ref, Ref) -> bool, start: Ref, universe: set<string>, x: Ref) returns (done: set<Ref>)
    requires Threads(e, start, x) && Bounded(e, start, universe)
    ensures Finished(e, start, done) && x in done
  {
    var p: seq<Ref> :| Joins(e, start, x, p);
    assert p[|p| - 1] in p;
    PathBegins(e, start, x, p);
    done := Finish(e, start, universe, set r | r in p);
  }

  // ----- nesting

  // When e lies within f: every finished walk along f expands all that any finished walk
  // along e does, exactly when the two never thread different refs under one key.
  lemma WalksNestIff(e: (Ref, Ref) -> bool, f: (Ref, Ref) -> bool, start: Ref, universe: set<string>)
    requires (forall x, y :: e(x, y) ==> f(x, y)) && Bounded(f, start, universe)
    ensures (forall done, other :: Finished(e, start, done) && Finished(f, start, other) ==> done <= other)
       <==> !Clash(e, f, start)
  {
    if !Clash(e, f, start) {
      forall done, other | Finished(e, start, done) && Finished(f, start, other) ensures done <= other {
        UnclashedNest(e, f, start, done, other);
      }
    } else {
      var done, other := ClashingWalks(e, f, start, universe);
    }
  }

  lemma ClashingWalks(e: (Ref, Ref) -> bool, f: (Ref, Ref) -> bool, start: Ref, universe: set<string>)
    returns (done: set<Ref>, other: set<Ref>)
    requires (forall x, y :: e(x, y) ==> f(x, y)) && Bounded(f, start, universe) && Clash(e, f, start)
    ensures Finished(e, start, done) && Finished(f, start, other) && !(done <= other)
  {
    var x: Ref, y: Ref :| Threads(e, start, x) && Threads(f, start, y) && x != y && x.Key() == y.Key();
    forall r | Reach(e, start, r) ensures Reach(f, start, r) {
      Monotone(e, f, start, r);
    }
    done := ThreadedIsExpanded(e, start, universe, x);
    other := ThreadedIsExpanded(f, start, universe, y);
    assert x !in other;
  }

  lemma UnclashedNest(e: (Ref, Ref) -> bool, f: (Ref, Ref) -> bool, start: Ref, done: set<Ref>, other: set<Ref>)
    requires (forall x, y :: e(x, y) ==> f(x, y)) && !Clash(e, f, start)
    requires Finished(e, start, done) && Finished(f, start, other)
    ensures done <= other
  {
    forall x, y | x in done && y in other && x.Key() == y.Key() ensures x == y {
      ExpandedIsThreaded(e, start, done, x);
      ExpandedIsThreaded(f, start, other, y);
    }
    UndisplacedNest(e, f, start, done, other);
  }

  // What is expanded does not depend on the order exactly when no two refs under one key
  // are threaded.
  lemma WalkIsUniqueIff(e: (Ref, Ref) -> bool, start: Ref, universe: set<string>)
    requires Bounded(e, start, universe)
    ensures (forall done, other :: Finished(e, start, done) && Finished(e, start, other) ==> done == other)
       <==> !Clash(e, e, start)
  {
    WalksNestIff(e, e, start, universe);
  }
}
