// The state of a worklist walk that visits each key once.  Closure and ownedSubtree are
// written separately and share this invariant.
module Worklist {
  import opened Model
  import opened Graph

  ghost predicate HasKey(s: seq<Ref>, k: string) {
    exists r :: r in s && r.Key() == k
  }

  ghost predicate Expanded(done: set<Ref>, k: string) {
    exists r :: r in done && r.Key() == k
  }

  ghost predicate OneRefPerKey(done: set<Ref>) {
    forall x, y {:trigger x in done, y in done} :: x in done && y in done && x.Key() == y.Key() ==> x == y
  }

  // The steps of e between expanded refs.
  ghost function Among(e: (Ref, Ref) -> bool, done: set<Ref>): (Ref, Ref) -> bool {
    (x, y) => x in done && y in done && e(x, y)
  }

  // r is the start, or an expanded ref leads to it.
  ghost predicate Led(e: (Ref, Ref) -> bool, start: Ref, done: set<Ref>, r: Ref) {
    r == start || exists x :: x in done && e(x, r)
  }

  // Every expanded ref is reached through expanded refs alone, every pending one is led
  // to by one of them, and what an expanded ref leads to is, up to its key, expanded or
  // pending.
  ghost predicate Explored(e: (Ref, Ref) -> bool, start: Ref, done: set<Ref>, pending: seq<Ref>) {
    && OneRefPerKey(done)
    && (forall r {:trigger Reach(Among(e, done), start, r)} :: r in done ==> Reach(Among(e, done), start, r))
    && (forall r :: r in pending ==> Led(e, start, done, r))
    && (forall x, y {:trigger x in done, e(x, y)} :: x in done && e(x, y) ==>
      Expanded(done, y.Key()) || HasKey(pending, y.Key()))
  }

  lemma StartExploring(e: (Ref, Ref) -> bool, start: Ref)
    ensures Explored(e, start, {}, [start])
  {
  }

  lemma AmongGrows(e: (Ref, Ref) -> bool, start: Ref, done: set<Ref>, more: set<Ref>, r: Ref)
    requires done <= more && Reach(Among(e, done), start, r)
    ensures Reach(Among(e, more), start, r)
  {
    Monotone(Among(e, done), Among(e, more), start, r);
  }

  lemma ExpandedIsReached(e: (Ref, Ref) -> bool, start: Ref, done: set<Ref>, pending: seq<Ref>)
    requires Explored(e, start, done, pending)
    ensures forall r :: r in done ==> Reach(e, start, r)
  {
    forall r | r in done ensures Reach(e, start, r) {
      Monotone(Among(e, done), e, start, r);
    }
  }

  lemma PendingIsReached(e: (Ref, Ref) -> bool, start: Ref, done: set<Ref>, pending: seq<Ref>, r: Ref)
    requires Explored(e, start, done, pending) && r in pending
    ensures Reach(e, start, r)
  {
    ExpandedIsReached(e, start, done, pending);
    if r == start {
      Start(e, start);
    } else {
      var x :| x in done && e(x, r);
      Step(e, start, x, r);
    }
  }

  lemma SkipVisited(e: (Ref, Ref) -> bool, start: Ref, done: set<Ref>, pending: seq<Ref>)
    requires Explored(e, start, done, pending) && |pending| > 0
    requires Expanded(done, pending[0].Key())
    ensures Explored(e, start, done, pending[1..])
  {
    forall x, y | x in done && e(x, y)
      ensures Expanded(done, y.Key()) || HasKey(pending[1..], y.Key())
    {
      if HasKey(pending, y.Key()) {
        PopKeepsKeys(pending, y.Key());
      }
    }
  }

  lemma PopKeepsKeys(pending: seq<Ref>, k: string)
    requires |pending| > 0 && HasKey(pending, k)
    ensures k == pending[0].Key() || HasKey(pending[1..], k)
  {
    var r :| r in pending && r.Key() == k;
    assert r == pending[0] || r in pending[1..];
  }

  lemma ExpandNext(e: (Ref, Ref) -> bool, start: Ref, done: set<Ref>, pending: seq<Ref>, next: seq<Ref>)
    requires Explored(e, start, done, pending) && |pending| > 0
    requires !Expanded(done, pending[0].Key())
    requires forall y :: y in next ==> e(pending[0], y)
    requires forall y :: e(pending[0], y) ==> HasKey(next, y.Key())
    ensures Explored(e, start, done + {pending[0]}, pending[1..] + next)
  {
    var cur, done', rest := pending[0], done + {pending[0]}, pending[1..] + next;
    ExpandedStaysReached(e, start, done, pending);
    forall r | r in rest ensures Led(e, start, done', r) {
      if r in next {
        assert cur in done' && e(cur, r);
      } else if r != start {
        assert Led(e, start, done, r);
        var x :| x in done && e(x, r);
        assert x in done';
      }
    }
    forall x, y | x in done' && e(x, y)
      ensures Expanded(done', y.Key()) || HasKey(rest, y.Key())
    {
      NextKeepsKeys(e, start, done, pending, next, x, y);
    }
  }

  lemma ExpandedStaysReached(e: (Ref, Ref) -> bool, start: Ref, done: set<Ref>, pending: seq<Ref>)
    requires Explored(e, start, done, pending) && |pending| > 0
    ensures forall r :: r in done + {pending[0]} ==> Reach(Among(e, done + {pending[0]}), start, r)
  {
    var cur, done' := pending[0], done + {pending[0]};
    forall r | r in done ensures Reach(Among(e, done'), start, r) {
      AmongGrows(e, start, done, done', r);
    }
    assert cur in pending;
    Start(Among(e, done'), start);
    if cur != start {
      var x :| x in done && e(x, cur);
      Step(Among(e, done'), start, x, cur);
    }
  }

  lemma NextKeepsKeys(e: (Ref, Ref) -> bool, start: Ref, done: set<Ref>, pending: seq<Ref>, next: seq<Ref>,
                      x: Ref, y: Ref)
    requires Explored(e, start, done, pending) && |pending| > 0
    requires forall y :: e(pending[0], y) ==> HasKey(next, y.Key())
    requires x in done + {pending[0]} && e(x, y)
    ensures Expanded(done + {pending[0]}, y.Key()) || HasKey(pending[1..] + next, y.Key())
  {
    var cur, done', rest := pending[0], done + {pending[0]}, pending[1..] + next;
    if x == cur {
      var r :| r in next && r.Key() == y.Key();
      assert r in rest;
    } else if Expanded(done, y.Key()) {
      ExpandedGrows(done, cur, y.Key());
    } else {
      PopKeepsKeys(pending, y.Key());
      if y.Key() == cur.Key() {
        assert cur in done';
      } else {
        var r :| r in pending[1..] && r.Key() == y.Key();
        assert r in rest;
      }
    }
  }

  lemma ExpandedGrows(done: set<Ref>, cur: Ref, k: string)
    ensures Expanded(done + {cur}, k) <==> Expanded(done, k) || k == cur.Key()
  {
    if Expanded(done, k) {
      var r :| r in done && r.Key() == k;
      assert r in done + {cur};
    }
    assert cur in done + {cur};
  }

  lemma ExploredSame(e: (Ref, Ref) -> bool, f: (Ref, Ref) -> bool, s: Ref, done: set<Ref>)
    requires forall x, y :: e(x, y) <==> f(x, y)
    ensures Explored(e, s, done, []) <==> Explored(f, s, done, [])
  {
    forall t ensures Reach(Among(e, done), s, t) <==> Reach(Among(f, done), s, t) {
      ReachSame(Among(e, done), Among(f, done), s, t);
    }
  }

  // The invariant of the loop: nothing is expanded before the start, and the visited
  // keys are those of the expanded refs.
  ghost predicate Walking(e: (Ref, Ref) -> bool, start: Ref, done: set<Ref>, visited: set<string>,
                          queue: seq<Ref>) {
    && (if done == {} then queue == [start] else start in done)
    && (forall k :: k in visited <==> Expanded(done, k))
    && Explored(e, start, done, queue)
  }

  ghost predicate Bounded(e: (Ref, Ref) -> bool, start: Ref, universe: set<string>) {
    forall r :: Reach(e, start, r) ==> r.Key() in universe
  }

  lemma WalkStarts(e: (Ref, Ref) -> bool, start: Ref)
    ensures Walking(e, start, {}, {}, [start])
  {
    StartExploring(e, start);
  }

  lemma WalkSkips(e: (Ref, Ref) -> bool, start: Ref, done: set<Ref>, visited: set<string>, queue: seq<Ref>)
    requires Walking(e, start, done, visited, queue) && |queue| > 0 && queue[0].Key() in visited
    ensures Walking(e, start, done, visited, queue[1..])
  {
    SkipVisited(e, start, done, queue);
  }

  lemma WalkExpands(e: (Ref, Ref) -> bool, start: Ref, universe: set<string>,
                    done: set<Ref>, visited: set<string>, queue: seq<Ref>, next: seq<Ref>)
    requires Walking(e, start, done, visited, queue) && |queue| > 0 && queue[0].Key() !in visited
    requires Bounded(e, start, universe)
    requires forall y :: y in next ==> e(queue[0], y)
    requires forall y :: e(queue[0], y) ==> HasKey(next, y.Key())
    ensures Walking(e, start, done + {queue[0]}, visited + {queue[0].Key()}, queue[1..] + next)
    ensures universe - (visited + {queue[0].Key()}) < universe - visited
  {
    var cur := queue[0];
    PendingIsReached(e, start, done, queue, cur);
    assert cur.Key() in universe - visited;
    ExpandNext(e, start, done, queue, next);
    forall k ensures k in visited + {cur.Key()} <==> Expanded(done + {cur}, k) {
      ExpandedGrows(done, cur, k);
    }
  }

  lemma WalkEnds(e: (Ref, Ref) -> bool, start: Ref, done: set<Ref>, visited: set<string>, queue: seq<Ref>)
    requires Walking(e, start, done, visited, queue) && |queue| == 0
    ensures start in done && Explored(e, start, done, [])
  {
    assert queue == [];
  }

  // No ref of one finished walk gave way to another walk's ref under its key.
  ghost predicate Undisplaced(done: set<Ref>, other: set<Ref>) {
    forall x, y :: x in done && y in other && x.Key() == y.Key() ==> x == y
  }

  // A walk along a relation that follows every step of e expands all that a walk along e
  // does, when it expands no other ref under the key of one of those.
  lemma UndisplacedNest(e: (Ref, Ref) -> bool, f: (Ref, Ref) -> bool, start: Ref, done: set<Ref>, other: set<Ref>)
    requires start in done && Explored(e, start, done, [])
    requires start in other && Explored(f, start, other, [])
    requires forall x, y :: x in done && x in other && e(x, y) ==> f(x, y)
    requires Undisplaced(done, other)
    ensures done <= other
  {
    var g := Among(e, done);
    forall x, y | x in other && g(x, y) ensures y in other {
      assert f(x, y) && !HasKey([], y.Key());
      var y' :| y' in other && y'.Key() == y.Key();
    }
    forall r | r in done ensures r in other {
      Invariant(g, start, (x: Ref) => x in other, r);
    }
  }

  // Reachable refs with one key lead to the same refs.
  ghost predicate Coherent(e: (Ref, Ref) -> bool, start: Ref) {
    forall x, x', y :: Reach(e, start, x) && Reach(e, start, x') && x.Key() == x'.Key() && e(x, y) ==> e(x', y)
  }

  // Under coherence, a finished walk has expanded the key of everything reachable.
  lemma WalkIsComplete(e: (Ref, Ref) -> bool, start: Ref, done: set<Ref>, r: Ref)
    requires Coherent(e, start)
    requires start in done && Explored(e, start, done, []) && Reach(e, start, r)
    ensures Expanded(done, r.Key())
  {
    ExpandedIsReached(e, start, done, []);
    forall x, y | Reach(e, start, x) && Expanded(done, x.Key()) && e(x, y) ensures Expanded(done, y.Key()) {
      var x' :| x' in done && x'.Key() == x.Key();
      assert e(x', y);
      assert !HasKey([], y.Key());
    }
    Invariant(e, start, (x: Ref) => Expanded(done, x.Key()), r);
  }
}
