// Reachability along a relation: the least set that holds the start and is closed
// under the relation.
module Graph {

  ghost predicate ReachIn<N(!new)>(e: (N, N) -> bool, s: N, t: N, n: nat) {
    if n == 0 then s == t
    else exists m :: ReachIn(e, s, m, n - 1) && e(m, t)
  }

  ghost predicate Reach<N(!new)>(e: (N, N) -> bool, s: N, t: N) {
    exists n: nat :: ReachIn(e, s, t, n)
  }

  lemma Start<N(!new)>(e: (N, N) -> bool, s: N)
    ensures Reach(e, s, s)
  {
    assert ReachIn(e, s, s, 0);
  }

  lemma Step<N(!new)>(e: (N, N) -> bool, s: N, m: N, t: N)
    requires Reach(e, s, m) && e(m, t)
    ensures Reach(e, s, t)
  {
    var n: nat :| ReachIn(e, s, m, n);
    assert ReachIn(e, s, t, n + 1);
  }

  // Whatever holds at the start and is kept by every step from a reachable node holds
  // at every reachable node.
  lemma Invariant<N(!new)>(e: (N, N) -> bool, s: N, p: N -> bool, t: N)
    requires p(s)
    requires forall x, y :: Reach(e, s, x) && p(x) && e(x, y) ==> p(y)
    requires Reach(e, s, t)
    ensures p(t)
  {
    var n: nat :| ReachIn(e, s, t, n);
    InvariantIn(e, s, p, t, n);
  }

  lemma {:induction false} InvariantIn<N(!new)>(e: (N, N) -> bool, s: N, p: N -> bool, t: N, n: nat)
    requires p(s)
    requires forall x, y :: Reach(e, s, x) && p(x) && e(x, y) ==> p(y)
    requires ReachIn(e, s, t, n)
    ensures p(t)
  {
    if n > 0 {
      var m :| ReachIn(e, s, m, n - 1) && e(m, t);
      InvariantIn(e, s, p, m, n - 1);
      assert Reach(e, s, m);
    }
  }

  lemma Transitive<N(!new)>(e: (N, N) -> bool, s: N, m: N, t: N)
    requires Reach(e, s, m) && Reach(e, m, t)
    ensures Reach(e, s, t)
  {
    forall x, y | Reach(e, s, x) && e(x, y) ensures Reach(e, s, y) {
      Step(e, s, x, y);
    }
    Invariant(e, m, x => Reach(e, s, x), t);
  }

  // A relation that follows every step of another from its reachable nodes reaches
  // at least as far.
  lemma Monotone<N(!new)>(e: (N, N) -> bool, f: (N, N) -> bool, s: N, t: N)
    requires forall x, y :: Reach(e, s, x) && e(x, y) ==> f(x, y)
    requires Reach(e, s, t)
    ensures Reach(f, s, t)
  {
    Start(f, s);
    forall x, y | Reach(e, s, x) && Reach(f, s, x) && e(x, y) ensures Reach(f, s, y) {
      Step(f, s, x, y);
    }
    Invariant(e, s, x => Reach(f, s, x), t);
  }

  lemma ReachSame<N(!new)>(e: (N, N) -> bool, f: (N, N) -> bool, s: N, t: N)
    requires forall x, y :: e(x, y) <==> f(x, y)
    ensures Reach(e, s, t) <==> Reach(f, s, t)
  {
    if Reach(e, s, t) { Monotone(e, f, s, t); }
    if Reach(f, s, t) { Monotone(f, e, s, t); }
  }

  ghost predicate Closed<N(!new)>(e: (N, N) -> bool, s: iset<N>) {
    forall x, y :: x in s && e(x, y) ==> y in s
  }

  // The reachable nodes are the least closed set holding the start: a node is reachable
  // exactly when it lies in every such set.
  lemma ReachIsLeast<N(!new)>(e: (N, N) -> bool, start: N, t: N)
    ensures Reach(e, start, t) <==> forall s: iset<N> :: start in s && Closed(e, s) ==> t in s
  {
    forall s: iset<N> | start in s && Closed(e, s) && Reach(e, start, t) ensures t in s {
      Invariant(e, start, x => x in s, t);
    }
    var reached := iset x | Reach(e, start, x);
    Start(e, start);
    forall x, y | x in reached && e(x, y) ensures y in reached {
      Step(e, start, x, y);
    }
    assert start in reached && Closed(e, reached);
  }
}
