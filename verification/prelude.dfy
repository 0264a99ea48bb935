// Small datatypes and sequence functions shared by every module.
module Prelude {

  datatype Option<+T> = None | Some(value: T)

  datatype Result<+T, +E> = Ok(value: T) | Err(error: E)

  // One more result appended to those so far; the first error wins.
  function Collect<T, E>(sofar: Result<seq<T>, E>, next: Result<T, E>): Result<seq<T>, E> {
    if sofar.Err? then sofar
    else if next.Err? then Err(next.error)
    else Ok(sofar.value + [next.value])
  }

  // f's results in order, or the first error.
  function Traverse<A, B, E>(f: A -> Result<B, E>, s: seq<A>): Result<seq<B>, E> {
    if |s| == 0 then Ok([]) else Collect(Traverse(f, s[..|s| - 1]), f(s[|s| - 1]))
  }

  lemma {:induction false} TraverseAt<A, B, E>(f: A -> Result<B, E>, s: seq<A>, i: nat)
    requires Traverse(f, s).Ok? && (i < |s| || i < |Traverse(f, s).value|)
    ensures |Traverse(f, s).value| == |s|
    ensures f(s[i]) == Ok(Traverse(f, s).value[i])
  {
    var init := s[..|s| - 1];
    if |init| > 0 {
      TraverseAt(f, init, if i < |init| then i else 0);
    }
  }

  lemma {:induction false} TraverseStops<A, B, E>(f: A -> Result<B, E>, s: seq<A>, i: nat)
    requires i <= |s| && Traverse(f, s[..i]).Err?
    ensures Traverse(f, s) == Traverse(f, s[..i])
    decreases |s|
  {
    if i == |s| {
      assert s[..i] == s;
    } else {
      assert s[..|s| - 1][..i] == s[..i];
      TraverseStops(f, s[..|s| - 1], i);
    }
  }

  lemma {:induction false} TraverseSucceedsIff<A, B, E>(f: A -> Result<B, E>, s: seq<A>)
    ensures Traverse(f, s).Ok? <==> forall x :: x in s ==> f(x).Ok?
  {
    if |s| > 0 {
      var init, last := s[..|s| - 1], s[|s| - 1];
      TraverseSucceedsIff(f, init);
      assert forall x :: x in s <==> x in init || x == last;
    }
  }

  // A Go map read: a missing key reads as the empty string.
  function Read(m: map<string, string>, k: string): string {
    if k in m then m[k] else ""
  }

  // The concatenation of f's results, in order.
  function FlatMap<A, B>(f: A -> seq<B>, s: seq<A>): seq<B> {
    if |s| == 0 then [] else FlatMap(f, s[..|s| - 1]) + f(s[|s| - 1])
  }

  lemma FlatMapStep<A, B>(f: A -> seq<B>, s: seq<A>, i: nat)
    requires i < |s|
    ensures FlatMap(f, s[..i + 1]) == FlatMap(f, s[..i]) + f(s[i])
  {
    assert s[..i + 1][..i] == s[..i];
  }

  lemma {:induction false} FlatMapAppend<A, B>(f: A -> seq<B>, s: seq<A>, t: seq<A>)
    ensures FlatMap(f, s + t) == FlatMap(f, s) + FlatMap(f, t)
  {
    if |t| == 0 {
      assert s + t == s;
    } else {
      assert (s + t)[..|s + t| - 1] == s + t[..|t| - 1];
      FlatMapAppend(f, s, t[..|t| - 1]);
    }
  }

  lemma {:induction false} FlatMapMember<A, B>(f: A -> seq<B>, s: seq<A>, y: B)
    ensures y in FlatMap(f, s) <==> exists x :: x in s && y in f(x)
  {
    if |s| > 0 {
      var init, last := s[..|s| - 1], s[|s| - 1];
      FlatMapMember(f, init, y);
      assert forall x :: x in s <==> x in init || x == last;
    }
  }

  // When f yields exactly one result an element, the flattened list is those results.
  lemma {:induction false} FlatMapSingles<A, B>(f: A -> seq<B>, s: seq<A>, t: seq<B>)
    requires |s| == |t|
    requires forall i :: 0 <= i < |s| ==> f(s[i]) == [t[i]]
    ensures FlatMap(f, s) == t
  {
    if |s| > 0 {
      FlatMapSingles(f, s[..|s| - 1], t[..|t| - 1]);
    }
  }

  // Two lists that f and g map element by element to the same results flatten alike.
  lemma {:induction false} FlatMapAgrees<A, B, C>(f: A -> seq<C>, s: seq<A>, g: B -> seq<C>, t: seq<B>)
    requires |s| == |t|
    requires forall i :: 0 <= i < |s| ==> f(s[i]) == g(t[i])
    ensures FlatMap(f, s) == FlatMap(g, t)
  {
    if |s| > 0 {
      FlatMapAgrees(f, s[..|s| - 1], g, t[..|t| - 1]);
    }
  }

  lemma EmptyWithoutMembers<T>(s: seq<T>)
    ensures (forall x :: x !in s) ==> s == []
  {
    if s != [] {
      assert s[0] in s;
    }
  }

  // Two finite sets of the same size, one inside the other, are equal.
  lemma SubsetSameSize<T>(a: set<T>, b: set<T>)
    requires a <= b && |a| == |b|
    ensures a == b
  {
    if x :| x in b && x !in a {
      assert a <= b - {x};
      SubsetSize(a, b - {x});
    }
  }

  lemma {:induction false} SubsetSize<T>(a: set<T>, b: set<T>)
    requires a <= b
    ensures |a| <= |b|
  {
    if a != {} {
      var x :| x in a;
      SubsetSize(a - {x}, b - {x});
    }
  }

  // No finite set holds every string.
  lemma FreshString(s: set<string>) returns (x: string)
    ensures x !in s
  {
    x := "x";
    var rest := s;
    while rest != {}
      invariant rest <= s
      invariant |x| > 0
      invariant forall y :: y in s - rest ==> |y| < |x|
      decreases rest
    {
      var y :| y in rest;
      rest := rest - {y};
      var pad := x + y;
      assert |pad| > |y| && |pad| >= |x|;
      x := pad;
    }
  }
}
