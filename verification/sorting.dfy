// Listing a keyed map and sorting refs by human name (sortedRefs in closure/closure.go).
module Sorting {
  import opened Prelude
  import opened Model
  import opened Worklist

  // Go's string order.
  predicate Leq(a: string, b: string) {
    |a| == 0 || (|b| > 0 && (a[0] < b[0] || (a[0] == b[0] && Leq(a[1..], b[1..]))))
  }

  // A prefix comes first, and else the first differing character decides.
  lemma {:induction false} LeqMeans(a: string, b: string)
    ensures Leq(a, b) <==> a <= b || exists i :: 0 <= i < |a| && i < |b| && a[..i] == b[..i] && a[i] < b[i]
  {
    if |a| > 0 && |b| > 0 && a[0] == b[0] {
      LeqMeans(a[1..], b[1..]);
      if i :| 0 <= i < |a| - 1 && i < |b| - 1 && a[1..][..i] == b[1..][..i] && a[1..][i] < b[1..][i] {
        assert a[..i + 1] == [a[0]] + a[1..][..i] && b[..i + 1] == [b[0]] + b[1..][..i];
        assert a[i + 1] < b[i + 1];
      }
      if i :| 0 <= i < |a| && i < |b| && a[..i] == b[..i] && a[i] < b[i] {
        assert a[1..][..i - 1] == a[..i][1..] && b[1..][..i - 1] == b[..i][1..];
        assert a[1..][i - 1] < b[1..][i - 1];
      }
    } else if |a| > 0 && |b| > 0 {
      assert a[..0] == b[..0];
      forall i | 0 < i <= |a| && i <= |b| ensures a[..i] != b[..i] {
        assert a[..i][0] == a[0] && b[..i][0] == b[0];
      }
    }
  }

  lemma {:induction false} LeqTotal(a: string, b: string)
    ensures Leq(a, b) || Leq(b, a)
  {
    if |a| > 0 && |b| > 0 && a[0] == b[0] {
      LeqTotal(a[1..], b[1..]);
    }
  }

  lemma {:induction false} LeqTransitive(a: string, b: string, c: string)
    requires Leq(a, b) && Leq(b, c)
    ensures Leq(a, c)
  {
    if |a| > 0 && a[0] == b[0] == c[0] {
      LeqTransitive(a[1..], b[1..], c[1..]);
    }
  }

  lemma {:induction false} LeqAntisymmetric(a: string, b: string)
    requires Leq(a, b) && Leq(b, a)
    ensures a == b
  {
    if |a| > 0 {
      LeqAntisymmetric(a[1..], b[1..]);
      assert a == [a[0]] + a[1..] && b == [b[0]] + b[1..];
    }
  }

  predicate Before(x: Ref, y: Ref) {
    Leq(x.Human(), y.Human())
  }

  predicate Sorted(s: seq<Ref>) {
    forall i, j :: 0 <= i < j < |s| ==> Before(s[i], s[j])
  }

  predicate NoRepeats(s: seq<Ref>) {
    forall i, j :: 0 <= i < j < |s| ==> s[i] != s[j]
  }

  function Insert(x: Ref, s: seq<Ref>): (t: seq<Ref>)
    requires Sorted(s)
    ensures Sorted(t)
    ensures multiset(t) == multiset(s) + multiset{x}
  {
    if |s| == 0 then [x]
    else if Before(x, s[0]) then
      SortedFront(x, s);
      [x] + s
    else
      assert s == [s[0]] + s[1..];
      var rest := Insert(x, s[1..]);
      InsertedFront(x, s, rest);
      [s[0]] + rest
  }

  lemma SortedFront(x: Ref, s: seq<Ref>)
    requires Sorted(s) && |s| > 0 && Before(x, s[0])
    ensures Sorted([x] + s)
  {
    forall j | 0 < j < |s| ensures Before(x, s[j]) {
      LeqTransitive(x.Human(), s[0].Human(), s[j].Human());
    }
  }

  lemma InsertedFront(x: Ref, s: seq<Ref>, rest: seq<Ref>)
    requires Sorted(s) && |s| > 0 && !Before(x, s[0])
    requires Sorted(rest) && multiset(rest) == multiset(s[1..]) + multiset{x}
    ensures Sorted([s[0]] + rest)
  {
    LeqTotal(x.Human(), s[0].Human());
    forall j | 0 <= j < |rest| ensures Before(s[0], rest[j]) {
      assert rest[j] in multiset(rest);
      assert rest[j] == x || rest[j] in s[1..];
    }
  }

  // Some sorted permutation; the order among equal human names is not specified.
  function SortByHuman(s: seq<Ref>): (t: seq<Ref>)
    ensures Sorted(t)
    ensures multiset(t) == multiset(s)
  {
    if |s| == 0 then []
    else
      assert s == s[..|s| - 1] + [s[|s| - 1]];
      Insert(s[|s| - 1], SortByHuman(s[..|s| - 1]))
  }

  lemma {:induction false} NoRepeatsIsMultiplicity(s: seq<Ref>)
    ensures NoRepeats(s) <==> forall x :: multiset(s)[x] <= 1
  {
    if |s| > 0 {
      var init, last := s[..|s| - 1], s[|s| - 1];
      NoRepeatsIsMultiplicity(init);
      assert s == init + [last];
      assert NoRepeats(s) <==> NoRepeats(init) && last !in init;
      assert forall x :: multiset(s)[x] == multiset(init)[x] + if x == last then 1 else 0;
      assert last in init <==> multiset(init)[last] >= 1;
    }
  }

  // Sorting keeps the members, their number, and freedom from repeats.
  lemma SortKeeps(s: seq<Ref>)
    ensures forall r :: r in SortByHuman(s) <==> r in s
    ensures |SortByHuman(s)| == |s|
    ensures NoRepeats(s) ==> NoRepeats(SortByHuman(s))
  {
    var t := SortByHuman(s);
    forall r ensures r in t <==> r in s {
      assert r in multiset(t) <==> r in multiset(s);
    }
    assert |multiset(t)| == |t| && |multiset(s)| == |s|;
    NoRepeatsIsMultiplicity(s);
    NoRepeatsIsMultiplicity(t);
  }

  ghost predicate DistinctNames(s: seq<Ref>) {
    forall x, y :: x in s && y in s && x.Human() == y.Human() ==> x == y
  }

  // A sorted list without repeats and with distinct human names is decided by its members.
  lemma {:induction false} SortedListUnique(s: seq<Ref>, t: seq<Ref>)
    requires Sorted(s) && Sorted(t) && NoRepeats(s) && NoRepeats(t) && DistinctNames(s)
    requires forall r :: r in s <==> r in t
    ensures s == t
  {
    if |s| == 0 {
      EmptyWithoutMembers(t);
    } else {
      assert s[0] in t;
      SameHead(s, t);
      TailKeeps(s);
      TailKeeps(t);
      SortedListUnique(s[1..], t[1..]);
      assert s == [s[0]] + s[1..] && t == [t[0]] + t[1..];
    }
  }

  lemma TailKeeps(s: seq<Ref>)
    requires |s| > 0 && Sorted(s) && NoRepeats(s)
    ensures Sorted(s[1..]) && NoRepeats(s[1..])
    ensures DistinctNames(s) ==> DistinctNames(s[1..])
    ensures forall r :: r in s[1..] <==> r in s && r != s[0]
  {
    forall r ensures r in s[1..] <==> r in s && r != s[0] {
      TailMember(s, r);
    }
  }

  lemma TailMember(s: seq<Ref>, r: Ref)
    requires |s| > 0 && NoRepeats(s)
    ensures r in s[1..] <==> r in s && r != s[0]
  {
    if r in s[1..] {
      var i :| 0 <= i < |s| - 1 && s[1..][i] == r;
      assert s[i + 1] == r;
    }
    if r in s && r != s[0] {
      var i :| 0 <= i < |s| && s[i] == r;
      assert s[1..][i - 1] == r;
    }
  }

  lemma SameHead(s: seq<Ref>, t: seq<Ref>)
    requires |s| > 0 && |t| > 0 && Sorted(s) && Sorted(t) && DistinctNames(s)
    requires forall r :: r in s <==> r in t
    ensures s[0] == t[0]
  {
    assert s[0] in t && t[0] in s;
    var i :| 0 <= i < |s| && s[i] == t[0];
    var j :| 0 <= j < |t| && t[j] == s[0];
    if i > 0 && j > 0 {
      LeqAntisymmetric(s[0].Human(), t[0].Human());
    }
  }

  // ----- keyed maps

  // Each entry is filed under its own key.
  predicate Keyed(m: map<string, Ref>) {
    forall k :: k in m ==> m[k].Key() == k
  }

  // The entries of m, each once.
  ghost predicate Lists(c: seq<Ref>, m: map<string, Ref>) {
    && NoRepeats(c)
    && forall r :: r in c <==> r.Key() in m && m[r.Key()] == r
  }

  // A map's values, in whatever order the map yields them.
  method Values(m: map<string, Ref>) returns (out: seq<Ref>)
    requires Keyed(m)
    ensures Lists(out, m)
  {
    out := [];
    var rest := m.Keys;
    while rest != {}
      invariant rest <= m.Keys
      invariant NoRepeats(out)
      invariant forall r :: r in out <==> r.Key() in m && r.Key() !in rest && m[r.Key()] == r
      decreases rest
    {
      var k :| k in rest;
      rest := rest - {k};
      assert m[k].Key() == k;
      out := out + [m[k]];
    }
  }

  method SortedRefs(m: map<string, Ref>) returns (c: seq<Ref>)
    requires Keyed(m)
    ensures Lists(c, m) && Sorted(c)
  {
    var vals := Values(m);
    c := SortByHuman(vals);
    SortKeeps(vals);
  }

  // Every ref filed under its key, in order; a later one replaces an earlier one.
  function Filed(m: map<string, Ref>, refs: seq<Ref>): map<string, Ref> {
    if |refs| == 0 then m
    else
      var last := refs[|refs| - 1];
      Filed(m, refs[..|refs| - 1])[last.Key() := last]
  }

  lemma {:induction false} FiledKeeps(m: map<string, Ref>, refs: seq<Ref>)
    requires Keyed(m)
    ensures var out := Filed(m, refs);
      && Keyed(out)
      && (forall k :: k in out <==> k in m || HasKey(refs, k))
      && (forall k :: k in m && !HasKey(refs, k) ==> out[k] == m[k])
      && (forall k :: HasKey(refs, k) ==> out[k] in refs)
  {
    if |refs| > 0 {
      var init, last := refs[..|refs| - 1], refs[|refs| - 1];
      FiledKeeps(m, init);
      assert forall r :: r in refs <==> r in init || r == last;
    }
  }

  // Of the refs with one key, the last is filed.
  lemma {:induction false} LastIsFiled(m: map<string, Ref>, refs: seq<Ref>, i: nat)
    requires i < |refs| && forall j :: i < j < |refs| ==> refs[j].Key() != refs[i].Key()
    ensures refs[i].Key() in Filed(m, refs) && Filed(m, refs)[refs[i].Key()] == refs[i]
  {
    if i < |refs| - 1 {
      LastIsFiled(m, refs[..|refs| - 1], i);
    }
  }

  method FileAll(m: map<string, Ref>, refs: seq<Ref>) returns (out: map<string, Ref>)
    ensures out == Filed(m, refs)
  {
    out := m;
    for i := 0 to |refs|
      invariant out == Filed(m, refs[..i])
    {
      assert refs[..i + 1][..i] == refs[..i];
      out := out[refs[i].Key() := refs[i]];
    }
    assert refs[..|refs|] == refs;
  }

  function KeySet(c: seq<Ref>): set<string> {
    set r | r in c :: r.Key()
  }

  predicate DistinctKeys(c: seq<Ref>) {
    forall i, j :: 0 <= i < j < |c| ==> c[i].Key() != c[j].Key()
  }

  lemma KeySetStep(c: seq<Ref>)
    requires |c| > 0 && DistinctKeys(c)
    ensures var init, k := c[..|c| - 1], c[|c| - 1].Key();
      KeySet(c) == KeySet(init) + {k} && k !in KeySet(init) && DistinctKeys(init)
  {
    var init, last := c[..|c| - 1], c[|c| - 1];
    assert forall r :: r in c <==> r in init || r == last;
    assert forall i :: 0 <= i < |init| ==> init[i] == c[i] && c[i].Key() != last.Key();
  }

  lemma {:induction false} KeySetSize(c: seq<Ref>)
    requires DistinctKeys(c)
    ensures |KeySet(c)| == |c|
  {
    if |c| > 0 {
      KeySetStep(c);
      KeySetSize(c[..|c| - 1]);
    }
  }
}
