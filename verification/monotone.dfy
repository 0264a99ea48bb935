// The closure grows with the licensed effects and with the inventory.
module Monotonicity {
  import opened Model
  import opened Inventory
  import opened Classification
  import opened Graph
  import opened Closures
  import opened ClosureTheory
  import opened Sorting
  import opened Worklist
  import opened Paths

  // ----- effects

  lemma MoreEffectsOutdo(objs: seq<Object>, a: Action, b: Action, fx: EffectSet, gx: EffectSet)
    requires SamePayload(a, b) && a.target == b.target && Within(fx, gx)
    ensures Outdoes(objs, objs, a, b, fx, gx)
  {
    forall x, y | Edge(objs, a, fx, x, y) ensures Edge(objs, b, gx, x, y) {
      EdgeTransfer(objs, a, b, fx, gx, x, x, y);
    }
  }

  // A run with more effects on the same target and payload returns every member but perhaps
  // the target, and the target too exactly when the more effects do not oust it anew.
  lemma ClosureGrowsWithEffects(objs: seq<Object>, a: Action, b: Action, fx: EffectSet, gx: EffectSet,
                                c: seq<Ref>, d: seq<Ref>)
    requires WellFormed(objs) && SamePayload(a, b) && a.target == b.target && Within(fx, gx)
    requires Lookup(objs, a.target).Some?
    requires ClosureOf(objs, a, fx, c) && ClosureOf(objs, b, gx, d)
    ensures Carried(a.target, c, d)
    ensures (forall r :: r in c ==> r in d) <==> (Ousted(objs, b, gx) ==> Ousted(objs, a, fx))
  {
    MoreEffectsOutdo(objs, a, b, fx, gx);
    OutcomeHeldIff(objs, objs, a, b, fx, gx, c, d);
  }

  // On every inventory, duplicates included, whatever order walks expand in: with more
  // effects they expand all that they do with fewer exactly when no key is threaded to two
  // refs, one by the fewer effects and one by the more.
  lemma EffectsNestIff(objs: seq<Object>, a: Action, b: Action, fx: EffectSet, gx: EffectSet)
    requires SamePayload(a, b) && a.target == b.target && Within(fx, gx)
    ensures var e, f := Edges(objs, a, fx), Edges(objs, b, gx);
      (forall done, other :: Finished(e, a.target, done) && Finished(f, a.target, other) ==> done <= other)
        <==> !Clash(e, f, a.target)
  {
    MoreEffectsOutdo(objs, a, b, fx, gx);
    ClosureBoundedBy(objs, b, gx);
    forall x, y | Edge(objs, a, fx, x, y) ensures Edge(objs, b, gx, x, y) {
      EdgeTransfer(objs, a, b, fx, gx, x, x, y);
    }
    WalksNestIff(Edges(objs, a, fx), Edges(objs, b, gx), a.target, Universe(objs, a.target));
  }

  // Then every key an outcome holds, an outcome with more effects holds.
  lemma KeysGrowWithEffects(objs: seq<Object>, a: Action, b: Action, fx: EffectSet, gx: EffectSet,
                            c: seq<Ref>, d: seq<Ref>)
    requires SamePayload(a, b) && a.target == b.target && Within(fx, gx)
    requires !Clash(Edges(objs, a, fx), Edges(objs, b, gx), a.target)
    requires ClosureOf(objs, a, fx, c) && ClosureOf(objs, b, gx, d)
    ensures forall r :: r in c ==> HasKey(d, r.Key())
  {
    if Lookup(objs, a.target).Some? {
      var done, m :| Walk(objs, a, fx, done, m) && Lists(c, m);
      var other, n :| Walk(objs, b, gx, other, n) && Lists(d, n);
      EffectsNestIff(objs, a, b, fx, gx);
      assert done <= other by {
        assert Finished(Edges(objs, a, fx), a.target, done) && Finished(Edges(objs, b, gx), a.target, other);
      }
      forall r | r in c ensures HasKey(d, r.Key()) {
        KeyHeld(objs, a, b, fx, gx, done, m, other, n, r);
        assert n[r.Key()] in d;
      }
    }
  }

  lemma KeyHeld(objs: seq<Object>, a: Action, b: Action, fx: EffectSet, gx: EffectSet,
                done: set<Ref>, m: map<string, Ref>, other: set<Ref>, n: map<string, Ref>, r: Ref)
    requires Walk(objs, a, fx, done, m) && Walk(objs, b, gx, other, n) && done <= other
    requires r.Key() in m && m[r.Key()] == r
    ensures r.Key() in n && n[r.Key()].Key() == r.Key()
  {
    if r !in done {
      var x :| x in done && Binds(objs, x, r);
      assert BoundBy(objs, other, r);
    }
  }

  // On a well-formed inventory nothing clashes.
  lemma WellFormedNeverClashes(objs: seq<Object>, a: Action, b: Action, fx: EffectSet, gx: EffectSet)
    requires WellFormed(objs) && a.target == b.target
    ensures !Clash(Edges(objs, a, fx), Edges(objs, b, gx), a.target)
  {
    forall x, y | Threads(Edges(objs, a, fx), a.target, x) && Threads(Edges(objs, b, gx), a.target, y)
        && x.Key() == y.Key()
      ensures x == y
    {
      ThreadedNode(objs, a, fx, x);
      ThreadedNode(objs, b, gx, y);
      if x != a.target && y != a.target {
        ObjectKeysDistinct(objs, x, y);
      }
    }
  }

  // A path leads to the target only by staying there.
  lemma ThreadedNode(objs: seq<Object>, a: Action, fx: EffectSet, x: Ref)
    requires Threads(Edges(objs, a, fx), a.target, x)
    ensures x == a.target || (IsObjectRef(objs, x) && x.Key() != a.target.Key())
  {
    var e := Edges(objs, a, fx);
    var p: seq<Ref> :| Joins(e, a.target, x, p);
    if |p| > 1 {
      assert e(p[|p| - 2], x);
      EdgesNameObjects(objs, a, fx, p[|p| - 2], x);
    }
  }

  // What runs return, and which outcomes there are, depends on the verb only through the
  // effects, on every inventory.
  lemma OnlyEffectsMatter(objs: seq<Object>, a: Action, b: Action, fx: EffectSet, c: seq<Ref>)
    requires SamePayload(a, b) && a.target == b.target
    ensures RunOf(objs, a, fx, c) <==> RunOf(objs, b, fx, c)
    ensures ClosureOf(objs, a, fx, c) <==> ClosureOf(objs, b, fx, c)
  {
    forall s ensures RunsTo(objs, a, fx, s) <==> RunsTo(objs, b, fx, s) {
      assert forall x, y :: Turn(objs, a, fx, x, y) <==> Turn(objs, b, fx, x, y);
      ReachSame(Turns(objs, a, fx), Turns(objs, b, fx), Initial(a.target), s);
    }
    forall x, y ensures Edge(objs, a, fx, x, y) <==> Edge(objs, b, fx, x, y) {
      if Edge(objs, a, fx, x, y) { EdgeTransfer(objs, a, b, fx, fx, x, x, y); }
      if Edge(objs, b, fx, x, y) { EdgeTransfer(objs, b, a, fx, fx, x, x, y); }
    }
    forall done, m ensures Walk(objs, a, fx, done, m) <==> Walk(objs, b, fx, done, m) {
      ExploredSame(Edges(objs, a, fx), Edges(objs, b, fx), a.target, done);
    }
  }

  lemma PatchIsUpdate(objs: seq<Object>, a: Action, c: seq<Ref>)
    ensures RunOf(objs, a.(verb := Update), Effects(a.(verb := Update)), c)
       <==> RunOf(objs, a.(verb := Patch), Effects(a.(verb := Patch)), c)
    ensures ClosureOf(objs, a.(verb := Update), Effects(a.(verb := Update)), c)
       <==> ClosureOf(objs, a.(verb := Patch), Effects(a.(verb := Patch)), c)
  {
    OnlyEffectsMatter(objs, a.(verb := Update), a.(verb := Patch), Effects(a.(verb := Update)), c);
  }

  // b does what a does and more: a delete that cascades, a scale, update or patch in place
  // of a restart.
  predicate Strengthens(a: Action, b: Action) {
    || (a.verb.Delete? && !a.cascade && b == a.(cascade := true))
    || (a.verb.Restart? && (b == a.(verb := Scale) || b == a.(verb := Update) || b == a.(verb := Patch)))
  }

  lemma StrongerDoesMore(a: Action, b: Action)
    requires Strengthens(a, b)
    ensures SamePayload(a, b) && a.target == b.target && Within(Effects(a), Effects(b))
  {
  }

  // A cascading delete affects at least what a non-cascading one does, and a scale, update
  // or patch at least what a restart does, but for a target they oust.
  lemma VerbsNest(objs: seq<Object>, a: Action, b: Action, c: seq<Ref>, d: seq<Ref>)
    requires WellFormed(objs) && Strengthens(a, b) && Lookup(objs, a.target).Some?
    requires ClosureOf(objs, a, Effects(a), c) && ClosureOf(objs, b, Effects(b), d)
    ensures Carried(a.target, c, d)
    ensures (forall r :: r in c ==> r in d) <==> (Ousted(objs, b, Effects(b)) ==> Ousted(objs, a, Effects(a)))
  {
    StrongerDoesMore(a, b);
    ClosureGrowsWithEffects(objs, a, b, Effects(a), Effects(b), c, d);
  }

  // ----- inventory

  // more holds every object of objs, and its new objects bear neither the target's uid
  // nor its human name.
  ghost predicate Extends(objs: seq<Object>, more: seq<Object>, target: Ref) {
    && WellFormed(objs) && WellFormed(more)
    && (forall o :: o in objs ==> o in more)
    && (forall o :: o in more && o !in objs ==>
      (target.uid == "" || o.ref.uid != target.uid) && o.ref.Human() != target.Human())
  }

  lemma TargetLookupKept(objs: seq<Object>, more: seq<Object>, target: Ref)
    requires Extends(objs, more, target)
    ensures Lookup(more, target) == Lookup(objs, target)
  {
    UidFoundKept(objs, more, target.uid);
    HumanFoundKept(objs, more, target.Human());
  }

  lemma UidFoundKept(objs: seq<Object>, more: seq<Object>, uid: string)
    requires WellFormed(objs) && WellFormed(more) && (forall o :: o in objs ==> o in more)
    requires uid == "" || forall o :: o in more && o !in objs ==> o.ref.uid != uid
    ensures uid != "" ==> FindUid(objs, uid).Some? == FindUid(more, uid).Some?
    ensures uid != "" && FindUid(objs, uid).Some? ==> objs[FindUid(objs, uid).value] == more[FindUid(more, uid).value]
  {
    if uid != "" && FindUid(more, uid).Some? {
      var o := more[FindUid(more, uid).value];
      assert o in objs && FindUid(objs, uid).Some?;
    }
  }

  lemma HumanFoundKept(objs: seq<Object>, more: seq<Object>, human: string)
    requires WellFormed(objs) && WellFormed(more) && (forall o :: o in objs ==> o in more)
    requires forall o :: o in more && o !in objs ==> o.ref.Human() != human
    ensures FindHuman(objs, human).Some? == FindHuman(more, human).Some?
    ensures FindHuman(objs, human).Some? ==> objs[FindHuman(objs, human).value] == more[FindHuman(more, human).value]
  {
    if FindHuman(more, human).Some? {
      var o := more[FindHuman(more, human).value];
      assert o in objs && FindHuman(objs, human).Some?;
    }
  }

  lemma NodeLookupKept(objs: seq<Object>, more: seq<Object>, target: Ref, x: Ref)
    requires Extends(objs, more, target) && Node(objs, target, x)
    ensures Lookup(more, x) == Lookup(objs, x)
  {
    if x == target {
      TargetLookupKept(objs, more, target);
    } else {
      var o :| o in objs && o.ref == x;
      OwnRefLookup(objs, o);
      OwnRefLookup(more, o);
    }
  }

  lemma ScanGrows(objs: seq<Object>, more: seq<Object>, q: Query)
    requires forall o :: o in objs ==> o in more
    ensures forall r :: r in Scan(objs, q) ==> r in Scan(more, q)
  {
    ScanFinds(objs, q);
    ScanFinds(more, q);
  }

  lemma EdgeGrows(objs: seq<Object>, more: seq<Object>, a: Action, fx: EffectSet, x: Ref, y: Ref)
    requires Extends(objs, more, a.target) && Node(objs, a.target, x)
    requires Edge(objs, a, fx, x, y)
    ensures Edge(more, a, fx, x, y)
  {
    NodeLookupKept(objs, more, a.target, x);
    forall q: Query { ScanGrows(objs, more, q); }
  }

  lemma BindsGrows(objs: seq<Object>, more: seq<Object>, target: Ref, x: Ref, b: Ref)
    requires Extends(objs, more, target) && Node(objs, target, x) && Binds(objs, x, b)
    ensures Binds(more, x, b)
  {
    NodeLookupKept(objs, more, target, x);
    forall q: Query { ScanGrows(objs, more, q); }
  }

  lemma LargerReadOutdoes(objs: seq<Object>, more: seq<Object>, a: Action, fx: EffectSet)
    requires Extends(objs, more, a.target)
    ensures Outdoes(objs, more, a, a, fx, fx)
  {
    forall x, y | Node(objs, a.target, x) && Edge(objs, a, fx, x, y) ensures Edge(more, a, fx, x, y) {
      EdgeGrows(objs, more, a, fx, x, y);
    }
    forall x, y | Node(objs, a.target, x) && Binds(objs, x, y) ensures Binds(more, x, y) {
      BindsGrows(objs, more, a.target, x, y);
    }
  }

  // A run over a larger read returns every member but perhaps the target, and the target
  // too exactly when the larger read does not oust it anew.
  lemma ClosureGrowsWithInventory(objs: seq<Object>, more: seq<Object>, a: Action, fx: EffectSet,
                                  c: seq<Ref>, d: seq<Ref>)
    requires Extends(objs, more, a.target) && Lookup(objs, a.target).Some?
    requires ClosureOf(objs, a, fx, c) && ClosureOf(more, a, fx, d)
    ensures Carried(a.target, c, d)
    ensures (forall r :: r in c ==> r in d) <==> (Ousted(more, a, fx) ==> Ousted(objs, a, fx))
  {
    LargerReadOutdoes(objs, more, a, fx);
    TargetLookupKept(objs, more, a.target);
    OutcomeHeldIff(objs, more, a, a, fx, fx, c, d);
  }
}
