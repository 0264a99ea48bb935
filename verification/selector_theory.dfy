// What label selectors mean, and which selector changes the comparison cannot see.
module SelectorTheory {
  import opened Prelude
  import opened Model
  import opened Inventory

  // The operators against the label map itself: In and NotIn, Exists and DoesNotExist are
  // complements, the negative ones hold of a missing key, and an unknown one of nothing.
  lemma OperatorsMean(key: string, values: seq<string>, labels: map<string, string>, op: string)
    ensures Requirement(key, "Exists", values).Matches(labels) <==> key in labels
    ensures Requirement(key, "In", values).Matches(labels) <==> key in labels && labels[key] in values
    ensures Requirement(key, "NotIn", values).Matches(labels) <==> !Requirement(key, "In", values).Matches(labels)
    ensures Requirement(key, "DoesNotExist", values).Matches(labels) <==>
      !Requirement(key, "Exists", values).Matches(labels)
    ensures !ValidOperator(op) ==> !Requirement(key, op, values).Matches(labels)
  {
    assert "Exists"[0] != "In"[0] && "Exists"[0] != "NotIn"[0] && "DoesNotExist"[0] != "In"[0];
    assert "DoesNotExist"[0] != "NotIn"[0] && "DoesNotExist"[0] != "Exists"[0] && "NotIn"[0] != "In"[0];
  }

  // Adding pairs and requirements to a selector that has some only narrows what it binds.
  lemma LongerSelectorIsNarrower(kind: string, s: LabelSelector, t: LabelSelector, labels: map<string, string>)
    requires !s.IsEmpty()
    requires forall k :: k in s.Pairs() ==> k in t.Pairs() && t.Pairs()[k] == s.Pairs()[k]
    requires forall r :: r in s.matchExpressions ==> r in t.matchExpressions
    requires SelectorBinds(kind, t, labels)
    ensures SelectorBinds(kind, s, labels)
  {
    if |s.matchExpressions| > 0 {
      assert s.matchExpressions[0] in t.matchExpressions;
    } else {
      assert s.Pairs().Keys != {};
      var k :| k in s.Pairs();
      assert k in t.Pairs();
    }
    forall i | 0 <= i < |s.matchExpressions| ensures s.matchExpressions[i].Matches(labels) {
      assert s.matchExpressions[i] in t.matchExpressions;
    }
  }

  ghost predicate BindAlike(s: LabelSelector, t: LabelSelector) {
    forall kind, labels :: SelectorBinds(kind, s, labels) <==> SelectorBinds(kind, t, labels)
  }

  // A selector mutation the comparison does not see, with no empty value before it, binds
  // the same pods for every kind exactly when it keeps the nil selector apart from the
  // present empty one.
  lemma UnseenChangeIsHarmlessIff(s: LabelSelector, t: LabelSelector)
    requires s.Equal(t) && forall k :: k in s.Pairs() ==> s.Pairs()[k] != ""
    ensures BindAlike(s, t) <==> (s.IsNil() <==> t.IsNil())
  {
    SameLabelsExact(s.Pairs(), t.Pairs());
    if s.IsNil() != t.IsNil() {
      assert |"Pod"| != |"Service"|;
      assert SelectorBinds("Pod", s, map[]) != SelectorBinds("Pod", t, map[]);
    }
  }

  // Without requirements, whatever the values: exactly when nothing changed at all.
  lemma UnseenPairsChangeIsHarmlessIff(s: LabelSelector, t: LabelSelector)
    requires s.Equal(t) && s.matchExpressions == []
    ensures BindAlike(s, t) <==> s.matchLabels == t.matchLabels
  {
    if s.matchLabels != t.matchLabels {
      var labels := Telling(s, t);
      assert SelectorBinds("Pod", s, labels) != SelectorBinds("Pod", t, labels);
    }
  }

  // A label set that one of two different pair lists binds and the other does not.
  lemma Telling(s: LabelSelector, t: LabelSelector) returns (labels: map<string, string>)
    requires s.Equal(t) && s.matchExpressions == [] && s.matchLabels != t.matchLabels
    ensures SelectorBinds("Pod", s, labels) != SelectorBinds("Pod", t, labels)
  {
    assert |"Pod"| != |"Service"|;
    var m, n := s.Pairs(), t.Pairs();
    labels := map[];
    if m != n {
      var k := LostEmpty(m, n);
      labels := n[k := "x"];
      assert Read(labels, k) != m[k] && !s.Matches(labels);
      assert t.Matches(labels);
    }
  }

  // Of two different maps that compare equal, the first has an empty value the second lacks.
  lemma LostEmpty(m: map<string, string>, n: map<string, string>) returns (k: string)
    requires SameLabels(m, n) && m != n
    ensures k in m && k !in n && m[k] == "" && |n| > 0
  {
    assert |m.Keys| == |m| && |n.Keys| == |n|;
    if m.Keys <= n.Keys {
      SubsetSameSize(m.Keys, n.Keys);
    }
    k :| k in m && k !in n;
    assert Read(n, k) == m[k];
  }

  // ----- when any two selectors bind alike

  // The label set that gives key k this value, if any, and nothing else.
  function Only(k: string, v: Option<string>): map<string, string> {
    if v.Some? then map[k := v.value] else map[]
  }

  // What s asks of key k, whatever the other keys hold.
  ghost predicate Fits(s: LabelSelector, k: string, v: Option<string>) {
    && (k in s.Pairs() ==> Read(Only(k, v), k) == s.Pairs()[k])
    && (forall i :: 0 <= i < |s.matchExpressions| && s.matchExpressions[i].key == k ==>
      s.matchExpressions[i].Matches(Only(k, v)))
  }

  function ValueAt(labels: map<string, string>, k: string): Option<string> {
    if k in labels then Some(labels[k]) else None
  }

  // A selector matches key by key.
  lemma MatchesByKey(s: LabelSelector, labels: map<string, string>)
    ensures s.Matches(labels) <==> forall k :: Fits(s, k, ValueAt(labels, k))
  {
    forall i, k | 0 <= i < |s.matchExpressions| && s.matchExpressions[i].key == k
      ensures s.matchExpressions[i].Matches(labels) <==> s.matchExpressions[i].Matches(Only(k, ValueAt(labels, k)))
    {
    }
    if forall k :: Fits(s, k, ValueAt(labels, k)) {
      forall k | k in s.Pairs() ensures Read(labels, k) == s.Pairs()[k] {
        assert Fits(s, k, ValueAt(labels, k));
      }
      forall i | 0 <= i < |s.matchExpressions| ensures s.matchExpressions[i].Matches(labels) {
        assert Fits(s, s.matchExpressions[i].key, ValueAt(labels, s.matchExpressions[i].key));
      }
    }
  }

  ghost predicate CanFit(s: LabelSelector, k: string) {
    exists v :: Fits(s, k, v)
  }

  ghost predicate Satisfiable(s: LabelSelector) {
    forall k :: CanFit(s, k)
  }

  ghost predicate AsksAlike(s: LabelSelector, t: LabelSelector) {
    forall k, v :: Fits(s, k, v) <==> Fits(t, k, v)
  }

  // The keys s mentions.
  ghost function Mentioned(s: LabelSelector): set<string> {
    s.Pairs().Keys + set i | 0 <= i < |s.matchExpressions| :: s.matchExpressions[i].key
  }

  lemma UnmentionedFits(s: LabelSelector, k: string, v: Option<string>)
    requires k !in Mentioned(s)
    ensures Fits(s, k, v)
  {
    forall i | 0 <= i < |s.matchExpressions| ensures s.matchExpressions[i].key != k {
      assert s.matchExpressions[i].key in Mentioned(s);
    }
  }

  // Fitting values, one a key, make up a label set; the value of one key is free to choose.
  lemma {:induction false} FittingLabels(s: LabelSelector, k: string, v: Option<string>, keys: set<string>)
    returns (labels: map<string, string>)
    requires Satisfiable(s) && Fits(s, k, v)
    ensures ValueAt(labels, k) == v
    ensures forall j :: j in keys ==> Fits(s, j, ValueAt(labels, j))
    decreases keys
  {
    if j :| j in keys && j != k {
      var rest := FittingLabels(s, k, v, keys - {j});
      assert CanFit(s, j);
      var w :| Fits(s, j, w);
      labels := if w.Some? then rest[j := w.value] else rest - {j};
      assert ValueAt(labels, j) == w;
      assert forall i :: i != j ==> ValueAt(labels, i) == ValueAt(rest, i);
    } else {
      labels := Only(k, v);
    }
  }

  lemma MatchingLabels(s: LabelSelector, k: string, v: Option<string>) returns (labels: map<string, string>)
    requires Satisfiable(s) && Fits(s, k, v)
    ensures s.Matches(labels) && ValueAt(labels, k) == v
  {
    labels := FittingLabels(s, k, v, Mentioned(s));
    forall j ensures Fits(s, j, ValueAt(labels, j)) {
      if j !in Mentioned(s) {
        UnmentionedFits(s, j, ValueAt(labels, j));
      }
    }
    MatchesByKey(s, labels);
  }

  lemma UnsatisfiableMatchesNothing(s: LabelSelector, labels: map<string, string>)
    requires !Satisfiable(s)
    ensures !s.Matches(labels)
  {
    MatchesByKey(s, labels);
    var k :| !CanFit(s, k);
    assert !Fits(s, k, ValueAt(labels, k));
  }

  // Two selectors match the same label sets exactly when they ask the same of every key,
  // or neither can be satisfied.
  lemma MatchAlikeIff(s: LabelSelector, t: LabelSelector)
    ensures (forall labels :: s.Matches(labels) <==> t.Matches(labels))
       <==> AsksAlike(s, t) || (!Satisfiable(s) && !Satisfiable(t))
  {
    if AsksAlike(s, t) {
      forall labels ensures s.Matches(labels) <==> t.Matches(labels) {
        MatchesByKey(s, labels);
        MatchesByKey(t, labels);
      }
    } else if !Satisfiable(s) && !Satisfiable(t) {
      forall labels ensures s.Matches(labels) <==> t.Matches(labels) {
        UnsatisfiableMatchesNothing(s, labels);
        UnsatisfiableMatchesNothing(t, labels);
      }
    } else if Satisfiable(s) && (!Satisfiable(t) || exists k, v :: Fits(s, k, v) && !Fits(t, k, v)) {
      var labels := Separating(s, t);
    } else {
      var labels := Separating(t, s);
    }
  }

  lemma Separating(s: LabelSelector, t: LabelSelector) returns (labels: map<string, string>)
    requires Satisfiable(s) && (!Satisfiable(t) || exists k, v :: Fits(s, k, v) && !Fits(t, k, v))
    ensures s.Matches(labels) && !t.Matches(labels)
  {
    if !Satisfiable(t) {
      assert CanFit(s, "");
      var v :| Fits(s, "", v);
      labels := MatchingLabels(s, "", v);
      UnsatisfiableMatchesNothing(t, labels);
    } else {
      var k, v :| Fits(s, k, v) && !Fits(t, k, v);
      labels := MatchingLabels(s, k, v);
      MatchesByKey(t, labels);
    }
  }

  ghost predicate NeverBinds(s: LabelSelector) {
    s.IsNil() || !Satisfiable(s)
  }

  // Any two selectors, seen to differ or not, bind alike for every kind and label set
  // exactly when neither ever binds, or they are alike in being nil, in being empty, and in
  // what they ask of every key.
  lemma BindAlikeIff(s: LabelSelector, t: LabelSelector)
    ensures BindAlike(s, t) <==>
      || (NeverBinds(s) && NeverBinds(t))
      || ((s.IsNil() <==> t.IsNil()) && (s.IsEmpty() <==> t.IsEmpty()) && AsksAlike(s, t))
  {
    assert |"Pod"| != |"Service"|;
    if s.IsEmpty() { EmptyIsSatisfiable(s); }
    if t.IsEmpty() { EmptyIsSatisfiable(t); }
    if !s.IsEmpty() && !t.IsEmpty() {
      SelectorsAlike(s, t);
    } else if s.IsEmpty() && t.IsEmpty() {
      assert BindAlike(s, t) <==> (s.IsNil() <==> t.IsNil()) by {
        assert SelectorBinds("Pod", s, map[]) <==> !s.IsNil();
        assert SelectorBinds("Pod", t, map[]) <==> !t.IsNil();
      }
    } else if s.IsEmpty() {
      EmptyBeside(s, t);
    } else {
      EmptyBeside(t, s);
    }
  }

  lemma EmptyIsSatisfiable(s: LabelSelector)
    requires s.IsEmpty()
    ensures forall k, v :: Fits(s, k, v)
    ensures Satisfiable(s)
  {
    forall k ensures CanFit(s, k) {
      assert Fits(s, k, None);
    }
  }

  lemma SelectorsAlike(s: LabelSelector, t: LabelSelector)
    requires !s.IsEmpty() && !t.IsEmpty()
    ensures BindAlike(s, t) <==> AsksAlike(s, t) || (!Satisfiable(s) && !Satisfiable(t))
  {
    MatchAlikeIff(s, t);
    assert forall labels :: SelectorBinds("Pod", s, labels) <==> s.Matches(labels);
    assert forall labels :: SelectorBinds("Pod", t, labels) <==> t.Matches(labels);
  }

  // An empty selector binds like one that is not exactly when neither ever binds.
  lemma EmptyBeside(s: LabelSelector, t: LabelSelector)
    requires s.IsEmpty() && !t.IsEmpty()
    ensures BindAlike(s, t) <==> s.IsNil() && !Satisfiable(t)
    ensures BindAlike(t, s) <==> s.IsNil() && !Satisfiable(t)
  {
    assert |"Pod"| != |"Service"|;
    if Satisfiable(t) {
      assert CanFit(t, "");
      var v :| Fits(t, "", v);
      var labels := MatchingLabels(t, "", v);
      assert SelectorBinds("Service", t, labels) && !SelectorBinds("Service", s, labels);
    } else {
      forall labels ensures !t.Matches(labels) {
        UnsatisfiableMatchesNothing(t, labels);
      }
      assert SelectorBinds("Pod", s, map[]) <==> !s.IsNil();
      assert !SelectorBinds("Pod", t, map[]);
    }
  }
}
