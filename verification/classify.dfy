// closure/classify.go: which relations an action licenses the closure to follow.
module Classification {
  import opened Model
  import opened Inventory

  // The effect classes an action has, one flag a class.
  datatype EffectSet = EffectSet(
    cascadeDelete: bool,
    containment: bool,
    disruptive: bool,
    mutateSelector: bool,   // the target's selector changed: pods bound by the old or the new one
    mutateLabels: bool,     // the target's labels changed: binders of the old or the new ones
    mutateConfig: bool,
    scaleEffect: bool,
    finalizerRemoval: bool)

  const NO_EFFECTS := EffectSet(false, false, false, false, false, false, false, false)

  predicate Within(e: EffectSet, f: EffectSet) {
    && (e.cascadeDelete ==> f.cascadeDelete) && (e.containment ==> f.containment)
    && (e.disruptive ==> f.disruptive) && (e.mutateSelector ==> f.mutateSelector)
    && (e.mutateLabels ==> f.mutateLabels) && (e.mutateConfig ==> f.mutateConfig)
    && (e.scaleEffect ==> f.scaleEffect) && (e.finalizerRemoval ==> f.finalizerRemoval)
  }

  predicate SelectorChanged(a: Action) {
    a.old_.Some? && a.new_.Some? && !a.old_.value.selector.Equal(a.new_.value.selector)
  }

  predicate LabelsChanged(a: Action) {
    a.old_.Some? && a.new_.Some? && !SameLabels(a.old_.value.labels, a.new_.value.labels)
  }

  // The finalizers of the old payload that the new one lacks.
  function Dropped(old_: seq<string>, kept: seq<string>): seq<string> {
    if |old_| == 0 then []
    else
      var f := old_[|old_| - 1];
      Dropped(old_[..|old_| - 1], kept) + if f in kept then [] else [f]
  }

  function DroppedFinalizers(a: Action): seq<string> {
    if a.old_.None? then []
    else Dropped(a.old_.value.finalizers, if a.new_.Some? then a.new_.value.finalizers else [])
  }

  lemma {:induction false} DroppedMember(old_: seq<string>, kept: seq<string>)
    ensures forall f :: f in Dropped(old_, kept) <==> f in old_ && f !in kept
  {
    if |old_| > 0 {
      DroppedMember(old_[..|old_| - 1], kept);
      assert forall f :: f in old_ <==> f in old_[..|old_| - 1] || f == old_[|old_| - 1];
    }
  }

  predicate FinalizersDropped(a: Action) {
    a.old_.Some? && a.new_.Some? && DroppedFinalizers(a) != []
  }

  // When an action has an effect, class by class.
  function Effects(a: Action): EffectSet {
    var workload, mountable := a.target.gvk.kind in WORKLOAD_KINDS, a.target.gvk.kind in MOUNTABLE_KINDS;
    var mutates := a.verb.Update? || a.verb.Patch?;
    EffectSet(
      cascadeDelete := a.verb.Delete? && a.cascade,
      containment := a.verb.Delete? && a.target.gvk.kind == "Namespace",
      disruptive := !a.verb.OtherVerb? && workload,
      mutateSelector := mutates && SelectorChanged(a),
      mutateLabels := mutates && LabelsChanged(a),
      mutateConfig := (a.verb.Delete? || mutates) && mountable,
      scaleEffect := a.verb.Scale? && workload,
      finalizerRemoval := mutates && FinalizersDropped(a))
  }

  method FinalizersRemoved(a: Action) returns (removed: bool)
    ensures removed <==> FinalizersDropped(a)
  {
    if a.old_.None? || a.new_.None? {
      return false;
    }
    var olds, news := a.old_.value.finalizers, a.new_.value.finalizers;
    DroppedMember(olds, news);
    var kept: set<string> := {};
    for i := 0 to |news|
      invariant forall f :: f in kept <==> f in news[..i]
    {
      kept := kept + {news[i]};
    }
    for i := 0 to |olds|
      invariant forall f :: f in olds[..i] ==> f in news
    {
      if olds[i] !in kept {
        assert olds[i] in Dropped(olds, news);
        return true;
      }
    }
    assert olds[..|olds|] == olds;
    if DroppedFinalizers(a) != [] {
      assert DroppedFinalizers(a)[0] in Dropped(olds, news);
      assert false;
    }
    return false;
  }

  method Classify(a: Action) returns (s: EffectSet)
    ensures s == Effects(a)
  {
    s := NO_EFFECTS;
    var kind := a.target.gvk.kind;
    match a.verb {
      case Delete =>
        if a.cascade {
          s := s.(cascadeDelete := true);
        }
        if kind == "Namespace" {
          s := s.(containment := true);
        }
        if kind in WORKLOAD_KINDS {
          s := s.(disruptive := true);
        }
        if kind in MOUNTABLE_KINDS {
          s := s.(mutateConfig := true);
        }
      case Scale =>
        if kind in WORKLOAD_KINDS {
          s := s.(disruptive := true);
          s := s.(scaleEffect := true);
        }
      case Restart =>
        if kind in WORKLOAD_KINDS {
          s := s.(disruptive := true);
        }
      case Update | Patch =>
        // A workload is taken to recreate its pods whatever the mutation changed.
        if kind in WORKLOAD_KINDS {
          s := s.(disruptive := true);
        }
        if kind in MOUNTABLE_KINDS {
          s := s.(mutateConfig := true);
        }
        if SelectorChanged(a) {
          s := s.(mutateSelector := true);
        }
        if LabelsChanged(a) {
          s := s.(mutateLabels := true);
        }
        var removed := FinalizersRemoved(a);
        if removed {
          s := s.(finalizerRemoval := true);
        }
      case OtherVerb(_) =>
    }
  }

  method RemovedFinalizers(a: Action) returns (out: seq<string>)
    ensures out == DroppedFinalizers(a)
  {
    out := [];
    if a.old_.None? {
      return;
    }
    var kept: set<string> := {};
    var news := if a.new_.Some? then a.new_.value.finalizers else [];
    for i := 0 to |news|
      invariant forall f :: f in kept <==> f in news[..i]
    {
      kept := kept + {news[i]};
    }
    var olds := a.old_.value.finalizers;
    for i := 0 to |olds|
      invariant out == Dropped(olds[..i], news)
    {
      assert olds[..i + 1][..i] == olds[..i];
      if olds[i] !in kept {
        out := out + [olds[i]];
      }
    }
    assert olds[..|olds|] == olds;
  }
}
